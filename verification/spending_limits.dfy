/** When the discipline the caps rest on holds, and what happens without it.

    A call's own allowance counts every payload the call has sent, but other
    calls see only what its reservation shows, which is the last amount it
    signed. A payment fetch that signs a second payload therefore hides the
    first one from calls made at the same time. */
module SpendingLimits {
  import opened Types
  import opened Validity
  import opened Ledger
  import opened Spending
  import opened SpendingSafety

  // ---- ways of calling that are always disciplined --------------------------------

  /** What a caller can keep to. Careful is the widest: a call that has sent a payload
      signs another one only while no other call is open, and no call is begun while
      an open one has sent more than its reservation shows. */
  datatype Style = OnePayloadEach | OneCallAtATime | Careful

  predicate Alone(w: World, i: int) {
    forall j :: 0 <= j < |w.calls| && j != i ==> !w.calls[j].open
  }

  predicate AllShown(w: World) {
    forall i :: 0 <= i < |w.calls| ==> Shown(w.calls[i])
  }

  predicate Follows(style: Style, w: World, step: Step) {
    && (step.Tick? ==> Disciplined(w, step))
    && match style
       case OnePayloadEach => step.Sign? ==> step.call < |w.calls| && w.calls[step.call].sent == []
       case OneCallAtATime => step.Begin? ==> Alone(w, -1)
       case Careful =>
         && (step.Sign? ==> step.call < |w.calls| && (w.calls[step.call].sent == [] || Alone(w, step.call)))
         && (step.Begin? ==> AllShown(w))
  }

  predicate StyledRun(style: Style, w: World, steps: seq<Step>)
    requires Runs(w, steps)
    decreases |steps|
  {
    steps == [] || (Follows(style, w, steps[0]) && StyledRun(style, Next(w, steps[0]), steps[1..]))
  }

  /** The call shows the others all it has sent. */
  predicate Shown(c: Call) {
    c.open && |c.rows| == 1 ==>
      && (!c.signing.Idle? ==> c.sent == [] && c.rows[0].usd == c.signing.usd)
      && SentSum(c.sent) <= c.rows[0].usd
  }

  /** The call has sent nothing, or one payload, which its reservation shows. */
  predicate SentAtMostOne(c: Call) {
    c.open && |c.rows| == 1 ==>
      && (!c.signing.Idle? ==> c.sent == [] && c.rows[0].usd == c.signing.usd)
      && (c.sent == [] || (|c.sent| == 1 && c.signing.Idle? && c.rows[0].usd == c.sent[0].usd))
  }

  predicate InStyle(style: Style, w: World) {
    match style
    case OnePayloadEach => forall i :: 0 <= i < |w.calls| ==> SentAtMostOne(w.calls[i])
    case OneCallAtATime => forall i, j :: 0 <= i < j < |w.calls| ==> !(w.calls[i].open && w.calls[j].open)
    case Careful => forall i :: 0 <= i < |w.calls| && w.calls[i].open ==> Shown(w.calls[i]) || Alone(w, i)
  }

  /** The call a step is about; steps that are about no call of the past give -1. */
  function Subject(step: Step): int {
    match step
    case Tick(_) => -1
    case Sweep => -1
    case Begin(_, _, _) => -1
    case Sign(i, _) => i
    case Check(i, _, _) => i
    case Abort(i) => i
    case Record(i) => i
    case Finish(i, _, _) => i
    case FinishCredits(i, _) => i
    case GatewaySend(i, _, _, _) => i
    case GatewayDrop(i) => i
    case GatewayResolve(i, _) => i
  }

  /** A step changes its own call only, and opens none but a new one. */
  lemma StepsAreLocal(w: World, step: Step)
    requires Enabled(w, step)
    ensures var v := Next(w, step);
            && |v.calls| == |w.calls| + (if step.Begin? then 1 else 0)
            && (forall j :: 0 <= j < |w.calls| && j != Subject(step) ==> v.calls[j] == w.calls[j])
            && (Subject(step) >= 0 ==>
                Subject(step) < |w.calls| && (v.calls[Subject(step)].open ==> w.calls[Subject(step)].open))
  {
  }

  lemma OneIsShown(c: Call)
    requires SentAtMostOne(c)
    ensures Shown(c)
  {
    if |c.sent| == 1 { assert c.sent[1..] == []; }
  }

  /** The other two ways are careful ones. */
  lemma StyleIsCareful(style: Style, w: World, step: Step)
    requires InStyle(style, w) && Enabled(w, step) && Follows(style, w, step)
    ensures InStyle(Careful, w) && Follows(Careful, w, step)
  {
    if style.OnePayloadEach? {
      forall i | 0 <= i < |w.calls| ensures Shown(w.calls[i]) { OneIsShown(w.calls[i]); }
    }
  }

  lemma ShownHidesNothing(c: Call)
    requires Shown(c)
    ensures !Hides(c)
  {
  }

  lemma CarefulIsDisciplined(w: World, step: Step)
    requires InStyle(Careful, w) && Enabled(w, step) && Follows(Careful, w, step)
    ensures Disciplined(w, step)
  {
    forall j | 0 <= j < |w.calls| && (step.Begin? || (step.Sign? && j != step.call)) ensures !Hides(w.calls[j]) {
      if w.calls[j].open { ShownHidesNothing(w.calls[j]); }
    }
  }

  /** A call that has sent nothing, or signs nothing more, goes on showing what it sends. */
  lemma ShownKept(w: World, step: Step)
    requires 0 <= Subject(step) < |w.calls| && Enabled(w, step) && Shown(w.calls[Subject(step)])
    requires step.Sign? ==> w.calls[step.call].sent == []
    ensures Subject(step) < |Next(w, step).calls| ==> Shown(Next(w, step).calls[Subject(step)])
  {
    if step.Record? {
      var c := w.calls[step.call];
      SentSumPush(c.sent, Next(w, step).calls[step.call].sent[|c.sent|]);
    }
  }

  lemma CarefulKept(w: World, step: Step)
    requires InStyle(Careful, w) && Enabled(w, step) && Follows(Careful, w, step)
    ensures InStyle(Careful, Next(w, step))
  {
    var v := Next(w, step);
    StepsAreLocal(w, step);
    forall i | 0 <= i < |v.calls| && v.calls[i].open ensures Shown(v.calls[i]) || Alone(v, i) {
      if i == Subject(step) && Shown(w.calls[i]) && (step.Sign? ==> w.calls[i].sent == []) { ShownKept(w, step); }
    }
  }

  lemma OneKept(w: World, step: Step)
    requires 0 <= Subject(step) < |w.calls| && Enabled(w, step) && Follows(OnePayloadEach, w, step)
    requires SentAtMostOne(w.calls[Subject(step)])
    ensures Subject(step) < |Next(w, step).calls| ==> SentAtMostOne(Next(w, step).calls[Subject(step)])
  {
  }

  lemma StyledStep(style: Style, w: World, step: Step)
    requires InStyle(style, w) && Enabled(w, step) && Follows(style, w, step)
    ensures Disciplined(w, step) && InStyle(style, Next(w, step))
  {
    var v := Next(w, step);
    StyleIsCareful(style, w, step);
    CarefulIsDisciplined(w, step);
    if style.Careful? {
      CarefulKept(w, step);
    } else {
      StepsAreLocal(w, step);
      if style.OnePayloadEach? {
        if Subject(step) >= 0 { OneKept(w, step); }
        forall i | 0 <= i < |v.calls| ensures SentAtMostOne(v.calls[i]) {
          if i < |w.calls| { assert SentAtMostOne(w.calls[i]); }
        }
      }
    }
  }

  lemma {:induction false} StyledIsDisciplined(style: Style, w: World, steps: seq<Step>)
    requires InStyle(style, w) && Runs(w, steps) && StyledRun(style, w, steps)
    ensures DisciplinedRun(w, steps) && InStyle(style, After(w, steps))
    decreases |steps|
  {
    if steps == [] {
    } else {
      StyledStep(style, w, steps[0]);
      StyledIsDisciplined(style, Next(w, steps[0]), steps[1..]);
    }
  }

  /** Overlapping calls that send one payload each, calls made one after the other
      that send as many as they like, and any careful mixture keep every cap. */
  lemma StyledExposureBound(style: Style, now: nat, caps: Caps, steps: seq<Step>, host: string)
    requires Runs(Start(now, caps), steps) && StyledRun(style, Start(now, caps), steps)
    ensures var w := After(Start(now, caps), steps);
            && Within(caps.daily, Sum(Exposure, w.calls, Everywhere, w.now))
            && Within(caps.perHost, Sum(Exposure, w.calls, OnHost(host), w.now))
            && (AllDeliveredExpire(w) ==>
                  && Within(caps.daily, Sum(Takeable, w.calls, Everywhere, w.now))
                  && Within(caps.perHost, Sum(Takeable, w.calls, OnHost(host), w.now)))
  {
    StyledIsDisciplined(style, Start(now, caps), steps);
    ExposureBound(now, caps, steps, host);
  }

  predicate Logged(w: World, id: RowId, usd: nat) {
    exists e :: e in w.log && e.id == id && e.usd == usd && CountsAt(e, w.now)
  }

  /** With one payload for each call: from its send until it is delivered or can no
      longer be redeemed, a payment has an entry in the log, of exactly its amount,
      that counts. While its call is open it has one whatever it says of its expiry. */
  lemma SentIsLogged(now: nat, caps: Caps, steps: seq<Step>, i: nat, k: nat)
    requires Runs(Start(now, caps), steps) && StyledRun(OnePayloadEach, Start(now, caps), steps)
    requires i < |After(Start(now, caps), steps).calls| && k < |After(Start(now, caps), steps).calls[i].sent|
    ensures var w := After(Start(now, caps), steps);
            var c := w.calls[i];
            && (c.open ==> Logged(w, RowId(i, k), c.sent[k].usd))
            && (!c.open ==> k < |c.fates|)
            && (!c.open && !c.fates[k].Delivered? && Redeemable(c.sent[k], w.now) ==>
                Logged(w, RowId(i, k), c.sent[k].usd))
  {
    StyledIsDisciplined(OnePayloadEach, Start(now, caps), steps);
    RunKeeps(Start(now, caps), steps);
    var w := After(Start(now, caps), steps);
    var c := w.calls[i];
    if c.open {
      OpenRowIsLogged(w, i);
      assert SentAtMostOne(c) && c.rows[0] in w.log;
    } else {
      RedeemableIsLogged(now, caps, steps, i);
      assert !c.fates[k].Delivered? && Redeemable(c.sent[k], w.now) ==> Exposed(c.sent[k], c.fates[k], c.ts, w.now);
    }
  }

  /** In any careful run: while another call is open, the reservation of a call counts
      and shows at least all the call has sent. */
  lemma SentIsShown(now: nat, caps: Caps, steps: seq<Step>, i: nat, j: nat)
    requires Runs(Start(now, caps), steps) && StyledRun(Careful, Start(now, caps), steps) && i != j
    requires var w := After(Start(now, caps), steps);
             i < |w.calls| && j < |w.calls| && w.calls[i].open && w.calls[j].open
    ensures var w := After(Start(now, caps), steps);
            i < |w.calls| &&
            exists e :: e in w.log && e.id == RowId(i, 0) && CountsAt(e, w.now) && SentSum(w.calls[i].sent) <= e.usd
  {
    StyledIsDisciplined(Careful, Start(now, caps), steps);
    RunKeeps(Start(now, caps), steps);
    var w := After(Start(now, caps), steps);
    assert !Alone(w, i);
    OpenRowIsLogged(w, i);
    assert Shown(w.calls[i]) && w.calls[i].rows[0] in w.log;
  }

  // ---- exactly when an admission needs it -----------------------------------------

  lemma HiddenCosts(c: Call, i: nat, w: World, s: Scope)
    requires CallOk(c, i, w.now, w.caps) && InScope(c.host, s)
    ensures Value(Committed, c, s, w.now) > Value(Recorded, c, s, w.now) <==> Hides(c)
  {
    if c.open { RowTotal(c, s, w.now); }
  }

  lemma {:induction false} NoisySums(calls: seq<Call>, i: int, j: int, s: Scope, t: int)
    requires 0 <= j < |calls| && j != i && Value(Committed, calls[j], s, t) > Value(Recorded, calls[j], s, t)
    ensures Sum(Committed, calls, s, t) - Sum(Recorded, calls, s, t)
            > if 0 <= i < |calls| then Value(Committed, calls[i], s, t) - Value(Recorded, calls[i], s, t) else 0
  {
    if j == 0 {
      SumLower(calls[1..], s, t);
      if 0 < i < |calls| { OneLower(calls[1..], i - 1, s, t); }
    } else {
      NoisySums(calls[1..], i - 1, j - 1, s, t);
    }
  }

  lemma {:induction false} OneLower(calls: seq<Call>, i: nat, s: Scope, t: int)
    requires i < |calls|
    ensures Sum(Committed, calls, s, t) - Sum(Recorded, calls, s, t)
            >= Value(Committed, calls[i], s, t) - Value(Recorded, calls[i], s, t)
  {
    if i == 0 { SumLower(calls[1..], s, t); } else { OneLower(calls[1..], i - 1, s, t); }
  }

  lemma NoisyTotals(w: World, i: int, s: Scope)
    requires CallsOk(w) && Balanced(w) && !QuietOn(w, i, s)
    ensures Sum(Committed, w.calls, s, w.now) - Total(w.log, s, w.now)
            > if 0 <= i < |w.calls| then Value(Committed, w.calls[i], s, w.now) - Value(Recorded, w.calls[i], s, w.now)
              else 0
  {
    var j :| 0 <= j < |w.calls| && j != i && InScope(w.calls[j].host, s) && Hides(w.calls[j]);
    HiddenCosts(w.calls[j], j, w, s);
    NoisySums(w.calls, i, j, s, w.now);
  }

  /** The rolling cap on a scope: the daily one, or the one on a host. */
  function CapOn(caps: Caps, s: Scope): Option<nat> {
    if s.Everywhere? then caps.daily else caps.perHost
  }

  /** Where a rolling cap is what limits call `i`, every amount its allowance admits
      keeps that cap if and only if no other call it covers hides a payload. */
  lemma SignKeepsCapExactly(w: World, i: nat, s: Scope, cap: nat, left: nat)
    requires CallsOk(w) && Linked(w) && Balanced(w) && IsOpen(w, i, Guarded) && w.calls[i].signing.Idle?
    requires InScope(w.calls[i].host, s) && CapOn(w.caps, s) == Some(cap) && AllowanceOf(w, i).cap == Some(left)
    requires left == cap - SentSum(w.calls[i].sent) - TotalExcept(w.log, Some(RowId(i, 0)), s, w.now)
    ensures (forall usd: nat :: Enabled(w, Sign(i, usd)) ==>
               Sum(Committed, Next(w, Sign(i, usd)).calls, s, w.now) <= cap)
            <==> QuietOn(w, i, s)
  {
    if QuietOn(w, i, s) {
      forall usd: nat | Enabled(w, Sign(i, usd))
        ensures Sum(Committed, Next(w, Sign(i, usd)).calls, s, w.now) <= cap
      {
        SignedCommitment(w, i, usd, s);
      }
    } else {
      assert Enabled(w, Sign(i, left));
      SigningTooMuch(w, i, s, cap, left);
    }
  }

  lemma SigningTooMuch(w: World, i: nat, s: Scope, cap: nat, left: nat)
    requires CallsOk(w) && Linked(w) && Balanced(w) && Enabled(w, Sign(i, left)) && InScope(w.calls[i].host, s)
    requires left == cap - SentSum(w.calls[i].sent) - TotalExcept(w.log, Some(RowId(i, 0)), s, w.now)
    requires !QuietOn(w, i, s)
    ensures Sum(Committed, Next(w, Sign(i, left)).calls, s, w.now) > cap
  {
    NoisyTotals(w, i, s);
    SumUpdate(Committed, w.calls, i, Next(w, Sign(i, left)).calls[i], s, w.now);
    RowTotal(w.calls[i], s, w.now);
    OpenRowIsLogged(w, i);
    var j := FindRow(w, i);
    ExceptOwn(w.log, j, s, w.now);
  }

  lemma BegunCommitment(w: World, host: string, usd: nat, s: Scope)
    requires InScope(host, s) && Enabled(w, Begin(Guarded, host, usd))
    ensures Sum(Committed, Next(w, Begin(Guarded, host, usd)).calls, s, w.now)
            == Sum(Committed, w.calls, s, w.now) + usd
    ensures Within(CapOn(w.caps, s), Total(w.log, s, w.now) + usd)
  {
    PruneKeepsTotals(w.log, Everywhere, w.now, w.now);
    PruneKeepsTotals(w.log, OnHost(host), w.now, w.now);
    RefusalMeaning(Prune(w.log, w.now), w.caps, host, usd, w.now);
    var c := Next(w, Begin(Guarded, host, usd)).calls[|w.calls|];
    SumPush(Committed, w.calls, c, s, w.now);
    RowTotal(c, s, w.now);
  }

  /** The same for a new reservation: what the cap accepts keeps it if and only if no
      call it covers hides a payload. */
  lemma BeginKeepsCapExactly(w: World, host: string, s: Scope, cap: nat, left: nat)
    requires CallsOk(w) && Balanced(w) && InScope(host, s) && CapOn(w.caps, s) == Some(cap)
    requires left == cap - Total(w.log, s, w.now) && Within(w.caps.perCall, left)
    requires Within(w.caps.daily, Total(w.log, Everywhere, w.now) + left)
    requires Within(w.caps.perHost, Total(w.log, OnHost(host), w.now) + left)
    ensures (forall usd: nat :: Enabled(w, Begin(Guarded, host, usd)) ==>
               Sum(Committed, Next(w, Begin(Guarded, host, usd)).calls, s, w.now) <= cap)
            <==> QuietOn(w, -1, s)
  {
    forall usd: nat | Enabled(w, Begin(Guarded, host, usd))
      ensures Sum(Committed, Next(w, Begin(Guarded, host, usd)).calls, s, w.now)
              == Sum(Committed, w.calls, s, w.now) + usd
      ensures usd <= left
    {
      BegunCommitment(w, host, usd, s);
    }
    if QuietOn(w, -1, s) {
      QuietTotals(w, -1, s);
    } else {
      NoisyTotals(w, -1, s);
      PruneKeepsTotals(w.log, Everywhere, w.now, w.now);
      PruneKeepsTotals(w.log, OnHost(host), w.now, w.now);
      RefusalMeaning(Prune(w.log, w.now), w.caps, host, left, w.now);
      assert Enabled(w, Begin(Guarded, host, left));
    }
  }

  // ---- and what happens without it --------------------------------------------------

  /** A payload of 1 that expires at `e`. */
  function Unit(e: nat): Sent {
    Sent(1, At(e), Some(e * 1000 + HOLD_SLACK_MS))
  }

  const UNIT := Unit(300)

  function PayUnit(i: nat, e: nat): seq<Step> {
    [Sign(i, 1), Check(i, At(e), true), Record(i)]
  }

  /** One call sends two payloads of 1; under a daily cap of 2 another call is
      then still let in for 1, and sellers hold 3. */
  const OVERLAP: seq<Step> :=
    [Begin(Guarded, "h", 1)]
    + (PayUnit(0, 300) + (PayUnit(0, 300) + ([Begin(Guarded, "h", 1)] + (PayUnit(1, 300) + []))))

  lemma FirstStep(w: World, step: Step, rest: seq<Step>)
    requires Enabled(w, step) && Runs(Next(w, step), rest)
    ensures Runs(w, [step] + rest) && After(w, [step] + rest) == After(Next(w, step), rest)
    ensures Disciplined(w, step) && DisciplinedRun(Next(w, step), rest) ==> DisciplinedRun(w, [step] + rest)
  {
    assert ([step] + rest)[1..] == rest;
  }

  function WithUnit(w: World, i: nat, e: nat): World
    requires i < |w.calls|
  {
    WithCall(w, i, w.calls[i].(sent := w.calls[i].sent + [Unit(e)]), w.log)
  }

  /** A call with a reservation of one unit may sign one. */
  predicate MayPayUnit(w: World, i: nat) {
    && IsOpen(w, i, Guarded) && w.calls[i].signing.Idle?
    && w.calls[i].rows[0].usd == 1 && w.calls[i].rows[0].id == RowId(i, 0)
    && (forall e :: e in w.log && e.id == RowId(i, 0) ==> e == w.calls[i].rows[0])
    && AllowanceOf(w, i).Allows(1)
  }

  lemma UnitSteps(w: World, i: nat, e: nat)
    requires MayPayUnit(w, i) && e * 1000 <= w.now + MAX_VALIDITY_SECONDS * 1000
    ensures Enabled(w, Sign(i, 1))
    ensures var w1 := Next(w, Sign(i, 1));
            && Enabled(w1, Check(i, At(e), true)) && Enabled(Next(w1, Check(i, At(e), true)), Record(i))
            && Next(Next(w1, Check(i, At(e), true)), Record(i)) == WithUnit(w, i, e)
  {
    var c := w.calls[i];
    assert Replace(w.log, c.rows[0]) == w.log;
    assert c.rows == [c.rows[0]];
    assert Next(w, Sign(i, 1)) == WithCall(w, i, c.(signing := Signed(1)), w.log);
  }

  /** Paying one unit on a reservation of one unit only adds to what was sent. */
  lemma UnitPaid(w: World, i: nat, e: nat, rest: seq<Step>)
    requires MayPayUnit(w, i) && e * 1000 <= w.now + MAX_VALIDITY_SECONDS * 1000
    requires Runs(WithUnit(w, i, e), rest)
    ensures Runs(w, PayUnit(i, e) + rest)
    ensures After(w, PayUnit(i, e) + rest) == After(WithUnit(w, i, e), rest)
    ensures QuietBut(w, i) && DisciplinedRun(WithUnit(w, i, e), rest) ==> DisciplinedRun(w, PayUnit(i, e) + rest)
  {
    UnitSteps(w, i, e);
    var w1 := Next(w, Sign(i, 1));
    var w2 := Next(w1, Check(i, At(e), true));
    FirstStep(w2, Record(i), rest);
    FirstStep(w1, Check(i, At(e), true), [Record(i)] + rest);
    FirstStep(w, Sign(i, 1), [Check(i, At(e), true)] + ([Record(i)] + rest));
    assert [Sign(i, 1)] + ([Check(i, At(e), true)] + ([Record(i)] + rest)) == PayUnit(i, e) + rest;
  }

  function UnitCall(i: nat, sent: seq<Sent>): Call {
    Call(Guarded, "h", 0, true, Idle, sent, [], [Row(RowId(i, 0), 0, "h", 1, Reserved, None, false)], None)
  }

  function Units(calls: seq<Call>): World
    requires forall i :: 0 <= i < |calls| ==> calls[i].rows != []
  {
    World(0, Caps(None, Some(2), None), seq(|calls|, i requires 0 <= i < |calls| => calls[i].rows[0]), calls)
  }

  /** With one call made, its row is all the log holds. */
  lemma LoneCall(sent: seq<Sent>)
    requires SentSum(sent) <= 1
    ensures var w := Units([UnitCall(0, sent)]);
            && AllowanceOf(w, 0).Allows(1) && Prune(w.log, 0) == w.log && Total(w.log, Everywhere, 0) == 1
  {
    var w := Units([UnitCall(0, sent)]);
    assert w.log == [UnitCall(0, sent).rows[0]] && w.log[1..] == [];
    AllowanceMeaning(w.log, w.caps, "h", Some(RowId(0, 0)), SentSum(sent), 0, 1);
  }

  lemma FirstCallPays(rest: seq<Step>)
    requires Runs(Units([UnitCall(0, [UNIT, UNIT])]), rest)
    ensures Runs(Units([UnitCall(0, [])]), PayUnit(0, 300) + (PayUnit(0, 300) + rest))
    ensures After(Units([UnitCall(0, [])]), PayUnit(0, 300) + (PayUnit(0, 300) + rest))
            == After(Units([UnitCall(0, [UNIT, UNIT])]), rest)
  {
    var w0, w1, w2 := Units([UnitCall(0, [])]), Units([UnitCall(0, [UNIT])]), Units([UnitCall(0, [UNIT, UNIT])]);
    LoneCall([]);
    assert [UNIT][1..] == [] && SentSum([UNIT]) == 1;
    LoneCall([UNIT]);
    assert [UNIT] + [UNIT] == [UNIT, UNIT] && WithUnit(w1, 0, 300) == w2;
    UnitPaid(w1, 0, 300, rest);
    assert [] + [UNIT] == [UNIT] && WithUnit(w0, 0, 300) == w1;
    UnitPaid(w0, 0, 300, PayUnit(0, 300) + rest);
  }

  lemma SecondCallPays()
    ensures Runs(Units([UnitCall(0, [UNIT, UNIT]), UnitCall(1, [])]), PayUnit(1, 300) + [])
    ensures After(Units([UnitCall(0, [UNIT, UNIT]), UnitCall(1, [])]), PayUnit(1, 300) + [])
            == Units([UnitCall(0, [UNIT, UNIT]), UnitCall(1, [UNIT])])
  {
    var w := Units([UnitCall(0, [UNIT, UNIT]), UnitCall(1, [])]);
    var end := Units([UnitCall(0, [UNIT, UNIT]), UnitCall(1, [UNIT])]);
    assert [] + [UNIT] == [UNIT] && WithUnit(w, 1, 300) == end;
    var first, own := UnitCall(0, []).rows[0], UnitCall(1, []).rows[0];
    assert w.log == [first, own] && w.log[1..] == [own] && w.log[1..][1..] == [];
    AllowanceMeaning(w.log, w.caps, "h", Some(RowId(1, 0)), 0, 0, 1);
    assert After(end, []) == end;
    UnitPaid(w, 1, 300, []);
  }

  lemma OverlapRuns()
    ensures Runs(Start(0, Caps(None, Some(2), None)), OVERLAP)
    ensures After(Start(0, Caps(None, Some(2), None)), OVERLAP)
            == Units([UnitCall(0, [UNIT, UNIT]), UnitCall(1, [UNIT])])
  {
    var start := Start(0, Caps(None, Some(2), None));
    var begin := Begin(Guarded, "h", 1);
    var w := Units([UnitCall(0, [UNIT, UNIT])]);
    SecondCallPays();
    LoneCall([]);
    assert w.log == Units([UnitCall(0, [])]).log;
    assert Next(w, begin) == Units([UnitCall(0, [UNIT, UNIT]), UnitCall(1, [])]);
    FirstStep(w, begin, PayUnit(1, 300) + []);
    FirstCallPays([begin] + (PayUnit(1, 300) + []));
    assert Next(start, begin) == Units([UnitCall(0, [])]);
    FirstStep(start, begin, PayUnit(0, 300) + (PayUnit(0, 300) + ([begin] + (PayUnit(1, 300) + []))));
  }

  lemma OverlapBreaksTheCap()
    ensures Runs(Start(0, Caps(None, Some(2), None)), OVERLAP)
    ensures var w := After(Start(0, Caps(None, Some(2), None)), OVERLAP);
            Sum(Exposure, w.calls, Everywhere, w.now) == 3 && !Within(w.caps.daily, 3)
  {
    OverlapRuns();
    var a, b := UnitCall(0, [UNIT, UNIT]), UnitCall(1, [UNIT]);
    assert [UNIT, UNIT][1..] == [UNIT] && [UNIT][1..] == [];
    assert SentSum([UNIT]) == 1 && SentSum([UNIT, UNIT]) == 2;
    assert [a, b][1..] == [b] && [b][1..] == [];
    assert Sum(Exposure, [b], Everywhere, 0) == 1;
  }
}
