/** The rolling window the caps count over runs from a payment's reservation. What
    that gives for a window that runs from its answer, and how far it goes. */
module SpendingWindow {
  import opened Types
  import opened Validity
  import opened Ledger
  import opened Spending
  import opened SpendingSafety
  import opened SpendingLimits

  /** Every answer arrived within `d` of its call's reservation. */
  predicate AnsweredWithin(w: World, d: nat) {
    forall i :: 0 <= i < |w.calls| && w.calls[i].ended.Some? ==> w.calls[i].ended.value <= w.calls[i].ts + d
  }

  predicate EndedBy(ended: Option<nat>, end: int) {
    ended.Some? ==> ended.value <= end
  }

  /** What delivery is bounded by when dated by the reservation instead. */
  function Bound(taken: bool): Measure {
    if taken then Exposure else Takeable
  }

  lemma {:induction false} AnsweredPayments(sent: seq<Sent>, fates: seq<Fate>, ts: int, ended: Option<nat>, d: nat,
                                            taken: bool, now: int)
    requires |sent| == |fates| && EndedBy(ended, ts + d)
    ensures AnsweredSum(sent, fates, ts, ended, SPEND_WINDOW_MS - d, taken, now)
            <= if taken then ExposedSum(sent, fates, ts, now) else TakeableSum(sent, fates, ts, now)
  {
    if sent == [] {
    } else {
      AnsweredPayments(sent[1..], fates[1..], ts, ended, d, taken, now);
    }
  }

  lemma {:induction false} AnsweredRowsCount(rows: seq<Row<RowId>>, ts: int, ended: Option<nat>, d: nat, s: Scope,
                                             now: int)
    requires EndedBy(ended, ts + d) && forall k :: 0 <= k < |rows| ==> rows[k].ts == ts
    ensures AnsweredRows(rows, ended, SPEND_WINDOW_MS - d, s, now) <= Total(rows, s, now)
  {
    if rows == [] {
    } else {
      AnsweredRowsCount(rows[1..], ts, ended, d, s, now);
    }
  }

  lemma AnsweredWeighsLess(c: Call, i: nat, w: World, d: nat, taken: bool, s: Scope)
    requires CallOk(c, i, w.now, w.caps) && EndedBy(c.ended, c.ts + d)
    ensures Value(ByAnswer(SPEND_WINDOW_MS - d, taken), c, s, w.now) <= Value(Bound(taken), c, s, w.now)
  {
    AnsweredRowsCount(c.rows, c.ts, c.ended, d, s, w.now);
    if |c.sent| == |c.fates| { AnsweredPayments(c.sent, c.fates, c.ts, c.ended, d, taken, w.now); }
  }

  lemma AnsweredWithinBound(w: World, d: nat, taken: bool, s: Scope)
    requires CallsOk(w) && AnsweredWithin(w, d)
    ensures Sum(ByAnswer(SPEND_WINDOW_MS - d, taken), w.calls, s, w.now) <= Sum(Bound(taken), w.calls, s, w.now)
  {
    var m := ByAnswer(SPEND_WINDOW_MS - d, taken);
    forall j | 0 <= j < |w.calls| ensures Value(m, w.calls[j], s, w.now) <= Value(Bound(taken), w.calls[j], s, w.now) {
      AnsweredWeighsLess(w.calls[j], j, w, d, taken, s);
    }
    WeighsLess(m, Bound(taken), w.calls, s, w.now);
  }

  /** If every answer arrives within `d` of its call's reservation, then what was
      answered in the last 24 h less `d`, and what sellers can still take, stay within
      the rolling caps, over every disciplined run: of the payments that were not
      delivered, and of those that were too if each expires in its window. */
  lemma AnsweredBound(now: nat, caps: Caps, steps: seq<Step>, d: nat, taken: bool, host: string)
    requires Runs(Start(now, caps), steps) && DisciplinedRun(Start(now, caps), steps)
    requires AnsweredWithin(After(Start(now, caps), steps), d)
    requires taken || AllDeliveredExpire(After(Start(now, caps), steps))
    ensures var w := After(Start(now, caps), steps);
            var m := ByAnswer(SPEND_WINDOW_MS - d, taken);
            && Within(caps.daily, Sum(m, w.calls, Everywhere, w.now))
            && Within(caps.perHost, Sum(m, w.calls, OnHost(host), w.now))
  {
    RunKeeps(Start(now, caps), steps);
    ExposureBound(now, caps, steps, host);
    AnsweredWithinBound(After(Start(now, caps), steps), d, taken, Everywhere);
    AnsweredWithinBound(After(Start(now, caps), steps), d, taken, OnHost(host));
  }

  // ---- and not a millisecond more ------------------------------------------------------

  const ONE_A_DAY := Caps(None, Some(1), None)

  function UnitRow(i: nat, ts: nat, state: RowState): Row<RowId> {
    Row(RowId(i, 0), ts, "h", 1, state, None, false)
  }

  function BegunUnit(i: nat, ts: nat, sent: seq<Sent>): Call {
    Call(Guarded, "h", ts, true, Idle, sent, [], [UnitRow(i, ts, Reserved)], None)
  }

  function AnsweredUnit(i: nat, ts: nat, e: nat, at: nat): Call {
    Call(Guarded, "h", ts, false, Idle, [Unit(e)], [Delivered], [UnitRow(i, ts, Settled)], Some(at))
  }

  /** Nothing is open and nothing counts any more. */
  predicate Idling(w: World) {
    w.caps == ONE_A_DAY && Prune(w.log, w.now) == [] && forall j :: 0 <= j < |w.calls| ==> !w.calls[j].open
  }

  /** A payment of 1, reserved now and answered `d` later. */
  function PayFor(w: World, e: nat, d: nat, rest: seq<Step>): seq<Step> {
    [Begin(Guarded, "h", 1)] + (PayUnit(|w.calls|, e) + ([Tick(w.now + d)] + ([Finish(|w.calls|, true, false)] + rest)))
  }

  function Begun(w: World, sent: seq<Sent>): World {
    w.(log := [UnitRow(|w.calls|, w.now, Reserved)], calls := w.calls + [BegunUnit(|w.calls|, w.now, sent)])
  }

  function PaidFor(w: World, e: nat, d: nat): World {
    w.(now := w.now + d, log := [UnitRow(|w.calls|, w.now, Settled)],
       calls := w.calls + [AnsweredUnit(|w.calls|, w.now, e, w.now + d)])
  }

  lemma BeginsUnit(w: World)
    requires Idling(w)
    ensures Enabled(w, Begin(Guarded, "h", 1)) && Disciplined(w, Begin(Guarded, "h", 1))
    ensures Next(w, Begin(Guarded, "h", 1)) == Begun(w, [])
    ensures MayPayUnit(Begun(w, []), |w.calls|) && QuietBut(Begun(w, []), |w.calls|)
  {
    RefusalMeaning(Prune(w.log, w.now), w.caps, "h", 1, w.now);
    var v := Begun(w, []);
    assert v.log[1..] == [];
    AllowanceMeaning(v.log, v.caps, "h", Some(RowId(|w.calls|, 0)), 0, v.now, 1);
  }

  lemma FinishesUnit(w: World, e: nat, d: nat)
    requires Idling(w) && d <= SPEND_WINDOW_MS
    ensures var v := Begun(w, [Unit(e)]);
            && Enabled(v, Tick(w.now + d)) && Disciplined(v, Tick(w.now + d))
            && Enabled(v.(now := w.now + d), Finish(|w.calls|, true, false))
            && Next(v.(now := w.now + d), Finish(|w.calls|, true, false)) == PaidFor(w, e, d)
  {
    var v, i := Begun(w, [Unit(e)]).(now := w.now + d), |w.calls|;
    var booked := Hold(v, i, PaymentsOf([Unit(e)]), true, false);
    assert booked == [UnitRow(i, w.now, Settled)];
    HoldOne(v.log, booked[0]);
    assert Fates(1, true, false) == [Delivered];
    assert Next(v, Finish(i, true, false)).calls == PaidFor(w, e, d).calls;
  }

  lemma EndsFor(w: World, e: nat, d: nat, rest: seq<Step>)
    requires Idling(w) && d <= SPEND_WINDOW_MS
    requires Runs(PaidFor(w, e, d), rest) && DisciplinedRun(PaidFor(w, e, d), rest)
    ensures var v := Begun(w, [Unit(e)]);
            var steps := [Tick(w.now + d)] + ([Finish(|w.calls|, true, false)] + rest);
            Runs(v, steps) && DisciplinedRun(v, steps) && After(v, steps) == After(PaidFor(w, e, d), rest)
  {
    var i, v := |w.calls|, Begun(w, [Unit(e)]);
    FinishesUnit(w, e, d);
    FirstStep(v.(now := w.now + d), Finish(i, true, false), rest);
    FirstStep(v, Tick(w.now + d), [Finish(i, true, false)] + rest);
  }

  lemma OpensUnit(w: World, rest: seq<Step>)
    requires Idling(w) && Runs(Begun(w, []), rest) && DisciplinedRun(Begun(w, []), rest)
    ensures var steps := [Begin(Guarded, "h", 1)] + rest;
            Runs(w, steps) && DisciplinedRun(w, steps) && After(w, steps) == After(Begun(w, []), rest)
  {
    BeginsUnit(w);
    FirstStep(w, Begin(Guarded, "h", 1), rest);
  }

  lemma SendsUnit(w: World, e: nat, rest: seq<Step>)
    requires Idling(w) && e * 1000 <= w.now + MAX_VALIDITY_SECONDS * 1000
    requires Runs(Begun(w, [Unit(e)]), rest) && DisciplinedRun(Begun(w, [Unit(e)]), rest)
    ensures var v, steps := Begun(w, []), PayUnit(|w.calls|, e) + rest;
            Runs(v, steps) && DisciplinedRun(v, steps) && After(v, steps) == After(Begun(w, [Unit(e)]), rest)
  {
    BeginsUnit(w);
    var v := Begun(w, []);
    assert [] + [Unit(e)] == [Unit(e)];
    assert WithUnit(v, |w.calls|, e).calls == Begun(w, [Unit(e)]).calls;
    UnitPaid(v, |w.calls|, e, rest);
  }

  lemma PaysFor(w: World, e: nat, d: nat, rest: seq<Step>)
    requires Idling(w) && d <= SPEND_WINDOW_MS && e * 1000 <= w.now + MAX_VALIDITY_SECONDS * 1000
    requires Runs(PaidFor(w, e, d), rest) && DisciplinedRun(PaidFor(w, e, d), rest)
    ensures Runs(w, PayFor(w, e, d, rest)) && DisciplinedRun(w, PayFor(w, e, d, rest))
    ensures After(w, PayFor(w, e, d, rest)) == After(PaidFor(w, e, d), rest)
  {
    var end := [Tick(w.now + d)] + ([Finish(|w.calls|, true, false)] + rest);
    EndsFor(w, e, d, rest);
    SendsUnit(w, e, end);
    OpensUnit(w, PayUnit(|w.calls|, e) + end);
  }

  const AFTER_WINDOW := SPEND_WINDOW_MS + 1

  /** One payment reserved at 0 and answered at `d`, when its window has just passed. */
  function PassedBy(d: nat): World {
    PaidFor(Start(0, ONE_A_DAY), 300, d).(now := AFTER_WINDOW)
  }

  /** Under a daily cap of 1: that payment, and then at once another, answered at once. */
  function Straddling(d: nat): seq<Step> {
    PayFor(Start(0, ONE_A_DAY), 300, d, [Tick(AFTER_WINDOW)] + PayFor(PassedBy(d), 86_700, 0, []))
  }

  lemma PaysAgain(d: nat)
    requires d <= SPEND_WINDOW_MS
    ensures var w := PassedBy(d);
            && Runs(w, PayFor(w, 86_700, 0, [])) && DisciplinedRun(w, PayFor(w, 86_700, 0, []))
            && After(w, PayFor(w, 86_700, 0, [])) == PaidFor(w, 86_700, 0)
  {
    var w := PassedBy(d);
    assert w.log[1..] == [] && Prune(w.log, w.now) == [];
    PaysFor(w, 86_700, 0, []);
  }

  lemma WindowPasses(d: nat, rest: seq<Step>)
    requires d <= SPEND_WINDOW_MS && Runs(PassedBy(d), rest) && DisciplinedRun(PassedBy(d), rest)
    ensures var w := PaidFor(Start(0, ONE_A_DAY), 300, d);
            && Runs(w, [Tick(AFTER_WINDOW)] + rest) && DisciplinedRun(w, [Tick(AFTER_WINDOW)] + rest)
            && After(w, [Tick(AFTER_WINDOW)] + rest) == After(PassedBy(d), rest)
  {
    FirstStep(PaidFor(Start(0, ONE_A_DAY), 300, d), Tick(AFTER_WINDOW), rest);
  }

  lemma StraddlingRuns(d: nat)
    requires d <= SPEND_WINDOW_MS
    ensures Runs(Start(0, ONE_A_DAY), Straddling(d)) && DisciplinedRun(Start(0, ONE_A_DAY), Straddling(d))
    ensures After(Start(0, ONE_A_DAY), Straddling(d)) == PaidFor(PassedBy(d), 86_700, 0)
  {
    var again := PayFor(PassedBy(d), 86_700, 0, []);
    PaysAgain(d);
    WindowPasses(d, again);
    PaysFor(Start(0, ONE_A_DAY), 300, d, [Tick(AFTER_WINDOW)] + again);
  }

  /** For each `d` up to 24 h the bound is the best there is: answers within `d` of
      their reservations, and one millisecond more than 24 h less `d` holds payments
      of twice the daily cap. With `d` 24 h, two answers one millisecond apart. */
  lemma AnsweredBoundIsTight(d: nat, taken: bool)
    requires d <= SPEND_WINDOW_MS
    ensures Runs(Start(0, ONE_A_DAY), Straddling(d)) && DisciplinedRun(Start(0, ONE_A_DAY), Straddling(d))
    ensures var w := After(Start(0, ONE_A_DAY), Straddling(d));
            && AnsweredWithin(w, d) && AllDeliveredExpire(w)
            && Sum(ByAnswer(SPEND_WINDOW_MS - d + 1, taken), w.calls, Everywhere, w.now) == 2
                 && !Within(w.caps.daily, 2)
  {
    StraddlingRuns(d);
    var m := ByAnswer(SPEND_WINDOW_MS - d + 1, taken);
    var a, b := AnsweredUnit(0, 0, 300, d), AnsweredUnit(1, AFTER_WINDOW, 86_700, AFTER_WINDOW);
    UnitWeighs(a, 300, AFTER_WINDOW, SPEND_WINDOW_MS - d + 1, taken);
    UnitWeighs(b, 86_700, AFTER_WINDOW, SPEND_WINDOW_MS - d + 1, taken);
    assert [a, b][1..] == [b] && [b][1..] == [];
    assert Sum(m, [b], Everywhere, AFTER_WINDOW) == 1;
  }

  lemma UnitWeighs(c: Call, e: nat, now: int, span: int, taken: bool)
    requires c.mode.Guarded? && !c.open && c.sent == [Unit(e)] && c.fates == [Delivered] && Recent(c.ended, span, now)
    ensures Value(ByAnswer(span, taken), c, Everywhere, now) == 1
  {
    var sum := AnsweredSum(c.sent, c.fates, c.ts, c.ended, span, taken, now);
    assert sum == 1 + AnsweredSum(c.sent[1..], c.fates[1..], c.ts, c.ended, span, taken, now);
  }

  // ---- an answer of success need not be a redemption ------------------------------------

  const WEEK_SECONDS := 604_800

  function WeekUnit(at: nat): Sent {
    var e := at / 1000 + WEEK_SECONDS;
    Sent(1, At(e), Some(e * 1000 + HOLD_SLACK_MS))
  }

  /** A Gateway call for 1 that has sent an authorization valid for a week. */
  function WeekSent(i: nat, at: nat): Call {
    Call(Gateway, "h", at, false, Idle, [WeekUnit(at)], [Unknown],
         [Row(RowId(i, 0), at, "h", 1, Held, WeekUnit(at).until, false)], None)
  }

  function WeekDelivered(i: nat, at: nat): Call {
    WeekSent(i, at).(fates := [Delivered], rows := [UnitRow(i, at, Settled)], ended := Some(at))
  }

  function Added(w: World, c: Call): World
    requires c.rows != []
  {
    w.(log := [c.rows[0]], calls := w.calls + [c])
  }

  /** Begun, signed and sent at once. */
  function SendsWeek(w: World, rest: seq<Step>): seq<Step> {
    [Begin(Gateway, "h", 1)] + ([GatewaySend(|w.calls|, 1, w.now, WEEK_SECONDS)] + rest)
  }

  lemma BeginsWeek(w: World)
    requires Idling(w)
    ensures Enabled(w, Begin(Gateway, "h", 1)) && Disciplined(w, Begin(Gateway, "h", 1))
    ensures Next(w, Begin(Gateway, "h", 1)) == Added(w, BegunUnit(|w.calls|, w.now, []).(mode := Gateway))
    ensures forall style: Style :: Follows(style, w, Begin(Gateway, "h", 1))
  {
    RefusalMeaning(Prune(w.log, w.now), w.caps, "h", 1, w.now);
  }

  lemma SignsWeek(w: World)
    ensures var v := Added(w, BegunUnit(|w.calls|, w.now, []).(mode := Gateway));
            var step := GatewaySend(|w.calls|, 1, w.now, WEEK_SECONDS);
            Enabled(v, step) && Next(v, step) == Added(w, WeekSent(|w.calls|, w.now))
  {
    var i := |w.calls|;
    var v := Added(w, BegunUnit(i, w.now, []).(mode := Gateway));
    GatewayHoldIsExact(w.now, WEEK_SECONDS, w.now);
    var booked := Hold(v, i, PaymentsOf([WeekUnit(w.now)]), false, false);
    assert booked == WeekSent(i, w.now).rows;
    HoldOne(v.log, booked[0]);
    assert Next(v, GatewaySend(i, 1, w.now, WEEK_SECONDS)).calls == Added(w, WeekSent(i, w.now)).calls;
  }

  lemma ResolvesWeek(w: World)
    ensures var v := Added(w, WeekSent(|w.calls|, w.now));
            var step := GatewayResolve(|w.calls|, true);
            Enabled(v, step) && Next(v, step) == Added(w, WeekDelivered(|w.calls|, w.now))
  {
    var i := |w.calls|;
    var v := Added(w, WeekSent(i, w.now));
    HoldOne(v.log, UnitRow(i, w.now, Settled));
    assert Next(v, GatewayResolve(i, true)).calls == Added(w, WeekDelivered(i, w.now)).calls;
  }

  lemma FirstStyled(style: Style, w: World, step: Step, rest: seq<Step>)
    requires Enabled(w, step) && Runs(Next(w, step), rest) && StyledRun(style, Next(w, step), rest)
             && Follows(style, w, step)
    ensures Runs(w, [step] + rest) && After(w, [step] + rest) == After(Next(w, step), rest)
    ensures StyledRun(style, w, [step] + rest)
  {
    assert ([step] + rest)[1..] == rest;
  }

  lemma SendsWeekRuns(style: Style, w: World, rest: seq<Step>)
    requires Idling(w)
    requires var v := Added(w, WeekSent(|w.calls|, w.now)); Runs(v, rest) && StyledRun(style, v, rest)
    ensures Runs(w, SendsWeek(w, rest)) && StyledRun(style, w, SendsWeek(w, rest))
    ensures After(w, SendsWeek(w, rest)) == After(Added(w, WeekSent(|w.calls|, w.now)), rest)
  {
    BeginsWeek(w);
    SignsWeek(w);
    var step := GatewaySend(|w.calls|, 1, w.now, WEEK_SECONDS);
    FirstStyled(style, Next(w, Begin(Gateway, "h", 1)), step, rest);
    FirstStyled(style, w, Begin(Gateway, "h", 1), [step] + rest);
  }

  function AfterWeekDelivered(): World {
    Added(Start(0, ONE_A_DAY), WeekDelivered(0, 0)).(now := AFTER_WINDOW)
  }

  /** Under a daily cap of 1, one call after the other and one payload each: a payment
      valid for a week is delivered, and a day later another is sent. */
  function StillOwed(): seq<Step> {
    SendsWeek(Start(0, ONE_A_DAY),
              [GatewayResolve(0, true)] + ([Tick(AFTER_WINDOW)] + SendsWeek(AfterWeekDelivered(), [])))
  }

  lemma StillOwedTail(style: Style)
    ensures var w, steps := Added(Start(0, ONE_A_DAY), WeekDelivered(0, 0)),
            [Tick(AFTER_WINDOW)] + SendsWeek(AfterWeekDelivered(), []);
            && Runs(w, steps) && StyledRun(style, w, steps)
            && After(w, steps) == Added(AfterWeekDelivered(), WeekSent(1, AFTER_WINDOW))
  {
    var w, v := Added(Start(0, ONE_A_DAY), WeekDelivered(0, 0)), AfterWeekDelivered();
    assert w.log[1..] == [] && Prune(v.log, v.now) == [];
    SendsWeekRuns(style, v, []);
    FirstStyled(style, w, Tick(AFTER_WINDOW), SendsWeek(v, []));
  }

  lemma StillOwedRuns(style: Style)
    ensures Runs(Start(0, ONE_A_DAY), StillOwed()) && StyledRun(style, Start(0, ONE_A_DAY), StillOwed())
    ensures After(Start(0, ONE_A_DAY), StillOwed()) == Added(AfterWeekDelivered(), WeekSent(1, AFTER_WINDOW))
  {
    var w := Start(0, ONE_A_DAY);
    var rest := [Tick(AFTER_WINDOW)] + SendsWeek(AfterWeekDelivered(), []);
    StillOwedTail(style);
    ResolvesWeek(w);
    FirstStyled(style, Added(w, WeekSent(0, 0)), GatewayResolve(0, true), rest);
    SendsWeekRuns(style, w, [GatewayResolve(0, true)] + rest);
  }

  /** However carefully the calls are made: after that run sellers can take 2 under a
      daily cap of 1, if the one that answered with success has not taken its payment. */
  lemma DeliveredCanStillBeTaken(style: Style)
    ensures Runs(Start(0, ONE_A_DAY), StillOwed()) && StyledRun(style, Start(0, ONE_A_DAY), StillOwed())
    ensures var w := After(Start(0, ONE_A_DAY), StillOwed());
            && |w.calls| == 2
            && (forall i :: 0 <= i < 2 ==> |w.calls[i].sent| == 1 && Redeemable(w.calls[i].sent[0], w.now))
            && Sum(Takeable, w.calls, Everywhere, w.now) == 2 && !Within(w.caps.daily, 2)
  {
    StillOwedRuns(style);
    var a, b := WeekDelivered(0, 0), WeekSent(1, AFTER_WINDOW);
    WeekWeighs(a, 0);
    WeekWeighs(b, AFTER_WINDOW);
    assert [a, b][1..] == [b] && [b][1..] == [];
    assert Sum(Takeable, [b], Everywhere, AFTER_WINDOW) == 1;
  }

  lemma WeekWeighs(c: Call, at: nat)
    requires c.mode.Gateway? && !c.open && c.sent == [WeekUnit(at)] && |c.fates| == 1 && at <= AFTER_WINDOW
    ensures Value(Takeable, c, Everywhere, AFTER_WINDOW) == 1 && Redeemable(c.sent[0], AFTER_WINDOW)
  {
    assert at / 1000 * 1000 > at - 1000;
    var sum := TakeableSum(c.sent, c.fates, c.ts, AFTER_WINDOW);
    assert sum == 1 + TakeableSum(c.sent[1..], c.fates[1..], c.ts, AFTER_WINDOW);
  }
}
