/** What the caps hold back comes back: no entry counts longer than its call could
    have let a payment be redeemed. */
module SpendingRelease {
  import opened Types
  import opened Validity
  import opened Ledger
  import opened Spending
  import opened SpendingSafety
  import opened SpendingLimits

  /** How long after its reservation anything of a call can count: the call itself,
      the longest validity its kind of payment may be signed with, the slack. */
  function Longest(mode: Mode): nat {
    SPEND_WINDOW_MS + (if mode.Gateway? then GATEWAY_MAX_TIMEOUT_SECONDS else MAX_VALIDITY_SECONDS) * 1000
      + HOLD_SLACK_MS
  }

  predicate By(until: Option<int>, end: int) {
    until.Some? ==> until.value <= end
  }

  predicate Bounded(c: Call) {
    && (forall k :: 0 <= k < |c.rows| ==> By(c.rows[k].until, c.ts + Longest(c.mode)))
    && forall k :: 0 <= k < |c.sent| ==> By(c.sent[k].until, c.ts + Longest(c.mode))
  }

  predicate AllBounded(w: World) {
    forall i :: 0 <= i < |w.calls| ==> Bounded(w.calls[i])
  }

  predicate AllBy(rows: seq<Row<RowId>>, end: int) {
    forall k :: 0 <= k < |rows| ==> By(rows[k].until, end)
  }

  lemma BookedBy(e: Row<RowId>, list: seq<Payment>, ids: seq<RowId>, settleLast: bool, ownHost: bool, now: int,
                 end: int)
    requires |ids| == |list| && now + DEFAULT_HOST_BLIND_HOLD_MS <= end
    requires forall k :: 0 <= k < |list| ==> By(list[k].until, end)
    ensures AllBy(Booked(e, list, ids, settleLast, ownHost, now), end)
  {
  }

  lemma HoldBy(w: World, i: nat, list: seq<Payment>, settleLast: bool, ownHost: bool)
    requires i < |w.calls| && |w.calls[i].rows| == 1 && w.now <= w.calls[i].ts + SPEND_WINDOW_MS
    requires forall k :: 0 <= k < |list| ==> By(list[k].until, w.calls[i].ts + Longest(w.calls[i].mode))
    ensures AllBy(Hold(w, i, list, settleLast, ownHost), w.calls[i].ts + Longest(w.calls[i].mode))
  {
    BookedBy(w.calls[i].rows[0], list, RowIds(i, |list|), settleLast, ownHost, w.now,
             w.calls[i].ts + Longest(w.calls[i].mode));
  }

  lemma HeldBounded(w: World, i: nat, list: seq<Payment>, fates: seq<Fate>, delivered: bool, ownHost: bool)
    requires CallsOk(w) && i < |w.calls| && w.calls[i].open && Bounded(w.calls[i]) && list != []
    requires forall k :: 0 <= k < |list| ==> By(list[k].until, w.calls[i].ts + Longest(w.calls[i].mode))
    ensures Bounded(CloseCall(w, i, Hold(w, i, list, delivered, ownHost), fates).calls[i])
  {
    assert CallOk(w.calls[i], i, w.now, w.caps);
    HoldBy(w, i, list, delivered, ownHost);
  }

  lemma FinishBounded(w: World, i: nat, delivered: bool, ownHost: bool)
    requires CallsOk(w) && Enabled(w, Finish(i, delivered, ownHost)) && Bounded(w.calls[i])
    ensures Bounded(Next(w, Finish(i, delivered, ownHost)).calls[i])
  {
    var c := w.calls[i];
    if c.mode.Opaque? {
      HeldBounded(w, i, [Payment(c.rows[0].usd, None)], [], delivered, ownHost);
    } else if c.sent != [] {
      HeldBounded(w, i, PaymentsOf(c.sent), Fates(|c.sent|, delivered, ownHost), delivered, ownHost);
    }
  }

  lemma CreditsBounded(w: World, i: nat, booking: Booking)
    requires CallsOk(w) && Enabled(w, FinishCredits(i, booking)) && Bounded(w.calls[i])
    ensures Bounded(Next(w, FinishCredits(i, booking)).calls[i])
  {
    assert CallOk(w.calls[i], i, w.now, w.caps);
    HoldBy(w, i, [Payment(w.calls[i].rows[0].usd, None)], false, false);
  }

  lemma GatewayBounded(w: World, i: nat, usd: nat, signedAt: nat, timeout: nat)
    requires CallsOk(w) && Enabled(w, GatewaySend(i, usd, signedAt, timeout)) && Bounded(w.calls[i])
    ensures Bounded(Next(w, GatewaySend(i, usd, signedAt, timeout)).calls[i])
  {
    assert CallOk(w.calls[i], i, w.now, w.caps);
    var sent := Next(w, GatewaySend(i, usd, signedAt, timeout)).calls[i].sent;
    assert |sent| == 1 && By(sent[0].until, w.calls[i].ts + Longest(Gateway));
    HoldBy(w, i, PaymentsOf(sent), false, false);
  }

  lemma ResolvedBounded(w: World, i: nat, delivered: bool)
    requires CallsOk(w) && Enabled(w, GatewayResolve(i, delivered)) && Bounded(w.calls[i])
    ensures Bounded(Next(w, GatewayResolve(i, delivered)).calls[i])
  {
    var was, c := w.calls[i], Next(w, GatewayResolve(i, delivered)).calls[i];
    assert CallOk(was, i, w.now, w.caps);
    assert was.sent[0].expiry.At? && HoldLasts(was.sent[0]);
    assert |c.rows| == 1 && (c.rows[0].until == None || c.rows[0].until == was.sent[0].until);
  }

  lemma SigningBounded(w: World, step: Step)
    requires step.Sign? || step.Check? || step.Abort? || step.Record? || step.GatewayDrop?
    requires CallsOk(w) && Enabled(w, step) && Bounded(w.calls[step.call])
    ensures Bounded(Next(w, step).calls[step.call])
  {
    assert CallOk(w.calls[step.call], step.call, w.now, w.caps);
  }

  lemma CallBounded(w: World, step: Step)
    requires 0 <= Subject(step) < |w.calls| && Bounded(w.calls[Subject(step)]) && CallsOk(w) && Enabled(w, step)
    ensures Subject(step) < |Next(w, step).calls| ==> Bounded(Next(w, step).calls[Subject(step)])
  {
    match step
    case Finish(i, delivered, ownHost) => FinishBounded(w, i, delivered, ownHost);
    case FinishCredits(i, booking) => CreditsBounded(w, i, booking);
    case GatewaySend(i, usd, signedAt, timeout) => GatewayBounded(w, i, usd, signedAt, timeout);
    case GatewayResolve(i, delivered) => ResolvedBounded(w, i, delivered);
    case _ => SigningBounded(w, step);
  }

  lemma StepBounded(w: World, step: Step)
    requires CallsOk(w) && AllBounded(w) && Enabled(w, step)
    ensures AllBounded(Next(w, step))
  {
    StepsAreLocal(w, step);
    var v := Next(w, step);
    if Subject(step) >= 0 { CallBounded(w, step); }
    forall i | 0 <= i < |v.calls| ensures Bounded(v.calls[i]) {
      if i < |w.calls| { assert Bounded(w.calls[i]); }
    }
  }

  lemma {:induction false} RunBounded(w: World, steps: seq<Step>)
    requires Inv(w) && AllBounded(w) && Runs(w, steps) && DisciplinedRun(w, steps)
    ensures AllBounded(After(w, steps))
    decreases |steps|
  {
    if steps == [] {
    } else {
      StepKeeps(w, steps[0]);
      StepBounded(w, steps[0]);
      RunBounded(Next(w, steps[0]), steps[1..]);
    }
  }

  lemma {:induction false} NothingCounts(rows: seq<Row<RowId>>, s: Scope, now: int)
    requires forall e :: e in rows ==> !CountsAt(e, now)
    ensures Total(rows, s, now) == 0
  {
    if rows == [] {
    } else {
      NothingCounts(rows[1..], s, now);
    }
  }

  /** No call of the run is recent enough to count. */
  predicate LongAgo(w: World) {
    forall i :: 0 <= i < |w.calls| ==> w.now > w.calls[i].ts + Longest(w.calls[i].mode)
  }

  lemma LongAgoIsGone(w: World)
    requires Inv(w) && AllBounded(w) && LongAgo(w)
    ensures forall e :: e in w.log ==> !CountsAt(e, w.now)
  {
    forall e | e in w.log ensures !CountsAt(e, w.now) {
      assert Belongs(e, w.calls);
      var c := w.calls[e.id.call];
      assert CallOk(c, e.id.call, w.now, w.caps) && Bounded(c);
      assert By(c.rows[e.id.k].until, c.ts + Longest(c.mode));
    }
  }

  /** Whatever sellers did, 48 hours and ten minutes after a wallet call was
      reserved (for a Gateway call 8 days, an hour and ten minutes) the log counts
      nothing of it: a host is then refused nothing its caps allow on their own. */
  lemma CapacityReturns(now: nat, caps: Caps, steps: seq<Step>, mode: Mode, host: string, usd: nat)
    requires Runs(Start(now, caps), steps) && DisciplinedRun(Start(now, caps), steps)
             && LongAgo(After(Start(now, caps), steps))
    ensures Total(After(Start(now, caps), steps).log, Everywhere, After(Start(now, caps), steps).now) == 0
    ensures (mode.Guarded? || usd > 0) && Within(caps.perCall, usd) && Within(caps.daily, usd)
            && Within(caps.perHost, usd)
            ==> Enabled(After(Start(now, caps), steps), Begin(mode, host, usd))
  {
    RunKeeps(Start(now, caps), steps);
    RunBounded(Start(now, caps), steps);
    var w := After(Start(now, caps), steps);
    LongAgoIsGone(w);
    NothingCounts(w.log, Everywhere, w.now);
    NothingCounts(w.log, OnHost(host), w.now);
    PruneKeepsTotals(w.log, Everywhere, w.now, w.now);
    PruneKeepsTotals(w.log, OnHost(host), w.now, w.now);
    RefusalMeaning(Prune(w.log, w.now), w.caps, host, usd, w.now);
  }
}
