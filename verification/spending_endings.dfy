/** What a call leaves in the log when it ends, and when that is gone again. */
module SpendingEndings {
  import opened Types
  import opened Validity
  import opened Ledger
  import opened Spending
  import opened SpendingSafety
  import opened SpendingLimits

  predicate IsEnding(step: Step) {
    step.Finish? || step.FinishCredits? || step.GatewaySend? || step.GatewayDrop? || step.GatewayResolve?
  }

  /** An ending moves every total by what the call's entries weighed before and after. */
  lemma EndMovesTotals(w: World, step: Step, s: Scope, t: int)
    requires Inv(w) && Enabled(w, step) && IsEnding(step) && t >= w.now
    ensures var i, v := step.call, Next(w, step);
            i < |w.calls| && i < |v.calls| &&
            Total(v.log, s, t) == Total(w.log, s, t) - Total(w.calls[i].rows, s, t) + Total(v.calls[i].rows, s, t)
  {
    EndingStepKeeps(w, step);
    StepsAreLocal(w, step);
    TotalsFollow(w, Next(w, step), step.call, s, t);
  }

  lemma TotalsFollow(w: World, v: World, i: nat, s: Scope, t: int)
    requires Inv(w) && Inv(v) && v.now == w.now <= t && i < |w.calls| == |v.calls|
    requires forall j :: 0 <= j < |w.calls| && j != i ==> v.calls[j] == w.calls[j]
    ensures Total(v.log, s, t) == Total(w.log, s, t) - Total(w.calls[i].rows, s, t) + Total(v.calls[i].rows, s, t)
  {
    assert v.calls == w.calls[i := v.calls[i]];
    SumUpdate(Recorded, w.calls, i, v.calls[i], s, t);
    RecordedIsTotal(w.calls[i], i, w, s, t);
    RecordedIsTotal(v.calls[i], i, v, s, t);
  }

  /** A call that sent nothing leaves nothing: a guarded one that signed or sent no
      payload, a credits call that was refused, a Gateway signer that threw. */
  lemma UnsentLeavesNothing(w: World, step: Step)
    requires Enabled(w, step)
    requires || step.GatewayDrop?
             || (step.FinishCredits? && step.booking.BookReleased?)
             || (step.Finish? && w.calls[step.call].mode.Guarded? && w.calls[step.call].sent == [])
    ensures Next(w, step).calls[step.call].rows == []
  {
  }

  /** What one payment weighs at `t`: delivered, refused by the own host at `now`, or of
      unknown outcome. `ts` is the time of its reservation. */
  function Weight(p: Payment, ts: int, delivered: bool, ownHost: bool, now: int, t: int): nat {
    var inWindow := t <= ts + 86_400_000;
    if delivered then (if inWindow then p.usd else 0)
    else if ownHost then (if t < (if p.until.Some? then p.until.value else now + 900_000) then p.usd else 0)
    else if inWindow || (p.until.Some? && t < p.until.value) then p.usd
    else 0
  }

  lemma BookedWeighs(e: Row<RowId>, list: seq<Payment>, ids: seq<RowId>, settleLast: bool, ownHost: bool, now: int,
                     k: nat, t: int)
    requires |ids| == |list| && k < |list|
    ensures var r := Booked(e, list, ids, settleLast, ownHost, now);
            && Total([r[k]], Everywhere, t) == Weight(list[k], e.ts, settleLast && k == |list| - 1, ownHost, now, t)
            && r[k].host == e.host && r[k].state == if settleLast && k == |list| - 1 then Settled else Held
  {
    PaymentWeighs(e.(id := ids[k]), list[k], settleLast && k == |list| - 1, ownHost, now, t);
  }

  /** The payments a call is booked for when it ends. */
  function PaymentsFor(c: Call): seq<Payment> {
    if c.sent != [] then PaymentsOf(c.sent)
    else if c.mode.Guarded? || c.rows == [] then []
    else [Payment(c.rows[0].usd, None)]
  }

  /** A wallet call that ends leaves one entry for each payment it sent (for one it cannot
      see into, one of the amount reserved), and nothing else; the last payment is the
      one delivered, where one was. */
  lemma WalletEndWeighs(w: World, i: nat, delivered: bool, ownHost: bool, k: nat, t: int)
    requires CallsOk(w) && Enabled(w, Finish(i, delivered, ownHost))
    ensures var c, list := Next(w, Finish(i, delivered, ownHost)).calls[i], PaymentsFor(w.calls[i]);
            && |c.rows| == |list|
            && (k < |list| ==>
                  && Total([c.rows[k]], Everywhere, t)
                     == Weight(list[k], w.calls[i].ts, delivered && k == |list| - 1, ownHost, w.now, t)
                  && c.rows[k].host == w.calls[i].host
                  && c.rows[k].state == if delivered && k == |list| - 1 then Settled else Held)
  {
    var c, list := w.calls[i], PaymentsFor(w.calls[i]);
    assert CallOk(c, i, w.now, w.caps);
    if k < |list| { BookedWeighs(c.rows[0], list, RowIds(i, |list|), delivered, ownHost, w.now, k, t); }
  }

  /** A credits call leaves its amount for the window when it was debited, and when a job
      may yet be. */
  lemma CreditsEndWeighs(w: World, i: nat, booking: Booking, t: int)
    requires CallsOk(w) && Enabled(w, FinishCredits(i, booking)) && !booking.BookReleased?
    ensures var c := Next(w, FinishCredits(i, booking)).calls[i];
            |c.rows| == 1 && c.rows[0].state == (if booking.BookSettled? then Settled else Held) &&
            Total(c.rows, Everywhere, t) == if t <= w.calls[i].ts + 86_400_000 then w.calls[i].rows[0].usd else 0
  {
    var c, p := w.calls[i], Payment(w.calls[i].rows[0].usd, None);
    assert CallOk(c, i, w.now, w.caps);
    var v := Next(w, FinishCredits(i, booking)).calls[i];
    BookedWeighs(c.rows[0], [p], RowIds(i, 1), false, false, w.now, 0, t);
    PaymentWeighs(c.rows[0], p, true, false, w.now, t);
    assert v.rows == [v.rows[0]];
  }

  /** A Gateway payment weighs from its first send as one of unknown outcome, and once its
      outcome is known as delivered, or as refused by the own host. */
  lemma GatewaySendWeighs(w: World, i: nat, usd: nat, signedAt: nat, timeout: nat, t: int)
    requires CallsOk(w) && Enabled(w, GatewaySend(i, usd, signedAt, timeout))
    ensures var c := Next(w, GatewaySend(i, usd, signedAt, timeout)).calls[i];
            |c.rows| == 1 &&
            Total(c.rows, Everywhere, t)
            == if t <= w.calls[i].ts + 86_400_000 || t < (signedAt / 1000 + timeout) * 1000 + 600_000 then usd else 0
  {
    GatewayHoldIsExact(signedAt, timeout, w.now);
    var c := Next(w, GatewaySend(i, usd, signedAt, timeout)).calls[i];
    assert CallOk(w.calls[i], i, w.now, w.caps);
    BookedWeighs(w.calls[i].rows[0], PaymentsOf(c.sent), RowIds(i, 1), false, false, w.now, 0, t);
    assert c.rows == [c.rows[0]];
  }

  lemma GatewayEndWeighs(w: World, i: nat, delivered: bool, t: int)
    requires CallsOk(w) && Enabled(w, GatewayResolve(i, delivered))
    ensures var c := Next(w, GatewayResolve(i, delivered)).calls[i];
            |c.rows| == 1 && c.rows[0].host == w.calls[i].host &&
            Total(c.rows, Everywhere, t)
            == Weight(PaymentsFor(w.calls[i])[0], w.calls[i].ts, delivered, true, w.now, t)
  {
    var was, p := w.calls[i], PaymentsOf(w.calls[i].sent)[0];
    assert CallOk(was, i, w.now, w.caps);
    assert Covers(was.rows[0], was.sent[0], was.fates[0]);
    var c := Next(w, GatewayResolve(i, delivered)).calls[i];
    BookedWeighs(was.rows[0], PaymentsOf(was.sent), RowIds(i, 1), false, true, w.now, 0, t);
    PaymentWeighs(was.rows[0], p, true, false, w.now, t);
    assert c.rows == [c.rows[0]];
  }

  // ---- what the own host refused is given back -----------------------------------------

  /** The step by which the own host's refusal ends call `i`. */
  predicate Refuses(step: Step, i: nat) {
    step == Finish(i, false, true) || step == GatewayResolve(i, false)
  }

  /** The holds on a call the own host refused at `refusedAt` are over. */
  predicate HoldsOver(c: Call, refusedAt: int, now: int) {
    forall k :: 0 <= k < |PaymentsFor(c)| ==>
      now >= if PaymentsFor(c)[k].until.Some? then PaymentsFor(c)[k].until.value else refusedAt + 900_000
  }

  lemma {:induction false} WeightlessRows(rows: seq<Row<RowId>>, s: Scope, t: int)
    requires forall k :: 0 <= k < |rows| ==> Total([rows[k]], Everywhere, t) == 0
    ensures Total(rows, s, t) == 0
  {
    if rows == [] {
    } else {
      assert Total([rows[0]], Everywhere, t) == 0 && [rows[0]][1..] == [];
      WeightlessRows(rows[1..], s, t);
    }
  }

  lemma RefusedIsWeightless(w: World, step: Step, i: nat, s: Scope, t: int)
    requires CallsOk(w) && Enabled(w, step) && Refuses(step, i) && HoldsOver(w.calls[i], w.now, t)
    ensures i < |Next(w, step).calls| && Total(Next(w, step).calls[i].rows, s, t) == 0
  {
    var c := Next(w, step).calls[i];
    if step.Finish? {
      forall k | 0 <= k < |c.rows| ensures Total([c.rows[k]], Everywhere, t) == 0 {
        WalletEndWeighs(w, i, false, true, k, t);
      }
    } else {
      GatewayEndWeighs(w, i, false, t);
      assert c.rows == [c.rows[0]];
    }
    WeightlessRows(c.rows, s, t);
  }

  predicate Over(c: Call) {
    !c.open && !(c.mode.Gateway? && c.fates == [Unknown])
  }

  lemma OverStays(w: World, step: Step, i: nat)
    requires Enabled(w, step) && i < |w.calls| && Over(w.calls[i])
    ensures i < |Next(w, step).calls| && Next(w, step).calls[i] == w.calls[i]
  {
    StepsAreLocal(w, step);
  }

  lemma {:induction false} RunOverStays(w: World, steps: seq<Step>, i: nat)
    requires Runs(w, steps) && i < |w.calls| && Over(w.calls[i])
    ensures i < |After(w, steps).calls| && After(w, steps).calls[i] == w.calls[i]
    decreases |steps|
  {
    if steps == [] {
    } else {
      OverStays(w, steps[0], i);
      RunOverStays(Next(w, steps[0]), steps[1..], i);
    }
  }

  /** The calls but for the entries of one. */
  function WithoutRows(calls: seq<Call>, i: nat): seq<Call>
    requires i < |calls|
  {
    calls[i := calls[i].(rows := [])]
  }

  lemma WeightlessCall(u: World, i: nat, s: Scope, t: int)
    requires Inv(u) && i < |u.calls| && t >= u.now && Total(u.calls[i].rows, s, t) == 0
    ensures Total(u.log, s, t) == Sum(Recorded, WithoutRows(u.calls, i), s, t)
  {
    SumUpdate(Recorded, u.calls, i, u.calls[i].(rows := []), s, t);
    RecordedIsTotal(u.calls[i], i, u, s, t);
  }

  lemma RefusedRun(now: nat, caps: Caps, before: seq<Step>, step: Step, since: seq<Step>, i: nat)
    requires Runs(Start(now, caps), before) && DisciplinedRun(Start(now, caps), before) && Refuses(step, i)
    requires var w := After(Start(now, caps), before);
             Enabled(w, step) && Runs(Next(w, step), since) && DisciplinedRun(Next(w, step), since)
    ensures var w := After(Start(now, caps), before);
            var u := After(Next(w, step), since);
            && Inv(w) && Inv(u) && u.caps == caps && i < |w.calls| && i < |u.calls|
            && i < |Next(w, step).calls| && u.calls[i] == Next(w, step).calls[i]
  {
    RunKeeps(Start(now, caps), before);
    var w := After(Start(now, caps), before);
    StepKeeps(w, step);
    CapsKept(w, step);
    RunKeeps(Next(w, step), since);
    RefusedIsOver(w, step, i);
    RunOverStays(Next(w, step), since, i);
  }

  lemma RefusedIsOver(w: World, step: Step, i: nat)
    requires Enabled(w, step) && Refuses(step, i)
    ensures i < |w.calls| && i < |Next(w, step).calls| && Over(Next(w, step).calls[i])
  {
    assert step.Finish? ==> !w.calls[i].mode.Gateway?;
  }

  lemma BeginsWithin(u: World, mode: Mode, host: string, usd: nat)
    ensures Enabled(u, Begin(mode, host, usd))
            <==> && (mode.Guarded? || usd > 0) && Within(u.caps.perCall, usd)
                 && Within(u.caps.daily, Total(u.log, Everywhere, u.now) + usd)
                 && Within(u.caps.perHost, Total(u.log, OnHost(host), u.now) + usd)
  {
    PruneKeepsTotals(u.log, Everywhere, u.now, u.now);
    PruneKeepsTotals(u.log, OnHost(host), u.now, u.now);
    RefusalMeaning(Prune(u.log, u.now), u.caps, host, usd, u.now);
  }

  /** The log weighs what the calls but `i` do, and admits what they leave room for. */
  ghost predicate GivenBack(u: World, i: nat) {
    i < |u.calls| &&
    var others := WithoutRows(u.calls, i);
    && (forall s, t :: t >= u.now ==> Total(u.log, s, t) == Sum(Recorded, others, s, t))
    && forall mode: Mode, host, usd: nat ::
         Enabled(u, Begin(mode, host, usd))
         <==> && (mode.Guarded? || usd > 0) && Within(u.caps.perCall, usd)
              && Within(u.caps.daily, Sum(Recorded, others, Everywhere, u.now) + usd)
              && Within(u.caps.perHost, Sum(Recorded, others, OnHost(host), u.now) + usd)
  }

  lemma WeightlessIsGivenBack(u: World, i: nat)
    requires Inv(u) && i < |u.calls| && forall s, t :: t >= u.now ==> Total(u.calls[i].rows, s, t) == 0
    ensures GivenBack(u, i)
  {
    forall s, t | t >= u.now ensures Total(u.log, s, t) == Sum(Recorded, WithoutRows(u.calls, i), s, t) {
      WeightlessCall(u, i, s, t);
    }
    forall mode: Mode, host, usd: nat
      ensures Enabled(u, Begin(mode, host, usd))
              <==> && (mode.Guarded? || usd > 0) && Within(u.caps.perCall, usd)
                   && Within(u.caps.daily, Total(u.log, Everywhere, u.now) + usd)
                   && Within(u.caps.perHost, Total(u.log, OnHost(host), u.now) + usd)
    {
      BeginsWithin(u, mode, host, usd);
    }
  }

  lemma HoldsStayOver(c: Call, refusedAt: int, now: int, later: int)
    requires HoldsOver(c, refusedAt, now) && now <= later
    ensures HoldsOver(c, refusedAt, later)
  {
  }

  /** Over every run: once the holds on a call the own host refused are over, it adds
      nothing to any total, however recent it is, and a reservation is accepted
      exactly when the caps allow it beside the other calls. */
  lemma RefusedIsGivenBack(now: nat, caps: Caps, before: seq<Step>, step: Step, since: seq<Step>, i: nat)
    requires Runs(Start(now, caps), before) && DisciplinedRun(Start(now, caps), before) && Refuses(step, i)
    requires var w := After(Start(now, caps), before);
             && Enabled(w, step) && Runs(Next(w, step), since) && DisciplinedRun(Next(w, step), since)
             && i < |w.calls| && HoldsOver(w.calls[i], w.now, After(Next(w, step), since).now)
    ensures GivenBack(After(Next(After(Start(now, caps), before), step), since), i)
  {
    RefusedRun(now, caps, before, step, since, i);
    var w := After(Start(now, caps), before);
    var u := After(Next(w, step), since);
    forall s, t | t >= u.now ensures Total(u.calls[i].rows, s, t) == 0 {
      HoldsStayOver(w.calls[i], w.now, u.now, t);
      RefusedIsWeightless(w, step, i, s, t);
    }
    WeightlessIsGivenBack(u, i);
  }
}
