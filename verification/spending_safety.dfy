/** The rolling caps hold over every disciplined run, however calls interleave
    and whatever sellers answer; and exactly when a step needs the discipline. */
module SpendingSafety {
  import opened Types
  import opened Validity
  import opened Ledger
  import opened Spending

  // ---- the invariant ------------------------------------------------------------

  /** The hold recorded for a payload outlasts the payload. */
  predicate HoldLasts(p: Sent) {
    p.expiry.At? ==> p.until.Some? && p.expiry.seconds * 1000 + SURE_SLACK_MS <= p.until.value
  }

  /** A finished call's row answers for its payload. */
  predicate Covers(row: Row<RowId>, p: Sent, fate: Fate) {
    && row.usd == p.usd
    && match fate
       case Delivered => row.state.Settled?
       case Unknown => row.state.Held? && !row.ownHost && row.until == p.until
       case RefusedByOwnHost => row.state.Held? && row.ownHost && (p.until.Some? ==> row.until == p.until)
  }

  predicate CallOk(c: Call, i: nat, now: nat, caps: Caps) {
    && c.ts <= now
    && (forall k :: 0 <= k < |c.rows| ==>
        c.rows[k].id == RowId(i, k) && c.rows[k].host == c.host && c.rows[k].ts == c.ts)
    && (forall k :: 0 <= k < |c.sent| ==> HoldLasts(c.sent[k]) && Within(caps.perCall, c.sent[k].usd))
    && (c.mode.Gateway? ==> forall k :: 0 <= k < |c.sent| ==> c.sent[k].expiry.At?)
    && if c.open then OpenOk(c, now, caps) else ClosedOk(c)
  }

  predicate OpenOk(c: Call, now: nat, caps: Caps) {
    && |c.rows| == 1 && c.rows[0].state.Reserved? && c.fates == []
    && now <= c.ts + SPEND_WINDOW_MS
    && Within(caps.perCall, c.rows[0].usd)
    && (!c.mode.Guarded? ==> c.sent == [] && c.signing.Idle?)
    && (!c.signing.Idle? ==> c.rows[0].usd == c.signing.usd)
    && (c.signing.Checked? ==>
        c.signing.at <= now && !ValidityProblem(c.signing.expiry, MAX_VALIDITY_SECONDS, c.signing.at))
  }

  predicate ClosedOk(c: Call) {
    && c.signing.Idle?
    && |c.fates| == |c.sent|
    && (c.sent != [] ==>
        |c.rows| == |c.sent| && forall k :: 0 <= k < |c.sent| ==> Covers(c.rows[k], c.sent[k], c.fates[k]))
  }

  predicate CallsOk(w: World) {
    forall i :: 0 <= i < |w.calls| ==> CallOk(w.calls[i], i, w.now, w.caps)
  }

  predicate Belongs(e: Row<RowId>, calls: seq<Call>) {
    e.id.call < |calls| && e.id.k < |calls[e.id.call].rows| && calls[e.id.call].rows[e.id.k] == e
  }

  /** The log holds each entry once, as its call last wrote it, and has dropped
      only entries that count for nothing. */
  predicate Linked(w: World) {
    && DistinctIds(w.log)
    && (forall e :: e in w.log ==> Belongs(e, w.calls))
    && (forall i, k :: 0 <= i < |w.calls| && 0 <= k < |w.calls[i].rows| && CountsAt(w.calls[i].rows[k], w.now)
          ==> w.calls[i].rows[k] in w.log)
  }

  /** So the log's totals are the calls' totals, now and later. */
  ghost predicate Balanced(w: World) {
    forall s, t :: t >= w.now ==> Total(w.log, s, t) == Sum(Recorded, w.calls, s, t)
  }

  ghost predicate Capped(w: World) {
    && Within(w.caps.daily, Sum(Committed, w.calls, Everywhere, w.now))
    && forall host :: Within(w.caps.perHost, Sum(Committed, w.calls, OnHost(host), w.now))
  }

  ghost predicate Inv(w: World) {
    CallsOk(w) && Linked(w) && Balanced(w) && Capped(w)
  }

  // ---- sums over calls ------------------------------------------------------------

  lemma {:induction false} SumUpdate(m: Measure, calls: seq<Call>, i: nat, c: Call, s: Scope, t: int)
    requires i < |calls|
    ensures Sum(m, calls[i := c], s, t) == Sum(m, calls, s, t) - Value(m, calls[i], s, t) + Value(m, c, s, t)
  {
    if i == 0 {
      assert calls[0 := c][1..] == calls[1..];
    } else {
      assert calls[i := c][1..] == calls[1..][i - 1 := c];
      SumUpdate(m, calls[1..], i - 1, c, s, t);
    }
  }

  lemma {:induction false} SumPush(m: Measure, calls: seq<Call>, c: Call, s: Scope, t: int)
    ensures Sum(m, calls + [c], s, t) == Sum(m, calls, s, t) + Value(m, c, s, t)
  {
    if calls == [] {
      assert calls + [c] == [c];
    } else {
      assert (calls + [c])[1..] == calls[1..] + [c];
      SumPush(m, calls[1..], c, s, t);
    }
  }

  /** Where every other call shows all it has sent, the sums differ only by `i`. */
  lemma {:induction false} QuietSums(calls: seq<Call>, i: int, s: Scope, t: int)
    requires forall j :: 0 <= j < |calls| && j != i ==>
               Value(Committed, calls[j], s, t) == Value(Recorded, calls[j], s, t)
    ensures Sum(Committed, calls, s, t) - Sum(Recorded, calls, s, t)
            == if 0 <= i < |calls| then Value(Committed, calls[i], s, t) - Value(Recorded, calls[i], s, t) else 0
  {
    if calls == [] {
    } else {
      assert forall j :: 0 <= j < |calls[1..]| ==> calls[1..][j] == calls[j + 1];
      QuietSums(calls[1..], i - 1, s, t);
    }
  }

  lemma SumLower(calls: seq<Call>, s: Scope, t: int)
    ensures Sum(Recorded, calls, s, t) <= Sum(Committed, calls, s, t)
  {
  }

  lemma RowTotal(c: Call, s: Scope, t: int)
    requires |c.rows| == 1
    ensures Total(c.rows, s, t) == Amount(c.rows[0], s, t)
  {
    assert c.rows[1..] == [];
  }

  lemma {:induction false} OutOfScope(rows: seq<Row<RowId>>, host: string, s: Scope, t: int)
    requires (forall k :: 0 <= k < |rows| ==> rows[k].host == host) && !InScope(host, s)
    ensures Total(rows, s, t) == 0
  {
    if rows == [] {
    } else {
      OutOfScope(rows[1..], host, s, t);
    }
  }

  lemma RecordedIsTotal(c: Call, i: nat, w: World, s: Scope, t: int)
    requires CallOk(c, i, w.now, w.caps)
    ensures Value(Recorded, c, s, t) == Total(c.rows, s, t)
  {
    if !InScope(c.host, s) { OutOfScope(c.rows, c.host, s, t); }
  }

  // ---- exposure is covered -----------------------------------------------------

  lemma CoveredCounts(row: Row<RowId>, p: Sent, fate: Fate, now: int)
    requires HoldLasts(p) && Covers(row, p, fate) && Exposed(p, fate, row.ts, now)
    ensures CountsAt(row, now)
  {
  }

  lemma {:induction false} ExposedSumCovered(rows: seq<Row<RowId>>, sent: seq<Sent>, fates: seq<Fate>, ts: int,
                                             s: Scope, now: int)
    requires |rows| == |sent| == |fates|
    requires forall k :: 0 <= k < |sent| ==>
               HoldLasts(sent[k]) && Covers(rows[k], sent[k], fates[k]) && rows[k].ts == ts && InScope(rows[k].host, s)
    ensures ExposedSum(sent, fates, ts, now) <= Total(rows, s, now)
  {
    if sent == [] {
    } else {
      ExposedSumCovered(rows[1..], sent[1..], fates[1..], ts, s, now);
      if Exposed(sent[0], fates[0], ts, now) { CoveredCounts(rows[0], sent[0], fates[0], now); }
    }
  }

  lemma ExposureCovered(c: Call, i: nat, w: World, s: Scope)
    requires CallOk(c, i, w.now, w.caps)
    ensures Value(Exposure, c, s, w.now) <= Value(Committed, c, s, w.now)
  {
    if !c.open && InScope(c.host, s) && c.sent != [] {
      ExposedSumCovered(c.rows, c.sent, c.fates, c.ts, s, w.now);
    }
  }

  /** In every state the invariant describes, what sellers hold is within the caps. */
  lemma ExposureWithinCaps(w: World, host: string)
    requires Inv(w)
    ensures Within(w.caps.daily, Sum(Exposure, w.calls, Everywhere, w.now))
    ensures Within(w.caps.perHost, Sum(Exposure, w.calls, OnHost(host), w.now))
    ensures Within(w.caps.daily, Total(w.log, Everywhere, w.now))
    ensures Within(w.caps.perHost, Total(w.log, OnHost(host), w.now))
  {
    forall s, j | 0 <= j < |w.calls|
      ensures Value(Exposure, w.calls[j], s, w.now) <= Value(Committed, w.calls[j], s, w.now)
    {
      ExposureCovered(w.calls[j], j, w, s);
    }
    WeighsLess(Exposure, Committed, w.calls, Everywhere, w.now);
    WeighsLess(Exposure, Committed, w.calls, OnHost(host), w.now);
    SumLower(w.calls, Everywhere, w.now);
    SumLower(w.calls, OnHost(host), w.now);
  }

  // ---- answers that are not redemptions -------------------------------------------

  /** Counting a delivered payment for the window alone is enough, at every later
      time, exactly when the payment expires in it. */
  lemma ExpiresInWindowExactly(p: Sent, ts: int)
    ensures (forall now :: now >= ts && Redeemable(p, now) ==> Exposed(p, Delivered, ts, now))
            <==> ExpiresInWindow(p, ts)
  {
    var passed := ts + SPEND_WINDOW_MS + 1;
    if !ExpiresInWindow(p, ts) { assert Redeemable(p, passed) && !Exposed(p, Delivered, ts, passed); }
  }

  /** What an option may ask for: signed within `d` of the reservation with a validity
      of `timeout`, a payment expires in the window if both and the slack fit into
      it; with a validity of a day or more it never does. */
  lemma ValidityInWindow(ts: nat, d: nat, signedAt: nat, timeout: nat, p: Sent)
    requires ts <= signedAt <= ts + d && p.expiry == At(signedAt / 1000 + timeout)
    ensures d + timeout * 1000 + SURE_SLACK_MS <= SPEND_WINDOW_MS + 1 ==> ExpiresInWindow(p, ts)
    ensures timeout >= MAX_VALIDITY_SECONDS ==> !ExpiresInWindow(p, ts)
  {
    assert signedAt - 999 <= signedAt / 1000 * 1000 <= signedAt;
  }

  lemma {:induction false} TakeableIsExposed(sent: seq<Sent>, fates: seq<Fate>, ts: int, now: int)
    requires |sent| == |fates| && ts <= now
    requires forall k :: 0 <= k < |sent| && fates[k].Delivered? ==> ExpiresInWindow(sent[k], ts)
    ensures TakeableSum(sent, fates, ts, now) == ExposedSum(sent, fates, ts, now)
  {
    if sent == [] {
    } else {
      TakeableIsExposed(sent[1..], fates[1..], ts, now);
      ExpiresInWindowExactly(sent[0], ts);
    }
  }

  lemma TakeableCall(c: Call, i: nat, w: World, s: Scope)
    requires CallOk(c, i, w.now, w.caps) && DeliveredExpire(c)
    ensures Value(Takeable, c, s, w.now) <= Value(Exposure, c, s, w.now)
  {
    if |c.sent| == |c.fates| { TakeableIsExposed(c.sent, c.fates, c.ts, w.now); }
  }

  lemma {:induction false} WeighsLess(m: Measure, n: Measure, calls: seq<Call>, s: Scope, t: int)
    requires forall j :: 0 <= j < |calls| ==> Value(m, calls[j], s, t) <= Value(n, calls[j], s, t)
    ensures Sum(m, calls, s, t) <= Sum(n, calls, s, t)
  {
    if calls == [] {
    } else {
      WeighsLess(m, n, calls[1..], s, t);
    }
  }

  lemma TakeableWithinExposure(w: World, s: Scope)
    requires CallsOk(w) && AllDeliveredExpire(w)
    ensures Sum(Takeable, w.calls, s, w.now) <= Sum(Exposure, w.calls, s, w.now)
  {
    forall j | 0 <= j < |w.calls|
      ensures Value(Takeable, w.calls[j], s, w.now) <= Value(Exposure, w.calls[j], s, w.now)
    {
      TakeableCall(w.calls[j], j, w, s);
    }
    WeighsLess(Takeable, Exposure, w.calls, s, w.now);
  }

  // ---- one call's rows change ---------------------------------------------------

  /** What a change of call `i`'s entries owes the rest of the log. */
  ghost predicate Moves(w: World, i: nat, rows: seq<Row<RowId>>, log: seq<Row<RowId>>)
    requires i < |w.calls|
  {
    && DistinctIds(log)
    && (forall e :: e in log ==> if e.id.call == i then e.id.k < |rows| && rows[e.id.k] == e else e in w.log)
    && (forall e :: e in w.log && e.id.call != i ==> e in log)
    && (forall k :: 0 <= k < |rows| && CountsAt(rows[k], w.now) ==> rows[k] in log)
    && forall s, t :: t >= w.now ==>
           Total(log, s, t) + Total(w.calls[i].rows, s, t) == Total(w.log, s, t) + Total(rows, s, t)
  }

  lemma Relink(w: World, i: nat, c: Call, log: seq<Row<RowId>>)
    requires CallsOk(w) && Linked(w) && Balanced(w) && i < |w.calls|
    requires CallOk(c, i, w.now, w.caps) && c.host == w.calls[i].host
    requires Moves(w, i, c.rows, log)
    ensures CallsOk(WithCall(w, i, c, log)) && Linked(WithCall(w, i, c, log)) && Balanced(WithCall(w, i, c, log))
  {
    var v := WithCall(w, i, c, log);
    forall s, t | t >= v.now ensures Total(v.log, s, t) == Sum(Recorded, v.calls, s, t) {
      SumUpdate(Recorded, w.calls, i, c, s, t);
      RecordedIsTotal(w.calls[i], i, w, s, t);
      RecordedIsTotal(c, i, w, s, t);
    }
  }

  predicate RowLogged(w: World, i: nat) {
    i < |w.calls| && |w.calls[i].rows| == 1 && w.calls[i].rows[0] in w.log
  }

  /** The reservation of a call still open is in the log. */
  lemma OpenRowIsLogged(w: World, i: nat)
    requires CallsOk(w) && Linked(w) && i < |w.calls| && w.calls[i].open
    ensures RowLogged(w, i)
  {
    assert CountsAt(w.calls[i].rows[0], w.now);
  }

  lemma FindRow(w: World, i: nat) returns (j: nat)
    requires RowLogged(w, i)
    ensures j < |w.log| && w.log[j] == w.calls[i].rows[0]
  {
    j :| 0 <= j < |w.log| && w.log[j] == w.calls[i].rows[0];
  }

  lemma ReleaseMoves(w: World, i: nat)
    requires CallsOk(w) && Linked(w) && RowLogged(w, i)
    ensures Moves(w, i, [], Remove(w.log, RowId(i, 0)))
  {
    var j := FindRow(w, i);
    var id := RowId(i, 0);
    RemoveDistinct(w.log, id);
    forall e ensures e in Remove(w.log, id) <==> e in w.log && e.id != id { RemoveMember(w.log, id, e); }
    forall s, t ensures Total(Remove(w.log, id), s, t) + Total(w.calls[i].rows, s, t) == Total(w.log, s, t) {
      TotalRemove(w.log, j, s, t);
      RowTotal(w.calls[i], s, t);
    }
  }

  predicate RowsOf(booked: seq<Row<RowId>>, i: nat) {
    booked != [] && forall k :: 0 <= k < |booked| ==> booked[k].id == RowId(i, k)
  }

  /** A call that is open has one entry in the log: its reservation. */
  lemma OwnEntry(w: World, i: nat, e: Row<RowId>)
    requires Linked(w) && i < |w.calls| && |w.calls[i].rows| == 1 && e in w.log && e.id.call == i
    ensures e == w.calls[i].rows[0]
  {
    assert Belongs(e, w.calls);
  }

  lemma HoldMember(w: World, i: nat, booked: seq<Row<RowId>>, e: Row<RowId>)
    requires CallsOk(w) && Linked(w) && RowLogged(w, i) && RowsOf(booked, i)
    ensures e in HoldLog(w.log, booked) <==> e in booked || (e in w.log && e.id.call != i)
  {
    var j := FindRow(w, i);
    ReplaceMember(w.log, j, booked[0], e);
    InFirstOrRest(booked, e);
    if e in w.log && e.id.call == i { OwnEntry(w, i, e); }
  }

  lemma InFirstOrRest(booked: seq<Row<RowId>>, e: Row<RowId>)
    requires booked != []
    ensures e in booked <==> e == booked[0] || e in booked[1..]
  {
    assert booked == [booked[0]] + booked[1..];
  }

  lemma HoldDistinct(w: World, i: nat, booked: seq<Row<RowId>>)
    requires CallsOk(w) && Linked(w) && RowLogged(w, i) && RowsOf(booked, i)
    ensures DistinctIds(HoldLog(w.log, booked))
  {
    var log := HoldLog(w.log, booked);
    var j := FindRow(w, i);
    forall x | 0 <= x < |w.log| ensures log[x].id == w.log[x].id && (w.log[x].id.call == i ==> w.log[x].id.k == 0) {
      assert w.log[x] in w.log;
    }
    forall x | |w.log| <= x < |log| ensures log[x].id == RowId(i, x - |w.log| + 1) {
      assert log[x] == booked[x - |w.log| + 1];
    }
  }

  lemma HoldMoves(w: World, i: nat, booked: seq<Row<RowId>>)
    requires CallsOk(w) && Linked(w) && RowLogged(w, i) && RowsOf(booked, i)
    ensures Moves(w, i, booked, HoldLog(w.log, booked))
  {
    var log := HoldLog(w.log, booked);
    HoldDistinct(w, i, booked);
    forall e ensures e in log <==> e in booked || (e in w.log && e.id.call != i) { HoldMember(w, i, booked, e); }
    forall s, t ensures Total(log, s, t) + Total(w.calls[i].rows, s, t) == Total(w.log, s, t) + Total(booked, s, t) {
      var j := FindRow(w, i);
      TotalReplace(w.log, j, booked[0], s, t);
      TotalAppend(Replace(w.log, booked[0]), booked[1..], s, t);
      RowTotal(w.calls[i], s, t);
    }
  }

  /** A Gateway payment's row may have left the log before its outcome is known;
      what is then written to it counts for nothing. */
  lemma ResolveMoves(w: World, i: nat, row: Row<RowId>)
    requires CallsOk(w) && Linked(w) && i < |w.calls| && |w.calls[i].rows| == 1 && row.id == RowId(i, 0)
    requires CountsAt(row, w.now) ==> CountsAt(w.calls[i].rows[0], w.now)
    ensures Moves(w, i, [row], HoldLog(w.log, [row]))
  {
    if RowLogged(w, i) {
      HoldMoves(w, i, [row]);
    } else {
      assert HoldLog(w.log, [row]) == Replace(w.log, row);
      forall x | 0 <= x < |w.log| ensures w.log[x].id.call != i { assert w.log[x] in w.log; }
      ReplaceAbsent(w.log, row);
      forall s, t | t >= w.now ensures Total(w.calls[i].rows, s, t) == Total([row], s, t) {
        RowTotal(w.calls[i], s, t);
        if CountsAt(w.calls[i].rows[0], t) { CountsMonotone(w.calls[i].rows[0], w.now, t); }
        if CountsAt(row, t) { CountsMonotone(row, w.now, t); }
      }
    }
  }

  // ---- what a step is open to ----------------------------------------------------------

  /** The caps leave room for `usd` beside what call `i` has sent and the other entries. */
  predicate RoomFor(w: World, i: nat, usd: nat)
    requires i < |w.calls|
  {
    var c := w.calls[i];
    && Within(w.caps.perCall, usd)
    && Within(w.caps.daily, SentSum(c.sent) + TotalExcept(w.log, Some(RowId(i, 0)), Everywhere, w.now) + usd)
    && Within(w.caps.perHost, SentSum(c.sent) + TotalExcept(w.log, Some(RowId(i, 0)), OnHost(c.host), w.now) + usd)
  }

  /** A guarded call may sign an amount exactly when there is room for it, or it is zero. */
  lemma SignExactly(w: World, i: nat, usd: nat)
    requires IsOpen(w, i, Guarded) && w.calls[i].signing.Idle?
    ensures Enabled(w, Sign(i, usd)) <==> usd == 0 || RoomFor(w, i, usd)
  {
    AllowanceMeaning(w.log, w.caps, w.calls[i].host, Some(RowId(i, 0)), SentSum(w.calls[i].sent), w.now, usd);
  }

  /** What was signed passes exactly when there is still room, where the guard can read
      the amount, and its expiry is none or at most a day and a minute away. */
  lemma CheckExactly(w: World, i: nat, expiry: Expiry, decoded: bool)
    requires IsOpen(w, i, Guarded) && w.calls[i].signing.Signed?
    ensures Enabled(w, Check(i, expiry, decoded))
            <==> && (decoded && w.calls[i].signing.usd > 0 ==> RoomFor(w, i, w.calls[i].signing.usd))
                 && !expiry.Unreadable? && (expiry.At? ==> expiry.seconds * 1000 <= w.now + 86_460_000)
  {
    var c := w.calls[i];
    AllowanceMeaning(w.log, w.caps, c.host, Some(RowId(i, 0)), SentSum(c.sent), w.now, c.signing.usd);
    PassesExactly(expiry, MAX_VALIDITY_SECONDS, w.now);
  }

  // ---- every step keeps the invariant ----------------------------------------------

  lemma CapKept(w: World, i: nat, c: Call, log: seq<Row<RowId>>)
    requires Capped(w) && i < |w.calls|
    requires forall s :: Value(Committed, c, s, w.now) <= Value(Committed, w.calls[i], s, w.now)
    ensures Capped(WithCall(w, i, c, log))
  {
    forall s ensures Sum(Committed, w.calls[i := c], s, w.now) <= Sum(Committed, w.calls, s, w.now) {
      SumUpdate(Committed, w.calls, i, c, s, w.now);
    }
  }

  /** A call that hides nothing costs what its rows say. */
  lemma ShownIsCommitted(c: Call, i: nat, w: World, s: Scope)
    requires CallOk(c, i, w.now, w.caps) && (InScope(c.host, s) ==> !Hides(c))
    ensures Value(Committed, c, s, w.now) == Value(Recorded, c, s, w.now)
  {
    if c.open { RowTotal(c, s, w.now); }
  }

  lemma QuietTotals(w: World, i: int, s: Scope)
    requires CallsOk(w) && Balanced(w) && QuietOn(w, i, s)
    ensures Sum(Committed, w.calls, s, w.now) - Total(w.log, s, w.now)
            == if 0 <= i < |w.calls| then Value(Committed, w.calls[i], s, w.now) - Value(Recorded, w.calls[i], s, w.now)
               else 0
  {
    forall j | 0 <= j < |w.calls| && j != i
      ensures Value(Committed, w.calls[j], s, w.now) == Value(Recorded, w.calls[j], s, w.now)
    {
      ShownIsCommitted(w.calls[j], j, w, s);
    }
    QuietSums(w.calls, i, s, w.now);
  }

  lemma {:induction false} SumTick(calls: seq<Call>, s: Scope, now: nat, to: nat)
    requires now <= to
    ensures Sum(Committed, calls, s, to) <= Sum(Committed, calls, s, now)
  {
    if calls == [] {
    } else {
      SumTick(calls[1..], s, now, to);
      TotalMonotone(calls[0].rows, s, now, to);
    }
  }

  lemma TickKeeps(w: World, to: nat)
    requires Inv(w) && Enabled(w, Tick(to)) && Disciplined(w, Tick(to))
    ensures Inv(Next(w, Tick(to)))
  {
    var v := Next(w, Tick(to));
    forall i, k | 0 <= i < |w.calls| && 0 <= k < |w.calls[i].rows| && CountsAt(w.calls[i].rows[k], to)
      ensures w.calls[i].rows[k] in w.log
    {
      CountsMonotone(w.calls[i].rows[k], w.now, to);
    }
    forall s ensures Sum(Committed, v.calls, s, v.now) <= Sum(Committed, w.calls, s, w.now) {
      SumTick(w.calls, s, w.now, to);
    }
  }

  lemma SweepKeeps(w: World)
    requires Inv(w)
    ensures Inv(Next(w, Sweep))
  {
    PruneDistinct(w.log, w.now);
    forall e ensures e in Prune(w.log, w.now) <==> e in w.log && CountsAt(e, w.now) { PruneMember(w.log, w.now, e); }
    forall s, t | t >= w.now ensures Total(Prune(w.log, w.now), s, t) == Total(w.log, s, t) {
      PruneKeepsTotals(w.log, s, w.now, t);
    }
  }

  /** A new call's reservation joins the log. */
  function Opened(u: World, mode: Mode, host: string, usd: nat): World {
    var row := Row(RowId(|u.calls|, 0), u.now, host, usd, Reserved, None, false);
    u.(log := u.log + [row], calls := u.calls + [Call(mode, host, u.now, true, Idle, [], [], [row], None)])
  }

  lemma OpenedLinked(u: World, mode: Mode, host: string, usd: nat)
    requires CallsOk(u) && Linked(u) && Within(u.caps.perCall, usd)
    ensures CallsOk(Opened(u, mode, host, usd)) && Linked(Opened(u, mode, host, usd))
  {
    var v := Opened(u, mode, host, usd);
    var row := v.log[|u.log|];
    forall e | e in u.log ensures Belongs(e, v.calls) && e.id != row.id { assert Belongs(e, u.calls); }
    assert DistinctIds(v.log) by {
      forall x | 0 <= x < |u.log| ensures v.log[x].id != row.id { assert u.log[x] in u.log; }
    }
    forall e | e in v.log ensures Belongs(e, v.calls) {
      if e !in u.log { assert e == row; }
    }
    forall i, k | 0 <= i < |v.calls| && 0 <= k < |v.calls[i].rows| && CountsAt(v.calls[i].rows[k], v.now)
      ensures v.calls[i].rows[k] in v.log
    {
      if i < |u.calls| { assert u.calls[i].rows[k] in u.log; }
    }
  }

  lemma OpenedBalanced(u: World, mode: Mode, host: string, usd: nat)
    requires Balanced(u)
    ensures Balanced(Opened(u, mode, host, usd))
  {
    var v := Opened(u, mode, host, usd);
    var c := v.calls[|u.calls|];
    forall s, t | t >= v.now ensures Total(v.log, s, t) == Sum(Recorded, v.calls, s, t) {
      TotalAppend(u.log, c.rows, s, t);
      SumPush(Recorded, u.calls, c, s, t);
      RowTotal(c, s, t);
    }
  }

  lemma OpenedCommitment(u: World, mode: Mode, host: string, usd: nat, s: Scope)
    requires CallsOk(u) && Balanced(u) && QuietBut(u, -1)
    ensures Sum(Committed, Opened(u, mode, host, usd).calls, s, u.now)
            == Sum(Committed, u.calls, s, u.now) + if InScope(host, s) then usd else 0
    ensures Sum(Committed, u.calls, s, u.now) == Total(u.log, s, u.now)
  {
    var c := Opened(u, mode, host, usd).calls[|u.calls|];
    QuietTotals(u, -1, s);
    SumPush(Committed, u.calls, c, s, u.now);
    RowTotal(c, s, u.now);
  }

  lemma BeginKeeps(w: World, mode: Mode, host: string, usd: nat)
    requires Inv(w) && Enabled(w, Begin(mode, host, usd)) && QuietBut(w, -1)
    ensures Inv(Next(w, Begin(mode, host, usd)))
  {
    SweepKeeps(w);
    var u := Next(w, Sweep);
    var v := Opened(u, mode, host, usd);
    RefusalMeaning(u.log, w.caps, host, usd, w.now);
    OpenedLinked(u, mode, host, usd);
    OpenedBalanced(u, mode, host, usd);
    OpenedCommitment(u, mode, host, usd, Everywhere);
    forall h ensures Within(v.caps.perHost, Sum(Committed, v.calls, OnHost(h), v.now)) {
      OpenedCommitment(u, mode, host, usd, OnHost(h));
    }
  }

  lemma SignedValues(w: World, i: nat, usd: nat, s: Scope)
    requires CallsOk(w) && Enabled(w, Sign(i, usd))
    ensures var was, c := w.calls[i], Next(w, Sign(i, usd)).calls[i];
            && Value(Committed, c, s, w.now) == (if InScope(was.host, s) then SentSum(was.sent) + usd else 0)
            && Value(Recorded, was, s, w.now) == Amount(was.rows[0], s, w.now)
            && (!InScope(was.host, s) ==> Value(Committed, was, s, w.now) == 0)
  {
    RowTotal(w.calls[i], s, w.now);
    RowTotal(Next(w, Sign(i, usd)).calls[i], s, w.now);
  }

  /** What signing `usd` makes the caps answer for. */
  lemma SignedCommitment(w: World, i: nat, usd: nat, s: Scope)
    requires CallsOk(w) && Linked(w) && Balanced(w) && QuietOn(w, i, s) && Enabled(w, Sign(i, usd))
    ensures Sum(Committed, Next(w, Sign(i, usd)).calls, s, w.now)
            == if InScope(w.calls[i].host, s)
               then SentSum(w.calls[i].sent) + usd + TotalExcept(w.log, Some(RowId(i, 0)), s, w.now)
               else Sum(Committed, w.calls, s, w.now)
  {
    SumUpdate(Committed, w.calls, i, Next(w, Sign(i, usd)).calls[i], s, w.now);
    SignedValues(w, i, usd, s);
    QuietTotals(w, i, s);
    OpenRowIsLogged(w, i);
    var j := FindRow(w, i);
    ExceptOwn(w.log, j, s, w.now);
  }

  lemma SignCapped(w: World, i: nat, usd: nat)
    requires Inv(w) && Enabled(w, Sign(i, usd)) && QuietBut(w, i)
    ensures Capped(Next(w, Sign(i, usd))) && Within(w.caps.perCall, usd)
  {
    var v := Next(w, Sign(i, usd));
    var was, c := w.calls[i], v.calls[i];
    AllowanceMeaning(w.log, w.caps, was.host, Some(RowId(i, 0)), SentSum(was.sent), w.now, usd);
    if usd == 0 {
      forall s ensures Value(Committed, c, s, w.now) <= Value(Committed, was, s, w.now) {
        RowTotal(was, s, w.now);
        RowTotal(c, s, w.now);
      }
      CapKept(w, i, c, v.log);
    } else {
      SignedCommitment(w, i, usd, Everywhere);
      forall h ensures Within(v.caps.perHost, Sum(Committed, v.calls, OnHost(h), v.now)) {
        SignedCommitment(w, i, usd, OnHost(h));
      }
    }
  }

  lemma HoldOne(log: seq<Row<RowId>>, row: Row<RowId>)
    ensures HoldLog(log, [row]) == Replace(log, row)
  {
  }

  lemma SignRelinks(w: World, i: nat, usd: nat)
    requires CallsOk(w) && Linked(w) && Balanced(w) && Enabled(w, Sign(i, usd)) && Within(w.caps.perCall, usd)
    ensures var v := Next(w, Sign(i, usd)); CallsOk(v) && Linked(v) && Balanced(v)
  {
    var row := w.calls[i].rows[0].(usd := usd);
    OpenRowIsLogged(w, i);
    HoldMoves(w, i, [row]);
    HoldOne(w.log, row);
    Relink(w, i, w.calls[i].(signing := Signed(usd), rows := [row]), Replace(w.log, row));
  }

  lemma SignKeeps(w: World, i: nat, usd: nat)
    requires Inv(w) && Enabled(w, Sign(i, usd)) && QuietBut(w, i)
    ensures Inv(Next(w, Sign(i, usd)))
  {
    SignCapped(w, i, usd);
    SignRelinks(w, i, usd);
  }

  lemma SigningKeeps(w: World, i: nat, c: Call)
    requires Inv(w) && i < |w.calls| && w.calls[i].open
    requires c.rows == w.calls[i].rows && c.host == w.calls[i].host && c.open && CallOk(c, i, w.now, w.caps)
    requires Outstanding(c) <= Outstanding(w.calls[i])
    ensures Inv(WithCall(w, i, c, w.log))
  {
    assert Moves(w, i, c.rows, w.log);
    Relink(w, i, c, w.log);
    CapKept(w, i, c, w.log);
  }

  lemma {:induction false} SentSumPush(sent: seq<Sent>, p: Sent)
    ensures SentSum(sent + [p]) == SentSum(sent) + p.usd
  {
    if sent == [] {
      assert sent + [p] == [p];
    } else {
      assert (sent + [p])[1..] == sent[1..] + [p];
      SentSumPush(sent[1..], p);
    }
  }

  lemma RecordKeeps(w: World, i: nat)
    requires Inv(w) && Enabled(w, Record(i))
    ensures Inv(Next(w, Record(i)))
  {
    var was, c := w.calls[i], Next(w, Record(i)).calls[i];
    var p := c.sent[|was.sent|];
    SentSumPush(was.sent, p);
    if p.expiry.At? { HoldOutlastsExpiry(p.expiry, MAX_VALIDITY_SECONDS, was.signing.at, w.now); }
    SigningKeeps(w, i, c);
  }

  lemma {:induction false} TotalAtMostSent(rows: seq<Row<RowId>>, sent: seq<Sent>, s: Scope, t: int)
    requires |rows| == |sent| && forall k :: 0 <= k < |sent| ==> rows[k].usd == sent[k].usd
    ensures Total(rows, s, t) <= SentSum(sent)
  {
    if sent == [] {
    } else {
      TotalAtMostSent(rows[1..], sent[1..], s, t);
    }
  }

  /** A call closes on rows that answer for all it sent and cost no more than it did. */
  lemma CloseKeeps(w: World, i: nat, c: Call)
    requires Inv(w) && i < |w.calls| && w.calls[i].open
    requires !c.open && c.host == w.calls[i].host && CallOk(c, i, w.now, w.caps) && c.rows != []
    requires forall s :: InScope(c.host, s) ==> Total(c.rows, s, w.now) <= Value(Committed, w.calls[i], s, w.now)
    ensures Inv(WithCall(w, i, c, HoldLog(w.log, c.rows)))
  {
    OpenRowIsLogged(w, i);
    HoldMoves(w, i, c.rows);
    Relink(w, i, c, HoldLog(w.log, c.rows));
    CapKept(w, i, c, HoldLog(w.log, c.rows));
  }

  lemma ReleaseKeeps(w: World, i: nat)
    requires Inv(w) && i < |w.calls| && w.calls[i].open && w.calls[i].sent == [] && w.calls[i].signing.Idle?
    ensures Inv(ReleaseCall(w, i))
  {
    var c := w.calls[i].(open := false, rows := [], ended := Some(w.now));
    var log := Remove(w.log, RowId(i, 0));
    OpenRowIsLogged(w, i);
    ReleaseMoves(w, i);
    Relink(w, i, c, log);
    CapKept(w, i, c, log);
  }

  function HeldCall(w: World, i: nat, delivered: bool, ownHost: bool): Call
    requires i < |w.calls| && |w.calls[i].rows| == 1
  {
    var c := w.calls[i];
    c.(open := false, rows := Hold(w, i, PaymentsOf(c.sent), delivered, ownHost),
       fates := Fates(|c.sent|, delivered, ownHost), ended := Some(w.now))
  }

  lemma HeldCallOk(w: World, i: nat, delivered: bool, ownHost: bool)
    requires Inv(w) && i < |w.calls| && w.calls[i].open && w.calls[i].signing.Idle? && !(delivered && ownHost)
    ensures CallOk(HeldCall(w, i, delivered, ownHost), i, w.now, w.caps)
  {
    var c := HeldCall(w, i, delivered, ownHost);
    forall k | 0 <= k < |c.sent| ensures Covers(c.rows[k], c.sent[k], c.fates[k]) { }
  }

  lemma FinishGuardedKeeps(w: World, i: nat, delivered: bool, ownHost: bool)
    requires Inv(w) && Enabled(w, Finish(i, delivered, ownHost)) && w.calls[i].mode.Guarded?
    ensures Inv(Next(w, Finish(i, delivered, ownHost)))
  {
    var was := w.calls[i];
    if was.sent == [] {
      ReleaseKeeps(w, i);
    } else {
      var c := HeldCall(w, i, delivered, ownHost);
      HeldCallOk(w, i, delivered, ownHost);
      forall s | InScope(c.host, s) ensures Total(c.rows, s, w.now) <= Value(Committed, was, s, w.now) {
        TotalAtMostSent(c.rows, was.sent, s, w.now);
      }
      CloseKeeps(w, i, c);
    }
  }

  /** Closing on one row of no larger amount. */
  lemma CloseOneKeeps(w: World, i: nat, c: Call)
    requires Inv(w) && i < |w.calls| && w.calls[i].open
    requires !c.open && c.host == w.calls[i].host && CallOk(c, i, w.now, w.caps)
    requires |c.rows| == 1 && c.rows[0].usd <= w.calls[i].rows[0].usd
    ensures Inv(WithCall(w, i, c, HoldLog(w.log, c.rows)))
  {
    forall s | InScope(c.host, s) ensures Total(c.rows, s, w.now) <= Value(Committed, w.calls[i], s, w.now) {
      RowTotal(c, s, w.now);
      RowTotal(w.calls[i], s, w.now);
    }
    CloseKeeps(w, i, c);
  }

  lemma FinishKeeps(w: World, i: nat, delivered: bool, ownHost: bool)
    requires Inv(w) && Enabled(w, Finish(i, delivered, ownHost))
    ensures Inv(Next(w, Finish(i, delivered, ownHost)))
  {
    if w.calls[i].mode.Guarded? {
      FinishGuardedKeeps(w, i, delivered, ownHost);
    } else {
      CloseOneKeeps(w, i, Next(w, Finish(i, delivered, ownHost)).calls[i]);
    }
  }

  lemma FinishCreditsKeeps(w: World, i: nat, booking: Booking)
    requires Inv(w) && Enabled(w, FinishCredits(i, booking))
    ensures Inv(Next(w, FinishCredits(i, booking)))
  {
    if booking.BookReleased? {
      ReleaseKeeps(w, i);
    } else {
      CloseOneKeeps(w, i, Next(w, FinishCredits(i, booking)).calls[i]);
    }
  }

  lemma SentCallOk(w: World, i: nat, usd: nat, signedAt: nat, timeout: nat)
    requires CallsOk(w) && Enabled(w, GatewaySend(i, usd, signedAt, timeout))
    ensures var c := Next(w, GatewaySend(i, usd, signedAt, timeout)).calls[i];
            CallOk(c, i, w.now, w.caps) && !c.open && |c.rows| == 1 && c.rows[0].usd == usd && c.host == w.calls[i].host
  {
    var c := Next(w, GatewaySend(i, usd, signedAt, timeout)).calls[i];
    GatewayHoldIsExact(signedAt, timeout, w.now);
    assert Covers(c.rows[0], c.sent[0], c.fates[0]);
  }

  lemma GatewaySendKeeps(w: World, i: nat, usd: nat, signedAt: nat, timeout: nat)
    requires Inv(w) && Enabled(w, GatewaySend(i, usd, signedAt, timeout))
    ensures Inv(Next(w, GatewaySend(i, usd, signedAt, timeout)))
  {
    var v := Next(w, GatewaySend(i, usd, signedAt, timeout));
    var c := v.calls[i];
    SentCallOk(w, i, usd, signedAt, timeout);
    CloseOneKeeps(w, i, c);
    assert v == WithCall(w, i, c, HoldLog(w.log, c.rows));
  }

  /** What is known of a Gateway call once its outcome is: its row never costs more. */
  lemma ResolvedCall(w: World, i: nat, delivered: bool)
    requires Inv(w) && Enabled(w, GatewayResolve(i, delivered))
    ensures var was, c := w.calls[i], Next(w, GatewayResolve(i, delivered)).calls[i];
            && CallOk(c, i, w.now, w.caps) && |c.rows| == 1 && c.host == was.host && !c.open && !was.open
            && c.rows[0].usd == was.rows[0].usd
            && (CountsAt(c.rows[0], w.now) ==> CountsAt(was.rows[0], w.now))
  {
    var was, c := w.calls[i], Next(w, GatewayResolve(i, delivered)).calls[i];
    assert Covers(was.rows[0], was.sent[0], was.fates[0]);
    assert Covers(c.rows[0], c.sent[0], c.fates[0]);
    assert c.sent[0].expiry.At? && HoldLasts(c.sent[0]);
  }

  /** A closed call's one row is rewritten and costs no more than it did. */
  lemma RewriteKeeps(w: World, i: nat, c: Call)
    requires Inv(w) && i < |w.calls| && !w.calls[i].open && |w.calls[i].rows| == 1
    requires CallOk(c, i, w.now, w.caps) && |c.rows| == 1 && c.host == w.calls[i].host && !c.open
    requires c.rows[0].usd == w.calls[i].rows[0].usd
    requires CountsAt(c.rows[0], w.now) ==> CountsAt(w.calls[i].rows[0], w.now)
    ensures Inv(WithCall(w, i, c, HoldLog(w.log, c.rows)))
  {
    assert c.rows == [c.rows[0]];
    ResolveMoves(w, i, c.rows[0]);
    Relink(w, i, c, HoldLog(w.log, c.rows));
    forall s ensures Value(Committed, c, s, w.now) <= Value(Committed, w.calls[i], s, w.now) {
      RowTotal(w.calls[i], s, w.now);
      RowTotal(c, s, w.now);
    }
    CapKept(w, i, c, HoldLog(w.log, c.rows));
  }

  lemma GatewayResolveKeeps(w: World, i: nat, delivered: bool)
    requires Inv(w) && Enabled(w, GatewayResolve(i, delivered))
    ensures Inv(Next(w, GatewayResolve(i, delivered)))
  {
    ResolvedCall(w, i, delivered);
    RewriteKeeps(w, i, Next(w, GatewayResolve(i, delivered)).calls[i]);
  }

  lemma SigningStepKeeps(w: World, step: Step)
    requires Inv(w) && Enabled(w, step) && Disciplined(w, step)
             && (step.Sign? || step.Check? || step.Abort? || step.Record?)
    ensures Inv(Next(w, step))
  {
    match step
    case Sign(i, usd) => SignKeeps(w, i, usd);
    case Record(i) => RecordKeeps(w, i);
    case Check(i, _, _) => SigningKeeps(w, i, Next(w, step).calls[i]);
    case Abort(i) => SigningKeeps(w, i, Next(w, step).calls[i]);
  }

  lemma EndingStepKeeps(w: World, step: Step)
    requires Inv(w) && Enabled(w, step)
    requires step.Finish? || step.FinishCredits? || step.GatewaySend? || step.GatewayDrop? || step.GatewayResolve?
    ensures Inv(Next(w, step))
  {
    match step
    case Finish(i, delivered, ownHost) => FinishKeeps(w, i, delivered, ownHost);
    case FinishCredits(i, booking) => FinishCreditsKeeps(w, i, booking);
    case GatewaySend(i, usd, signedAt, timeout) => GatewaySendKeeps(w, i, usd, signedAt, timeout);
    case GatewayDrop(i) => ReleaseKeeps(w, i);
    case GatewayResolve(i, delivered) => GatewayResolveKeeps(w, i, delivered);
  }

  /** Every disciplined step, of every call, keeps the invariant. */
  lemma StepKeeps(w: World, step: Step)
    requires Inv(w) && Enabled(w, step) && Disciplined(w, step)
    ensures Inv(Next(w, step))
  {
    match step
    case Tick(to) => TickKeeps(w, to);
    case Sweep => SweepKeeps(w);
    case Begin(mode, host, usd) => BeginKeeps(w, mode, host, usd);
    case Sign(_, _) => SigningStepKeeps(w, step);
    case Check(_, _, _) => SigningStepKeeps(w, step);
    case Abort(_) => SigningStepKeeps(w, step);
    case Record(_) => SigningStepKeeps(w, step);
    case _ => EndingStepKeeps(w, step);
  }

  lemma CapsKept(w: World, step: Step)
    requires Enabled(w, step)
    ensures Next(w, step).caps == w.caps
  {
  }

  lemma {:induction false} RunKeeps(w: World, steps: seq<Step>)
    requires Inv(w) && Runs(w, steps) && DisciplinedRun(w, steps)
    ensures Inv(After(w, steps)) && After(w, steps).caps == w.caps
    decreases |steps|
  {
    if steps == [] {
    } else {
      StepKeeps(w, steps[0]);
      CapsKept(w, steps[0]);
      RunKeeps(Next(w, steps[0]), steps[1..]);
    }
  }

  // ---- main results ------------------------------------------------------------------

  /** Over every disciplined run, the payments sellers were given and can still
      take, or took inside the window, stay within the rolling caps; so does
      everything the log counts. A delivered payment is among them while it can still
      be redeemed too, if each expires in its window. */
  lemma ExposureBound(now: nat, caps: Caps, steps: seq<Step>, host: string)
    requires Runs(Start(now, caps), steps) && DisciplinedRun(Start(now, caps), steps)
    ensures var w := After(Start(now, caps), steps);
            && Within(caps.daily, Sum(Exposure, w.calls, Everywhere, w.now))
            && Within(caps.perHost, Sum(Exposure, w.calls, OnHost(host), w.now))
            && Within(caps.daily, Total(w.log, Everywhere, w.now))
            && Within(caps.perHost, Total(w.log, OnHost(host), w.now))
            && (AllDeliveredExpire(w) ==>
                  && Within(caps.daily, Sum(Takeable, w.calls, Everywhere, w.now))
                  && Within(caps.perHost, Sum(Takeable, w.calls, OnHost(host), w.now)))
  {
    RunKeeps(Start(now, caps), steps);
    var w := After(Start(now, caps), steps);
    ExposureWithinCaps(w, host);
    if AllDeliveredExpire(w) {
      TakeableWithinExposure(w, Everywhere);
      TakeableWithinExposure(w, OnHost(host));
    }
  }

  /** No payload that left a guarded or Gateway call exceeds the per-call cap. */
  lemma PerCallBound(now: nat, caps: Caps, steps: seq<Step>, i: nat, k: nat)
    requires Runs(Start(now, caps), steps) && DisciplinedRun(Start(now, caps), steps)
    requires i < |After(Start(now, caps), steps).calls| && k < |After(Start(now, caps), steps).calls[i].sent|
    ensures Within(caps.perCall, After(Start(now, caps), steps).calls[i].sent[k].usd)
  {
    RunKeeps(Start(now, caps), steps);
  }

  /** Where the money a call may cost is in the log. From the end of its call until
      its own expiry, a payment that was not delivered has an entry of its own, of
      exactly its amount, that counts. While the call is open its reservation counts,
      and shows all the call has sent exactly when it hides nothing. */
  lemma RedeemableIsLogged(now: nat, caps: Caps, steps: seq<Step>, i: nat)
    requires Runs(Start(now, caps), steps) && DisciplinedRun(Start(now, caps), steps)
    requires i < |After(Start(now, caps), steps).calls|
    ensures var w := After(Start(now, caps), steps);
            var c := w.calls[i];
            if c.open then
              exists e :: e in w.log && e.id == RowId(i, 0) && CountsAt(e, w.now) &&
                          (Outstanding(c) <= e.usd <==> !Hides(c))
            else
              |c.fates| == |c.sent| &&
              forall k :: 0 <= k < |c.sent| && Exposed(c.sent[k], c.fates[k], c.ts, w.now) ==>
                exists e :: e in w.log && e.id == RowId(i, k) && e.usd == c.sent[k].usd && CountsAt(e, w.now)
  {
    RunKeeps(Start(now, caps), steps);
    var w := After(Start(now, caps), steps);
    var c := w.calls[i];
    if c.open {
      OpenRowIsLogged(w, i);
    } else {
      forall k | 0 <= k < |c.sent| && Exposed(c.sent[k], c.fates[k], c.ts, w.now)
        ensures exists e :: e in w.log && e.id == RowId(i, k) && e.usd == c.sent[k].usd && CountsAt(e, w.now)
      {
        CoveredCounts(c.rows[k], c.sent[k], c.fates[k], w.now);
        assert c.rows[k] in w.log;
      }
    }
  }

  /** The second check of the allowance, after signing, never refuses the amount
      the first one admitted, whatever other calls did in between, as long as
      this call has sent nothing else. */
  lemma NoSpuriousRefusal(now: nat, caps: Caps, steps: seq<Step>, i: nat)
    requires Runs(Start(now, caps), steps) && DisciplinedRun(Start(now, caps), steps)
    requires i < |After(Start(now, caps), steps).calls|
    ensures var w := After(Start(now, caps), steps);
            var c := w.calls[i];
            c.open && !c.signing.Idle? && c.sent == [] ==> AllowanceOf(w, i).Allows(c.signing.usd)
  {
    RunKeeps(Start(now, caps), steps);
    var w := After(Start(now, caps), steps);
    var c := w.calls[i];
    if c.open && !c.signing.Idle? && c.sent == [] {
      OpenRowIsLogged(w, i);
      var j := FindRow(w, i);
      ExposureWithinCaps(w, c.host);
      ExceptOwn(w.log, j, Everywhere, w.now);
      ExceptOwn(w.log, j, OnHost(c.host), w.now);
      AllowanceMeaning(w.log, w.caps, c.host, Some(RowId(i, 0)), 0, w.now, c.signing.usd);
    }
  }
}
