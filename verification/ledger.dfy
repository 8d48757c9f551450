/** The buyer's spend log as a value: what each row counts for, what the caps
    and the signing allowance read, and what every log operation does to the
    totals. `Id` stands for the identity of a log entry, so that the same
    functions specify the class of objects (client.dfy) and the interleaved
    calls (spending.dfy). Amounts are whole units of 1e-7 USD. */
module Ledger {
  import opened Types

  const SPEND_WINDOW_MS := 24 * 60 * 60 * 1000
  const DEFAULT_HOST_BLIND_HOLD_MS := 15 * 60 * 1000

  datatype RowState = Reserved | Held | Settled

  datatype Row<Id> = Row(id: Id, ts: int, host: string, usd: nat, state: RowState, until: Option<int>, ownHost: bool)

  /** A payload that left the process, as the client recorded it. */
  datatype Payment = Payment(usd: nat, until: Option<int>)

  datatype Caps = Caps(perCall: Option<nat>, daily: Option<nat>, perHost: Option<nat>)

  datatype Limit = MaxPerCallUsd | DailyLimitUsd | MaxPerHostUsd

  datatype Scope = Everywhere | OnHost(host: string)

  predicate CountsAt<Id>(e: Row<Id>, now: int) {
    if e.state.Held? && e.ownHost then
      e.until.Some? && e.until.value > now
    else
      e.ts >= now - SPEND_WINDOW_MS || (e.state.Held? && e.until.Some? && e.until.value > now)
  }

  predicate InScope(host: string, s: Scope) {
    s.OnHost? ==> s.host == host
  }

  function Amount<Id>(e: Row<Id>, s: Scope, now: int): nat {
    if InScope(e.host, s) && CountsAt(e, now) then e.usd else 0
  }

  /** What the caps count at `now`. */
  function Total<Id>(rows: seq<Row<Id>>, s: Scope, now: int): nat {
    if rows == [] then 0 else Amount(rows[0], s, now) + Total(rows[1..], s, now)
  }

  /** The same, leaving out the entry being replaced. */
  function TotalExcept<Id(==)>(rows: seq<Row<Id>>, own: Option<Id>, s: Scope, now: int): nat {
    if rows == [] then 0
    else (if own == Some(rows[0].id) then 0 else Amount(rows[0], s, now)) + TotalExcept(rows[1..], own, s, now)
  }

  predicate DistinctIds<Id(==)>(rows: seq<Row<Id>>) {
    forall i, j :: 0 <= i < j < |rows| ==> rows[i].id != rows[j].id
  }

  predicate HasId<Id(==)>(rows: seq<Row<Id>>, id: Id) {
    exists i :: 0 <= i < |rows| && rows[i].id == id
  }

  // ---- operations on the log ------------------------------------------------

  function Prune<Id>(rows: seq<Row<Id>>, now: int): seq<Row<Id>> {
    if rows == [] then []
    else (if CountsAt(rows[0], now) then [rows[0]] else []) + Prune(rows[1..], now)
  }

  /** An entry is an object: changing it changes every place the log holds it. */
  function Replace<Id(==)>(rows: seq<Row<Id>>, e: Row<Id>): (r: seq<Row<Id>>)
    ensures |r| == |rows|
    ensures forall i :: 0 <= i < |rows| ==> r[i] == if rows[i].id == e.id then e else rows[i]
  {
    if rows == [] then [] else [if rows[0].id == e.id then e else rows[0]] + Replace(rows[1..], e)
  }

  function Remove<Id(==)>(rows: seq<Row<Id>>, id: Id): seq<Row<Id>> {
    if rows == [] then [] else if rows[0].id == id then rows[1..] else [rows[0]] + Remove(rows[1..], id)
  }

  /** One payload of a call booked on its row. */
  function Book<Id>(e: Row<Id>, p: Payment, settled: bool, ownHost: bool, now: int): Row<Id> {
    e.(usd := p.usd,
       state := if settled then Settled else Held,
       ownHost := !settled && ownHost,
       until := if settled then None
                else if p.until.Some? then p.until
                else if ownHost then Some(now + DEFAULT_HOST_BLIND_HOLD_MS)
                else None)
  }

  /** The rows a finished call leaves: the reservation books the first payload,
      each further payload gets a row of its own with the reservation's time
      and host. */
  function Booked<Id>(e: Row<Id>, list: seq<Payment>, ids: seq<Id>, settleLast: bool, ownHost: bool,
                      now: int): (r: seq<Row<Id>>)
    requires |ids| == |list|
    ensures |r| == |list|
    ensures forall k :: 0 <= k < |list| ==>
      r[k] == Book(e.(id := ids[k]), list[k], settleLast && k == |list| - 1, ownHost, now)
  {
    if list == [] then []
    else
      var n := |list| - 1;
      var front: seq<Row<Id>> := seq(n, k requires 0 <= k < n => Book(e.(id := ids[k]), list[k], false, ownHost, now));
      front + [Book(e.(id := ids[n]), list[n], settleLast, ownHost, now)]
  }

  function HoldLog<Id(==)>(rows: seq<Row<Id>>, booked: seq<Row<Id>>): seq<Row<Id>>
    requires booked != []
  {
    Replace(rows, booked[0]) + booked[1..]
  }

  // ---- the caps --------------------------------------------------------------

  /** Why paying `usd` to `host` would break a cap, the first one that would. */
  function Refusal<Id>(rows: seq<Row<Id>>, caps: Caps, host: string, usd: nat, now: int): Option<Limit> {
    if caps.perCall.Some? && usd > caps.perCall.value then Some(MaxPerCallUsd)
    else if caps.daily.Some? && Total(rows, Everywhere, now) + usd > caps.daily.value then Some(DailyLimitUsd)
    else if caps.perHost.Some? && Total(rows, OnHost(host), now) + usd > caps.perHost.value then Some(MaxPerHostUsd)
    else None
  }

  /** What may still be signed; `cap` None means no limit. */
  datatype Allowance = Allowance(cap: Option<int>, limit: Option<Limit>) {
    function Tighten(value: int, name: Limit): Allowance {
      if cap.None? || value < cap.value then Allowance(Some(value), Some(name)) else this
    }

    function AtLeastZero(): Allowance {
      if cap.Some? then this.(cap := Some(Max(0, cap.value))) else this
    }

    predicate Allows(usd: nat) {
      cap.Some? ==> usd <= cap.value
    }
  }

  function SignAllowance<Id(==)>(rows: seq<Row<Id>>, caps: Caps, host: string, own: Option<Id>, ownSent: nat,
                                 now: int): Allowance
  {
    var a0 := Allowance(None, None);
    var a1 := if caps.perCall.Some? then a0.Tighten(caps.perCall.value, MaxPerCallUsd) else a0;
    var a2 := if caps.daily.Some?
              then a1.Tighten(caps.daily.value - ownSent - TotalExcept(rows, own, Everywhere, now), DailyLimitUsd)
              else a1;
    var a3 := if caps.perHost.Some?
              then a2.Tighten(caps.perHost.value - ownSent - TotalExcept(rows, own, OnHost(host), now), MaxPerHostUsd)
              else a2;
    a3.AtLeastZero()
  }

  predicate Within(limit: Option<nat>, usd: int) {
    limit.Some? ==> usd <= limit.value
  }

  /** What the allowance means: a positive amount passes exactly when every cap
      still holds with it beside what this call has sent and what every other
      entry counts. An amount of zero always passes. */
  lemma AllowanceMeaning<Id>(rows: seq<Row<Id>>, caps: Caps, host: string, own: Option<Id>, ownSent: nat, now: int,
                             usd: nat)
    ensures SignAllowance(rows, caps, host, own, ownSent, now).Allows(usd)
            <==> usd == 0
                 || (&& Within(caps.perCall, usd)
                     && Within(caps.daily, ownSent + TotalExcept(rows, own, Everywhere, now) + usd)
                     && Within(caps.perHost, ownSent + TotalExcept(rows, own, OnHost(host), now) + usd))
  {
  }

  /** A reservation is accepted exactly when every cap holds with it; otherwise the
      first cap it breaks is named. */
  lemma RefusalMeaning<Id>(rows: seq<Row<Id>>, caps: Caps, host: string, usd: nat, now: int)
    ensures Refusal(rows, caps, host, usd, now).None?
            <==> && Within(caps.perCall, usd)
                 && Within(caps.daily, Total(rows, Everywhere, now) + usd)
                 && Within(caps.perHost, Total(rows, OnHost(host), now) + usd)
    ensures Refusal(rows, caps, host, usd, now) == Some(MaxPerCallUsd) <==> !Within(caps.perCall, usd)
    ensures Refusal(rows, caps, host, usd, now) == Some(DailyLimitUsd)
            <==> Within(caps.perCall, usd) && !Within(caps.daily, Total(rows, Everywhere, now) + usd)
  {
  }

  /** What is left under one cap once this call's payloads and every other entry
      are taken off. */
  function Left<Id(==)>(rows: seq<Row<Id>>, caps: Caps, name: Limit, host: string, own: Option<Id>, ownSent: nat,
                        now: int): Option<int>
  {
    match name
    case MaxPerCallUsd => if caps.perCall.Some? then Some(caps.perCall.value) else None
    case DailyLimitUsd =>
      if caps.daily.None? then None
      else Some(caps.daily.value - ownSent - TotalExcept(rows, own, Everywhere, now))
    case MaxPerHostUsd =>
      if caps.perHost.None? then None
      else Some(caps.perHost.value - ownSent - TotalExcept(rows, own, OnHost(host), now))
  }

  /** The allowance is what is left under the tightest cap, and names that cap;
      without caps it is no limit at all. */
  lemma AllowanceIsTheTightest<Id>(rows: seq<Row<Id>>, caps: Caps, host: string, own: Option<Id>, ownSent: nat,
                                   now: int)
    ensures var a := SignAllowance(rows, caps, host, own, ownSent, now);
            if a.limit.Some? then
              && Left(rows, caps, a.limit.value, host, own, ownSent, now).Some?
              && a.cap == Some(Max(0, Left(rows, caps, a.limit.value, host, own, ownSent, now).value))
              && forall name :: Left(rows, caps, name, host, own, ownSent, now).Some? ==>
                   Left(rows, caps, a.limit.value, host, own, ownSent, now).value
                   <= Left(rows, caps, name, host, own, ownSent, now).value
            else a.cap.None? && caps == Caps(None, None, None)
    // of two caps that leave as much, the one named first here is meant
    ensures var a := SignAllowance(rows, caps, host, own, ownSent, now);
            && (a.limit == Some(DailyLimitUsd) ==>
                  caps.perCall.None? || Left(rows, caps, DailyLimitUsd, host, own, ownSent,
                                             now).value < caps.perCall.value)
            && (a.limit == Some(MaxPerHostUsd) ==>
                  var least := Left(rows, caps, MaxPerHostUsd, host, own, ownSent, now).value;
                  && (caps.perCall.None? || least < caps.perCall.value)
                  && (caps.daily.None? || least < Left(rows, caps, DailyLimitUsd, host, own, ownSent, now).value))
  {
  }

  // ---- how the operations move the totals -------------------------------------

  /** Nothing starts counting by waiting. */
  lemma CountsMonotone<Id>(e: Row<Id>, now: int, later: int)
    requires now <= later && CountsAt(e, later)
    ensures CountsAt(e, now)
  {
  }

  lemma TotalAppend<Id>(a: seq<Row<Id>>, b: seq<Row<Id>>, s: Scope, now: int)
    ensures Total(a + b, s, now) == Total(a, s, now) + Total(b, s, now)
  {
    if a == [] {
      assert a + b == b;
    } else {
      assert (a + b)[1..] == a[1..] + b;
      TotalAppend(a[1..], b, s, now);
    }
  }

  lemma {:induction false} TotalMonotone<Id>(rows: seq<Row<Id>>, s: Scope, now: int, later: int)
    requires now <= later
    ensures Total(rows, s, later) <= Total(rows, s, now)
  {
    if rows == [] {
    } else {
      TotalMonotone(rows[1..], s, now, later);
      if CountsAt(rows[0], later) { CountsMonotone(rows[0], now, later); }
    }
  }

  lemma {:induction false} TotalScope<Id>(rows: seq<Row<Id>>, s: Scope, now: int)
    ensures Total(rows, s, now) <= Total(rows, Everywhere, now)
  {
    if rows == [] {
    } else {
      TotalScope(rows[1..], s, now);
    }
  }

  /** Pruning is invisible to the caps, now and at any later time. */
  lemma {:induction false} PruneKeepsTotals<Id>(rows: seq<Row<Id>>, s: Scope, now: int, later: int)
    requires now <= later
    ensures Total(Prune(rows, now), s, later) == Total(rows, s, later)
  {
    if rows == [] {
    } else {
      PruneKeepsTotals(rows[1..], s, now, later);
      if CountsAt(rows[0], now) {
        assert Prune(rows, now)[1..] == Prune(rows[1..], now);
      } else {
        if CountsAt(rows[0], later) { CountsMonotone(rows[0], now, later); }
        assert Prune(rows, now) == Prune(rows[1..], now);
      }
    }
  }

  lemma {:induction false} PruneMember<Id>(rows: seq<Row<Id>>, now: int, e: Row<Id>)
    ensures e in Prune(rows, now) <==> e in rows && CountsAt(e, now)
  {
    if rows == [] {
    } else {
      PruneMember(rows[1..], now, e);
      assert rows == [rows[0]] + rows[1..];
    }
  }

  lemma {:induction false} PruneDistinct<Id>(rows: seq<Row<Id>>, now: int)
    requires DistinctIds(rows)
    ensures DistinctIds(Prune(rows, now))
  {
    if rows == [] {
    } else {
      var rest := Prune(rows[1..], now);
      PruneDistinct(rows[1..], now);
      forall j | 0 <= j < |rest| ensures rest[j].id != rows[0].id {
        PruneMember(rows[1..], now, rest[j]);
        var k :| 0 <= k < |rows[1..]| && rows[1..][k] == rest[j];
        assert rows[k + 1] == rest[j];
      }
    }
  }

  lemma SameEntry<Id>(rows: seq<Row<Id>>, a: Row<Id>, b: Row<Id>)
    requires DistinctIds(rows) && a in rows && b in rows && a.id == b.id
    ensures a == b
  {
  }

  lemma {:induction false} TotalReplace<Id>(rows: seq<Row<Id>>, j: nat, e: Row<Id>, s: Scope, now: int)
    requires DistinctIds(rows) && j < |rows| && rows[j].id == e.id
    ensures Total(Replace(rows, e), s, now) == Total(rows, s, now) - Amount(rows[j], s, now) + Amount(e, s, now)
  {
    assert Replace(rows, e)[1..] == Replace(rows[1..], e);
    if j == 0 {
      ReplaceAbsent(rows[1..], e);
    } else {
      assert rows[0].id != rows[j].id;
      TotalReplace(rows[1..], j - 1, e, s, now);
    }
  }

  lemma ReplaceAbsent<Id>(rows: seq<Row<Id>>, e: Row<Id>)
    requires !HasId(rows, e.id)
    ensures Replace(rows, e) == rows
  {
  }

  lemma ReplaceMember<Id>(rows: seq<Row<Id>>, j: nat, e: Row<Id>, x: Row<Id>)
    requires DistinctIds(rows) && j < |rows| && rows[j].id == e.id
    ensures x in Replace(rows, e) <==> x == e || (x in rows && x.id != e.id)
  {
    var r := Replace(rows, e);
    assert r[j] == e;
    if x in rows && x.id != e.id {
      var k :| 0 <= k < |rows| && rows[k] == x;
      assert r[k] == x;
    }
  }

  lemma {:induction false} TotalRemove<Id>(rows: seq<Row<Id>>, j: nat, s: Scope, now: int)
    requires DistinctIds(rows) && j < |rows|
    ensures Total(Remove(rows, rows[j].id), s, now) == Total(rows, s, now) - Amount(rows[j], s, now)
  {
    if j == 0 {
    } else {
      assert rows[0].id != rows[j].id;
      TotalRemove(rows[1..], j - 1, s, now);
    }
  }

  lemma {:induction false} RemoveMember<Id>(rows: seq<Row<Id>>, id: Id, e: Row<Id>)
    requires DistinctIds(rows)
    ensures e in Remove(rows, id) <==> e in rows && e.id != id
  {
    if rows == [] {
    } else {
      RemoveMember(rows[1..], id, e);
      assert rows == [rows[0]] + rows[1..];
      if rows[0].id == id && e in rows[1..] {
        var k :| 0 <= k < |rows[1..]| && rows[1..][k] == e;
        assert rows[k + 1] == e;
      }
    }
  }

  lemma {:induction false} RemoveDistinct<Id>(rows: seq<Row<Id>>, id: Id)
    requires DistinctIds(rows)
    ensures DistinctIds(Remove(rows, id))
  {
    if rows != [] && rows[0].id != id {
      var rest := Remove(rows[1..], id);
      RemoveDistinct(rows[1..], id);
      forall j | 0 <= j < |rest| ensures rest[j].id != rows[0].id {
        RemoveMember(rows[1..], id, rest[j]);
        var k :| 0 <= k < |rows[1..]| && rows[1..][k] == rest[j];
        assert rows[k + 1] == rest[j];
      }
    }
  }

  lemma {:induction false} ExceptOwn<Id>(rows: seq<Row<Id>>, j: nat, s: Scope, now: int)
    requires DistinctIds(rows) && j < |rows|
    ensures TotalExcept(rows, Some(rows[j].id), s, now) == Total(rows, s, now) - Amount(rows[j], s, now)
  {
    if j == 0 {
      ExceptAbsent(rows[1..], rows[0].id, s, now);
    } else {
      assert rows[0].id != rows[j].id;
      ExceptOwn(rows[1..], j - 1, s, now);
    }
  }

  lemma {:induction false} ExceptAbsent<Id>(rows: seq<Row<Id>>, id: Id, s: Scope, now: int)
    requires !HasId(rows, id)
    ensures TotalExcept(rows, Some(id), s, now) == Total(rows, s, now)
  {
    if rows == [] {
    } else {
      assert rows[0].id != id;
      assert forall i :: 0 <= i < |rows[1..]| ==> rows[1..][i] == rows[i + 1];
      ExceptAbsent(rows[1..], id, s, now);
    }
  }

  // ---- the operations as loops build them up --------------------------------------

  lemma {:induction false} PruneAppend<Id>(a: seq<Row<Id>>, e: Row<Id>, now: int)
    ensures Prune(a + [e], now) == Prune(a, now) + if CountsAt(e, now) then [e] else []
  {
    if a == [] {
      assert a + [e] == [e];
    } else {
      PruneAppend(a[1..], e, now);
      assert (a + [e])[0] == a[0] && (a + [e])[1..] == a[1..] + [e];
      assert Prune(a + [e], now) == (if CountsAt(a[0], now) then [a[0]] else []) + Prune(a[1..] + [e], now);
    }
  }

  lemma {:induction false} ExceptAppend<Id>(a: seq<Row<Id>>, e: Row<Id>, own: Option<Id>, s: Scope, now: int)
    ensures TotalExcept(a + [e], own, s, now)
            == TotalExcept(a, own, s, now) + if own == Some(e.id) then 0 else Amount(e, s, now)
  {
    if a == [] {
      assert a + [e] == [e];
    } else {
      assert (a + [e])[1..] == a[1..] + [e];
      ExceptAppend(a[1..], e, own, s, now);
    }
  }

  lemma {:induction false} ExceptNone<Id>(a: seq<Row<Id>>, s: Scope, now: int)
    ensures TotalExcept(a, None, s, now) == Total(a, s, now)
  {
    if a == [] {
    } else {
      ExceptNone(a[1..], s, now);
    }
  }

  lemma {:induction false} RemoveAt<Id>(a: seq<Row<Id>>, i: nat)
    requires i < |a| && forall j :: 0 <= j < i ==> a[j].id != a[i].id
    ensures Remove(a, a[i].id) == a[..i] + a[i + 1..]
  {
    if i == 0 {
      assert a[..0] + a[1..] == a[1..];
    } else {
      RemoveAt(a[1..], i - 1);
      assert a[..i] + a[i + 1..] == [a[0]] + (a[1..][..i - 1] + a[1..][i..]);
    }
  }

  lemma {:induction false} RemoveAbsent<Id>(a: seq<Row<Id>>, id: Id)
    requires !HasId(a, id)
    ensures Remove(a, id) == a
  {
    if a == [] {
    } else {
      assert a[0].id != id;
      assert forall i :: 0 <= i < |a[1..]| ==> a[1..][i] == a[i + 1];
      RemoveAbsent(a[1..], id);
    }
  }

  // ---- what an entry weighs, and until when ---------------------------------------

  /** A reservation weighs its amount until 24 h after it was made. */
  lemma ReservationWeighs<Id>(e: Row<Id>, t: int)
    requires e.state.Reserved?
    ensures Total([e], Everywhere, t) == if t <= e.ts + 86_400_000 then e.usd else 0
  {
    assert [e][1..] == [];
  }

  /** A payment weighs its amount: when it was settled, until 24 h after its
      reservation; when the own host refused it, until its hold ends, or for 15
      minutes after the answer when it names no end, and the window is nothing to
      it; when its outcome is unknown, until both the window and its hold are over. */
  lemma PaymentWeighs<Id>(e: Row<Id>, p: Payment, settled: bool, own: bool, now: int, t: int)
    ensures Total([Book(e, p, settled, own, now)], Everywhere, t)
            == var inWindow, held := t <= e.ts + 86_400_000, p.until.Some? && t < p.until.value;
               if settled then (if inWindow then p.usd else 0)
               else if own then (if held || (p.until.None? && t < now + 900_000) then p.usd else 0)
               else if inWindow || held then p.usd
               else 0
  {
    assert [Book(e, p, settled, own, now)][1..] == [];
  }

  /** On one host an entry weighs what it weighs everywhere, or nothing. */
  lemma HostWeighs<Id>(e: Row<Id>, host: string, t: int)
    ensures Total([e], OnHost(host), t) == if e.host == host then Total([e], Everywhere, t) else 0
  {
    assert [e][1..] == [];
  }

  // ---- two facts about the window ----------------------------------------------

  /** The reservation of a call still being made survives a later call's pruning
      exactly while it is at most 24 h old. Past that the entry is gone from the
      log, and booking its payment changes nothing the caps read. */
  lemma ReservationSurvivesExactly<Id>(rows: seq<Row<Id>>, e: Row<Id>, now: int)
    requires e in rows && e.state.Reserved? && DistinctIds(rows)
    ensures e in Prune(rows, now) <==> now <= e.ts + SPEND_WINDOW_MS
    ensures now > e.ts + SPEND_WINDOW_MS ==>
              forall e': Row<Id> :: e'.id == e.id ==> Replace(Prune(rows, now), e') == Prune(rows, now)
  {
    PruneMember(rows, now, e);
    if now > e.ts + SPEND_WINDOW_MS {
      forall e': Row<Id> | e'.id == e.id ensures Replace(Prune(rows, now), e') == Prune(rows, now) {
        var p := Prune(rows, now);
        forall i | 0 <= i < |p| ensures p[i].id != e.id {
          PruneMember(rows, now, p[i]);
          if p[i].id == e.id { SameEntry(rows, p[i], e); }
        }
        ReplaceAbsent(p, e');
      }
    }
  }

  /** What is then booked: the first payload is nowhere, each further one has an entry
      of its own, and that one counts exactly while it is held and its hold lasts. */
  lemma LateBookingShowsTheRest<Id>(rows: seq<Row<Id>>, e: Row<Id>, list: seq<Payment>, ids: seq<Id>,
                                    settleLast: bool, own: bool, now: int, s: Scope, t: int)
    requires e in rows && e.state.Reserved? && DistinctIds(rows) && now > e.ts + SPEND_WINDOW_MS && t >= now
    requires list != [] && |ids| == |list| && ids[0] == e.id
    ensures var booked := Booked(e, list, ids, settleLast, own, now);
            && HoldLog(Prune(rows, now), booked) == Prune(rows, now) + booked[1..]
            && Total(HoldLog(Prune(rows, now), booked), s, t) == Total(rows, s, t) + Total(booked[1..], s, t)
            && forall k :: 0 <= k < |booked| ==>
                 (CountsAt(booked[k], t)
                  <==> booked[k].state.Held? && booked[k].until.Some? && booked[k].until.value > t)
  {
    var booked := Booked(e, list, ids, settleLast, own, now);
    ReservationSurvivesExactly(rows, e, now);
    TotalAppend(Prune(rows, now), booked[1..], s, t);
    PruneKeepsTotals(rows, s, now, t);
  }

  /** The window of a settled payment runs from its reservation: an answer that
      arrived at `settledAt` is counted for a whole 24 h after it exactly when
      it arrived no later than it was reserved. */
  lemma SettledWindowRunsFromReservation<Id>(e: Row<Id>, settledAt: int)
    requires e.state.Settled?
    ensures (forall now | settledAt <= now <= settledAt + SPEND_WINDOW_MS :: CountsAt(e, now)) <==> settledAt <= e.ts
  {
    if forall now | settledAt <= now <= settledAt + SPEND_WINDOW_MS :: CountsAt(e, now) {
      assert CountsAt(e, settledAt + SPEND_WINDOW_MS);
    }
  }
}
