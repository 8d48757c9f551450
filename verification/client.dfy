/** The spend log as the client keeps it: one list of entry objects, changed in
    place through the handles calls hold. Every method is proved to do to the
    log exactly what the functions of `Ledger` say. */
module Client {
  import opened Types
  import opened Ledger

  class Entry {
    const ts: int
    const host: string
    var usd: nat
    var state: RowState
    var until: Option<int>
    var ownHost: bool

    constructor (ts: int, host: string, usd: nat, state: RowState)
      ensures this.ts == ts && this.host == host && this.usd == usd && this.state == state
      ensures until == None && !ownHost
    {
      this.ts, this.host, this.usd, this.state := ts, host, usd, state;
      this.until, this.ownHost := None, false;
    }

    function AsRow(): Row<Entry>
      reads this
    {
      Row(this, ts, host, usd, state, until, ownHost)
    }

    method BookPayment(p: Payment, settled: bool, own: bool, blindUntil: int)
      modifies this
      ensures AsRow() == Book(old(AsRow()), p, settled, own, blindUntil - DEFAULT_HOST_BLIND_HOLD_MS)
    {
      usd := p.usd;
      state := if settled then Settled else Held;
      ownHost := state.Held? && own;
      until := if !state.Held? then None
               else if p.until.Some? then p.until
               else if ownHost then Some(blindUntil)
               else None;
    }
  }

  /** The log's entries as rows; an entry's identity is the object itself. */
  function RowsOf(log: seq<Entry>): (r: seq<Row<Entry>>)
    reads log
    ensures |r| == |log| && forall i :: 0 <= i < |log| ==> r[i] == log[i].AsRow()
  {
    if log == [] then [] else [log[0].AsRow()] + RowsOf(log[1..])
  }

  lemma RowsAppend(a: seq<Entry>, b: seq<Entry>)
    ensures RowsOf(a + b) == RowsOf(a) + RowsOf(b)
  {
  }

  lemma RowsPush(a: seq<Entry>, e: Entry)
    ensures RowsOf(a + [e]) == RowsOf(a) + [e.AsRow()]
  {
    RowsAppend(a, [e]);
    assert RowsOf([e]) == [e.AsRow()];
  }

  lemma RowsUpTo(log: seq<Entry>, i: nat)
    requires i < |log|
    ensures RowsOf(log[..i + 1]) == RowsOf(log[..i]) + [log[i].AsRow()]
  {
    assert log[..i + 1] == log[..i] + [log[i]];
    RowsPush(log[..i], log[i]);
  }

  lemma RowsRemove(log: seq<Entry>, i: nat)
    requires i < |log| && forall j :: 0 <= j < i ==> log[j] != log[i]
    ensures RowsOf(log[..i] + log[i + 1..]) == Remove(RowsOf(log), log[i])
  {
    var rows, rest := RowsOf(log), log[..i] + log[i + 1..];
    RemoveAt(rows, i);
    forall k | 0 <= k < |rest| ensures RowsOf(rest)[k] == (rows[..i] + rows[i + 1..])[k] {
      assert rest[k] == if k < i then log[k] else log[k + 1];
    }
  }

  class Agent402 {
    const caps: Caps
    var host: string
    var log: seq<Entry>

    constructor (host: string, caps: Caps)
      ensures this.host == host && this.caps == caps && log == []
    {
      this.host, this.caps, this.log := host, caps, [];
    }

    function Rows(): seq<Row<Entry>>
      reads this, log
    {
      RowsOf(log)
    }

    /** What the entries other than `own` count for, added up one by one. */
    method Spent(own: Entry?, s: Scope, now: int) returns (total: nat)
      ensures total == TotalExcept(Rows(), if own == null then None else Some(own), s, now)
    {
      ghost var skip: Option<Entry> := if own == null then None else Some(own);
      total := 0;
      for i := 0 to |log|
        invariant total == TotalExcept(RowsOf(log[..i]), skip, s, now)
      {
        var e := log[i];
        if e != own && CountsAt(e.AsRow(), now) && InScope(e.host, s) {
          total := total + e.usd;
        }
        RowsUpTo(log, i);
        ExceptAppend(RowsOf(log[..i]), e.AsRow(), skip, s, now);
      }
      assert log[..|log|] == log;
    }

    /** Drops what no longer counts. */
    method Sweep(now: int)
      modifies this`log
      ensures Rows() == Prune(old(Rows()), now)
    {
      var kept: seq<Entry> := [];
      for i := 0 to |log|
        invariant log == old(log) && RowsOf(kept) == Prune(RowsOf(log[..i]), now)
      {
        var e := log[i];
        RowsUpTo(log, i);
        PruneAppend(RowsOf(log[..i]), e.AsRow(), now);
        if CountsAt(e.AsRow(), now) {
          RowsPush(kept, e);
          kept := kept + [e];
        }
      }
      assert log[..|log|] == log;
      log := kept;
    }

    /** Says which cap `usd` would break, after dropping what no longer counts. */
    method SpendCheck(payee: string, usd: nat, now: int) returns (refusal: Option<Limit>)
      modifies this`log
      ensures Rows() == Prune(old(Rows()), now)
      ensures refusal == Refusal(Rows(), caps, payee, usd, now)
    {
      Sweep(now);
      ExceptNone(Rows(), Everywhere, now);
      ExceptNone(Rows(), OnHost(payee), now);
      if caps.perCall.Some? && usd > caps.perCall.value { return Some(MaxPerCallUsd); }
      if caps.daily.Some? {
        var spent := Spent(null, Everywhere, now);
        if spent + usd > caps.daily.value { return Some(DailyLimitUsd); }
      }
      if caps.perHost.Some? {
        var spentHost := Spent(null, OnHost(payee), now);
        if spentHost + usd > caps.perHost.value { return Some(MaxPerHostUsd); }
      }
      return None;
    }

    method Push(payee: string, usd: nat, now: int) returns (entry: Entry)
      modifies this`log
      ensures fresh(entry) && Rows() == old(Rows()) + [Row(entry, now, payee, usd, Reserved, None, false)]
    {
      entry := new Entry(now, payee, usd, Reserved);
      RowsPush(log, entry);
      log := log + [entry];
    }

    /** Checks the caps and reserves in one step. No handle for a free call,
        unless the call is guarded (`always`). */
    method SpendReserve(payee: string, usd: nat, always: bool, now: int) returns (r: Result<Entry?, Limit>)
      modifies this`log
      ensures var refusal := Refusal(Prune(old(Rows()), now), caps, payee, usd, now);
              if refusal.Some? then r == Err(refusal.value) else r.Ok? && (r.value != null <==> usd > 0 || always)
      ensures r.Ok? && r.value != null ==>
                && fresh(r.value)
                && Rows() == Prune(old(Rows()), now) + [Row(r.value, now, payee, usd, Reserved, None, false)]
      ensures r.Err? || r.value == null ==> Rows() == Prune(old(Rows()), now)
    {
      var refusal := SpendCheck(payee, usd, now);
      if refusal.Some? { return Err(refusal.value); }
      if usd == 0 && !always { return Ok(null); }
      var entry := Push(payee, usd, now);
      return Ok(entry);
    }

    method SpendSettle(entry: Entry?)
      modifies entry
      ensures entry == null ==> Rows() == old(Rows())
      ensures entry != null ==>
                && entry.AsRow() == old(entry.AsRow()).(state := Settled, until := None, ownHost := false)
                && Rows() == Replace(old(Rows()), entry.AsRow())
    {
      if entry != null {
        entry.state, entry.until, entry.ownHost := Settled, None, false;
      }
    }

    method SpendRelease(entry: Entry?)
      modifies this`log
      ensures Rows() == if entry == null then old(Rows()) else Remove(old(Rows()), entry)
    {
      if entry == null { return; }
      var i := 0;
      while i < |log| && log[i] != entry
        invariant i <= |log| && forall j :: 0 <= j < i ==> log[j] != entry
      {
        i := i + 1;
      }
      if i < |log| {
        RowsRemove(log, i);
        log := log[..i] + log[i + 1..];
      } else {
        RemoveAbsent(Rows(), entry);
      }
    }

    /** The payloads after the first, each on a new entry. */
    method BookMore(entry: Entry, list: seq<Payment>, settleLast: bool, own: bool, blindUntil: int)
      returns (held: nat, more: seq<Entry>)
      requires list != []
      modifies this`log
      ensures log == old(log) + more && |more| == |list| - 1 && fresh(more)
      ensures forall k :: 0 <= k < |more| ==>
        more[k].AsRow() == Book(entry.AsRow().(id := more[k]), list[k + 1], settleLast && k == |more| - 1, own,
                                blindUntil - DEFAULT_HOST_BLIND_HOLD_MS)
      ensures held == HeldSum(if settleLast && |list| > 1 then list[1..|list| - 1] else list[1..])
    {
      held, more := 0, [];
      for i := 1 to |list|
        invariant log == old(log) + more && |more| == i - 1 && fresh(more)
        invariant forall k :: 0 <= k < i - 1 ==>
          more[k].AsRow() == Book(entry.AsRow().(id := more[k]), list[k + 1], settleLast && k == |list| - 2, own,
                                  blindUntil - DEFAULT_HOST_BLIND_HOLD_MS)
        invariant held == HeldSum(list[1..if settleLast && i == |list| > 1 then i - 1 else i])
      {
        var last := settleLast && i == |list| - 1;
        var e := new Entry(entry.ts, entry.host, 0, Reserved);
        e.BookPayment(list[i], last, own, blindUntil);
        if !last {
          assert list[1..i + 1] == list[1..i] + [list[i]];
          HeldSumPush(list[1..i], list[i]);
          held := held + list[i].usd;
        }
        log, more := log + [e], more + [e];
      }
      assert list[1..|list|] == list[1..];
    }

    method BookFirst(entry: Entry, p: Payment, settled: bool, own: bool, now: int)
      modifies entry
      ensures entry.AsRow() == Book(old(entry.AsRow()), p, settled, own, now)
      ensures Rows() == Replace(old(Rows()), entry.AsRow())
    {
      entry.BookPayment(p, settled, own, now + DEFAULT_HOST_BLIND_HOLD_MS);
    }

    method BookAll(entry: Entry, list: seq<Payment>, settleLast: bool, own: bool, now: int)
      returns (held: nat, ids: seq<Entry>)
      requires list != []
      modifies this`log, entry
      ensures |ids| == |list| && ids[0] == entry && fresh(ids[1..])
      ensures Rows() == HoldLog(old(Rows()), Booked(old(entry.AsRow()), list, ids, settleLast, own, now))
      ensures held == HeldSum(if settleLast then list[..|list| - 1] else list)
    {
      ghost var was, before, base := entry.AsRow(), Rows(), log;
      BookFirst(entry, list[0], settleLast && |list| == 1, own, now);
      label booked:
      var rest, more := BookMore(entry, list, settleLast, own, now + DEFAULT_HOST_BLIND_HOLD_MS);
      ids := [entry] + more;
      held := (if settleLast && |list| == 1 then 0 else list[0].usd) + rest;
      HeldSplit(list, settleLast);
      assert RowsOf(base) == old@booked(RowsOf(base));
      RowsAppend(base, more);
      HoldResult(before, was, list, ids, settleLast, own, now, RowsOf(more));
    }

    /** Books every payload a call sent: the first on the reservation, each other
        one on an entry of its own (`ids` names them). `held` is the sum of the
        amounts held. */
    method SpendHold(entry: Entry?, sent: Option<seq<Payment>>, settleLast: bool, own: bool, now: int)
      returns (held: nat, ids: seq<Entry>)
      modifies this`log, entry
      ensures entry == null ==> held == 0 && Rows() == old(Rows())
      ensures entry != null ==>
                var list := SentList(sent, old(entry.usd));
                && |ids| == |list| && ids[0] == entry && fresh(ids[1..])
                && Rows() == HoldLog(old(Rows()), Booked(old(entry.AsRow()), list, ids, settleLast, own, now))
                && held == HeldSum(if settleLast then list[..|list| - 1] else list)
    {
      if entry == null { return 0, []; }
      held, ids := BookAll(entry, SentList(sent, entry.usd), settleLast, own, now);
    }

    /** What a rolling cap leaves, when there is one. */
    method TightenTo(a: Allowance, limit: Option<nat>, ownSent: nat, own: Entry?, s: Scope, name: Limit, now: int)
      returns (r: Allowance)
      ensures r == if limit.None? then a
                   else
                     var others := TotalExcept(Rows(), if own == null then None else Some(own), s, now);
                     a.Tighten(limit.value - ownSent - others, name)
    {
      if limit.None? { return a; }
      var others := Spent(own, s, now);
      return a.Tighten(limit.value - ownSent - others, name);
    }

    /** What the payment being signed may ask for at most. */
    method SignAllowance(own: Entry?, sent: seq<Payment>, now: int) returns (a: Allowance)
      ensures a == Ledger.SignAllowance(Rows(), caps, host, if own == null then None else Some(own), HeldSum(sent), now)
    {
      var ownSent := SumOf(sent);
      a := Allowance(None, None);
      if caps.perCall.Some? { a := a.Tighten(caps.perCall.value, MaxPerCallUsd); }
      a := TightenTo(a, caps.daily, ownSent, own, Everywhere, DailyLimitUsd, now);
      a := TightenTo(a, caps.perHost, ownSent, own, OnHost(host), MaxPerHostUsd, now);
      a := a.AtLeastZero();
    }

    /** The signing hook: the reservation becomes the amount being signed. */
    method OnSign(reservation: Entry, usd: nat)
      modifies reservation`usd
      ensures Rows() == Replace(old(Rows()), old(reservation.AsRow()).(usd := usd))
    {
      reservation.usd := usd;
    }
  }

  /** With nothing recorded as sent, the reservation stands for one payload of
      its own amount and no readable expiry. */
  function SentList(sent: Option<seq<Payment>>, usd: nat): (list: seq<Payment>)
    ensures sent.Some? && sent.value != [] ==> list == sent.value
    ensures sent.None? || sent.value == [] ==> list == [Payment(usd, None)]
  {
    if sent.Some? && sent.value != [] then sent.value else [Payment(usd, None)]
  }

  method SumOf(sent: seq<Payment>) returns (total: nat)
    ensures total == HeldSum(sent)
  {
    total := 0;
    for i := 0 to |sent|
      invariant total == HeldSum(sent[..i])
    {
      assert sent[..i + 1] == sent[..i] + [sent[i]];
      HeldSumPush(sent[..i], sent[i]);
      total := total + sent[i].usd;
    }
    assert sent[..|sent|] == sent;
  }

  function HeldSum(list: seq<Payment>): nat {
    if list == [] then 0 else list[0].usd + HeldSum(list[1..])
  }

  lemma {:induction false} HeldSumPush(list: seq<Payment>, p: Payment)
    ensures HeldSum(list + [p]) == HeldSum(list) + p.usd
  {
    if list == [] {
      assert list + [p] == [p];
    } else {
      assert (list + [p])[1..] == list[1..] + [p];
      HeldSumPush(list[1..], p);
    }
  }

  lemma HoldResult(before: seq<Row<Entry>>, was: Row<Entry>, list: seq<Payment>, ids: seq<Entry>, settleLast: bool,
                   own: bool, now: int,
                   rest: seq<Row<Entry>>)
    requires list != [] && |ids| == |list| && |rest| == |list| - 1 && was.id == ids[0]
    requires forall k :: 0 <= k < |rest| ==>
               rest[k] == Book(was.(id := ids[k + 1]), list[k + 1], settleLast && k == |rest| - 1, own, now)
    ensures HoldLog(before, Booked(was, list, ids, settleLast, own, now))
            == Replace(before, Book(was, list[0], settleLast && |list| == 1, own, now)) + rest
  {
    assert Booked(was, list, ids, settleLast, own, now)[1..] == rest;
  }

  lemma HeldSplit(list: seq<Payment>, settleLast: bool)
    requires list != []
    ensures HeldSum(if settleLast then list[..|list| - 1] else list)
            == (if settleLast && |list| == 1 then 0 else list[0].usd)
               + HeldSum(if settleLast && |list| > 1 then list[1..|list| - 1] else list[1..])
  {
    if settleLast && |list| > 1 {
      assert list[..|list| - 1][1..] == list[1..|list| - 1];
    }
  }
}
