/** The MCP server's session budget. Wallet calls overlap at every await: the
    list price is checked first, the call joins the ones in flight later, and
    the amount it may sign is settled at signing. Calls are numbered in the
    order of their first check. Amounts are whole units of 1e-7 USD; a limit of
    None is no limit. */
module Session {
  import opened Types
  import opened Validity

  const OWN_HOST_BLIND_HOLD_MS := 15 * 60 * 1000

  /** A held payment; `until` None is the rest of the session. */
  datatype Hold = Hold(usd: nat, until: Option<int>)

  datatype Phase = Early | InFlight | Done

  datatype Signing = Idle | Signed | Checked(expiry: Expiry, at: int)

  /** How a finished call was booked. */
  datatype Fate = Unpaid | Spent | HeldForever | HeldUntil(until: int)

  /** `usd`, `signed`, `sent` and `until` are the call's entry; `out` is the sum
      of what it sent and `expiry` what its last payload says. */
  datatype Flight = Flight(phase: Phase, usd: nat, signed: bool, sent: bool, until: Option<int>,
                           signing: Signing, out: nat, expiry: Expiry, fate: Fate)

  datatype State = State(now: nat, maxPerCall: Option<nat>, budget: Option<nat>, spent: nat, holds: seq<Hold>,
                         flights: seq<Flight>)

  function HoldAmount(h: Hold, now: int): nat {
    if h.until.None? || h.until.value > now then h.usd else 0
  }

  function HeldAt(holds: seq<Hold>, now: int): nat {
    if holds == [] then 0 else HeldAt(holds[..|holds| - 1], now) + HoldAmount(holds[|holds| - 1], now)
  }

  // ---- sums over calls ------------------------------------------------------------

  /** Pending: what the entry reserves. Committed: what a signed call in flight may
      cost. Booked: what a finished call is spent or held for. Exposed: what
      sellers took or can still take. Ever: what they can ever have taken, if the
      own host settles no error answer. */
  datatype Measure = Pending | Committed | Paid | Held | Exposed | Ever

  predicate StillRedeemable(e: Expiry, now: int) {
    e.At? && now < e.seconds * 1000 + SURE_SLACK_MS
  }

  function Value(m: Measure, f: Flight, now: int): nat {
    match m
    case Pending => if f.phase.InFlight? then f.usd else 0
    case Committed =>
      if f.phase.InFlight? then Max(f.out + if f.signing.Idle? then 0 else f.usd, if f.signed then f.usd else 0) else 0
    case Paid => if f.phase.Done? && f.fate.Spent? then f.usd else 0
    case Held =>
      if f.phase.Done? && (f.fate.HeldForever? || (f.fate.HeldUntil? && f.fate.until > now)) then f.usd else 0
    case Exposed =>
      if f.phase.InFlight? then f.out
      else if f.phase.Early? || f.fate.Unpaid? then 0
      else if f.fate.HeldUntil? && !StillRedeemable(f.expiry, now) then 0
      else f.out
    case Ever =>
      if f.phase.InFlight? || (f.phase.Done? && (f.fate.Spent? || f.fate.HeldForever?)) then f.out else 0
  }

  function Sum(m: Measure, fs: seq<Flight>, now: int): nat {
    if fs == [] then 0 else Sum(m, fs[..|fs| - 1], now) + Value(m, fs[|fs| - 1], now)
  }

  function SumBut(m: Measure, fs: seq<Flight>, i: int, now: int): nat {
    if fs == [] then 0
    else SumBut(m, fs[..|fs| - 1], i, now) + if i == |fs| - 1 then 0 else Value(m, fs[|fs| - 1], now)
  }

  // ---- the steps --------------------------------------------------------------------

  function Room(s: State, inFlight: nat): Option<int> {
    if s.budget.None? then None else Some(s.budget.value - s.spent - HeldAt(s.holds, s.now) - inFlight)
  }

  predicate Fits(limit: Option<int>, usd: nat) { limit.Some? ==> usd <= limit.value }

  /** The most call `i` may sign: Math.max(0, Math.min(per call, room)). */
  function AllowanceOf(s: State, i: int): Option<int> {
    var room := Room(s, SumBut(Pending, s.flights, i, s.now));
    if s.maxPerCall.None? && room.None? then None
    else
      var least := if room.None? then s.maxPerCall.value
                   else if s.maxPerCall.None? then room.value
                   else Min(s.maxPerCall.value, room.value);
      Some(Max(0, least))
  }

  datatype Answer = Confirmed | OwnHostError | OtherFailure

  datatype Step =
    | Tick(to: nat)
    | Check(price: nat)
    | Join(call: nat)
    | Sign(call: nat, usd: nat)
    | Abort(call: nat)
    | Pass(call: nat, expiry: Expiry)
    | Send(call: nat)
    | Finish(call: nat, answer: Answer)

  predicate Flying(s: State, i: nat) {
    i < |s.flights| && s.flights[i].phase.InFlight?
  }

  predicate Enabled(s: State, step: Step) {
    match step
    case Tick(to) => s.now <= to
    case Check(price) => Fits(s.maxPerCall, price) && Fits(Room(s, Sum(Pending, s.flights, s.now)), price)
    case Join(i) => i < |s.flights| && s.flights[i].phase.Early?
    case Sign(i, usd) => Flying(s, i) && s.flights[i].signing.Idle? && Fits(AllowanceOf(s, i), usd)
    case Abort(i) => Flying(s, i) && !s.flights[i].signing.Idle?
    case Pass(i, expiry) =>
      && Flying(s, i) && s.flights[i].signing.Signed? && Fits(AllowanceOf(s, i), s.flights[i].usd)
      && !ValidityProblem(expiry, MAX_VALIDITY_SECONDS, s.now)
    case Send(i) => Flying(s, i) && s.flights[i].signing.Checked?
    case Finish(i, _) => Flying(s, i) && s.flights[i].signing.Idle?
  }

  function Put(s: State, i: nat, f: Flight): State
    requires i < |s.flights|
  {
    s.(flights := s.flights[i := f])
  }

  function Booked(f: Flight, answer: Answer, now: nat): Fate {
    if !f.sent then Unpaid
    else match answer
      case Confirmed => Spent
      case OwnHostError => HeldUntil(if f.until.Some? then f.until.value else now + OWN_HOST_BLIND_HOLD_MS)
      case OtherFailure => HeldForever
  }

  function HoldsOf(fate: Fate, usd: nat): seq<Hold> {
    match fate
    case HeldForever => [Hold(usd, None)]
    case HeldUntil(until) => [Hold(usd, Some(until))]
    case _ => []
  }

  function Next(s: State, step: Step): State
    requires Enabled(s, step)
  {
    match step
    case Tick(to) => s.(now := to)
    case Check(price) =>
      s.(flights := s.flights + [Flight(Early, price, false, false, None, Idle, 0, NoExpiry, Unpaid)])
    case Join(i) => Put(s, i, s.flights[i].(phase := InFlight))
    case Sign(i, usd) => Put(s, i, s.flights[i].(usd := usd, signed := true, signing := Signed))
    case Abort(i) => Put(s, i, s.flights[i].(signing := Idle))
    case Pass(i, expiry) => Put(s, i, s.flights[i].(signing := Checked(expiry, s.now)))
    case Send(i) =>
      var f := s.flights[i];
      Put(s, i, f.(sent := true, until := SignedValidUntil(f.signing.expiry, MAX_VALIDITY_SECONDS, s.now),
                   signing := Idle, out := f.out + f.usd, expiry := f.signing.expiry))
    case Finish(i, answer) =>
      var f := s.flights[i];
      var fate := Booked(f, answer, s.now);
      Put(s, i, f.(phase := Done, fate := fate)).(spent := s.spent + if fate.Spent? then f.usd else 0,
                                                  holds := s.holds + HoldsOf(fate, f.usd))
  }

  // ---- the module's state, changed in place --------------------------------------------

  class Wallet {
    const maxPerCall: Option<nat>
    const budget: Option<nat>
    var spentUsd: nat
    var holds: seq<Hold>
    var flights: seq<Flight>

    constructor (maxPerCall: Option<nat>, budget: Option<nat>)
      ensures At(0) == State(0, maxPerCall, budget, 0, [], [])
    {
      this.maxPerCall, this.budget := maxPerCall, budget;
      spentUsd, holds, flights := 0, [], [];
    }

    function At(now: nat): State
      reads this
    {
      State(now, maxPerCall, budget, spentUsd, holds, flights)
    }

    method HeldNow(now: nat) returns (t: nat)
      ensures t == HeldAt(holds, now)
    {
      t := 0;
      for k := 0 to |holds|
        invariant t == HeldAt(holds[..k], now)
      {
        assert holds[..k + 1][..k] == holds[..k];
        if holds[k].until.None? || holds[k].until.value > now { t := t + holds[k].usd; }
      }
      assert holds[..|holds|] == holds;
    }

    method PendingUsd(except: int, now: nat) returns (t: nat)
      ensures t == SumBut(Pending, flights, except, now)
    {
      t := 0;
      for k := 0 to |flights|
        invariant t == SumBut(Pending, flights[..k], except, now)
      {
        assert flights[..k + 1][..k] == flights[..k];
        if k != except && flights[k].phase.InFlight? { t := t + flights[k].usd; }
      }
      assert flights[..|flights|] == flights;
    }

    method SignAllowance(own: int, now: nat) returns (a: Option<int>)
      ensures a == AllowanceOf(At(now), own)
    {
      var held := HeldNow(now);
      var others := PendingUsd(own, now);
      a := maxPerCall;
      if budget.Some? {
        var room := budget.value - spentUsd - held - others;
        if a.None? || room < a.value { a := Some(room); }
      }
      if a.Some? { a := Some(Max(0, a.value)); }
    }

    /** The check of the list price, which costs no request. */
    method CheckPrice(price: nat, now: nat) returns (call: Option<nat>)
      modifies this
      ensures call.Some? <==> && Fits(maxPerCall, price)
                              && Fits(budget, old(spentUsd + HeldAt(holds, now) + Sum(Pending, flights, now)) + price)
      ensures var s := old(At(now));
              if Enabled(s, Check(price)) then call == Some(|s.flights|) && At(now) == Next(s, Check(price))
              else call == None && At(now) == s
      ensures call.Some? ==> call.value < |flights| && flights[call.value].usd == price && !flights[call.value].signed
    {
      if maxPerCall.Some? && price > maxPerCall.value { return None; }
      var inFlight := PendingUsd(-1, now);
      var held := HeldNow(now);
      SumButNone(Pending, flights, now);
      if budget.Some? && spentUsd + held + inFlight + price > budget.value { return None; }
      call := Some(|flights|);
      flights := flights + [Flight(Early, price, false, false, None, Idle, 0, NoExpiry, Unpaid)];
    }

    method JoinPending(i: nat, now: nat)
      requires Enabled(At(now), Join(i))
      modifies this
      ensures At(now) == Next(old(At(now)), Join(i))
      ensures |flights| == old(|flights|) && flights[i] == old(flights[i]).(phase := InFlight)
    {
      flights := flights[i := flights[i].(phase := InFlight)];
    }

    /** The hook before signing: refuses, or records what is being signed. */
    method BeforeSigning(i: nat, usd: nat, now: nat) returns (ok: bool)
      requires Flying(At(now), i) && flights[i].signing.Idle?
      modifies this
      ensures ok == Enabled(old(At(now)), Sign(i, usd))
      ensures At(now) == if ok then Next(old(At(now)), Sign(i, usd)) else old(At(now))
      ensures ok ==> |flights| == old(|flights|) && flights[i].usd == usd && flights[i].signed
    {
      var a := SignAllowance(i, now);
      if a.Some? && usd > a.value { return false; }
      flights := flights[i := flights[i].(usd := usd, signed := true, signing := Signed)];
      return true;
    }

    /** The hook after the guard's own check: the payload is about to be sent. */
    method BeforeSending(i: nat, now: nat)
      requires Enabled(At(now), Send(i))
      modifies this
      ensures At(now) == Next(old(At(now)), Send(i))
      ensures |flights| == old(|flights|) && flights[i].sent && flights[i].usd == old(flights[i].usd)
      ensures flights[i].until == SignedValidUntil(old(flights[i].signing).expiry, MAX_VALIDITY_SECONDS, now)
    {
      var f := flights[i];
      var until := SignedValidUntil(f.signing.expiry, MAX_VALIDITY_SECONDS, now);
      flights := flights[i := f.(sent := true, until := until, signing := Idle, out := f.out + f.usd,
                                 expiry := f.signing.expiry)];
    }

    /** The end of a wallet call: spent, held, or nothing. */
    method EndCall(i: nat, answer: Answer, now: nat)
      requires Enabled(At(now), Finish(i, answer))
      modifies this
      ensures At(now) == Next(old(At(now)), Finish(i, answer))
    {
      var f := flights[i];
      var fate := Unpaid;
      if f.sent {
        match answer {
          case Confirmed =>
            spentUsd := spentUsd + f.usd;
            fate := Spent;
          case OwnHostError =>
            var until := if f.until.Some? then f.until.value else now + OWN_HOST_BLIND_HOLD_MS;
            holds := holds + [Hold(f.usd, Some(until))];
            fate := HeldUntil(until);
          case OtherFailure =>
            holds := holds + [Hold(f.usd, None)];
            fate := HeldForever;
        }
      }
      flights := flights[i := f.(phase := Done, fate := fate)];
      assert holds == old(holds) + HoldsOf(fate, f.usd);
    }
  }

  /** A positive amount may be signed exactly when it is within the per-call cap and
      the budget holds with it beside what is spent, held and in other calls. */
  lemma AllowanceMeaning(s: State, i: int, usd: nat)
    ensures Fits(AllowanceOf(s, i), usd)
            <==> usd == 0
                 || (&& Fits(s.maxPerCall, usd)
                     && Fits(s.budget, s.spent + HeldAt(s.holds, s.now) + SumBut(Pending, s.flights, i, s.now) + usd))
  {
  }

  // ---- the budget over every run ----------------------------------------------------------

  lemma {:induction false} SumButNone(m: Measure, fs: seq<Flight>, now: int)
    ensures SumBut(m, fs, -1, now) == Sum(m, fs, now)
  {
    if fs == [] {
    } else {
      SumButNone(m, fs[..|fs| - 1], now);
    }
  }

  lemma {:induction false} SumSplit(m: Measure, fs: seq<Flight>, i: nat, now: int)
    requires i < |fs|
    ensures Sum(m, fs, now) == SumBut(m, fs, i, now) + Value(m, fs[i], now)
  {
    var n := |fs| - 1;
    if i == n { SumButOutside(m, fs[..n], i, now); } else { SumSplit(m, fs[..n], i, now); }
  }

  lemma {:induction false} SumButOutside(m: Measure, fs: seq<Flight>, i: int, now: int)
    requires i >= |fs|
    ensures SumBut(m, fs, i, now) == Sum(m, fs, now)
  {
    if fs == [] {
    } else {
      SumButOutside(m, fs[..|fs| - 1], i, now);
    }
  }

  lemma {:induction false} SumButUpdate(m: Measure, fs: seq<Flight>, i: nat, f: Flight, now: int)
    requires i < |fs|
    ensures SumBut(m, fs[i := f], i, now) == SumBut(m, fs, i, now)
  {
    var n := |fs| - 1;
    if i == n {
      assert fs[i := f][..n] == fs[..n];
    } else {
      assert fs[i := f][..n] == fs[..n][i := f];
      SumButUpdate(m, fs[..n], i, f, now);
    }
  }

  lemma SumPut(m: Measure, fs: seq<Flight>, i: nat, f: Flight, now: int)
    requires i < |fs|
    ensures Sum(m, fs[i := f], now) == Sum(m, fs, now) - Value(m, fs[i], now) + Value(m, f, now)
  {
    SumSplit(m, fs, i, now);
    SumSplit(m, fs[i := f], i, now);
    SumButUpdate(m, fs, i, f, now);
  }

  /** No call weighs more by `m` than by `k`. */
  lemma {:induction false} SumAtMost(m: Measure, k: Measure, fs: seq<Flight>, now: int)
    requires forall j :: 0 <= j < |fs| ==> Value(m, fs[j], now) <= Value(k, fs[j], now)
    ensures Sum(m, fs, now) <= Sum(k, fs, now)
  {
    if fs == [] {
    } else {
      SumAtMost(m, k, fs[..|fs| - 1], now);
    }
  }

  lemma {:induction false} SumButAtMost(fs: seq<Flight>, i: nat, now: int)
    requires forall j :: 0 <= j < |fs| ==> FlightOk(fs[j], now)
    ensures SumBut(Committed, fs, i, now) <= SumBut(Pending, fs, i, now)
  {
    if fs == [] {
    } else {
      SumButAtMost(fs[..|fs| - 1], i, now);
    }
  }

  /** No payload this server sends is held for longer. */
  const LONGEST_HOLD_MS := MAX_VALIDITY_SECONDS * 1000 + HOLD_SLACK_MS

  predicate FlightOk(f: Flight, now: int) {
    && (f.sent ==> f.signed && f.signing.Idle? && f.out == f.usd)
    && (!f.sent ==> f.out == 0 && f.fate.Unpaid?)
    && (!f.signing.Idle? ==> f.signed)
    && (f.phase.Done? ==> f.signing.Idle? && (f.sent ==> !f.fate.Unpaid?))
    && (f.phase.Early? ==> !f.signed && !f.sent)
    && (f.signing.Checked? ==>
        f.signing.at <= now && !ValidityProblem(f.signing.expiry, MAX_VALIDITY_SECONDS, f.signing.at))
    && (f.sent && f.expiry.At? ==> f.until.Some? && f.expiry.seconds * 1000 + SURE_SLACK_MS <= f.until.value)
    && (f.fate.HeldUntil? && f.until.Some? ==> f.fate.until == f.until.value)
    && (f.until.Some? ==> f.until.value <= now + LONGEST_HOLD_MS)
  }

  ghost predicate Inv(s: State) {
    && (forall j :: 0 <= j < |s.flights| ==> FlightOk(s.flights[j], s.now))
    && s.spent == Sum(Paid, s.flights, s.now)
    && (forall t :: HeldAt(s.holds, t) == Sum(Held, s.flights, t))
    && Fits(s.budget, s.spent + HeldAt(s.holds, s.now) + Sum(Committed, s.flights, s.now))
  }

  /** One payload for each call. */
  predicate OnePayload(s: State, step: Step) {
    step.Sign? ==> step.call < |s.flights| && !s.flights[step.call].sent
  }

  lemma {:induction false} HeldFalls(holds: seq<Hold>, now: int, later: int)
    requires now <= later
    ensures HeldAt(holds, later) <= HeldAt(holds, now)
  {
    if holds == [] {
    } else {
      HeldFalls(holds[..|holds| - 1], now, later);
    }
  }

  lemma {:induction false} Timeless(m: Measure, fs: seq<Flight>, now: int, later: int)
    requires m.Paid? || m.Committed? || m.Pending?
    ensures Sum(m, fs, now) == Sum(m, fs, later)
  {
    if fs == [] {
    } else {
      Timeless(m, fs[..|fs| - 1], now, later);
    }
  }

  lemma PutKeeps(s: State, i: nat, f: Flight, t: int)
    requires i < |s.flights|
    ensures Sum(Paid, Put(s, i, f).flights, t)
            == Sum(Paid, s.flights, t) - Value(Paid, s.flights[i], t) + Value(Paid, f, t)
    ensures Sum(Held, Put(s, i, f).flights, t)
            == Sum(Held, s.flights, t) - Value(Held, s.flights[i], t) + Value(Held, f, t)
    ensures Sum(Committed, Put(s, i, f).flights, t)
            == Sum(Committed, s.flights, t) - Value(Committed, s.flights[i], t) + Value(Committed, f, t)
  {
    SumPut(Paid, s.flights, i, f, t);
    SumPut(Held, s.flights, i, f, t);
    SumPut(Committed, s.flights, i, f, t);
  }

  /** The holds are those of the finished calls, whatever calls in flight do. */
  lemma HoldsUnmoved(s: State, i: nat, f: Flight)
    requires Inv(s) && i < |s.flights| && !f.phase.Done? && !s.flights[i].phase.Done?
    ensures forall t :: HeldAt(s.holds, t) == Sum(Held, Put(s, i, f).flights, t)
  {
    forall t ensures HeldAt(s.holds, t) == Sum(Held, Put(s, i, f).flights, t) { SumPut(Held, s.flights, i, f, t); }
  }

  /** A change inside a call that books nothing and costs no more. */
  lemma FlightKeeps(s: State, i: nat, f: Flight)
    requires Inv(s) && i < |s.flights| && !f.phase.Done? && !s.flights[i].phase.Done?
    requires FlightOk(f, s.now)
    requires Value(Committed, f, s.now) <= Value(Committed, s.flights[i], s.now)
             || Fits(s.budget, s.spent + HeldAt(s.holds, s.now) + SumBut(Committed, s.flights, i, s.now)
                     + Value(Committed, f, s.now))
    ensures Inv(Put(s, i, f))
  {
    HoldsUnmoved(s, i, f);
    PutKeeps(s, i, f, s.now);
    SumSplit(Committed, s.flights, i, s.now);
  }

  lemma SignKeeps(s: State, i: nat, usd: nat)
    requires Inv(s) && Enabled(s, Sign(i, usd)) && OnePayload(s, Sign(i, usd))
    ensures Inv(Next(s, Sign(i, usd)))
  {
    SumButAtMost(s.flights, i, s.now);
    FlightKeeps(s, i, Next(s, Sign(i, usd)).flights[i]);
  }

  lemma SendKeeps(s: State, i: nat)
    requires Inv(s) && Enabled(s, Send(i)) && !s.flights[i].sent
    ensures Inv(Next(s, Send(i)))
  {
    var f := s.flights[i];
    if f.signing.expiry.At? { HoldOutlastsExpiry(f.signing.expiry, MAX_VALIDITY_SECONDS, f.signing.at, s.now); }
    FlightKeeps(s, i, Next(s, Send(i)).flights[i]);
  }

  lemma FinishHolds(s: State, i: nat, answer: Answer, t: int)
    requires Inv(s) && Enabled(s, Finish(i, answer))
    ensures HeldAt(Next(s, Finish(i, answer)).holds, t) == Sum(Held, Next(s, Finish(i, answer)).flights, t)
  {
    var v := Next(s, Finish(i, answer));
    PutKeeps(s, i, v.flights[i], t);
    if HoldsOf(v.flights[i].fate, s.flights[i].usd) == [] {
      assert v.holds == s.holds;
    } else {
      assert v.holds[..|v.holds| - 1] == s.holds;
    }
  }

  /** What an answer does to the budget, for a payment that was sent: a confirmed one
      moves from in flight to spent; one the own host refused is held past its own
      expiry by at least nine minutes and is given back within 24 h and ten
      minutes; any other is held for good. */
  lemma FinishBooks(s: State, i: nat, answer: Answer, t: int)
    requires Inv(s) && Enabled(s, Finish(i, answer)) && s.flights[i].sent && t >= s.now
    ensures var v, f := Next(s, Finish(i, answer)), s.flights[i];
            var more := HeldAt(v.holds, t) - HeldAt(s.holds, t);
            && v.spent - s.spent == (if answer.Confirmed? then f.usd else 0)
            && (answer.Confirmed? ==> more == 0)
            && (answer.OtherFailure? ==> more == f.usd)
            && (answer.OwnHostError? && StillRedeemable(f.expiry, t) ==> more == f.usd)
            && (answer.OwnHostError? && t >= s.now + LONGEST_HOLD_MS ==> more == 0)
  {
    var v := Next(s, Finish(i, answer));
    if answer.Confirmed? {
      assert v.holds == s.holds;
    } else {
      assert v.holds[..|v.holds| - 1] == s.holds;
    }
  }

  /** The hold the own host's refusal leaves, to the millisecond: it ends where the
      payload's own hold does, or 15 minutes after the answer when that has no end. */
  lemma OwnHostHoldEnds(s: State, i: nat, t: int)
    requires Enabled(s, Finish(i, OwnHostError)) && s.flights[i].sent
    ensures var v, f := Next(s, Finish(i, OwnHostError)), s.flights[i];
            var end := if f.until.Some? then f.until.value else s.now + 900_000;
            HeldAt(v.holds, t) - HeldAt(s.holds, t) == if t < end then f.usd else 0
  {
    var v := Next(s, Finish(i, OwnHostError));
    assert v.holds[..|v.holds| - 1] == s.holds;
  }

  /** And an unsent one leaves nothing behind. */
  lemma UnsentLeavesNothing(s: State, i: nat, answer: Answer)
    requires Inv(s) && Enabled(s, Finish(i, answer)) && !s.flights[i].sent
    ensures var v := Next(s, Finish(i, answer));
            v.spent == s.spent && v.holds == s.holds && Value(Pending, v.flights[i], v.now) == 0
  {
  }

  lemma FinishedOk(s: State, i: nat, answer: Answer)
    requires Inv(s) && Enabled(s, Finish(i, answer))
    ensures FlightOk(Next(s, Finish(i, answer)).flights[i], s.now)
  {
  }

  /** A call weighs no more once it has ended, and what is spent grows by what it
      is spent for. */
  lemma FinishWeighs(f: Flight, answer: Answer, now: nat)
    requires FlightOk(f, now) && f.phase.InFlight? && f.signing.Idle?
    ensures var g := f.(phase := Done, fate := Booked(f, answer, now));
            && Value(Paid, g, now) + Value(Held, g, now) + Value(Committed, g, now) <= Value(Committed, f, now)
            && Value(Paid, g, now) == if g.fate.Spent? then f.usd else 0
  {
  }

  lemma FinishFits(s: State, i: nat, answer: Answer)
    requires Inv(s) && Enabled(s, Finish(i, answer))
    ensures var v := Next(s, Finish(i, answer));
            && v.spent == Sum(Paid, v.flights, v.now)
            && Fits(v.budget, v.spent + HeldAt(v.holds, v.now) + Sum(Committed, v.flights, v.now))
  {
    FinishHolds(s, i, answer, s.now);
    FinishWeighs(s.flights[i], answer, s.now);
    PutKeeps(s, i, s.flights[i].(phase := Done, fate := Booked(s.flights[i], answer, s.now)), s.now);
    assert HeldAt(s.holds, s.now) == Sum(Held, s.flights, s.now);
  }

  lemma FinishKeeps(s: State, i: nat, answer: Answer)
    requires Inv(s) && Enabled(s, Finish(i, answer))
    ensures Inv(Next(s, Finish(i, answer)))
  {
    var v := Next(s, Finish(i, answer));
    forall t ensures HeldAt(v.holds, t) == Sum(Held, v.flights, t) { FinishHolds(s, i, answer, t); }
    FinishFits(s, i, answer);
    FinishedOk(s, i, answer);
  }

  lemma TickKeeps(s: State, to: nat)
    requires Inv(s) && s.now <= to
    ensures Inv(s.(now := to))
  {
    HeldFalls(s.holds, s.now, to);
    Timeless(Paid, s.flights, s.now, to);
    Timeless(Committed, s.flights, s.now, to);
  }

  lemma CheckKeeps(s: State, price: nat)
    requires Inv(s) && Enabled(s, Check(price))
    ensures Inv(Next(s, Check(price)))
  {
    var v := Next(s, Check(price));
    assert v.flights[..|s.flights|] == s.flights;
  }

  lemma StepKeeps(s: State, step: Step)
    requires Inv(s) && Enabled(s, step) && OnePayload(s, step)
    ensures Inv(Next(s, step)) && Next(s, step).budget == s.budget
  {
    match step
    case Tick(to) => TickKeeps(s, to);
    case Check(price) => CheckKeeps(s, price);
    case Join(i) => FlightKeeps(s, i, Next(s, step).flights[i]);
    case Sign(i, usd) => SignKeeps(s, i, usd);
    case Abort(i) => FlightKeeps(s, i, Next(s, step).flights[i]);
    case Pass(i, expiry) => FlightKeeps(s, i, Next(s, step).flights[i]);
    case Send(i) => SendKeeps(s, i);
    case Finish(i, answer) => FinishKeeps(s, i, answer);
  }

  predicate Runs(s: State, steps: seq<Step>)
    decreases |steps|
  {
    steps == [] || (Enabled(s, steps[0]) && Runs(Next(s, steps[0]), steps[1..]))
  }

  predicate OnePayloadEach(s: State, steps: seq<Step>)
    requires Runs(s, steps)
    decreases |steps|
  {
    steps == [] || (OnePayload(s, steps[0]) && OnePayloadEach(Next(s, steps[0]), steps[1..]))
  }

  function After(s: State, steps: seq<Step>): State
    requires Runs(s, steps)
    decreases |steps|
  {
    if steps == [] then s else After(Next(s, steps[0]), steps[1..])
  }

  lemma {:induction false} RunKeeps(s: State, steps: seq<Step>)
    requires Inv(s) && Runs(s, steps) && OnePayloadEach(s, steps)
    ensures Inv(After(s, steps)) && After(s, steps).budget == s.budget
    decreases |steps|
  {
    if steps == [] {
    } else {
      StepKeeps(s, steps[0]);
      RunKeeps(Next(s, steps[0]), steps[1..]);
    }
  }

  lemma {:induction false} ExposedCovered(fs: seq<Flight>, now: int)
    requires forall j :: 0 <= j < |fs| ==> FlightOk(fs[j], now)
    ensures Sum(Exposed, fs, now) <= Sum(Paid, fs, now) + Sum(Held, fs, now) + Sum(Committed, fs, now)
  {
    if fs == [] {
    } else {
      ExposedCovered(fs[..|fs| - 1], now);
    }
  }

  /** Over any interleaving of wallet calls that send one payload each, what is
      spent, held and signed in flight stays within the budget; so does what
      sellers took or can still take; so does all they can ever have taken in
      the session, if the own host settles no error answer. */
  lemma SessionBudget(now: nat, maxPerCall: Option<nat>, budget: Option<nat>, steps: seq<Step>)
    requires var start := State(now, maxPerCall, budget, 0, [], []);
             Runs(start, steps) && OnePayloadEach(start, steps)
    ensures var s := After(State(now, maxPerCall, budget, 0, [], []), steps);
            && Fits(budget, s.spent + HeldAt(s.holds, s.now) + Sum(Committed, s.flights, s.now))
            && Fits(budget, Sum(Exposed, s.flights, s.now))
            && Fits(budget, Sum(Ever, s.flights, s.now))
  {
    var start := State(now, maxPerCall, budget, 0, [], []);
    RunKeeps(start, steps);
    var s := After(start, steps);
    ExposedCovered(s.flights, s.now);
    SumAtMost(Ever, Exposed, s.flights, s.now);
  }

  lemma SigningFits(s: State, i: nat, budget: nat, allowance: nat)
    requires Flying(s, i) && s.flights[i].signing.Idle?
    requires s.budget == Some(budget) && AllowanceOf(s, i) == Some(allowance)
    ensures (forall usd: nat :: Enabled(s, Sign(i, usd)) ==>
               s.spent + HeldAt(s.holds, s.now) + Sum(Committed, Next(s, Sign(i, usd)).flights, s.now) <= budget)
            <==> s.spent + HeldAt(s.holds, s.now) + SumBut(Committed, s.flights, i, s.now)
                 + s.flights[i].out + allowance <= budget
  {
    forall usd: nat | Enabled(s, Sign(i, usd))
      ensures Sum(Committed, Next(s, Sign(i, usd)).flights, s.now)
              == SumBut(Committed, s.flights, i, s.now) + s.flights[i].out + usd
      ensures usd <= allowance
    {
      var fs := Next(s, Sign(i, usd)).flights;
      SumSplit(Committed, fs, i, s.now);
      SumButUpdate(Committed, s.flights, i, fs[i], s.now);
    }
    assert Enabled(s, Sign(i, allowance));
  }

  /** Without that, the budget gives way: the allowance leaves out the call's own
      entry, and with it whatever the call has sent already. Every amount a call may
      sign keeps the budget if and only if what is committed so far does, and one of
      three things: what this call has sent and other calls may cost is within what
      the others' entries reserve; or nothing is left to sign; or the per-call cap
      leaves room for one more payload. */
  lemma SigningKeepsBudgetExactly(s: State, i: nat, budget: nat)
    requires Flying(s, i) && s.flights[i].signing.Idle? && s.budget == Some(budget)
    ensures var booked := s.spent + HeldAt(s.holds, s.now);
            var others := SumBut(Committed, s.flights, i, s.now);
            var reserved := SumBut(Pending, s.flights, i, s.now);
            var out := s.flights[i].out;
            (forall usd: nat :: Enabled(s, Sign(i, usd)) ==>
               booked + Sum(Committed, Next(s, Sign(i, usd)).flights, s.now) <= budget)
            <==> && booked + others + out <= budget
                 && (|| others + out <= reserved
                     || booked + reserved >= budget
                     || (s.maxPerCall.Some? && booked + others + out + s.maxPerCall.value <= budget))
  {
    SigningFits(s, i, budget, AllowanceOf(s, i).value);
  }

  /** For a call alone in flight in a session within its budget that is: if and only
      if it has sent nothing (or payloads of zero), or the per-call cap leaves room
      for one more payload beside what it has sent. */
  lemma ResigningKeepsBudgetExactly(s: State, i: nat, budget: nat)
    requires Flying(s, i) && s.flights[i].signing.Idle? && s.budget == Some(budget)
    requires s.spent + HeldAt(s.holds, s.now) <= budget
    requires forall j :: 0 <= j < |s.flights| && j != i ==> !s.flights[j].phase.InFlight?
    ensures (forall usd: nat :: Enabled(s, Sign(i, usd)) ==>
               s.spent + HeldAt(s.holds, s.now) + Sum(Committed, Next(s, Sign(i, usd)).flights, s.now) <= budget)
            <==> || s.flights[i].out == 0
                 || (s.maxPerCall.Some? &&
                     s.spent + HeldAt(s.holds, s.now) + s.flights[i].out + s.maxPerCall.value <= budget)
  {
    NoneElse(Committed, s.flights, i, s.now);
    NoneElse(Pending, s.flights, i, s.now);
    SigningKeepsBudgetExactly(s, i, budget);
  }

  lemma {:induction false} NoneElse(m: Measure, fs: seq<Flight>, i: int, now: int)
    requires m.Pending? || m.Committed?
    requires forall j :: 0 <= j < |fs| && j != i ==> !fs[j].phase.InFlight?
    ensures SumBut(m, fs, i, now) == 0
  {
    if fs == [] {
    } else {
      NoneElse(m, fs[..|fs| - 1], i, now);
    }
  }

  // ---- and what happens without it ------------------------------------------------------------

  /** The state of one call that has signed, and sent `sent` payloads of 1. */
  function Lone(signing: Signing, sent: nat): State {
    var until := if sent > 0 then Some(300 * 1000 + HOLD_SLACK_MS) else None;
    var expiry := if sent > 0 then At(300) else NoExpiry;
    State(0, Some(1), Some(1), 0, [], [Flight(InFlight, 1, true, sent > 0, until, signing, sent, expiry, Unpaid)])
  }

  const ONE_MORE: seq<Step> := [Sign(0, 1), Pass(0, At(300)), Send(0)]

  lemma FirstStep(s: State, step: Step, rest: seq<Step>)
    requires Enabled(s, step) && Runs(Next(s, step), rest)
    ensures Runs(s, [step] + rest) && After(s, [step] + rest) == After(Next(s, step), rest)
  {
    assert ([step] + rest)[1..] == rest;
  }

  /** A call alone in flight, whatever it has sent, may sign up to the whole budget. */
  lemma LoneAllowance(s: State)
    requires |s.flights| == 1 && s.maxPerCall == Some(1) && s.budget == Some(1) && s.spent == 0 && s.holds == []
    ensures AllowanceOf(s, 0) == Some(1)
  {
    assert SumBut(Pending, s.flights[..0], 0, s.now) == 0;
  }

  /** The state of one call in flight that has signed nothing yet. */
  const JOINED := Lone(Idle, 0).(flights := [Flight(InFlight, 1, false, false, None, Idle, 0, NoExpiry, Unpaid)])

  predicate LoneAfter(s: State, sent: nat) {
    if sent == 0 then s == JOINED else s == Lone(Idle, sent)
  }

  lemma SignsOnce(s: State, sent: nat)
    requires LoneAfter(s, sent)
    ensures Enabled(s, Sign(0, 1)) && Next(s, Sign(0, 1)) == Lone(Signed, sent)
  {
    LoneAllowance(s);
  }

  lemma SendsOnce(sent: nat)
    ensures var s := Lone(Signed, sent);
            && Enabled(s, Pass(0, At(300))) && Enabled(Next(s, Pass(0, At(300))), Send(0))
            && Next(Next(s, Pass(0, At(300))), Send(0)) == Lone(Idle, sent + 1)
  {
    LoneAllowance(Lone(Signed, sent));
  }

  lemma PaysOnce(s: State, sent: nat, rest: seq<Step>)
    requires LoneAfter(s, sent) && Runs(Lone(Idle, sent + 1), rest)
    ensures Runs(s, ONE_MORE + rest) && After(s, ONE_MORE + rest) == After(Lone(Idle, sent + 1), rest)
  {
    var signed := Lone(Signed, sent);
    SignsOnce(s, sent);
    SendsOnce(sent);
    FirstStep(Next(signed, Pass(0, At(300))), Send(0), rest);
    FirstStep(signed, Pass(0, At(300)), [Send(0)] + rest);
    FirstStep(s, Sign(0, 1), [Pass(0, At(300))] + ([Send(0)] + rest));
    assert [Sign(0, 1)] + ([Pass(0, At(300))] + ([Send(0)] + rest)) == ONE_MORE + rest;
  }

  const TWO_PAYLOADS: seq<Step> := [Check(1)] + ([Join(0)] + (ONE_MORE + (ONE_MORE + [])))

  lemma JoinsAlone(s: State)
    requires s == State(0, Some(1), Some(1), 0, [], [])
    ensures Enabled(s, Check(1)) && Enabled(Next(s, Check(1)), Join(0)) && Next(Next(s, Check(1)), Join(0)) == JOINED
  {
  }

  lemma TwoPayloadsRun()
    ensures var start := State(0, Some(1), Some(1), 0, [], []);
            Runs(start, TWO_PAYLOADS) && After(start, TWO_PAYLOADS) == Lone(Idle, 2)
  {
    var start := State(0, Some(1), Some(1), 0, [], []);
    assert After(Lone(Idle, 2), []) == Lone(Idle, 2);
    PaysOnce(Lone(Idle, 1), 1, []);
    PaysOnce(JOINED, 0, ONE_MORE + []);
    JoinsAlone(start);
    FirstStep(Next(start, Check(1)), Join(0), ONE_MORE + (ONE_MORE + []));
    FirstStep(start, Check(1), [Join(0)] + (ONE_MORE + (ONE_MORE + [])));
  }

  /** One call, checked at its list price of 1, sends two payloads of 1: under a
      budget of 1, and a per-call cap of 1, the seller holds 2. */
  lemma ResigningBreaksTheBudget()
    ensures var start := State(0, Some(1), Some(1), 0, [], []);
            && Runs(start, TWO_PAYLOADS)
            && Sum(Exposed, After(start, TWO_PAYLOADS).flights, 0) == 2 && !Fits(start.budget, 2)
  {
    TwoPayloadsRun();
    var fs := Lone(Idle, 2).flights;
    assert fs[..0] == [] && Sum(Exposed, fs, 0) == Sum(Exposed, fs[..0], 0) + Value(Exposed, fs[0], 0);
  }

  // ---- the second check of the allowance ---------------------------------------------------------

  /** All that is spent, held and reserved by the calls in flight. */
  function Reserved(s: State): nat {
    s.spent + HeldAt(s.holds, s.now) + Sum(Pending, s.flights, s.now)
  }

  predicate SignedInCap(s: State) {
    forall j :: 0 <= j < |s.flights| && !s.flights[j].signing.Idle? ==> Fits(s.maxPerCall, s.flights[j].usd)
  }

  /** Read again after signing, the allowance admits the amount that was signed if and
      only if it is zero or the reservations of all calls are within the budget. */
  lemma SecondCheckExactly(s: State, i: nat)
    requires SignedInCap(s) && Flying(s, i) && !s.flights[i].signing.Idle?
    ensures Fits(AllowanceOf(s, i), s.flights[i].usd) <==> s.flights[i].usd == 0 || Fits(s.budget, Reserved(s))
    ensures forall expiry :: s.flights[i].signing.Signed? ==>
              (Enabled(s, Pass(i, expiry))
               <==> && (s.flights[i].usd == 0 || Fits(s.budget, Reserved(s))) && !expiry.Unreadable?
                    && (expiry.At? ==> expiry.seconds * 1000 <= s.now + 86_460_000))
  {
    forall expiry ensures !ValidityProblem(expiry, MAX_VALIDITY_SECONDS, s.now)
                          <==> !expiry.Unreadable? && (expiry.At? ==> expiry.seconds * 1000 <= s.now + 86_460_000)
    {
      PassesExactly(expiry, MAX_VALIDITY_SECONDS, s.now);
    }
    AllowanceMeaning(s, i, s.flights[i].usd);
    SumSplit(Pending, s.flights, i, s.now);
  }

  lemma SignReserves(s: State, i: nat, usd: nat)
    requires Enabled(s, Sign(i, usd))
    ensures usd > 0 || Fits(s.budget, Reserved(s)) ==> Fits(s.budget, Reserved(Next(s, Sign(i, usd))))
    ensures Fits(s.maxPerCall, usd) || usd == 0
  {
    AllowanceMeaning(s, i, usd);
    SumSplit(Pending, s.flights, i, s.now);
    SumPut(Pending, s.flights, i, Next(s, Sign(i, usd)).flights[i], s.now);
  }

  lemma FinishReserves(s: State, i: nat, answer: Answer)
    requires Enabled(s, Finish(i, answer))
    ensures Reserved(Next(s, Finish(i, answer))) <= Reserved(s)
  {
    var v := Next(s, Finish(i, answer));
    SumPut(Pending, s.flights, i, v.flights[i], s.now);
    if HoldsOf(v.flights[i].fate, s.flights[i].usd) == [] {
      assert v.holds == s.holds;
    } else {
      assert v.holds[..|v.holds| - 1] == s.holds;
    }
  }

  lemma CheckReserves(s: State, price: nat)
    requires Enabled(s, Check(price))
    ensures Reserved(Next(s, Check(price))) == Reserved(s)
  {
    assert Next(s, Check(price)).flights[..|s.flights|] == s.flights;
  }

  /** A call is let past the first check exactly when its price fits the per-call cap,
      and the budget beside everything reserved. */
  lemma CheckExactly(s: State, price: nat)
    ensures Enabled(s, Check(price)) <==> Fits(s.maxPerCall, price) && Fits(s.budget, Reserved(s) + price)
  {
  }

  /** Only a call that joins can take the reservations over the budget: it does not
      look at what other calls have reserved since its own price was checked. */
  lemma OnlyJoiningOverfills(s: State, step: Step)
    requires Enabled(s, step) && Fits(s.budget, Reserved(s))
    ensures Fits(s.budget, Reserved(Next(s, step)))
            <==> (step.Join? ==> Fits(s.budget, Reserved(s) + s.flights[step.call].usd))
  {
    match step
    case Tick(to) =>
      HeldFalls(s.holds, s.now, to);
      Timeless(Pending, s.flights, s.now, to);
    case Check(price) => CheckReserves(s, price);
    case Sign(i, usd) => SignReserves(s, i, usd);
    case Finish(i, answer) => FinishReserves(s, i, answer);
    case _ => SumPut(Pending, s.flights, step.call, Next(s, step).flights[step.call], s.now);
  }

  lemma SignedInCapKept(s: State, step: Step)
    requires SignedInCap(s) && Enabled(s, step)
    ensures SignedInCap(Next(s, step)) && Next(s, step).maxPerCall == s.maxPerCall && Next(s, step).budget == s.budget
  {
    if step.Sign? { SignReserves(s, step.call, step.usd); }
  }

  predicate JoinsFit(s: State, steps: seq<Step>)
    requires Runs(s, steps)
    decreases |steps|
  {
    steps == []
    || (&& (steps[0].Join? ==> Fits(s.budget, Reserved(s) + s.flights[steps[0].call].usd))
        && JoinsFit(Next(s, steps[0]), steps[1..]))
  }

  lemma {:induction false} RunSignedInCap(s: State, steps: seq<Step>)
    requires SignedInCap(s) && Runs(s, steps)
    ensures SignedInCap(After(s, steps)) && After(s, steps).budget == s.budget
    ensures Fits(s.budget, Reserved(s)) && JoinsFit(s, steps) ==> Fits(s.budget, Reserved(After(s, steps)))
    decreases |steps|
  {
    if steps == [] {
    } else {
      SignedInCapKept(s, steps[0]);
      if Fits(s.budget, Reserved(s)) { OnlyJoiningOverfills(s, steps[0]); }
      RunSignedInCap(Next(s, steps[0]), steps[1..]);
    }
  }

  /** Over every run: the second check never refuses an amount the first one admitted
      if every call that joined since then still fitted as it joined. */
  lemma NoSpuriousRefusal(now: nat, maxPerCall: Option<nat>, budget: Option<nat>, before: seq<Step>, i: nat, usd: nat,
                          since: seq<Step>)
    requires var start := State(now, maxPerCall, budget, 0, [], []);
             && Runs(start, before) && Enabled(After(start, before), Sign(i, usd))
             && var signed := Next(After(start, before), Sign(i, usd));
                Runs(signed, since) && JoinsFit(signed, since)
    ensures var signed := Next(After(State(now, maxPerCall, budget, 0, [], []), before), Sign(i, usd));
            var s := After(signed, since);
            Flying(s, i) && s.flights[i].signing.Signed? && s.flights[i].usd == usd ==> Fits(AllowanceOf(s, i), usd)
  {
    var start := State(now, maxPerCall, budget, 0, [], []);
    RunSignedInCap(start, before);
    var w := After(start, before);
    SignedInCapKept(w, Sign(i, usd));
    SignReserves(w, i, usd);
    RunSignedInCap(Next(w, Sign(i, usd)), since);
    var s := After(Next(w, Sign(i, usd)), since);
    if Flying(s, i) && s.flights[i].signing.Signed? && s.flights[i].usd == usd { SecondCheckExactly(s, i); }
  }

  /** Two calls are checked at list prices of 1 and 5 under a budget of 10. The first
      signs 9, the second joins. */
  const LATE_JOIN: seq<Step> := [Check(1)] + ([Check(5)] + ([Join(0)] + ([Sign(0, 9)] + ([Join(1)] + []))))

  function LateJoin(signed: bool, joined: bool): State {
    var first := Flight(InFlight, if signed then 9 else 1, signed, false, None, if signed then Signed
                        else Idle, 0, NoExpiry, Unpaid);
    var second := Flight(if joined then InFlight else Early, 5, false, false, None, Idle, 0, NoExpiry, Unpaid);
    State(0, None, Some(10), 0, [], [first, second])
  }

  lemma LateJoinSums(s: State)
    requires |s.flights| == 2 && s.holds == []
    ensures SumBut(Pending, s.flights, 0, s.now) == Value(Pending, s.flights[1], s.now)
    ensures Sum(Pending, s.flights, s.now) == Value(Pending, s.flights[0], s.now) + Value(Pending, s.flights[1], s.now)
  {
    var fs := s.flights;
    assert fs[..1][..0] == [] && fs[..1][0] == fs[0];
    assert SumBut(Pending, fs[..1], 0, s.now) == 0;
    assert Sum(Pending, fs[..1], s.now) == Sum(Pending, fs[..1][..0], s.now) + Value(Pending, fs[0], s.now);
  }

  /** Both are checked, neither has joined. */
  function BothChecked(): State {
    State(0, None, Some(10), 0, [], [Flight(Early, 1, false, false, None, Idle, 0, NoExpiry, Unpaid),
                                     Flight(Early, 5, false, false, None, Idle, 0, NoExpiry, Unpaid)])
  }

  lemma LateJoinChecks(rest: seq<Step>)
    requires Runs(BothChecked(), rest)
    ensures var start := State(0, None, Some(10), 0, [], []);
            var steps := [Check(1)] + ([Check(5)] + rest);
            Runs(start, steps) && After(start, steps) == After(BothChecked(), rest)
  {
    var start := State(0, None, Some(10), 0, [], []);
    var one := Next(start, Check(1));
    assert one.flights[..0] == [] && Sum(Pending, one.flights, 0) == 0;
    assert Next(one, Check(5)).flights == BothChecked().flights;
    FirstStep(one, Check(5), rest);
    FirstStep(start, Check(1), [Check(5)] + rest);
  }

  lemma LateJoinSteps()
    ensures Enabled(BothChecked(), Join(0)) && Next(BothChecked(), Join(0)) == LateJoin(false, false)
    ensures Enabled(LateJoin(false, false), Sign(0, 9))
    ensures Next(LateJoin(false, false), Sign(0, 9)) == LateJoin(true, false)
    ensures Enabled(LateJoin(true, false), Join(1)) && Next(LateJoin(true, false), Join(1)) == LateJoin(true, true)
  {
    LateJoinSums(LateJoin(false, false));
    assert Next(BothChecked(), Join(0)).flights == LateJoin(false, false).flights;
  }

  lemma LateJoinRuns()
    ensures Runs(State(0, None, Some(10), 0, [], []), LATE_JOIN)
    ensures After(State(0, None, Some(10), 0, [], []), LATE_JOIN) == LateJoin(true, true)
  {
    LateJoinSteps();
    assert After(LateJoin(true, true), []) == LateJoin(true, true);
    FirstStep(LateJoin(true, false), Join(1), []);
    FirstStep(LateJoin(false, false), Sign(0, 9), [Join(1)] + []);
    FirstStep(BothChecked(), Join(0), [Sign(0, 9)] + ([Join(1)] + []));
    LateJoinChecks([Join(0)] + ([Sign(0, 9)] + ([Join(1)] + [])));
  }

  /** After that the first call may sign no more than 5, and its 9 is refused. */
  lemma LateJoinRefuses()
    ensures var start := State(0, None, Some(10), 0, [], []);
            && Runs(start, LATE_JOIN)
            && var s := After(start, LATE_JOIN);
               Flying(s, 0) && s.flights[0].usd == 9 && AllowanceOf(s, 0) == Some(5)
  {
    LateJoinRuns();
    LateJoinSums(LateJoin(true, true));
  }
}
