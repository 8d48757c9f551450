/** Paid calls of one client, interleaved at every await, over one spend log.
    A call reserves an amount, may sign and send payloads, and ends by booking,
    holding or releasing what it reserved. The seller's answers, the order in
    which calls proceed and the passing of time are all free. */
module Spending {
  import opened Types
  import opened Validity
  import opened Ledger

  /** Row 0 of a call is its reservation. */
  datatype RowId = RowId(call: nat, k: nat)

  /** Guarded: a payment fetch whose x402 client carries the signing guard.
      Opaque: a payment fetch this client cannot see into.
      Gateway: the Circle Gateway option, signed by this client itself. */
  datatype Mode = Guarded | Opaque | Credits | Gateway

  /** A payload between the hook that admits it and the request that carries it. */
  datatype Signing = Idle | Signed(usd: nat) | Checked(usd: nat, expiry: Expiry, at: int)

  datatype Sent = Sent(usd: nat, expiry: Expiry, until: Option<int>)

  datatype Fate = Unknown | Delivered | RefusedByOwnHost

  /** `ended` is when the answer a call is booked by arrived. */
  datatype Call = Call(mode: Mode, host: string, ts: nat, open: bool, signing: Signing,
                       sent: seq<Sent>, fates: seq<Fate>, rows: seq<Row<RowId>>,
                       ended: Option<nat>)

  /** `rows` in a call is what the call last wrote into its entries; the log is
      what the client still holds, pruned as it goes. */
  datatype World = World(now: nat, caps: Caps, log: seq<Row<RowId>>, calls: seq<Call>)

  function SentSum(sent: seq<Sent>): nat {
    if sent == [] then 0 else sent[0].usd + SentSum(sent[1..])
  }

  /** Everything a call has sent, or is about to send. */
  function Outstanding(c: Call): nat {
    SentSum(c.sent) + if c.signing.Idle? then 0 else c.signing.usd
  }

  // ---- what a seller can still take -------------------------------------------

  /** The chain judges expiry by its own clock, which may trail this one. */
  predicate Redeemable(p: Sent, now: int) {
    p.expiry.At? && now < p.expiry.seconds * 1000 + SURE_SLACK_MS
  }

  /** A payment still weighs on the caps when it was delivered inside the rolling
      window, when its outcome is unknown and it was made inside the window, or
      whenever it is undelivered and can still be redeemed. */
  predicate Exposed(p: Sent, fate: Fate, ts: int, now: int) {
    match fate
    case Delivered => ts >= now - SPEND_WINDOW_MS
    case Unknown => ts >= now - SPEND_WINDOW_MS || Redeemable(p, now)
    case RefusedByOwnHost => Redeemable(p, now)
  }

  function ExposedSum(sent: seq<Sent>, fates: seq<Fate>, ts: int, now: int): nat
    requires |sent| == |fates|
  {
    if sent == [] then 0
    else (if Exposed(sent[0], fates[0], ts, now) then sent[0].usd else 0) + ExposedSum(sent[1..], fates[1..], ts, now)
  }

  /** The same where an answer of success says nothing about redemption: a delivered
      payment also weighs while it can still be redeemed. */
  function TakeableSum(sent: seq<Sent>, fates: seq<Fate>, ts: int, now: int): nat
    requires |sent| == |fates|
  {
    if sent == [] then 0
    else
      var weighs := Exposed(sent[0], fates[0], ts, now) || Redeemable(sent[0], now);
      (if weighs then sent[0].usd else 0) + TakeableSum(sent[1..], fates[1..], ts, now)
  }

  predicate Recent(ended: Option<nat>, span: int, now: int) {
    ended.Some? && ended.value >= now - span
  }

  /** The same, with delivery dated by its answer. */
  function AnsweredSum(sent: seq<Sent>, fates: seq<Fate>, ts: int, ended: Option<nat>, span: int, taken: bool,
                       now: int): nat
    requires |sent| == |fates|
  {
    if sent == [] then 0
    else
      var weighs := || (!taken && Redeemable(sent[0], now))
                    || if fates[0].Delivered? then Recent(ended, span, now) else Exposed(sent[0], fates[0], ts, now);
      (if weighs then sent[0].usd else 0) + AnsweredSum(sent[1..], fates[1..], ts, ended, span, taken, now)
  }

  function AnsweredRows(rows: seq<Row<RowId>>, ended: Option<nat>, span: int, s: Scope, now: int): nat {
    if rows == [] then 0
    else
      var weighs := if rows[0].state.Settled? then Recent(ended, span, now) else CountsAt(rows[0], now);
      (if weighs && InScope(rows[0].host, s) then rows[0].usd else 0) + AnsweredRows(rows[1..], ended, span, s, now)
  }

  /** Recorded: what a call's entries count for. Committed: what it may cost,
      payloads its reservation no longer shows included. Exposure: what sellers
      hold of it, where an answer of success means that the payment was taken; for a
      call whose payloads the client does not see, its entries. Takeable: the same,
      with a delivered payment still weighing while it can be redeemed. ByAnswer: the
      one or the other (`taken`), with delivery weighing for `span` after the answer
      arrived rather than for the window after the reservation. */
  datatype Measure = Recorded | Committed | Exposure | Takeable | ByAnswer(span: int, taken: bool)

  function Value(m: Measure, c: Call, s: Scope, now: int): nat {
    if !InScope(c.host, s) then 0
    else
      match m
      case Recorded => Total(c.rows, s, now)
      case Committed => if c.open then Max(Outstanding(c), Total(c.rows, s, now)) else Total(c.rows, s, now)
      case Exposure =>
        if c.mode.Opaque? || c.mode.Credits? then Total(c.rows, s, now)
        else if c.open || |c.sent| != |c.fates| then SentSum(c.sent)
        else ExposedSum(c.sent, c.fates, c.ts, now)
      case Takeable =>
        if c.mode.Opaque? || c.mode.Credits? then Total(c.rows, s, now)
        else if c.open || |c.sent| != |c.fates| then SentSum(c.sent)
        else TakeableSum(c.sent, c.fates, c.ts, now)
      case ByAnswer(span, taken) =>
        if c.mode.Opaque? || c.mode.Credits? then AnsweredRows(c.rows, c.ended, span, s, now)
        else if c.open || |c.sent| != |c.fates| then SentSum(c.sent)
        else AnsweredSum(c.sent, c.fates, c.ts, c.ended, span, taken, now)
  }

  function Sum(m: Measure, calls: seq<Call>, s: Scope, now: int): nat {
    if calls == [] then 0 else Value(m, calls[0], s, now) + Sum(m, calls[1..], s, now)
  }

  /** The payment can no longer be redeemed once its window has passed. A buyer reads
      this off the time an option asks to stay valid. */
  predicate ExpiresInWindow(p: Sent, ts: int) {
    p.expiry.At? ==> p.expiry.seconds * 1000 + SURE_SLACK_MS <= ts + SPEND_WINDOW_MS + 1
  }

  predicate DeliveredExpire(c: Call) {
    forall k :: 0 <= k < |c.sent| && k < |c.fates| && c.fates[k].Delivered? ==> ExpiresInWindow(c.sent[k], c.ts)
  }

  predicate AllDeliveredExpire(w: World) {
    forall i :: 0 <= i < |w.calls| ==> DeliveredExpire(w.calls[i])
  }

  // ---- the steps ----------------------------------------------------------------

  datatype Booking = BookSettled | BookReleased | BookHeld

  /** `decoded`: the guard can read the amount that was signed (EVM, Solana), so
      it checks the allowance once more. */
  datatype Step =
    | Tick(to: nat)
    | Sweep
    | Begin(mode: Mode, host: string, usd: nat)
    | Sign(call: nat, usd: nat)
    | Check(call: nat, expiry: Expiry, decoded: bool)
    | Abort(call: nat)
    | Record(call: nat)
    | Finish(call: nat, delivered: bool, ownHost: bool)
    | FinishCredits(call: nat, booking: Booking)
    | GatewaySend(call: nat, usd: nat, signedAt: nat, timeout: nat)
    | GatewayDrop(call: nat)
    | GatewayResolve(call: nat, delivered: bool)

  predicate IsOpen(w: World, i: nat, mode: Mode) {
    i < |w.calls| && w.calls[i].mode == mode && w.calls[i].open && |w.calls[i].rows| == 1
  }

  function AllowanceOf(w: World, i: nat): Allowance
    requires i < |w.calls|
  {
    var c := w.calls[i];
    SignAllowance(w.log, w.caps, c.host, Some(RowId(i, 0)), SentSum(c.sent), w.now)
  }

  predicate Enabled(w: World, step: Step) {
    match step
    case Tick(to) => w.now <= to
    case Sweep => true
    case Begin(mode, host, usd) =>
      (mode.Guarded? || usd > 0) && Refusal(Prune(w.log, w.now), w.caps, host, usd, w.now).None?
    case Sign(i, usd) =>
      IsOpen(w, i, Guarded) && w.calls[i].signing.Idle? && AllowanceOf(w, i).Allows(usd)
    case Check(i, expiry, decoded) =>
      && IsOpen(w, i, Guarded) && w.calls[i].signing.Signed?
      && (decoded ==> AllowanceOf(w, i).Allows(w.calls[i].signing.usd))
      && !ValidityProblem(expiry, MAX_VALIDITY_SECONDS, w.now)
    case Abort(i) => IsOpen(w, i, Guarded) && !w.calls[i].signing.Idle?
    case Record(i) => IsOpen(w, i, Guarded) && w.calls[i].signing.Checked?
    case Finish(i, delivered, ownHost) =>
      && (IsOpen(w, i, Guarded) || IsOpen(w, i, Opaque)) && w.calls[i].signing.Idle?
      && !(delivered && ownHost)
    case FinishCredits(i, _) => IsOpen(w, i, Credits)
    case GatewaySend(i, usd, signedAt, timeout) =>
      && IsOpen(w, i, Gateway) && usd <= w.calls[i].rows[0].usd
      && w.calls[i].ts <= signedAt <= w.now && timeout <= GATEWAY_MAX_TIMEOUT_SECONDS
    case GatewayDrop(i) => IsOpen(w, i, Gateway)
    case GatewayResolve(i, _) =>
      && i < |w.calls| && w.calls[i].mode.Gateway? && !w.calls[i].open
      && w.calls[i].fates == [Unknown] && |w.calls[i].rows| == |w.calls[i].sent| == 1
  }

  function PaymentsOf(sent: seq<Sent>): (r: seq<Payment>)
    ensures |r| == |sent|
    ensures forall k :: 0 <= k < |sent| ==> r[k] == Payment(sent[k].usd, sent[k].until)
  {
    seq(|sent|, k requires 0 <= k < |sent| => Payment(sent[k].usd, sent[k].until))
  }

  function RowIds(i: nat, n: nat): (r: seq<RowId>)
    ensures |r| == n && forall k :: 0 <= k < n ==> r[k] == RowId(i, k)
  {
    seq(n, k requires 0 <= k < n => RowId(i, k))
  }

  function Fates(n: nat, delivered: bool, ownHost: bool): (r: seq<Fate>)
    ensures |r| == n
    ensures forall k :: 0 <= k < n ==>
      r[k] == if delivered && k == n - 1 then Delivered else if ownHost then RefusedByOwnHost else Unknown
  {
    var other := if ownHost then RefusedByOwnHost else Unknown;
    seq(n, k requires 0 <= k < n => if delivered && k == n - 1 then Delivered else other)
  }

  function WithCall(w: World, i: nat, c: Call, log: seq<Row<RowId>>): World
    requires i < |w.calls|
  {
    w.(calls := w.calls[i := c], log := log)
  }

  /** `_spendHold` on call `i`: `list` is what was sent. */
  function Hold(w: World, i: nat, list: seq<Payment>, settleLast: bool, ownHost: bool): (r: seq<Row<RowId>>)
    requires i < |w.calls| && |w.calls[i].rows| == 1
    ensures |r| == |list|
  {
    Booked(w.calls[i].rows[0], list, RowIds(i, |list|), settleLast, ownHost, w.now)
  }

  function CloseCall(w: World, i: nat, booked: seq<Row<RowId>>, fates: seq<Fate>): World
    requires i < |w.calls| && booked != []
  {
    WithCall(w, i, w.calls[i].(open := false, rows := booked, fates := fates, ended := Some(w.now)),
             HoldLog(w.log, booked))
  }

  function ReleaseCall(w: World, i: nat): World
    requires i < |w.calls|
  {
    WithCall(w, i, w.calls[i].(open := false, rows := [], ended := Some(w.now)), Remove(w.log, RowId(i, 0)))
  }

  function Next(w: World, step: Step): World
    requires Enabled(w, step)
  {
    match step
    case Tick(to) => w.(now := to)
    case Sweep => w.(log := Prune(w.log, w.now))
    case Begin(mode, host, usd) =>
      var row := Row(RowId(|w.calls|, 0), w.now, host, usd, Reserved, None, false);
      w.(log := Prune(w.log, w.now) + [row],
         calls := w.calls + [Call(mode, host, w.now, true, Idle, [], [], [row], None)])
    case Sign(i, usd) =>
      var row := w.calls[i].rows[0].(usd := usd);
      WithCall(w, i, w.calls[i].(signing := Signed(usd), rows := [row]), Replace(w.log, row))
    case Check(i, expiry, _) =>
      WithCall(w, i, w.calls[i].(signing := Checked(w.calls[i].signing.usd, expiry, w.now)), w.log)
    case Abort(i) => WithCall(w, i, w.calls[i].(signing := Idle), w.log)
    case Record(i) =>
      var p := w.calls[i].signing;
      var sent := Sent(p.usd, p.expiry, SignedValidUntil(p.expiry, MAX_VALIDITY_SECONDS, w.now));
      WithCall(w, i, w.calls[i].(signing := Idle, sent := w.calls[i].sent + [sent]), w.log)
    case Finish(i, delivered, ownHost) =>
      var c := w.calls[i];
      if c.mode.Opaque? then
        CloseCall(w, i, Hold(w, i, [Payment(c.rows[0].usd, None)], delivered, ownHost), [])
      else if c.sent == [] then ReleaseCall(w, i)
      else CloseCall(w, i, Hold(w, i, PaymentsOf(c.sent), delivered, ownHost), Fates(|c.sent|, delivered, ownHost))
    case FinishCredits(i, booking) =>
      var row := w.calls[i].rows[0];
      (match booking
       case BookSettled => CloseCall(w, i, [row.(state := Settled, until := None, ownHost := false)], [])
       case BookReleased => ReleaseCall(w, i)
       case BookHeld => CloseCall(w, i, Hold(w, i, [Payment(row.usd, None)], false, false), []))
    case GatewaySend(i, usd, signedAt, timeout) =>
      var expiry := GatewayExpiry(signedAt, timeout);
      var sent := Sent(usd, expiry, SignedValidUntil(expiry, GATEWAY_MAX_TIMEOUT_SECONDS, w.now));
      var v := CloseCall(w, i, Hold(w, i, PaymentsOf([sent]), false, false), [Unknown]);
      WithCall(v, i, v.calls[i].(sent := [sent], ended := None), v.log)
    case GatewayDrop(i) => ReleaseCall(w, i)
    case GatewayResolve(i, delivered) =>
      var row := w.calls[i].rows[0];
      if delivered then CloseCall(w, i, [row.(state := Settled, until := None, ownHost := false)], [Delivered])
      else CloseCall(w, i, Hold(w, i, PaymentsOf(w.calls[i].sent), false, true), [RefusedByOwnHost])
  }

  // ---- runs -----------------------------------------------------------------------

  function Start(now: nat, caps: Caps): World {
    World(now, caps, [], [])
  }

  predicate Runs(w: World, steps: seq<Step>)
    decreases |steps|
  {
    steps == [] || (Enabled(w, steps[0]) && Runs(Next(w, steps[0]), steps[1..]))
  }

  function After(w: World, steps: seq<Step>): World
    requires Runs(w, steps)
    decreases |steps|
  {
    if steps == [] then w else After(Next(w, steps[0]), steps[1..])
  }

  /** A call hides a payload when it has sent, or is sending, more than its
      reservation shows the other calls. */
  predicate Hides(c: Call) {
    c.open && |c.rows| == 1 && Outstanding(c) > c.rows[0].usd
  }

  /** No other call in scope hides a payload. */
  predicate QuietOn(w: World, i: int, s: Scope) {
    forall j :: 0 <= j < |w.calls| && j != i && InScope(w.calls[j].host, s) ==> !Hides(w.calls[j])
  }

  predicate QuietBut(w: World, i: int) {
    QuietOn(w, i, Everywhere)
  }

  /** What the caps rest on: a call ends within 24 h of its reservation, and
      nothing is admitted while another call hides a payload. */
  predicate Disciplined(w: World, step: Step) {
    match step
    case Tick(to) => forall i :: 0 <= i < |w.calls| && w.calls[i].open ==> to <= w.calls[i].ts + SPEND_WINDOW_MS
    case Begin(_, _, _) => QuietBut(w, -1)
    case Sign(i, _) => QuietBut(w, i)
    case _ => true
  }

  predicate DisciplinedRun(w: World, steps: seq<Step>)
    requires Runs(w, steps)
    decreases |steps|
  {
    steps == [] || (Disciplined(w, steps[0]) && DisciplinedRun(Next(w, steps[0]), steps[1..]))
  }
}
