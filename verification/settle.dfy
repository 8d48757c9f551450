/** The facilitator's settle pipeline: requests queue for one signer, each runs
    against a deadline counted from its arrival, and a guard on the RPC client
    refuses every step before submission once that deadline has passed.

    Assumed of the platform: timers do not fire early, promise reactions run in
    the order they were queued, the vendor's settle makes no call after its
    promise settles, and a transaction has a non-empty hash. */
module Settle {
  import opened Types

  // ---- the context a settle runs in ---------------------------------------------

  datatype Method = SimulateTransaction | GetLatestLedger | GetAccount | GetLedgerEntries | SendTransaction

  datatype Ctx = Ctx(startedAt: nat, deadline: nat, txHash: string, sentHash: string, deadlineRefused: bool,
                     lateStart: bool)

  function NewCtx(timeout: nat, now: nat): Ctx {
    Ctx(now, now + timeout, "", "", false, false)
  }

  predicate Admits(c: Ctx, now: nat) {
    !(c.deadline > 0 && now >= c.deadline)
  }

  /** The guard's effect on the context of the settle that makes the call. */
  function Guarded(c: Ctx, m: Method, hash: string, now: nat): Ctx {
    if !Admits(c, now) then c.(deadlineRefused := true)
    else if m.SendTransaction? then c.(sentHash := hash)
    else c
  }

  function StartedLate(c: Ctx): Ctx {
    c.(deadlineRefused := true, lateStart := true)
  }

  class SettleContext {
    const startedAt: nat
    const deadline: nat
    var txHash: string
    var sentHash: string
    var deadlineRefused: bool
    var lateStart: bool

    constructor (timeout: nat, now: nat)
      ensures AsCtx() == NewCtx(timeout, now)
      ensures startedAt == now && deadline == now + timeout && txHash == sentHash == "" && !deadlineRefused
              && !lateStart
    {
      startedAt, deadline := now, now + timeout;
      txHash, sentHash, deadlineRefused, lateStart := "", "", false, false;
    }

    function AsCtx(): Ctx
      reads this
    {
      Ctx(startedAt, deadline, txHash, sentHash, deadlineRefused, lateStart)
    }

    /** Around every RPC step before submission. */
    method Guard(m: Method, hash: string, now: nat) returns (admitted: bool)
      modifies this
      ensures AsCtx() == Guarded(old(AsCtx()), m, hash, now)
      ensures admitted <==> deadline == 0 || now < deadline
      ensures deadlineRefused <==> old(deadlineRefused) || !admitted
      ensures sentHash == if admitted && m.SendTransaction? then hash else old(sentHash)
      ensures txHash == old(txHash) && lateStart == old(lateStart)
    {
      if deadline > 0 && now >= deadline {
        deadlineRefused := true;
        return false;
      }
      if m.SendTransaction? { sentHash := hash; }
      return true;
    }

    /** The start of the queue job: does the vendor's settle run at all, and for
        how long may its answer take? */
    method StartJob(clientClosed: bool, now: nat) returns (left: Option<nat>)
      modifies this
      ensures left == if clientClosed || now >= deadline then None else Some(deadline - now)
      ensures AsCtx() == if left.None? then StartedLate(old(AsCtx())) else old(AsCtx())
      ensures left.None? ==> deadlineRefused && lateStart
    {
      if clientClosed || !(deadline - now > 0) {
        deadlineRefused, lateStart := true, true;
        return None;
      }
      return Some(deadline - now);
    }
  }

  // ---- the hold cap -----------------------------------------------------------------

  const HOLD_MAX_FLOOR_MS := 1_000.0
  const HOLD_MAX_CEILING_MS := 600_000.0

  datatype Setting = Unset | NotANumber | Infinite(positive: bool) | Number(n: real)

  function Clamp(n: real): real {
    if n < HOLD_MAX_FLOOR_MS then HOLD_MAX_FLOOR_MS else if n > HOLD_MAX_CEILING_MS then HOLD_MAX_CEILING_MS else n
  }

  /** No setting, and no fallback, can remove the cap or leave its bounds; a
      positive setting within them is taken as it is. */
  function HoldMaxFrom(raw: Setting, fallback: Setting): (r: real)
    ensures 1_000.0 <= r <= 600_000.0
    ensures raw.Number? && 1_000.0 <= raw.n <= 600_000.0 ==> r == raw.n
  {
    var fb := if fallback.Infinite? then if fallback.positive then HOLD_MAX_CEILING_MS else HOLD_MAX_FLOOR_MS
              else Clamp(if fallback.Number? && fallback.n != 0.0 then fallback.n else HOLD_MAX_FLOOR_MS);
    if !raw.Number? || raw.n <= 0.0 then fb else Clamp(raw.n)
  }

  predicate Usable(raw: Setting) { raw.Number? && raw.n > 0.0 }

  /** A positive setting outside the bounds is taken as the nearer one. */
  lemma HoldMaxClamps(raw: Setting, fallback: Setting)
    requires Usable(raw)
    ensures raw.n < 1_000.0 ==> HoldMaxFrom(raw, fallback) == 1_000.0
    ensures raw.n > 600_000.0 ==> HoldMaxFrom(raw, fallback) == 600_000.0
  {
  }

  /** Without a positive setting the fallback is, by the same rule; and the least cap
      where there is no number in the fallback either. */
  lemma HoldMaxFallsBack(raw: Setting, fallback: Setting)
    requires !Usable(raw)
    ensures fallback.Number? && 1_000.0 <= fallback.n <= 600_000.0 ==> HoldMaxFrom(raw, fallback) == fallback.n
    ensures fallback.Number? && fallback.n < 1_000.0 ==> HoldMaxFrom(raw, fallback) == 1_000.0
    ensures fallback.Number? && fallback.n > 600_000.0 ==> HoldMaxFrom(raw, fallback) == 600_000.0
    ensures fallback.Unset? || fallback.NotANumber? || fallback == Infinite(false) ==>
              HoldMaxFrom(raw, fallback) == 1_000.0
    ensures fallback == Infinite(true) ==> HoldMaxFrom(raw, fallback) == 600_000.0
  {
  }

  // ---- the queue -----------------------------------------------------------------------

  datatype Answer = Fulfilled | Rejected

  /** What the caller is told; a failure names a transaction hash or "". A job's
      `submissions` are the hashes of the submissions that were let through. */
  datatype Reply = Settled | Failed(transaction: string)

  datatype Job = Job(arrival: nat, ctx: Ctx, ahead: nat,
                     worked: bool, workDone: bool, submissions: seq<string>,
                     answer: Option<Answer>, answeredAt: nat, reply: Option<Reply>)

  /** Whose turn it is. Running: the job's promise is awaited. Holding: it has
      answered, and the queue waits for its work or for the cap. */
  datatype Slot = Free | Running | Holding(releaseBy: nat)

  /** Promise reactions of the running job, in the order they were queued: the
      queue swallows the result, the handler receives it, the queue waits for
      what is held. */
  datatype Task = Swallow | Deliver | WaitHeld

  /** An RPC step that was let through. */
  datatype Admission = Admission(job: nat, what: Method, at: nat)

  datatype World = World(now: nat, timeout: nat, holdMax: nat, jobs: seq<Job>, next: nat, slot: Slot,
                         tasks: seq<Task>, current: nat, admitted: seq<Admission>)

  datatype Step =
    | Tick(to: nat)
    | Arrive
    | Start(clientClosed: bool)
    | Rpc(job: nat, what: Method, hash: string)
    | Poll(job: nat, hash: string)
    | WorkEnds(job: nat, ok: bool)
    | TimeUp
    | React
    | Release

  function Start0(now: nat, timeout: nat, holdMax: nat): World {
    World(now, timeout, holdMax, [], 0, Free, [], 0, [])
  }

  predicate Busy(w: World, j: nat) {
    j < |w.jobs| && w.jobs[j].worked && !w.jobs[j].workDone
  }

  predicate Enabled(w: World, step: Step) {
    match step
    case Tick(to) => w.now <= to
    case Arrive => true
    case Start(_) => w.slot.Free? && w.next < |w.jobs|
    case Rpc(j, _, hash) => Busy(w, j) && hash != ""
    case Poll(j, hash) => Busy(w, j) && hash in w.jobs[j].submissions
    case WorkEnds(j, _) => Busy(w, j)
    case TimeUp =>
      && w.slot.Running? && 0 < w.next <= |w.jobs| && w.jobs[w.next - 1].answer.None?
      && w.now >= w.jobs[w.next - 1].ctx.deadline
    case React => w.tasks != [] && 0 < w.next <= |w.jobs| && w.current < |w.jobs| && w.jobs[w.next - 1].answer.Some?
    case Release =>
      && w.slot.Holding? && 0 < w.next <= |w.jobs|
      && (w.jobs[w.next - 1].workDone || w.now >= w.slot.releaseBy)
  }

  function Put(w: World, j: nat, job: Job): World
    requires j < |w.jobs|
  {
    w.(jobs := w.jobs[j := job])
  }

  function Answered(w: World, j: nat, job: Job, a: Answer): World
    requires j < |w.jobs|
  {
    Put(w, j, job.(answer := Some(a), answeredAt := w.now)).(tasks := w.tasks + [Swallow, Deliver])
  }

  /** The failure answer names what the context the handler finds has recorded. */
  function ReplyFor(a: Answer, c: Ctx): Reply {
    if a.Fulfilled? then Settled else Failed(if c.txHash != "" then c.txHash else c.sentHash)
  }

  function Next(w: World, step: Step): World
    requires Enabled(w, step)
  {
    match step
    case Tick(to) => w.(now := to)
    case Arrive =>
      var ahead := Max(0, |w.jobs| - w.next + if w.slot.Free? then 0 else 1);
      w.(jobs := w.jobs + [Job(w.now, NewCtx(w.timeout, w.now), ahead, false, false, [], None, 0, None)])
    case Start(clientClosed) =>
      var j := w.next;
      var v := w.(next := j + 1, slot := Running, current := j);
      if clientClosed || w.now >= w.jobs[j].ctx.deadline then
        Answered(v, j, w.jobs[j].(ctx := StartedLate(w.jobs[j].ctx)), Rejected)
      else Put(v, j, w.jobs[j].(worked := true))
    case Rpc(j, what, hash) =>
      var job := w.jobs[j].(ctx := Guarded(w.jobs[j].ctx, what, hash, w.now));
      if Admits(w.jobs[j].ctx, w.now) then
        var sent := if what.SendTransaction? then [hash] else [];
        Put(w, j, job.(submissions := job.submissions + sent)).(admitted := w.admitted + [Admission(j, what, w.now)])
      else Put(w, j, job)
    case Poll(j, hash) => Put(w, j, w.jobs[j].(ctx := w.jobs[j].ctx.(txHash := hash)))
    case WorkEnds(j, ok) =>
      var job := w.jobs[j].(workDone := true);
      if job.answer.None? then Answered(w, j, job, if ok then Fulfilled else Rejected) else Put(w, j, job)
    case TimeUp => Answered(w, w.next - 1, w.jobs[w.next - 1], Rejected)
    case React =>
      var j := w.next - 1;
      var rest := w.tasks[1..];
      (match w.tasks[0]
       case Swallow => w.(tasks := rest + [WaitHeld])
       case Deliver =>
         var reply := ReplyFor(w.jobs[j].answer.value, w.jobs[w.current].ctx);
         Put(w, j, w.jobs[j].(reply := Some(reply))).(tasks := rest)
       case WaitHeld => w.(tasks := rest, slot := if w.jobs[j].worked then Holding(w.now + w.holdMax) else Free))
    case Release => w.(slot := Free)
  }

  predicate Runs(w: World, steps: seq<Step>)
    decreases |steps|
  {
    steps == [] || (Enabled(w, steps[0]) && Runs(Next(w, steps[0]), steps[1..]))
  }

  function After(w: World, steps: seq<Step>): World
    requires Runs(w, steps)
    decreases |steps|
  {
    if steps == [] then w else After(Next(w, steps[0]), steps[1..])
  }
}
