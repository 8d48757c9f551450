/** What the queue, the deadline and the guard give together, over every run. */
module SettleSafety {
  import opened Types
  import opened Settle

  /** Nothing this settle does from now on can be let through. */
  predicate Quiet(job: Job, now: nat) {
    !job.worked || job.workDone || now >= job.ctx.deadline
  }

  predicate JobOk(job: Job, timeout: nat) {
    && job.ctx.deadline == job.arrival + timeout > 0
    && "" !in job.submissions
    && (if job.submissions == [] then job.ctx.sentHash == "" else job.ctx.sentHash in job.submissions)
    && (job.ctx.txHash != "" ==> job.ctx.txHash in job.submissions)
    && (job.submissions != [] ==> job.worked)
  }

  predicate Waiting(job: Job) {
    !job.worked && !job.workDone && job.submissions == [] && job.answer.None? && job.reply.None?
  }

  /** The reply says that the settle succeeded exactly when it did; a failure reply
      names a hash the settle has submitted, if it has submitted any. */
  predicate Told(job: Job) {
    && job.answer.Some? && job.reply.Some?
    && (job.reply == Some(Settled) <==> job.answer == Some(Fulfilled))
    && (job.reply.value.Failed? ==>
          if job.submissions == [] then job.reply.value.transaction == ""
          else job.reply.value.transaction in job.submissions)
  }

  predicate Finished(job: Job, now: nat) {
    Told(job) && Quiet(job, now)
  }

  predicate TurnOk(w: World)
    requires w.next <= |w.jobs|
  {
    match w.slot
    case Free => w.tasks == [] && (w.next > 0 ==> Finished(w.jobs[w.next - 1], w.now))
    case Holding(_) =>
      && w.next > 0 && w.current == w.next - 1 && w.tasks == []
      && Finished(w.jobs[w.next - 1], w.now) && w.jobs[w.next - 1].worked
    case Running =>
      && w.next > 0 && w.current == w.next - 1
      && var job := w.jobs[w.next - 1];
         if job.answer.None? then w.tasks == [] && job.reply.None? && job.worked && !job.workDone
         else
           && Quiet(job, w.now)
           && (w.tasks == [Swallow, Deliver] || w.tasks == [Deliver, WaitHeld] || w.tasks == [WaitHeld])
           && if w.tasks == [WaitHeld] then Told(job) else job.reply.None?
  }

  predicate Inv(w: World) {
    && w.next <= |w.jobs|
    && (forall j :: 0 <= j < |w.jobs| ==> JobOk(w.jobs[j], w.timeout))
    && (forall j :: w.next <= j < |w.jobs| ==> Waiting(w.jobs[j]))
    && (forall j :: 0 <= j < w.next - 1 ==> Finished(w.jobs[j], w.now))
    && TurnOk(w)
    && (forall k :: 0 <= k < |w.admitted| ==>
          w.admitted[k].job < w.next && w.admitted[k].at < w.jobs[w.admitted[k].job].ctx.deadline)
    && (forall k, l :: 0 <= k < l < |w.admitted| ==> w.admitted[k].job <= w.admitted[l].job)
  }

  /** A step that changes one job and nothing about turns or admissions. */
  lemma PutKeeps(w: World, j: nat, job: Job)
    requires Inv(w) && j < w.next && JobOk(job, w.timeout) && job.ctx.deadline == w.jobs[j].ctx.deadline
    requires j < w.next - 1 ==> Finished(job, w.now)
    requires j == w.next - 1 ==> TurnOk(Put(w, j, job))
    ensures Inv(Put(w, j, job))
  {
  }

  lemma RpcKeeps(w: World, j: nat, what: Method, hash: string)
    requires Inv(w) && Enabled(w, Rpc(j, what, hash))
    ensures Inv(Next(w, Rpc(j, what, hash)))
  {
    var v := Next(w, Rpc(j, what, hash));
    PutKeeps(w, j, v.jobs[j]);
    if Admits(w.jobs[j].ctx, w.now) {
      assert j == w.next - 1;
      assert v == Put(w, j, v.jobs[j]).(admitted := w.admitted + [Admission(j, what, w.now)]);
    }
  }

  lemma WorkEndsKeeps(w: World, j: nat, ok: bool)
    requires Inv(w) && Enabled(w, WorkEnds(j, ok))
    ensures Inv(Next(w, WorkEnds(j, ok)))
  {
    var v := Next(w, WorkEnds(j, ok));
    if w.jobs[j].answer.Some? { PutKeeps(w, j, v.jobs[j]); }
  }

  lemma StartKeeps(w: World, clientClosed: bool)
    requires Inv(w) && Enabled(w, Start(clientClosed))
    ensures Inv(Next(w, Start(clientClosed)))
  {
  }

  lemma ReactKeeps(w: World)
    requires Inv(w) && Enabled(w, React)
    ensures Inv(Next(w, React))
  {
    var v := Next(w, React);
    assert w.tasks == [Swallow, Deliver] ==> v.tasks == [Deliver, WaitHeld];
    assert w.tasks == [Deliver, WaitHeld] ==> v.tasks == [WaitHeld];
    assert w.tasks == [WaitHeld] ==> v.tasks == [];
  }

  lemma TickKeeps(w: World, to: nat)
    requires Inv(w) && w.now <= to
    ensures Inv(w.(now := to))
  {
  }

  lemma ArriveKeeps(w: World)
    requires Inv(w) && w.now > 0
    ensures Inv(Next(w, Arrive))
  {
  }

  lemma TimeUpKeeps(w: World)
    requires Inv(w) && Enabled(w, TimeUp)
    ensures Inv(Next(w, TimeUp))
  {
  }

  lemma ReleaseKeeps(w: World)
    requires Inv(w) && Enabled(w, Release)
    ensures Inv(Next(w, Release))
  {
  }

  /** Every step of the queue, of the guard and of the clock keeps the invariant. */
  lemma StepKeeps(w: World, step: Step)
    requires Inv(w) && Enabled(w, step) && w.now > 0
    ensures Inv(Next(w, step))
  {
    match step
    case Tick(to) => TickKeeps(w, to);
    case Arrive => ArriveKeeps(w);
    case Start(clientClosed) => StartKeeps(w, clientClosed);
    case Rpc(j, what, hash) => RpcKeeps(w, j, what, hash);
    case Poll(j, _) => PutKeeps(w, j, Next(w, step).jobs[j]);
    case WorkEnds(j, ok) => WorkEndsKeeps(w, j, ok);
    case TimeUp => TimeUpKeeps(w);
    case React => ReactKeeps(w);
    case Release => ReleaseKeeps(w);
  }

  lemma StepFrame(w: World, step: Step)
    requires Enabled(w, step)
    ensures var v := Next(w, step); v.now >= w.now && v.timeout == w.timeout && v.holdMax == w.holdMax
  {
  }

  lemma {:induction false} RunKeeps(w: World, steps: seq<Step>)
    requires Inv(w) && Runs(w, steps) && w.now > 0
    ensures Inv(After(w, steps)) && After(w, steps).timeout == w.timeout
    decreases |steps|
  {
    if steps == [] {
    } else {
      StepKeeps(w, steps[0]);
      StepFrame(w, steps[0]);
      RunKeeps(Next(w, steps[0]), steps[1..]);
    }
  }

  predicate Live(w: World, j: nat) {
    Busy(w, j) && w.now < w.jobs[j].ctx.deadline
  }

  /** At any instant at most one settle is both unfinished and before its
      deadline, whatever the hold cap released. */
  lemma OneLiveSettle(now: nat, timeout: nat, holdMax: nat, steps: seq<Step>, i: nat, j: nat)
    requires now > 0 && Runs(Start0(now, timeout, holdMax), steps)
    requires Live(After(Start0(now, timeout, holdMax), steps), i)
             && Live(After(Start0(now, timeout, holdMax), steps), j)
    ensures i == j
  {
    RunKeeps(Start0(now, timeout, holdMax), steps);
  }

  /** Steps before submission of different settles never interleave: between two
      admitted steps of one settle every admitted step is its own. */
  lemma SettlesDoNotInterleave(now: nat, timeout: nat, holdMax: nat, steps: seq<Step>, k: nat, m: nat, l: nat)
    requires now > 0 && Runs(Start0(now, timeout, holdMax), steps)
    requires var a := After(Start0(now, timeout, holdMax), steps).admitted;
             k < m < l < |a| && a[k].job == a[l].job
    ensures var a := After(Start0(now, timeout, holdMax), steps).admitted;
            a[m].job == a[k].job
  {
    RunKeeps(Start0(now, timeout, holdMax), steps);
  }

  /** Every step let through, a resent submission included, was let through
      strictly before the deadline counted from its request's arrival. */
  lemma NothingLate(now: nat, timeout: nat, holdMax: nat, steps: seq<Step>, k: nat)
    requires now > 0 && Runs(Start0(now, timeout, holdMax), steps)
    requires k < |After(Start0(now, timeout, holdMax), steps).admitted|
    ensures var w := After(Start0(now, timeout, holdMax), steps);
            var a := w.admitted[k];
            a.job < |w.jobs| && a.at < w.jobs[a.job].arrival + timeout
  {
    RunKeeps(Start0(now, timeout, holdMax), steps);
  }

  /** The answer tells what the settle came to: success if and only if its work ended
      well in time. A failure answer names a transaction exactly when its own settle
      had begun a submission, and one that settle submitted; and that stays so: none
      begins after the answer. */
  lemma AnswerNamesSubmission(now: nat, timeout: nat, holdMax: nat, steps: seq<Step>, j: nat)
    requires now > 0 && Runs(Start0(now, timeout, holdMax), steps)
    requires j < |After(Start0(now, timeout, holdMax), steps).jobs|
    ensures var job := After(Start0(now, timeout, holdMax), steps).jobs[j];
            && (job.reply.Some? ==> job.answer.Some? && (job.reply.value.Settled? <==> job.answer.value.Fulfilled?))
            && (job.reply.Some? && job.reply.value.Failed? ==>
                  && (job.reply.value.transaction != "" <==> job.submissions != [])
                  && (job.submissions != [] ==> job.reply.value.transaction in job.submissions))
  {
    RunKeeps(Start0(now, timeout, holdMax), steps);
  }

  /** A new job waits behind those not yet started and the one in the slot. */
  lemma ArrivesBehind(w: World)
    requires Inv(w)
    ensures var v := Next(w, Arrive);
            && |v.jobs| == |w.jobs| + 1 && v.jobs[|w.jobs|].arrival == w.now
            && v.jobs[|w.jobs|].ahead == |w.jobs[w.next..]| + if w.slot == Free then 0 else 1
  {
  }

  /** What a settle submits and polls is what its context records. */
  lemma ContextRecords(w: World, j: nat, hash: string)
    ensures Enabled(w, Poll(j, hash)) ==>
              j < |Next(w, Poll(j, hash)).jobs| && Next(w, Poll(j, hash)).jobs[j].ctx.txHash == hash
    ensures Enabled(w, Rpc(j, SendTransaction, hash))
            && (w.jobs[j].ctx.deadline == 0 || w.now < w.jobs[j].ctx.deadline) ==>
              var v := Next(w, Rpc(j, SendTransaction, hash));
              j < |v.jobs| && v.jobs[j].ctx.sentHash == hash && v.jobs[j].submissions == w.jobs[j].submissions + [hash]
  {
  }

  /** The hash named is the one last polled before the answer, else the one last sent. */
  lemma ReplyNamesLatest(w: World)
    requires Inv(w) && Enabled(w, React) && w.tasks[0] == Deliver
    ensures var j := w.next - 1;
            var ctx := w.jobs[j].ctx;
            j < |Next(w, React).jobs| && Next(w, React).jobs[j].reply.Some? &&
            var reply := Next(w, React).jobs[j].reply.value;
            reply.Failed? ==> && (ctx.txHash != "" ==> reply.transaction == ctx.txHash)
                              && (ctx.txHash == "" ==> reply.transaction == ctx.sentHash)
  {
  }

  /** The steps that settle what job `j` is told. */
  predicate Decides(w: World, step: Step, j: nat) {
    j < |w.jobs| &&
    match step
    case TimeUp => w.next == j + 1
    case WorkEnds(i, _) => i == j && w.jobs[j].answer.None?
    case Start(clientClosed) => w.next == j && (clientClosed || w.now >= w.jobs[j].arrival + w.timeout)
    case _ => false
  }

  lemma DecidedAnswer(w: World, step: Step, j: nat)
    requires Inv(w) && Enabled(w, step) && Decides(w, step, j)
    ensures j < |Next(w, step).jobs|
    ensures Next(w, step).jobs[j].answer == Some(if step.WorkEnds? && step.ok then Fulfilled else Rejected)
    ensures step.Start? ==> !Next(w, step).jobs[j].worked
  {
  }

  /** A job that is neither late nor abandoned is worked on, and not answered yet. */
  lemma StartsWorkExactly(w: World, clientClosed: bool)
    requires Inv(w) && Enabled(w, Start(clientClosed))
    ensures var v, job := Next(w, Start(clientClosed)), w.jobs[w.next];
            w.next < |v.jobs| &&
            (v.jobs[w.next].worked <==> !clientClosed && w.now < job.arrival + w.timeout) &&
            (v.jobs[w.next].worked <==> v.jobs[w.next].answer.None?)
  {
  }

  /** A pre-submit step is let through exactly while its request's time is not up. */
  lemma AdmittedExactly(w: World, j: nat, what: Method, hash: string)
    requires Inv(w) && Enabled(w, Rpc(j, what, hash))
    ensures Next(w, Rpc(j, what, hash)).admitted
            == if w.now < w.jobs[j].arrival + w.timeout then w.admitted + [Admission(j, what, w.now)] else w.admitted
  {
  }

  lemma AnswerKept(w: World, step: Step, j: nat)
    requires Inv(w) && Enabled(w, step) && j < |w.jobs| && w.jobs[j].answer.Some?
    ensures j < |Next(w, step).jobs| && Next(w, step).jobs[j].answer == w.jobs[j].answer
  {
  }

  lemma {:induction false} RunKeepsAnswer(w: World, steps: seq<Step>, j: nat)
    requires Inv(w) && Runs(w, steps) && w.now > 0 && j < |w.jobs| && w.jobs[j].answer.Some?
    ensures Inv(After(w, steps)) && j < |After(w, steps).jobs| && After(w, steps).jobs[j].answer == w.jobs[j].answer
    decreases |steps|
  {
    if steps == [] {
    } else {
      StepKeeps(w, steps[0]);
      StepFrame(w, steps[0]);
      AnswerKept(w, steps[0], j);
      RunKeepsAnswer(Next(w, steps[0]), steps[1..], j);
    }
  }

  /** Whatever happens before and after: a caller is told that its settle succeeded if
      the work ended well before anything else decided the answer, and that it failed
      if the work ended badly, the time ran out, or the job never started. */
  lemma ToldWhatHappened(now: nat, timeout: nat, holdMax: nat, before: seq<Step>, step: Step, since: seq<Step>, j: nat)
    requires now > 0 && Runs(Start0(now, timeout, holdMax), before)
    requires var w := After(Start0(now, timeout, holdMax), before);
             Enabled(w, step) && Decides(w, step, j) && Runs(Next(w, step), since)
    ensures var job := After(Next(After(Start0(now, timeout, holdMax), before), step), since).jobs;
            j < |job| && (job[j].reply.Some? ==> (job[j].reply == Some(Settled) <==> step.WorkEnds? && step.ok))
  {
    RunKeeps(Start0(now, timeout, holdMax), before);
    var w := After(Start0(now, timeout, holdMax), before);
    RunTimes(Start0(now, timeout, holdMax), before);
    DecidedAnswer(w, step, j);
    StepKeeps(w, step);
    StepFrame(w, step);
    RunKeepsAnswer(Next(w, step), since, j);
    var v := After(Next(w, step), since);
    if v.jobs[j].reply.Some? { ReplyTells(v, j); }
  }

  lemma ReplyTells(w: World, j: nat)
    requires Inv(w) && j < |w.jobs| && w.jobs[j].reply.Some? && w.jobs[j].answer.Some?
    ensures w.jobs[j].reply == Some(Settled) <==> w.jobs[j].answer == Some(Fulfilled)
  {
  }

  lemma {:induction false} RunTimes(w: World, steps: seq<Step>)
    requires Runs(w, steps)
    ensures After(w, steps).now >= w.now && After(w, steps).holdMax == w.holdMax
    decreases |steps|
  {
    if steps == [] {
    } else {
      StepFrame(w, steps[0]);
      RunTimes(Next(w, steps[0]), steps[1..]);
    }
  }

  // ---- the slot is held ---------------------------------------------------------------------

  predicate Stopped(w: World, job: Job) {
    !job.worked || job.workDone || w.now >= job.answeredAt + w.holdMax
  }

  /** How the last job started leaves the slot: not before its work has stopped, or the
      cap has passed since its answer. */
  predicate SlotHeld(w: World) {
    0 < w.next <= |w.jobs| ==>
      var job := w.jobs[w.next - 1];
      && (job.answer.Some? ==> job.answeredAt <= w.now)
      && (w.slot.Free? ==> Stopped(w, job))
      && (w.slot.Holding? ==> w.slot.releaseBy >= job.answeredAt + w.holdMax)
  }

  lemma TurnHoldsSlot(w: World, step: Step)
    requires Inv(w) && SlotHeld(w) && Enabled(w, step) && (step.Start? || step.React? || step.Release?)
    ensures SlotHeld(Next(w, step))
  {
  }

  lemma SlotStaysHeld(w: World, step: Step)
    requires Inv(w) && SlotHeld(w) && Enabled(w, step)
    ensures SlotHeld(Next(w, step))
  {
    if step.Start? || step.React? || step.Release? { TurnHoldsSlot(w, step); }
  }

  lemma {:induction false} RunHoldsSlot(w: World, steps: seq<Step>)
    requires Inv(w) && SlotHeld(w) && Runs(w, steps) && w.now > 0
    ensures SlotHeld(After(w, steps))
    decreases |steps|
  {
    if steps == [] {
    } else {
      StepKeeps(w, steps[0]);
      StepFrame(w, steps[0]);
      SlotStaysHeld(w, steps[0]);
      RunHoldsSlot(Next(w, steps[0]), steps[1..]);
    }
  }

  /** The next job starts only once the work of the one before has stopped, or the hold
      cap has passed since that one was answered. */
  lemma SlotHeldForWork(now: nat, timeout: nat, holdMax: nat, steps: seq<Step>, clientClosed: bool)
    requires now > 0 && Runs(Start0(now, timeout, holdMax), steps)
    requires var w := After(Start0(now, timeout, holdMax), steps); Enabled(w, Start(clientClosed)) && w.next > 0
    ensures var w := After(Start0(now, timeout, holdMax), steps);
            0 < w.next <= |w.jobs| &&
            var job := w.jobs[w.next - 1];
            job.answer.Some? && (!job.worked || job.workDone || w.now >= job.answeredAt + holdMax)
  {
    RunKeeps(Start0(now, timeout, holdMax), steps);
    RunTimes(Start0(now, timeout, holdMax), steps);
    RunHoldsSlot(Start0(now, timeout, holdMax), steps);
  }

  /** Every job before the one starting has had its answer delivered. */
  lemma AnsweredInOrder(now: nat, timeout: nat, holdMax: nat, steps: seq<Step>, clientClosed: bool, j: nat)
    requires now > 0 && Runs(Start0(now, timeout, holdMax), steps)
    requires var w := After(Start0(now, timeout, holdMax), steps);
             Enabled(w, Start(clientClosed)) && j < w.next
    ensures j < |After(Start0(now, timeout, holdMax), steps).jobs|
            && After(Start0(now, timeout, holdMax), steps).jobs[j].reply.Some?
  {
    RunKeeps(Start0(now, timeout, holdMax), steps);
  }

  // ---- progress ---------------------------------------------------------------------------

  /** A clock step that waits for nothing already due. */
  predicate Prompt(w: World, step: Step) {
    step.Tick? ==>
      && w.tasks == []
      && (w.slot.Free? ==> w.next == |w.jobs|)
      && (w.slot.Running? ==> 0 < w.next <= |w.jobs| && step.to <= w.jobs[w.next - 1].ctx.deadline)
      && (w.slot.Holding? ==> 0 < w.next <= |w.jobs| && !w.jobs[w.next - 1].workDone && step.to <= w.slot.releaseBy)
  }

  predicate PromptRun(w: World, steps: seq<Step>)
    requires Runs(w, steps)
    decreases |steps|
  {
    steps == [] || (Prompt(w, steps[0]) && PromptRun(Next(w, steps[0]), steps[1..]))
  }

  function Times(n: nat, t: nat): nat { if n == 0 then 0 else t + Times(n - 1, t) }

  /** When the slot is free again at the latest. */
  function FreeBy(w: World): nat
    requires w.next <= |w.jobs| && (!w.slot.Free? ==> w.next > 0)
  {
    match w.slot
    case Free => w.now
    case Running =>
      (if w.jobs[w.next - 1].answer.None? then w.jobs[w.next - 1].ctx.deadline else w.now) + w.holdMax
    case Holding(releaseBy) => releaseBy
  }

  /** Job `i`'s turn comes within what was ahead of it when it arrived. */
  predicate Due(w: World, i: nat)
    requires w.next <= i < |w.jobs| && (!w.slot.Free? ==> w.next > 0)
  {
    FreeBy(w) + Times(i - w.next, w.timeout + w.holdMax)
      <= w.jobs[i].arrival + Times(w.jobs[i].ahead, w.timeout + w.holdMax)
  }

  /** The clocks of the running turn. */
  predicate TurnClock(w: World)
    requires w.next <= |w.jobs| && (!w.slot.Free? ==> w.next > 0)
  {
    && (w.slot.Running? && w.jobs[w.next - 1].answer.None? ==> w.now <= w.jobs[w.next - 1].ctx.deadline)
    && (w.slot.Holding? ==> w.now <= w.slot.releaseBy <= w.now + w.holdMax)
  }

  predicate TurnOnTime(w: World)
    requires w.next <= |w.jobs| && (!w.slot.Free? ==> w.next > 0)
  {
    TurnClock(w) && forall i :: 0 <= i < |w.jobs| ==> w.jobs[i].arrival <= w.now
  }

  predicate OnTime(w: World) {
    Inv(w) && TurnOnTime(w) && forall i :: w.next <= i < |w.jobs| ==> Due(w, i)
  }

  lemma JobFrame(w: World, step: Step, j: nat)
    requires Enabled(w, step) && j < |w.jobs|
    ensures j < |Next(w, step).jobs|
    ensures Next(w, step).jobs[j].arrival == w.jobs[j].arrival
            && Next(w, step).jobs[j].ctx.deadline == w.jobs[j].ctx.deadline
    ensures w.jobs[j].answer.Some? ==> Next(w, step).jobs[j].answer.Some?
  {
  }

  lemma FreeByKept(w: World, step: Step)
    requires Inv(w) && TurnClock(w) && Enabled(w, step) && Prompt(w, step) && !step.Start? && w.next < |w.jobs|
    ensures var v := Next(w, step);
            v.next == w.next <= |v.jobs| && (!v.slot.Free? ==> v.next > 0) && FreeBy(v) <= FreeBy(w)
  {
    if w.next > 0 { JobFrame(w, step, w.next - 1); }
  }

  lemma OthersUnmoved(w: World, step: Step, i: nat)
    requires Inv(w) && Enabled(w, step) && w.next + (if step.Start? then 1 else 0) <= i < |w.jobs|
    ensures i < |Next(w, step).jobs| && Next(w, step).jobs[i] == w.jobs[i]
  {
  }

  lemma ArrivesOnTime(w: World)
    requires OnTime(w) && w.now > 0
    ensures Due(Next(w, Arrive), |w.jobs|)
  {
    var v := Next(w, Arrive);
    assert FreeBy(v) == FreeBy(w) <= w.now + if w.slot.Free? then 0 else w.timeout + w.holdMax;
  }

  /** A turn lasts at most the timeout and the cap. */
  lemma TurnLength(w: World, clientClosed: bool)
    requires OnTime(w) && Enabled(w, Start(clientClosed))
    ensures var v := Next(w, Start(clientClosed));
            v.next <= |v.jobs| && v.next > 0 && FreeBy(v) <= w.now + w.timeout + w.holdMax
  {
    assert JobOk(w.jobs[w.next], w.timeout) && w.jobs[w.next].arrival <= w.now;
  }

  lemma StartsDue(w: World, clientClosed: bool, i: nat)
    requires OnTime(w) && Enabled(w, Start(clientClosed)) && w.next < i < |w.jobs|
    ensures i < |Next(w, Start(clientClosed)).jobs| && Due(Next(w, Start(clientClosed)), i)
  {
    TurnLength(w, clientClosed);
    OthersUnmoved(w, Start(clientClosed), i);
    StepFrame(w, Start(clientClosed));
    assert Due(w, i);
  }

  lemma WaiterDue(w: World, step: Step, i: nat)
    requires Inv(w) && TurnClock(w) && w.next <= i < |w.jobs| && Due(w, i)
    requires Enabled(w, step) && Prompt(w, step) && !step.Start?
    ensures var v := Next(w, step);
            v.next <= i < |v.jobs| && (!v.slot.Free? ==> v.next > 0) && Due(v, i)
  {
    StepFrame(w, step);
    OthersUnmoved(w, step, i);
    FreeByKept(w, step);
  }

  lemma DueKept(w: World, step: Step, i: nat)
    requires OnTime(w) && Enabled(w, step) && Prompt(w, step) && w.now > 0 && Inv(Next(w, step))
    requires Next(w, step).next <= i < |Next(w, step).jobs|
    ensures Due(Next(w, step), i)
  {
    var v := Next(w, step);
    StepFrame(w, step);
    if step.Arrive? && i == |w.jobs| {
      ArrivesOnTime(w);
    } else if step.Start? {
      StartsDue(w, step.clientClosed, i);
    } else {
      assert Due(w, i);
      WaiterDue(w, step, i);
    }
  }

  lemma ArrivalsPast(w: World, step: Step, j: nat)
    requires Inv(w) && TurnOnTime(w) && Enabled(w, step) && j < |Next(w, step).jobs|
    ensures Next(w, step).jobs[j].arrival <= Next(w, step).now
  {
    StepFrame(w, step);
    if j < |w.jobs| { JobFrame(w, step, j); }
  }

  lemma TurnClockKept(w: World, step: Step)
    requires Inv(w) && TurnClock(w) && Enabled(w, step) && Prompt(w, step)
    ensures var v := Next(w, step); v.next <= |v.jobs| && (!v.slot.Free? ==> v.next > 0) && TurnClock(v)
  {
    if !step.Start? && w.next > 0 { JobFrame(w, step, w.next - 1); }
  }

  lemma TurnStaysOnTime(w: World, step: Step)
    requires Inv(w) && TurnOnTime(w) && Enabled(w, step) && Prompt(w, step)
    ensures var v := Next(w, step); v.next <= |v.jobs| && (!v.slot.Free? ==> v.next > 0) && TurnOnTime(v)
  {
    var v := Next(w, step);
    TurnClockKept(w, step);
    forall j | 0 <= j < |v.jobs| ensures v.jobs[j].arrival <= v.now { ArrivalsPast(w, step, j); }
  }

  lemma StaysOnTime(w: World, step: Step)
    requires OnTime(w) && Enabled(w, step) && Prompt(w, step) && w.now > 0
    ensures OnTime(Next(w, step))
  {
    StepKeeps(w, step);
    TurnStaysOnTime(w, step);
    var v := Next(w, step);
    forall i | v.next <= i < |v.jobs| ensures Due(v, i) { DueKept(w, step, i); }
  }

  lemma {:induction false} PromptRunKeeps(w: World, steps: seq<Step>)
    requires OnTime(w) && Runs(w, steps) && PromptRun(w, steps) && w.now > 0
    ensures OnTime(After(w, steps)) && After(w, steps).timeout == w.timeout && After(w, steps).holdMax == w.holdMax
    decreases |steps|
  {
    if steps == [] {
    } else {
      StaysOnTime(w, steps[0]);
      StepFrame(w, steps[0]);
      PromptRunKeeps(Next(w, steps[0]), steps[1..]);
    }
  }

  /** With n jobs ahead of it when it arrived, a job is never still waiting after n
      times (settle timeout + hold cap), whether those jobs succeed, fail or
      never end: by then its turn has come. */
  lemma StartsInTime(now: nat, timeout: nat, holdMax: nat, steps: seq<Step>, i: nat)
    requires now > 0 && Runs(Start0(now, timeout, holdMax), steps) && PromptRun(Start0(now, timeout, holdMax), steps)
    requires var w := After(Start0(now, timeout, holdMax), steps); w.next <= i < |w.jobs|
    ensures var w := After(Start0(now, timeout, holdMax), steps);
            i < |w.jobs| && w.now <= w.jobs[i].arrival + Times(w.jobs[i].ahead, timeout + holdMax)
  {
    PromptRunKeeps(Start0(now, timeout, holdMax), steps);
    var w := After(Start0(now, timeout, holdMax), steps);
    assert Due(w, i) && w.now <= FreeBy(w);
  }

  /** A step of the queue's own, or of time: none of the settle's or its caller's. */
  predicate Drives(w: World, step: Step) {
    step.Start? || step.React? || step.TimeUp? || step.Release? || (step.Tick? && step.to > w.now)
  }

  /** And it never waits on anyone: while a job waits, the queue's own next step is
      open or the clock may advance, whatever the settle in the slot does. */
  lemma NeverStuck(w: World)
    requires OnTime(w) && w.next < |w.jobs|
    ensures exists step :: Drives(w, step) && Enabled(w, step) && Prompt(w, step)
  {
    var step :=
      match w.slot
      case Free => Start(false)
      case Holding(releaseBy) => if w.now == releaseBy || w.jobs[w.next - 1].workDone then Release else Tick(w.now + 1)
      case Running =>
        if w.tasks != [] then React
        else if w.now == w.jobs[w.next - 1].ctx.deadline then TimeUp
        else Tick(w.now + 1);
    assert Drives(w, step) && Enabled(w, step) && Prompt(w, step);
  }
}
