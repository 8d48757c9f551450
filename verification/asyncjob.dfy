/** Collecting the answer of a paid call that the server runs as a job: poll the
    job link, free of charge, until it has a final answer or the time is up.
    Times are milliseconds; a number the server sends is None where it is
    missing or not finite. */
module AsyncJob {
  import opened Types

  const DEFAULT_ASYNC_TIMEOUT_MS := 900_000.0
  const MIN_WAIT_MS := 1_000.0
  const MAX_WAIT_MS := 30_000.0
  const MAX_POLL_FAILURES := 5

  /** A job document: its state under either name, its own poll interval and the
      HTTP statuses its result and error carry. */
  datatype Doc = Doc(state: string, status: string, pollIntervalSeconds: Option<real>, resultStatus: Option<int>,
                     errorStatus: Option<int>)

  /** What one poll brings back; Lost is a network error. */
  datatype Poll = Lost | Reply(code: int, retryAfter: Option<real>, doc: Doc)

  datatype Link = NoLink | Unparsable | Url(origin: string, href: string)

  datatype Reason = WithoutLink | OtherOrigin | StillRunning | CannotRead | UnknownJob | ExpiredJob

  datatype Outcome = Unchanged | Answered(status: int, doc: Doc) | JobPending(reason: Reason)

  /** Between one and thirty seconds: what the header asks for, else what the
      document does, where that is within those bounds; five when nothing does. */
  function RetryAfterMs(header: Option<real>, doc: Doc): (wait: real)
    ensures MIN_WAIT_MS <= wait <= MAX_WAIT_MS
    ensures header.Some? && 1.0 <= header.value <= 30.0 ==> wait == header.value * 1000.0
    ensures header.None? && doc.pollIntervalSeconds.Some? && 1.0 <= doc.pollIntervalSeconds.value <= 30.0
            ==> wait == doc.pollIntervalSeconds.value * 1000.0
    ensures header.None? && doc.pollIntervalSeconds.None? ==> wait == 5_000.0
    ensures header.Some? && header.value < 0.0 ==> wait == 5_000.0
    ensures header.Some? && 0.0 <= header.value < 1.0 ==> wait == 1_000.0
    ensures header.Some? && header.value > 30.0 ==> wait == 30_000.0
  {
    var s := if header.Some? then header else doc.pollIntervalSeconds;
    var seconds := if s.None? || s.value < 0.0 then 5.0 else s.value;
    var ms := seconds * 1000.0;
    if ms < MIN_WAIT_MS then MIN_WAIT_MS else if ms > MAX_WAIT_MS then MAX_WAIT_MS else ms
  }

  function JobState(doc: Doc): string {
    if doc.state != "" then doc.state
    else if doc.status == "working" then "running"
    else if doc.status == "completed" then "succeeded"
    else if doc.status == "failed" || doc.status == "cancelled" then "failed"
    else doc.status
  }

  function StatusOf(doc: Doc): int {
    var done := JobState(doc) == "succeeded";
    var carried := if done then doc.resultStatus else doc.errorStatus;
    if carried.Some? && carried.value != 0 then carried.value else if done then 200 else 502
  }

  /** A job has succeeded or failed when either name of its state says so; `state`,
      where it is given, is the only one that counts. */
  lemma JobStateExactly(doc: Doc)
    ensures JobState(doc) == "succeeded"
            <==> doc.state == "succeeded" || (doc.state == "" && doc.status in {"completed", "succeeded"})
    ensures JobState(doc) == "failed"
            <==> doc.state == "failed" || (doc.state == "" && doc.status in {"failed", "cancelled"})
  {
  }

  /** The answer's status: the one the result of a success carries, or the error of a
      failure, and 200 or 502 where it carries none. */
  lemma StatusExactly(doc: Doc)
    ensures var carried := if JobState(doc) == "succeeded" then doc.resultStatus else doc.errorStatus;
            && (carried.Some? && carried.value != 0 ==> StatusOf(doc) == carried.value)
            && (carried.None? || carried.value == 0 ==>
                StatusOf(doc) == if JobState(doc) == "succeeded" then 200 else 502)
  {
  }

  predicate Failed(p: Poll) { p.Lost? || p.code >= 500 || p.code == 429 }

  predicate Gone(p: Poll) { p.Reply? && (p.code == 404 || p.code == 410) }

  predicate Final(p: Poll) {
    !Failed(p) && !Gone(p) && (JobState(p.doc) == "succeeded" || JobState(p.doc) == "failed")
  }

  /** How many of the first `n` polls, counted back from the last, failed in a row. */
  function FailuresInARow(poll: nat -> Poll, n: nat): nat {
    if n == 0 || !Failed(poll(n - 1)) then 0 else 1 + FailuresInARow(poll, n - 1)
  }

  lemma {:induction false} FailuresMeaning(poll: nat -> Poll, n: nat, m: nat)
    ensures FailuresInARow(poll, n) >= m <==> m <= n && forall k :: n - m <= k < n ==> Failed(poll(k))
  {
    if n > 0 && m > 0 {
      FailuresMeaning(poll, n - 1, m - 1);
      if m <= n && forall k :: n - m <= k < n ==> Failed(poll(k)) { assert Failed(poll(n - 1)); }
    }
  }

  function TimeoutOf(timeoutMs: Option<real>): (t: real)
    ensures timeoutMs.None? || timeoutMs.value == 0.0 ==> t == 900_000.0
    ensures timeoutMs.Some? && timeoutMs.value > 0.0 ==> t == timeoutMs.value
    ensures timeoutMs.Some? && timeoutMs.value < 0.0 ==> t == 0.0
  {
    if timeoutMs.None? || timeoutMs.value == 0.0 then DEFAULT_ASYNC_TIMEOUT_MS
    else if timeoutMs.value < 0.0 then 0.0
    else timeoutMs.value
  }

  /** One collected answer: the 202 that came at `start`, what each poll would
      bring, and how much longer than asked each sleep and its poll take. */
  datatype Collection = Collection(start: real, retryAfter: Option<real>, first: Doc, poll: nat -> Poll,
                                   late: nat -> nat) {
    /** The last document read within the first `n` polls. */
    function DocAfter(n: nat): Doc {
      if n == 0 then first else if Failed(poll(n - 1)) then DocAfter(n - 1) else poll(n - 1).doc
    }

    /** The wait before poll number `n`: what the last answer asks for. */
    function WaitBefore(n: nat): (wait: real)
      ensures MIN_WAIT_MS <= wait <= MAX_WAIT_MS
    {
      var header := if n == 0 then retryAfter else if poll(n - 1).Lost? then None else poll(n - 1).retryAfter;
      RetryAfterMs(header, DocAfter(n))
    }

    function Clock(n: nat): real
      decreases n, 0
    {
      if n == 0 then start else WakeAt(n - 1) + late(n - 1) as real
    }

    function WakeAt(n: nat): real
      decreases n, 1
    {
      Clock(n) + WaitBefore(n)
    }

    /** What the first `n` polls settle: a finished job's answer, a job that is
        gone, or a link that failed five times in a row. */
    function Settled(n: nat): Option<Outcome> {
      if n == 0 then None
      else
        var g := poll(n - 1);
        if Final(g) then Some(Answered(StatusOf(g.doc), g.doc))
        else if Gone(g) then Some(JobPending(if g.code == 410 then ExpiredJob else UnknownJob))
        else if FailuresInARow(poll, n) >= MAX_POLL_FAILURES then Some(JobPending(CannotRead))
        else None
    }

    /** What the loop should come to by `deadline`, and after how many polls: it
        stops at the first poll that settles the matter, and before one only when
        the next wait would end past the deadline. */
    predicate Ends(r: Outcome, polls: nat, deadline: real) {
      && (forall k :: 0 <= k < polls ==> Settled(k).None? && WakeAt(k) <= deadline)
      && if Settled(polls).Some? then r == Settled(polls).value
         else r == JobPending(StillRunning) && WakeAt(polls) > deadline
    }

    predicate Lost(k: nat) {
      poll(k).Lost? || poll(k).code == 429 || poll(k).code >= 500
    }

    predicate Finished(k: nat) {
      && !Lost(k) && poll(k).code != 404 && poll(k).code != 410
      && JobState(poll(k).doc) in {"succeeded", "failed"}
    }

    predicate Is(k: nat, code: int) {
      poll(k).Reply? && poll(k).code == code
    }

    /** Every one of the last five polls was lost. */
    predicate FiveLost(n: nat) {
      n >= 5 && Lost(n - 5) && Lost(n - 4) && Lost(n - 3) && Lost(n - 2) && Lost(n - 1)
    }

    lemma FiveLostExactly(n: nat)
      ensures FailuresInARow(poll, n) >= MAX_POLL_FAILURES <==> FiveLost(n)
    {
      FailuresMeaning(poll, n, 5);
      if FiveLost(n) {
        forall k | n - 5 <= k < n ensures Failed(poll(k)) {
          assert k == n - 5 || k == n - 4 || k == n - 3 || k == n - 2 || k == n - 1;
        }
      }
    }

    /** What each end of the loop means, told from the polls alone; and none of them
        was met before. */
    lemma EndsMeaning(r: Outcome, polls: nat, deadline: real)
      requires Ends(r, polls, deadline)
      ensures r.Answered? <==> polls > 0 && Finished(polls - 1)
      ensures r.Answered? ==> r.doc == poll(polls - 1).doc && r.status == StatusOf(r.doc)
      ensures r == JobPending(UnknownJob) <==> polls > 0 && Is(polls - 1, 404)
      ensures r == JobPending(ExpiredJob) <==> polls > 0 && Is(polls - 1, 410)
      ensures r == JobPending(CannotRead) <==> FiveLost(polls)
      ensures r == JobPending(StillRunning) ==> WakeAt(polls) > deadline
      ensures r.Answered? || (r.JobPending? && r.reason in {UnknownJob, ExpiredJob, CannotRead, StillRunning})
      ensures forall k :: 0 <= k < polls - 1 ==> !Finished(k) && !Is(k, 404) && !Is(k, 410)
      ensures forall k :: 0 <= k < polls ==> !FiveLost(k)
    {
      FiveLostExactly(polls);
      forall k | 0 <= k < polls ensures !FiveLost(k) {
        FiveLostExactly(k);
        assert Settled(k).None?;
      }
      forall k | 0 <= k < polls - 1 ensures !Finished(k) && !Is(k, 404) && !Is(k, 410) { assert Settled(k + 1).None?; }
    }

    /** The wait before a poll: what the answer before it asks for, the 202 before the
        first; the document that counts is the last one read. */
    lemma WaitMeaning(n: nat)
      ensures WaitBefore(0) == RetryAfterMs(retryAfter, first)
      ensures poll(n).Reply? && !Lost(n) ==> WaitBefore(n + 1) == RetryAfterMs(poll(n).retryAfter, poll(n).doc)
      ensures poll(n).Reply? && Lost(n) ==> WaitBefore(n + 1) == RetryAfterMs(poll(n).retryAfter, DocAfter(n))
      ensures poll(n).Lost? ==> WaitBefore(n + 1) == RetryAfterMs(None, DocAfter(n))
      // and the clock moves on by the wait, and by what it and its poll take longer
      ensures WakeAt(0) == start + WaitBefore(0) && WakeAt(n + 1) == WakeAt(n) + late(n) as real + WaitBefore(n + 1)
    {
    }

    lemma {:induction false} PollTime(k: nat)
      ensures start + (k + 1) as real * MIN_WAIT_MS <= WakeAt(k)
    {
      if k == 0 {
      } else {
        PollTime(k - 1);
      }
    }

    /** There are at most as many polls as the time given has seconds. */
    lemma PollsBounded(r: Outcome, polls: nat, deadline: real)
      requires Ends(r, polls, deadline) && start <= deadline
      ensures polls as real * MIN_WAIT_MS <= deadline - start
    {
      if polls > 0 { PollTime(polls - 1); }
    }

    /** The loop's end is determined: no two lengths of it are right. */
    lemma EndsOnce(r: Outcome, polls: nat, r': Outcome, polls': nat, deadline: real)
      requires Ends(r, polls, deadline) && Ends(r', polls', deadline)
      ensures r == r' && polls == polls'
    {
    }
  }

  method AwaitJob(code: int, link: Link, origin: string, timeoutMs: Option<real>, c: Collection)
    returns (r: Outcome, polls: nat)
    ensures code != 202 ==> r == Unchanged && polls == 0
    ensures code == 202 && link.NoLink? ==> r == JobPending(WithoutLink) && polls == 0
    ensures code == 202 && !link.NoLink? && (link.Unparsable? || link.origin != origin) ==>
              r == JobPending(OtherOrigin) && polls == 0
    ensures code == 202 && link.Url? && link.origin == origin ==> c.Ends(r, polls, c.start + TimeoutOf(timeoutMs))
  {
    polls := 0;
    if code != 202 { return Unchanged, 0; }
    if link.NoLink? { return JobPending(WithoutLink), 0; }
    if link.Unparsable? || link.origin != origin { return JobPending(OtherOrigin), 0; }
    var deadline := c.start + TimeoutOf(timeoutMs);
    var now, doc, failures := c.start, c.first, 0;
    var wait := RetryAfterMs(c.retryAfter, doc);
    while true
      invariant now == c.Clock(polls) && doc == c.DocAfter(polls) && wait == c.WaitBefore(polls)
      invariant failures == FailuresInARow(c.poll, polls) < MAX_POLL_FAILURES
      invariant c.Settled(polls).None?
      invariant forall k :: 0 <= k < polls ==> c.Settled(k).None? && c.WakeAt(k) <= deadline
      decreases deadline - now
    {
      if now + wait > deadline {
        return JobPending(StillRunning), polls;
      }
      now := now + wait + c.late(polls) as real;
      var g := c.poll(polls);
      polls := polls + 1;
      if Failed(g) {
        failures := failures + 1;
        if failures >= MAX_POLL_FAILURES { return JobPending(CannotRead), polls; }
        wait := RetryAfterMs(if g.Lost? then None else g.retryAfter, doc);
        continue;
      }
      if g.code == 404 || g.code == 410 {
        return JobPending(if g.code == 410 then ExpiredJob else UnknownJob), polls;
      }
      failures := 0;
      doc := g.doc;
      if JobState(doc) == "succeeded" || JobState(doc) == "failed" { return Answered(StatusOf(doc), doc), polls; }
      wait := RetryAfterMs(g.retryAfter, doc);
    }
  }
}
