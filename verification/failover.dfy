/** RPC calls that try other nodes: one after another when a node fails at
    transport (failover), and one more node at the same time when the primary
    is silent (hedged reads). What a node returns is an outcome; an error the
    node itself reports is an answer like a value is. */
module Failover {
  import opened Types

  // ---- outcomes --------------------------------------------------------------------

  /** `transportText` says that the message is one of the known transport texts. */
  datatype Error = Error(code: Option<string>, status: Option<int>, transportText: bool)

  const TRANSPORT_CODES := {"ECONNABORTED", "ECONNRESET", "ETIMEDOUT", "ENOTFOUND", "EAI_AGAIN", "ECONNREFUSED",
                            "ERR_NETWORK", "ERR_BAD_RESPONSE", "EPIPE", "RPC_REQUEST_TIMEOUT",
                            "UND_ERR_CONNECT_TIMEOUT", "UND_ERR_SOCKET"}

  predicate IsTransportFailure(e: Error) {
    || (e.code.Some? && e.code.value in TRANSPORT_CODES)
    || (e.status.Some? && (e.status.value >= 500 || e.status.value == 429))
    || e.transportText
  }

  predicate NodeCode(code: string) {
    || code in {"ECONNABORTED", "ECONNRESET", "ETIMEDOUT", "ENOTFOUND", "EAI_AGAIN", "ECONNREFUSED"}
    || code in {"ERR_NETWORK", "ERR_BAD_RESPONSE", "EPIPE", "RPC_REQUEST_TIMEOUT"}
    || code in {"UND_ERR_CONNECT_TIMEOUT", "UND_ERR_SOCKET"}
  }

  /** Which failures are the node's own: a known code, an HTTP status of 500 and more or
      429, or a known text. An error with none of these is an answer, whatever code a
      JSON-RPC error carries. */
  lemma TransportExactly(e: Error)
    ensures forall code :: e.code == Some(code) && NodeCode(code) ==> IsTransportFailure(e)
    ensures e.status.Some? && (e.status.value == 429 || 500 <= e.status.value) ==> IsTransportFailure(e)
    ensures e.transportText ==> IsTransportFailure(e)
    ensures (e.code.Some? ==> !NodeCode(e.code.value)) && !e.transportText &&
            (e.status.None? || (e.status.value < 500 && e.status.value != 429))
            ==> !IsTransportFailure(e)
    ensures !IsTransportFailure(DEADLINE_REFUSAL)
  {
  }

  datatype Outcome<+T> = Value(value: T) | Fails(error: Error)

  predicate Answers<T>(o: Outcome<T>) {
    o.Fails? ==> !IsTransportFailure(o.error)
  }

  // ---- failover -----------------------------------------------------------------------

  /** The node a call runs on: its URL, and whether it is a fallback instance. */
  datatype Node = Node(url: string, isFallback: bool)

  /** The first outcome that is an answer; the first one of all when none is. */
  function FirstAnswer<T>(first: Outcome<T>, others: seq<Outcome<T>>): Outcome<T> {
    if Answers(first) || others == [] then first
    else if Answers(others[0]) then others[0]
    else FirstAnswer(first, others[1..])
  }

  /** How many of the others are asked before the outcome is settled. */
  function Asked<T>(first: Outcome<T>, others: seq<Outcome<T>>): (n: nat)
    ensures n <= |others|
  {
    if Answers(first) || others == [] then 0
    else if Answers(others[0]) then 1
    else 1 + Asked(first, others[1..])
  }

  predicate FailsOver(here: Node, urls: seq<string>) {
    !here.isFallback && here.url !in urls
  }

  /** `answers[i]` is what the node at `urls[i]` would return. `asked` counts the
      nodes that were called, in the order of the list. */
  method FailOver<T>(here: Node, urls: seq<string>, answers: seq<Outcome<T>>, primaryErr: Error)
    returns (r: Outcome<T>, asked: seq<string>)
    requires |answers| == |urls|
    ensures if FailsOver(here, urls) && IsTransportFailure(primaryErr) then
              r == FirstAnswer(Fails(primaryErr), answers) && asked == urls[..Asked(Fails(primaryErr), answers)]
            else r == Fails(primaryErr) && asked == []
  {
    asked := [];
    if here.isFallback || here.url in urls || !IsTransportFailure(primaryErr) { return Fails(primaryErr), []; }
    var i := 0;
    while i < |urls|
      invariant i <= |urls| && asked == urls[..i]
      invariant FirstAnswer(Fails(primaryErr), answers) == FirstAnswer(Fails(primaryErr), answers[i..])
      invariant Asked(Fails(primaryErr), answers) == i + Asked(Fails(primaryErr), answers[i..])
    {
      assert urls[i] != here.url;
      asked := asked + [urls[i]];
      assert asked == urls[..i + 1];
      if Answers(answers[i]) { return answers[i], asked; }
      assert answers[i..][1..] == answers[i + 1..];
      i := i + 1;
    }
    return Fails(primaryErr), asked;
  }

  /** What the chain means: an answer is the earliest one of the nodes asked, in
      order, and every node before it failed at transport; a transport failure is
      the primary's, and then every node was asked and failed at transport. */
  lemma {:induction false} FirstAnswerMeaning<T>(first: Outcome<T>, others: seq<Outcome<T>>)
    ensures var n := Asked(first, others);
            var r := FirstAnswer(first, others);
            if Answers(r) then
              && r == (if n == 0 then first else others[n - 1])
              && (n > 0 ==> !Answers(first)) && (forall k :: 0 <= k < n - 1 ==> !Answers(others[k]))
            else r == first && n == |others| && forall k :: 0 <= k < |others| ==> !Answers(others[k])
  {
    if !Answers(first) && others != [] && !Answers(others[0]) { FirstAnswerMeaning(first, others[1..]); }
  }

  /** Each node is called at most once and the primary never again. */
  lemma AskedOnce<T>(here: Node, urls: seq<string>, first: Outcome<T>, answers: seq<Outcome<T>>)
    requires |answers| == |urls| && FailsOver(here, urls)
    requires forall i, j :: 0 <= i < j < |urls| ==> urls[i] != urls[j]
    ensures var asked := [here.url] + urls[..Asked(first, answers)];
            forall i, j :: 0 <= i < j < |asked| ==> asked[i] != asked[j]
  {
  }

  const DEADLINE_REFUSAL := Error(Some("SETTLE_DEADLINE_PASSED"), None, false)

  /** A refusal at the settle deadline ends the chain: no node after the one that
      refused is asked. */
  lemma {:induction false} RefusalEndsChain<T>(first: Outcome<T>, others: seq<Outcome<T>>, k: nat)
    requires !Answers(first) && k < |others| && others[k] == Fails(DEADLINE_REFUSAL)
    ensures Asked(first, others) <= k + 1
  {
    if k > 0 && !Answers(others[0]) { RefusalEndsChain(first, others[1..], k - 1); }
  }

  // ---- the wrapper around every method ------------------------------------------------------

  datatype Settings = Settings(urls: seq<string>, hedgeMs: int)

  predicate ShouldHedge(st: Option<Settings>, name: string, here: Node) {
    && st.Some? && st.value.hedgeMs > 0 && st.value.urls != []
    && name != "sendTransaction" && !here.isFallback && here.url !in st.value.urls
  }

  /** A read is hedged exactly when it could fail over, a delay is set and there is a
      node to ask; a submission never is. */
  lemma HedgedExactly(st: Settings, name: string, here: Node)
    ensures ShouldHedge(Some(st), name, here)
            <==> name != "sendTransaction" && FailsOver(here, st.urls) && st.hedgeMs > 0 && |st.urls| > 0
    ensures FailsOver(here, st.urls) <==> !here.isFallback && forall k :: 0 <= k < |st.urls| ==> st.urls[k] != here.url
    ensures !ShouldHedge(None, name, here)
  {
  }

  /** A call that is not hedged: `atOnce` says that the method returned or threw
      without a promise. */
  method Call<T>(st: Settings, name: string, here: Node, atOnce: bool, primary: Outcome<T>, answers: seq<Outcome<T>>)
    returns (r: Outcome<T>, asked: seq<string>)
    requires |answers| == |st.urls| && (atOnce || !ShouldHedge(Some(st), name, here))
    ensures r == if FailsOver(here, st.urls) then FirstAnswer(primary, answers) else primary
    ensures asked == if FailsOver(here, st.urls) then st.urls[..Asked(primary, answers)] else []
  {
    if primary.Value? { return primary, []; }
    r, asked := FailOver(here, st.urls, answers, primary.error);
  }

  /** A submission reaches a second node only after the first failed at transport,
      and is never sent to two nodes at once. */
  lemma SubmissionIsSequential<T>(st: Settings, here: Node, primary: Outcome<T>, answers: seq<Outcome<T>>, k: nat)
    requires |answers| == |st.urls| && k < Asked(primary, answers)
    ensures !ShouldHedge(Some(st), "sendTransaction", here)
    ensures !Answers(primary) && k < |answers| && forall j :: 0 <= j < k ==> !Answers(answers[j])
  {
    FirstAnswerMeaning(primary, answers);
  }

  // ---- hedged reads ---------------------------------------------------------------------------

  /** What happens to one hedged read. Silent: the timer fires. Chain: the
      ordinary failover has settled. */
  datatype Event<+T> = Silent | Primary(o: Outcome<T>) | Hedge(o: Outcome<T>) | Chain(o: Outcome<T>)

  /** `settled` lists every call of the promise's resolve or reject. */
  datatype State<+T> = State(done: bool, hedgeStarted: bool, hedgeErr: Option<Error>, primaryErr: Option<Error>,
                             failingOver: bool, settled: seq<Outcome<T>>)

  function Fresh<T>(): State<T> {
    State(false, false, None, None, false, [])
  }

  function Finish<T>(s: State<T>, o: Outcome<T>): State<T> {
    if s.done then s else s.(done := true, settled := s.settled + [o])
  }

  function Handle<T>(s: State<T>, e: Event<T>): State<T> {
    match e
    case Silent => if s.done then s else s.(hedgeStarted := true)
    case Hedge(o) =>
      if Answers(o) then Finish(s, o)
      else
        var t := s.(hedgeErr := Some(o.error));
        if s.primaryErr.Some? then Finish(t, Fails(s.primaryErr.value)) else t
    case Primary(o) =>
      if o.Value? then Finish(s, o)
      else if s.done then s
      else if !IsTransportFailure(o.error) then Finish(s, o)
      else if !s.hedgeStarted then s.(done := true, failingOver := true)
      else
        var t := s.(primaryErr := Some(o.error));
        if s.hedgeErr.Some? then Finish(t, o) else t
    case Chain(o) => s.(settled := s.settled + [o])
  }

  class HedgedRead<T> {
    var done: bool
    var hedgeStarted: bool
    var hedgeErr: Option<Error>
    var primaryErr: Option<Error>
    var failingOver: bool
    var settled: seq<Outcome<T>>

    constructor ()
      ensures AsState() == Fresh()
    {
      done, hedgeStarted, hedgeErr, primaryErr, failingOver, settled := false, false, None, None, false, [];
    }

    function AsState(): State<T>
      reads this
    {
      State(done, hedgeStarted, hedgeErr, primaryErr, failingOver, settled)
    }

    method Settle(o: Outcome<T>)
      modifies this
      ensures AsState() == Finish(old(AsState()), o)
    {
      if done { return; }
      done := true;
      settled := settled + [o];
    }

    method OnSilence()
      modifies this
      ensures AsState() == Handle(old(AsState()), Silent)
      ensures hedgeStarted <==> old(hedgeStarted) || !old(done)
    {
      if done { return; }
      hedgeStarted := true;
    }

    method OnHedge(o: Outcome<T>)
      modifies this
      ensures AsState() == Handle(old(AsState()), Hedge(o))
    {
      if o.Value? { Settle(o); return; }
      if !IsTransportFailure(o.error) { Settle(o); return; }
      hedgeErr := Some(o.error);
      if primaryErr.Some? { Settle(Fails(primaryErr.value)); }
    }

    method OnPrimary(o: Outcome<T>)
      modifies this
      ensures AsState() == Handle(old(AsState()), Primary(o))
    {
      if o.Value? { Settle(o); return; }
      if done { return; }
      if !IsTransportFailure(o.error) { Settle(o); return; }
      if !hedgeStarted {
        done, failingOver := true, true;
        return;
      }
      primaryErr := Some(o.error);
      if hedgeErr.Some? { Settle(o); }
    }

    method OnChain(o: Outcome<T>)
      modifies this
      ensures AsState() == Handle(old(AsState()), Chain(o))
    {
      settled := settled + [o];
    }
  }

  // ---- every ordering of timer and outcomes -----------------------------------------------------

  function Run<T>(tr: seq<Event<T>>): State<T> {
    if tr == [] then Fresh() else Handle(Run(tr[..|tr| - 1]), tr[|tr| - 1])
  }

  function PrimaryOf<T>(tr: seq<Event<T>>): Option<Outcome<T>> {
    if tr == [] then None
    else
      var e := tr[|tr| - 1];
      if e.Primary? then Some(e.o) else PrimaryOf(tr[..|tr| - 1])
  }

  function HedgeOf<T>(tr: seq<Event<T>>): Option<Outcome<T>> {
    if tr == [] then None
    else
      var e := tr[|tr| - 1];
      if e.Hedge? then Some(e.o) else HedgeOf(tr[..|tr| - 1])
  }

  function ChainOf<T>(tr: seq<Event<T>>): Option<Outcome<T>> {
    if tr == [] then None
    else
      var e := tr[|tr| - 1];
      if e.Chain? then Some(e.o) else ChainOf(tr[..|tr| - 1])
  }

  /** The first answer of any node asked, in the order the answers came. */
  function EarliestAnswer<T>(tr: seq<Event<T>>): Option<Outcome<T>> {
    if tr == [] then None
    else
      var e := tr[|tr| - 1];
      var before := EarliestAnswer(tr[..|tr| - 1]);
      if before.Some? then before
      else if (e.Primary? || e.Hedge?) && Answers(e.o) then Some(e.o)
      else None
  }

  /** What may happen next: the timer fires once and not once the read is over,
      each node asked settles once, the hedge node and the failover chain only
      after they were started. */
  predicate MayHappen<T>(tr: seq<Event<T>>, e: Event<T>) {
    var s := Run(tr);
    match e
    case Silent => !s.done && !s.hedgeStarted
    case Primary(_) => PrimaryOf(tr).None?
    case Hedge(_) => s.hedgeStarted && HedgeOf(tr).None?
    case Chain(_) => s.failingOver && ChainOf(tr).None?
  }

  predicate Legal<T>(tr: seq<Event<T>>) {
    tr == [] || (Legal(tr[..|tr| - 1]) && MayHappen(tr[..|tr| - 1], tr[|tr| - 1]))
  }

  /** What the read should settle with, told from the outcomes alone. */
  function Verdict<T>(tr: seq<Event<T>>): Option<Outcome<T>> {
    if EarliestAnswer(tr).Some? then EarliestAnswer(tr)
    else if ChainOf(tr).Some? then ChainOf(tr)
    else if PrimaryOf(tr).Some? && HedgeOf(tr).Some? then PrimaryOf(tr)
    else None
  }

  ghost predicate Tracks<T>(s: State<T>, tr: seq<Event<T>>) {
    && s.settled == (if Verdict(tr).Some? then [Verdict(tr).value] else [])
    && (s.done <==> s.settled != [] || s.failingOver)
    && (s.failingOver ==> !s.hedgeStarted && PrimaryOf(tr).Some? && !Answers(PrimaryOf(tr).value) && HedgeOf(tr).None?)
    && (ChainOf(tr).Some? ==> s.failingOver)
    && (HedgeOf(tr).Some? ==> s.hedgeStarted)
    && (!s.hedgeStarted && !s.failingOver && PrimaryOf(tr).Some? ==> s.settled != [])
    && (EarliestAnswer(tr).Some? ==>
          || (PrimaryOf(tr).Some? && Answers(PrimaryOf(tr).value))
          || (HedgeOf(tr).Some? && Answers(HedgeOf(tr).value)))
    && (EarliestAnswer(tr).None? ==>
          && (PrimaryOf(tr).Some? ==> !Answers(PrimaryOf(tr).value))
          && (HedgeOf(tr).Some? ==> !Answers(HedgeOf(tr).value)))
    && (!s.done ==>
          && (s.primaryErr == if PrimaryOf(tr).Some? then Some(PrimaryOf(tr).value.error) else None)
          && (s.hedgeErr == if HedgeOf(tr).Some? then Some(HedgeOf(tr).value.error) else None))
  }

  lemma {:induction false} RunTracks<T>(tr: seq<Event<T>>)
    requires Legal(tr)
    ensures Tracks(Run(tr), tr)
  {
    if tr == [] {
    } else {
      RunTracks(tr[..|tr| - 1]);
    }
  }

  /** For every ordering: the promise is settled at most once, with the verdict;
      and once every node asked has settled, it is settled. */
  lemma HedgedReadSettlesOnce<T>(tr: seq<Event<T>>)
    requires Legal(tr)
    ensures Run(tr).settled == (if Verdict(tr).Some? then [Verdict(tr).value] else [])
    ensures (PrimaryOf(tr).Some? && (Run(tr).hedgeStarted ==> HedgeOf(tr).Some?)
             && (Run(tr).failingOver ==> ChainOf(tr).Some?))
            ==> |Run(tr).settled| == 1
  {
    RunTracks(tr);
  }

  /** Silence starts the hedge: once the timer has fired on an open read, the second
      node may answer, and a read whose primary has not answered takes its answer. */
  lemma SilenceIsHedged<T>(tr: seq<Event<T>>, o: Outcome<T>)
    requires Legal(tr) && MayHappen(tr, Silent)
    ensures Run(tr + [Silent]).hedgeStarted && MayHappen(tr + [Silent], Hedge(o))
    ensures Answers(o) ==> Legal(tr + [Silent] + [Hedge(o)]) && Run(tr + [Silent] + [Hedge(o)]).settled == [o]
  {
    RunTracks(tr);
    var silent := tr + [Silent];
    assert silent[..|tr|] == tr;
    assert (silent + [Hedge(o)])[..|silent|] == silent;
  }

  /** A read rejects with a transport error only when every node it asked failed
      at transport, and then with the primary's error. `answers` are the outcomes
      the failover chain meets, if the read took it. */
  lemma TransportErrorIsPrimarys<T>(tr: seq<Event<T>>, answers: seq<Outcome<T>>)
    requires Legal(tr) && Run(tr).settled != [] && !Answers(Run(tr).settled[0])
    requires ChainOf(tr).Some? ==> PrimaryOf(tr).Some? && ChainOf(tr).value == FirstAnswer(PrimaryOf(tr).value, answers)
    ensures PrimaryOf(tr) == Some(Run(tr).settled[0])
    ensures HedgeOf(tr).Some? ==> !Answers(HedgeOf(tr).value)
    ensures ChainOf(tr).Some? ==> forall k :: 0 <= k < |answers| ==> !Answers(answers[k])
  {
    RunTracks(tr);
    EarliestAnswers(tr);
    if ChainOf(tr).Some? { FirstAnswerMeaning(PrimaryOf(tr).value, answers); }
  }

  lemma {:induction false} EarliestAnswers<T>(tr: seq<Event<T>>)
    ensures EarliestAnswer(tr).Some? ==> Answers(EarliestAnswer(tr).value)
  {
    if tr == [] {
    } else {
      EarliestAnswers(tr[..|tr| - 1]);
    }
  }
}
