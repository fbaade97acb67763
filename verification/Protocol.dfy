/**
  Client and server of one connection as a system (vscode-extension/src/daemon/
  client.ts:145-210, src/server/daemon_unix.rs:127-195): requests are pipelined,
  handlers answer in any order, requests time out and connections break.
*/
module Protocol {
  import opened Prelude
  import opened Client

  datatype Request = Request(id: Id, payload: string)

  /** A handler thread; it sends its answer before it gives its place back. */
  datatype Handler = Handler(request: Request, sent: bool)

  /** The reader loop between taking a place and using it or giving it back. */
  datatype Reader = Idle | Admitting(request: Request) | Refusing(request: Request)

  datatype System = System(
    books: Books,
    connected: bool,
    issued: seq<string>,        // payload of every request, by id
    toServer: seq<Request>,
    reader: Reader,
    running: seq<Handler>,
    active: nat,                // the shared counter
    channel: seq<Reply>,        // answers on their way to the writer thread
    toClient: seq<Reply>)

  datatype Step =
    | Send(payload: string)
    | Receive
    | Refuse
    | Spawn
    | Finish(k: nat)
    | Release(k: nat)
    | Write
    | Complain(message: string)  // the reader failed: a malformed message or a read timeout
    | Deliver
    | Expire(id: Id)
    | FailWrite(id: Id)
    | Disconnect
    | Reconnect

  /** What the server computes, and how many handlers it allows. */
  datatype Config = Config(handle: string -> string, maxHandlers: nat)

  const INITIAL := System(NEW_BOOKS, false, [], [], Idle, [], 0, [], [])

  /** The connection's own state, gone when it breaks. */
  function Severed(s: System, books: Books): System {
    s.(books := books, connected := false, toServer := [], reader := Idle, running := [], active := 0,
       channel := [], toClient := [])
  }

  function Reserved(s: System): nat {
    if s.reader.Idle? then 0 else 1
  }

  ghost predicate Next(s: System, step: Step, t: System, cfg: Config) {
    match step
    case Send(payload) =>
      && s.connected
      && t == s.(books := Issue(s.books),
                 issued := s.issued + [payload],
                 toServer := s.toServer + [Request(s.books.counter, payload)])
    case Receive =>
      && s.reader.Idle? && s.toServer != []
      && t == s.(toServer := s.toServer[1..], active := s.active + 1,
                 reader := if s.active >= cfg.maxHandlers then Refusing(s.toServer[0]) else Admitting(s.toServer[0]))
    case Refuse =>
      && s.reader.Refusing? && s.active > 0
      && t == s.(active := s.active - 1,
                 reader := Idle,
                 channel := s.channel + [Reply(Some(s.reader.request.id), TooMany)])
    case Spawn =>
      && s.reader.Admitting?
      && t == s.(reader := Idle, running := s.running + [Handler(s.reader.request, false)])
    case Finish(k) =>
      && k < |s.running| && !s.running[k].sent
      && t == s.(running := s.running[k := s.running[k].(sent := true)],
                 channel := s.channel +
                   [Reply(Some(s.running[k].request.id), Answer(cfg.handle(s.running[k].request.payload)))])
    case Release(k) =>
      && k < |s.running| && s.running[k].sent && s.active > 0
      && t == s.(active := s.active - 1, running := s.running[..k] + s.running[k + 1..])
    case Write =>
      s.channel != [] && t == s.(channel := s.channel[1..], toClient := s.toClient + [s.channel[0]])
    case Complain(message) =>
      s.connected && s.reader.Idle? && t == s.(channel := s.channel + [Reply(None, Complaint(message))])
    case Deliver =>
      s.connected && s.toClient != []
        && t == s.(toClient := s.toClient[1..], books := HandleReply(s.books, s.toClient[0]))
    case Expire(id) =>
      id in s.books.pending && t == s.(books := GiveUp(s.books, id, TimedOut))
    case FailWrite(id) =>
      id in s.books.pending && t == s.(books := GiveUp(s.books, id, WriteFailed))
    case Disconnect =>
      t == Severed(s, Lose(s.books, ConnectionLost))
    case Reconnect =>
      !s.connected && t == s.(connected := true)
  }

  // ------------------------------------------------------------------ the safety

  /** A request on its way is one that was issued. */
  ghost predicate Genuine(s: System, r: Request) {
    r.id < |s.issued| && r.payload == s.issued[r.id]
  }

  /** An answer that names a request is the answer to it, or a refusal; one that names none is a complaint. */
  ghost predicate Honest(s: System, r: Reply, cfg: Config) {
    match r.id
    case Some(id) => id < |s.issued| && (r.body == Answer(cfg.handle(s.issued[id])) || r.body == TooMany)
    case None => r.body.Complaint?
  }

  /** Requests on their way and in work are genuine. */
  ghost predicate RequestsGenuine(s: System) {
    && (forall k :: 0 <= k < |s.toServer| ==> Genuine(s, s.toServer[k]))
    && (!s.reader.Idle? ==> Genuine(s, s.reader.request))
    && (forall k :: 0 <= k < |s.running| ==> Genuine(s, s.running[k].request))
  }

  /** Answers on their way are honest. */
  ghost predicate FramesHonest(s: System, cfg: Config) {
    && (forall k :: 0 <= k < |s.channel| ==> Honest(s, s.channel[k], cfg))
    && (forall k :: 0 <= k < |s.toClient| ==> Honest(s, s.toClient[k], cfg))
  }

  ghost predicate Traffic(s: System, cfg: Config) {
    RequestsGenuine(s) && FramesHonest(s, cfg)
  }

  /** The shared counter counts the handlers and the reader's reservation, and the handlers stay within the limit. */
  ghost predicate Limited(s: System, cfg: Config) {
    && s.active == |s.running| + Reserved(s)
    && |s.running| + (if s.reader.Admitting? then 1 else 0) <= cfg.maxHandlers
  }

  ghost predicate Safe(s: System, cfg: Config) {
    && Balanced(s.books)
    && |s.issued| == s.books.counter
    && Traffic(s, cfg)
    && Limited(s, cfg)
  }

  lemma LimitedStep(s: System, step: Step, t: System, cfg: Config)
    requires Limited(s, cfg) && Next(s, step, t, cfg)
    ensures Limited(t, cfg)
  {
    hide HandleReply, Issue, GiveUp, Lose;
  }

  lemma BooksStep(s: System, step: Step, t: System, cfg: Config)
    requires Balanced(s.books) && |s.issued| == s.books.counter && Next(s, step, t, cfg)
    ensures Balanced(t.books) && |t.issued| == t.books.counter
  {
    hide Balanced;
    match step {
      case Send(_) => IssueBalances(s.books);
      case Deliver => ReplyBalances(s.books, s.toClient[0]);
      case Expire(id) => GiveUpBalances(s.books, id, TimedOut);
      case FailWrite(id) => GiveUpBalances(s.books, id, WriteFailed);
      case Disconnect => LoseBalances(s.books, ConnectionLost);
      case _ =>
    }
  }

  /** Later requests change nothing about those issued. */
  lemma StillTrue(s: System, t: System, cfg: Config)
    requires s.issued <= t.issued
    ensures forall r :: Genuine(s, r) ==> Genuine(t, r)
    ensures forall r :: Honest(s, r, cfg) ==> Honest(t, r, cfg)
  {
  }

  lemma JustIssued(s: System, payload: string)
    requires |s.issued| > 0 && payload == s.issued[|s.issued| - 1]
    ensures Genuine(s, Request(|s.issued| - 1, payload))
  {
  }

  lemma HonestFrames(s: System, r: Request, message: string, cfg: Config)
    ensures Genuine(s, r) ==> Honest(s, Reply(Some(r.id), TooMany), cfg)
    ensures Genuine(s, r) ==> Honest(s, Reply(Some(r.id), Answer(cfg.handle(r.payload))), cfg)
    ensures Honest(s, Reply(None, Complaint(message)), cfg)
  {
  }

  /** Genuine requests stay so when some are taken and no other is put in. */
  lemma StillGenuine(s: System, t: System)
    requires RequestsGenuine(s) && s.issued <= t.issued
    requires forall r :: r in t.toServer ==> r in s.toServer || Genuine(t, r)
    requires !t.reader.Idle? ==>
             (!s.reader.Idle? && t.reader.request == s.reader.request) || t.reader.request in s.toServer
    requires forall h :: h in t.running ==>
               (exists g :: g in s.running && g.request == h.request)
                 || (!s.reader.Idle? && h.request == s.reader.request)
    ensures RequestsGenuine(t)
  {
    assert forall r :: Genuine(s, r) ==> Genuine(t, r);
    hide Genuine;
  }

  lemma RequestsStep(s: System, step: Step, t: System, cfg: Config)
    requires RequestsGenuine(s) && |s.issued| == s.books.counter && Next(s, step, t, cfg)
    ensures RequestsGenuine(t)
  {
    hide HandleReply, GiveUp, Lose, Issue, Genuine, Honest, RequestsGenuine;
    assert s.issued <= t.issued;
    match step {
      case Send(payload) => JustIssued(t, payload);
      case Finish(k) => assert s.running[k] in s.running;
      case _ =>
    }
    StillGenuine(s, t);
  }

  lemma FramesStep(s: System, step: Step, t: System, cfg: Config)
    requires Traffic(s, cfg) && Next(s, step, t, cfg)
    ensures FramesHonest(t, cfg)
  {
    hide HandleReply, GiveUp, Lose, Issue, Genuine, Honest;
    assert s.issued <= t.issued;
    StillTrue(s, t, cfg);
    match step {
      case Refuse => HonestFrames(t, s.reader.request, "", cfg);
      case Finish(k) =>
        assert Genuine(s, s.running[k].request);
        HonestFrames(t, s.running[k].request, "", cfg);
      case Complain(message) => HonestFrames(t, Request(0, ""), message, cfg);
      case _ =>
    }
  }

  lemma TrafficStep(s: System, step: Step, t: System, cfg: Config)
    requires Traffic(s, cfg) && |s.issued| == s.books.counter && Next(s, step, t, cfg)
    ensures Traffic(t, cfg)
  {
    hide Next, RequestsGenuine, FramesHonest;
    RequestsStep(s, step, t, cfg);
    FramesStep(s, step, t, cfg);
  }

  lemma SafeStep(s: System, step: Step, t: System, cfg: Config)
    requires Safe(s, cfg) && Next(s, step, t, cfg)
    ensures Safe(t, cfg)
  {
    hide Balanced, Traffic, Limited;
    BooksStep(s, step, t, cfg);
    TrafficStep(s, step, t, cfg);
    LimitedStep(s, step, t, cfg);
  }

  // -------------------------------------------------------------- the right answer

  /** Every request that got a response got its own. */
  ghost predicate Right(s: System, cfg: Config) {
    && (forall k :: 0 <= k < |s.books.settled| ==> RightEnd(s, s.books.settled[k], cfg))
    && (forall k :: 0 <= k < |s.channel| ==> s.channel[k].id.Some?)
    && (forall k :: 0 <= k < |s.toClient| ==> s.toClient[k].id.Some?)
  }

  ghost predicate RightEnd(s: System, e: Settlement, cfg: Config) {
    e.outcome.Resolved? ==> Honest(s, Reply(Some(e.id), e.outcome.body), cfg)
  }

  /** What one settlement adds to the books, if anything. */
  ghost predicate Adds(b: Books, c: Books, e: Settlement) {
    c.settled == b.settled || c.settled == b.settled + [e]
  }

  lemma RightMore(s: System, t: System, e: Settlement, cfg: Config)
    requires Right(s, cfg) && t.issued == s.issued && Adds(s.books, t.books, e) && RightEnd(s, e, cfg)
    requires forall k :: 0 <= k < |t.channel| ==> t.channel[k].id.Some?
    requires forall k :: 0 <= k < |t.toClient| ==> t.toClient[k].id.Some?
    ensures Right(t, cfg)
  {
    forall k | 0 <= k < |t.books.settled|
      ensures RightEnd(t, t.books.settled[k], cfg)
    {
      if k < |s.books.settled| {
        assert RightEnd(s, s.books.settled[k], cfg);
        assert t.books.settled[k] == s.books.settled[k];
      }
    }
  }

  lemma RightAfterLoss(s: System, t: System, cfg: Config)
    requires Right(s, cfg) && t == Severed(s, Lose(s.books, ConnectionLost))
    ensures Right(t, cfg)
  {
    var n, lost := |s.books.settled|, SettleAll(s.books.queue, ConnectionLost);
    assert t.books.settled == s.books.settled + lost;
    assert t.issued == s.issued;
    assert forall i :: 0 <= i < |lost| ==> lost[i].outcome == ConnectionLost;
    hide Lose, SettleAll, Severed;
    forall k | 0 <= k < |t.books.settled|
      ensures RightEnd(t, t.books.settled[k], cfg)
    {
      if k < n {
        assert RightEnd(s, s.books.settled[k], cfg);
        assert t.books.settled[k] == s.books.settled[k];
      } else {
        assert t.books.settled[k] == lost[k - n];
      }
    }
  }

  lemma RightAfterSend(s: System, t: System, payload: string, cfg: Config)
    requires Right(s, cfg) && Safe(s, cfg) && Next(s, Send(payload), t, cfg)
    ensures Right(t, cfg)
  {
    assert t.books.settled == s.books.settled && t.channel == s.channel && t.toClient == s.toClient;
    assert forall i :: 0 <= i < |s.issued| ==> t.issued[i] == s.issued[i];
    hide Balanced, Traffic, Next, Issue;
    forall k | 0 <= k < |t.books.settled|
      ensures RightEnd(t, t.books.settled[k], cfg)
    {
      assert RightEnd(s, s.books.settled[k], cfg);
    }
  }

  /** Without a complaint, a response reaches the request it answers. */
  lemma RightStep(s: System, step: Step, t: System, cfg: Config)
    requires Safe(s, cfg) && Right(s, cfg) && Next(s, step, t, cfg) && !step.Complain?
    ensures Right(t, cfg)
  {
    hide Balanced, Limited, Issue, Lose, Spliced;
    match step {
      case Send(payload) => RightAfterSend(s, t, payload, cfg);
      case Disconnect => RightAfterLoss(s, t, cfg);
      case Deliver =>
        var r := s.toClient[0];
        assert Honest(s, r, cfg);
        RightMore(s, t, Settlement(r.id.value, Resolved(r.body)), cfg);
      case Expire(id) => RightMore(s, t, Settlement(id, TimedOut), cfg);
      case FailWrite(id) => RightMore(s, t, Settlement(id, WriteFailed), cfg);
      case Complain(_) =>
      case _ => RightMore(s, t, Settlement(0, TimedOut), cfg);
    }
  }

  // --------------------------------------------------------------------- all runs

  ghost predicate IsRun(states: seq<System>, steps: seq<Step>, cfg: Config) {
    && |states| == |steps| + 1 && states[0] == INITIAL
    && forall i :: 0 <= i < |steps| ==> Next(states[i], steps[i], states[i + 1], cfg)
  }

  /**
    In every state of every run: the queue lists exactly the open requests, oldest
    first and once each, no request is settled twice, and handlers stay within
    the limit.
  */
  lemma {:induction false} AlwaysSafe(states: seq<System>, steps: seq<Step>, n: nat, cfg: Config)
    requires IsRun(states, steps, cfg) && n < |states|
    ensures Safe(states[n], cfg) && |states[n].running| <= cfg.maxHandlers
  {
    if n == 0 {
      assert Elements<Id>([]) == {};
    } else {
      AlwaysSafe(states, steps, n - 1, cfg);
      assert Next(states[n - 1], steps[n - 1], states[n], cfg);
      SafeStep(states[n - 1], steps[n - 1], states[n], cfg);
      hide Balanced, Traffic, Next;
    }
  }

  /** If the server never complains without an id, each request gets only its own answer. */
  lemma {:induction false} OwnAnswers(states: seq<System>, steps: seq<Step>, n: nat, cfg: Config)
    requires IsRun(states, steps, cfg) && n < |states|
    requires forall i :: 0 <= i < |steps| ==> !steps[i].Complain?
    ensures Right(states[n], cfg)
  {
    if n > 0 {
      OwnAnswers(states, steps, n - 1, cfg);
      AlwaysSafe(states, steps, n - 1, cfg);
      assert Next(states[n - 1], steps[n - 1], states[n], cfg);
      hide Safe, Right, Next;
      RightStep(states[n - 1], steps[n - 1], states[n], cfg);
    }
  }

  // ------------------------------------------------------------- exactly when right

  /** Every response a request was settled with is its own. */
  ghost predicate AllRight(s: System, cfg: Config) {
    forall k :: 0 <= k < |s.books.settled| ==> RightEnd(s, s.books.settled[k], cfg)
  }

  /** The step hands a frame without an id to a client that waits for something. */
  predicate Astray(s: System, step: Step) {
    step.Deliver? && s.toClient != [] && s.toClient[0].id.None? && s.books.queue != []
  }

  /** Whether a settlement is right does not change as more is issued. */
  lemma EndStays(s: System, t: System, e: Settlement, cfg: Config)
    requires s.issued <= t.issued && e.id < |s.issued|
    ensures RightEnd(s, e, cfg) <==> RightEnd(t, e, cfg)
  {
    assert t.issued[e.id] == s.issued[e.id];
  }

  lemma SettledWereIssued(s: System, k: nat)
    requires Balanced(s.books) && |s.issued| == s.books.counter && k < |s.books.settled|
    ensures s.books.settled[k].id < |s.issued|
  {
    assert SettledId(s.books, s.books.settled[k].id);
  }

  /** What a step adds to the settlements of a safe state, and whether that is right. */
  lemma AddedEnds(s: System, step: Step, t: System, cfg: Config)
    requires Safe(s, cfg) && Next(s, step, t, cfg)
    ensures s.books.settled <= t.books.settled && s.issued <= t.issued
    ensures (forall k :: |s.books.settled| <= k < |t.books.settled| ==> RightEnd(t, t.books.settled[k], cfg)) <==>
            !Astray(s, step)
  {
    hide Balanced, Limited, Spliced, Issue;
    match step {
      case Deliver =>
        var r := s.toClient[0];
        assert Honest(s, r, cfg);
        ReplySettles(s.books, r);
        if Astray(s, step) {
          assert t.books.settled[|s.books.settled|] == Settlement(s.books.queue[0], Resolved(r.body));
        }
      case Disconnect =>
        var lost := SettleAll(s.books.queue, ConnectionLost);
        assert t.books.settled == s.books.settled + lost;
      case Send(payload) => SendSettlesNothing(s.books);
      case _ =>
    }
  }

  lemma SendSettlesNothing(b: Books)
    ensures Issue(b).settled == b.settled
  {
  }

  lemma RightIffStep(s: System, step: Step, t: System, cfg: Config)
    requires Safe(s, cfg) && Next(s, step, t, cfg)
    ensures AllRight(t, cfg) <==> AllRight(s, cfg) && !Astray(s, step)
  {
    AddedEnds(s, step, t, cfg);
    var n := |s.books.settled|;
    assert Balanced(s.books) && |s.issued| == s.books.counter;
    hide Safe, Next, Balanced, RightEnd, Astray;
    forall k | 0 <= k < n
      ensures t.books.settled[k] == s.books.settled[k]
      ensures RightEnd(t, t.books.settled[k], cfg) <==> RightEnd(s, s.books.settled[k], cfg)
    {
      SettledWereIssued(s, k);
      EndStays(s, t, s.books.settled[k], cfg);
    }
  }

  /**
    In every run, all settlements are right if and only if no frame without an id
    has been delivered to a client that was waiting for something.
  */
  lemma {:induction false} RightIff(states: seq<System>, steps: seq<Step>, n: nat, cfg: Config)
    requires IsRun(states, steps, cfg) && n < |states|
    ensures AllRight(states[n], cfg) <==> forall i :: 0 <= i < n ==> !Astray(states[i], steps[i])
  {
    if n > 0 {
      RightIff(states, steps, n - 1, cfg);
      AlwaysSafe(states, steps, n - 1, cfg);
      assert Next(states[n - 1], steps[n - 1], states[n], cfg);
      hide Safe, AllRight, Next, Astray;
      RightIffStep(states[n - 1], steps[n - 1], states[n], cfg);
    }
  }

  /** What is settled stays settled, with the outcome it had. */
  lemma SettledForGood(s: System, step: Step, t: System, cfg: Config)
    requires Next(s, step, t, cfg)
    ensures s.books.settled <= t.books.settled
  {
    hide Spliced;
  }

  /** A frame with an id settles at most the request it names; one without settles the oldest, whatever it answers. */
  lemma ReplySettles(b: Books, r: Reply)
    requires Balanced(b)
    ensures r.id.Some? ==>
            HandleReply(b, r).settled ==
            b.settled + if r.id.value in b.pending then [Settlement(r.id.value, Resolved(r.body))] else []
    ensures r.id.None? ==>
            HandleReply(b, r).settled ==
            b.settled + if b.queue == [] then [] else [Settlement(b.queue[0], Resolved(r.body))]
  {
    if r.id.None? && b.queue != [] {
      OldestIsSettle(b, Resolved(r.body));
    }
    hide Balanced, Spliced;
  }

  /**
    How an answer goes astray: a reader that gives up waiting complains without
    an id, and the client takes that for the answer to its oldest request.
  */
  lemma ComplaintIsTakenForAnswer(cfg: Config, payload: string, message: string)
      returns (states: seq<System>, steps: seq<Step>)
    ensures IsRun(states, steps, cfg) && |states| > 0
    ensures states[|states| - 1].books.settled == [Settlement(0, Resolved(Complaint(message)))]
    ensures !Right(states[|states| - 1], cfg)
  {
    var s1 := INITIAL.(connected := true);
    var s2 := s1.(books := Issue(NEW_BOOKS), issued := [payload], toServer := [Request(0, payload)]);
    var r := Reply(None, Complaint(message));
    var s3 := s2.(channel := [r]);
    var s4 := s3.(channel := [], toClient := [r]);
    var s5 := s4.(toClient := [], books := HandleReply(s4.books, r));
    states := [INITIAL, s1, s2, s3, s4, s5];
    steps := [Reconnect, Send(payload), Complain(message), Write, Deliver];
    assert [] + [payload] == [payload];
    assert Next(INITIAL, Reconnect, s1, cfg);
    assert Next(s1, Send(payload), s2, cfg);
    assert Next(s2, Complain(message), s3, cfg);
    assert Next(s3, Write, s4, cfg);
    assert Next(s4, Deliver, s5, cfg);
    assert s4.books.queue == [0] && s4.books.pending == {0};
    assert s5.books.settled == [Settlement(0, Resolved(Complaint(message)))];
    hide Next;
    assert !RightEnd(s5, s5.books.settled[0], cfg);
  }
}
