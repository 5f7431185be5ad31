/** What becomes of a request: which reply completes it and how, and what a query has collected by then, over
    every run of the connection (magicicadaprotocol/request.py and client.py, the `processMessage` methods).
    The table of replies here shares nothing with the functions that process them. */
module Outcomes {
  import opened ByteStrings
  import opened Options
  import opened Requests
  import opened Multiplexer
  import opened ConnectionRuns
  import opened Demux

  // The table

  /** The replies that complete a request. */
  predicate Ends(kind: Kind, b: Body)
  {
    match kind
    case OneWay => false
    case Exchange(_, _) => true
    case Lookup => !b.NodeState?
    case Download => !b.NodeAttr? && !b.Bytes?
    case Upload => !b.BeginContent?
  }

  /** The replies that mean success. */
  predicate Good(kind: Kind, b: Body)
  {
    match kind
    case OneWay => false
    case Exchange(_, answer) => b == answer
    case Lookup => b.QueryEnd?
    case Download => b.Eof? || b.Ok?
    case Upload => b.Ok?
  }

  function Verdict(kind: Kind, b: Body): Outcome
  {
    if Good(kind, b) then Succeeded
    else if b.Cancelled? && (kind.Download? || kind.Upload?) then Failed(CancelledByPeer)
    else if b.Error? then Failed(PeerError)
    else Failed(UnexpectedReply)
  }

  /** The messages that are looked at: none is once one has raised. */
  function Processed(e: Handler, events: seq<Event>): seq<Message>
    decreases |events|
  {
    if events == [] then []
    else
      (if events[0].Arrived? && !e.raised then [events[0].message] else []) + Processed(Step(e, events[0]), events[1..])
  }

  function FirstEnding(kind: Kind, replies: seq<Body>): (b: Option<Body>)
    ensures b.Some? ==> b.value in replies && Ends(kind, b.value)
  {
    if replies == [] then None
    else if Ends(kind, replies[0]) then Some(replies[0])
    else FirstEnding(kind, replies[1..])
  }

  /** The node states among the replies before the one that completes the request. */
  function StatesBefore(kind: Kind, replies: seq<Body>): seq<nat>
  {
    if replies == [] || Ends(kind, replies[0]) then []
    else (if replies[0].NodeState? then [replies[0].node] else []) + StatesBefore(kind, replies[1..])
  }

  // One reply

  /** What a reply may do to the result of a request. */
  ghost predicate Decides(r: Req, b: Body, r': Req)
  {
    && r'.kind == r.kind && r'.id == r.id
    && (Ends(r.kind, b) ==> r'.finished && !r'.started && r'.fired == r.fired + [Verdict(r.kind, b)])
    && (!Ends(r.kind, b) ==> r'.finished == r.finished && r'.started == r.started && r'.fired == r.fired)
    && r'.states == r.states + (if r.kind.Lookup? && b.NodeState? then [b.node] else [])
    && r'.parts == r.parts + (if r.kind.Download? && b.Bytes? && !r.cancelled then [b.data] else [])
    && r'.data == if r.kind.Download? && b.Eof? && !r.cancelled then Some(Concat(r.parts)) else r.data
  }

  lemma UploadDecides(r: Req, b: Body, pause: bool)
    requires r.kind.Upload?
    ensures Decides(r, b, ReceiveUpload(r, b, pause))
  {
    hide Begin, Extends, GoesOnOrEnds, KeepsPumps, Concat;
  }

  lemma DownloadDecides(r: Req, b: Body)
    requires r.kind.Download?
    ensures Decides(r, b, ReceiveDownload(r, b))
  {
    hide Extends, GoesOnOrEnds, KeepsPumps, Concat;
  }

  lemma LookupDecides(r: Req, b: Body)
    requires r.kind.Lookup?
    ensures Decides(r, b, ReceiveLookup(r, b))
  {
    hide Extends, GoesOnOrEnds, KeepsPumps;
  }

  lemma ExchangeFinishes(r: Req, b: Body, pause: bool)
    requires r.kind.Exchange?
    ensures Receive(r, b, pause) == Finish(r, Verdict(r.kind, b))
  {
    hide Finish, Extends, GoesOnOrEnds, KeepsPumps, ReceiveUpload, ReceiveDownload, ReceiveLookup;
  }

  lemma ExchangeDecides(r: Req, b: Body, pause: bool)
    requires r.kind.Exchange?
    ensures Decides(r, b, Receive(r, b, pause))
  {
    ExchangeFinishes(r, b, pause);
    assert r.states + [] == r.states && r.parts + [] == r.parts;
    hide Receive, Verdict, Concat;
  }

  lemma OneWayDecides(r: Req, b: Body, pause: bool)
    requires r.kind.OneWay?
    ensures Decides(r, b, Receive(r, b, pause))
  {
    hide Extends, GoesOnOrEnds, KeepsPumps, ReceiveUpload, ReceiveDownload, ReceiveLookup, Reject, Finish, Concat;
  }

  lemma ReplyDecides(r: Req, b: Body, pause: bool)
    ensures Decides(r, b, Receive(r, b, pause))
  {
    hide Extends, GoesOnOrEnds, KeepsPumps, ReceiveUpload, ReceiveDownload, ReceiveLookup, Decides;
    match r.kind
    case OneWay => OneWayDecides(r, b, pause);
    case Exchange(_, _) => ExchangeDecides(r, b, pause);
    case Lookup => LookupDecides(r, b);
    case Download => DownloadDecides(r, b);
    case Upload => UploadDecides(r, b, pause);
  }

  /** Everything about a request that its replies decide. */
  ghost predicate SameResult(r: Req, r': Req)
  {
    && r'.kind == r.kind && r'.id == r.id && r'.started == r.started && r'.finished == r.finished
    && r'.fired == r.fired && r'.parts == r.parts && r'.data == r.data && r'.states == r.states
  }

  lemma CancelKeepsResult(r: Req, pause: bool)
    ensures SameResult(r, Apply(r, DoCancel(pause)))
  {
  }

  lemma SameExchangeResult(r: Req, r': Req)
    requires SameExchange(r, r')
    ensures SameResult(r, r')
  {
  }

  /** Nothing but its own replies and the loss of the connection decides a request. */
  lemma StepDecidesNothing(e: Handler, ev: Event, h: nat)
    requires Multiplexer.Inv(e) && Running(e, h) && !ev.Lost?
    requires ev.Arrived? ==> e.raised || ev.message.id != e.all[h].id.value
    ensures h < |Step(e, ev).all| && SameResult(e.all[h], Step(e, ev).all[h])
  {
    if ev.UserCancelled? && ev.handle == h {
      CancelKeepsResult(e.all[h], ev.pause);
      OwnMove(e, h, DoCancel(ev.pause), ev.pause);
    } else {
      StepSame(e, ev, h);
      SameExchangeResult(e.all[h], Step(e, ev).all[h]);
    }
  }

  // Every run

  /** What a run brings request `h`: how it ends, if it does, and the node states before that. */
  function Fate(e: Handler, events: seq<Event>, kind: Kind, id: nat): Option<Outcome>
    decreases |events|
  {
    if events == [] then None
    else
      var ev := events[0];
      if ev.Lost? then Some(Failed(ConnectionLost))
      else if ev.Arrived? && !e.raised && ev.message.id == id && Ends(kind, ev.message.body) then
        Some(Verdict(kind, ev.message.body))
      else Fate(Step(e, ev), events[1..], kind, id)
  }

  lemma DecidedStays(e: Handler, events: seq<Event>, h: nat, o: Outcome)
    requires h < |e.all| && e.all[h].finished && !e.all[h].started && e.all[h].fired == [o]
    ensures var end := Multiplexer.Run(e, events);
            h < |end.all| && end.all[h].finished && end.all[h].fired == [o] && end.all[h].states == e.all[h].states
  {
    FinishedStays(e, events, h);
    hide Multiplexer.Run;
  }

  /** The first event of a run, if it does not decide the request. */
  lemma StillRunning(e: Handler, ev: Event, h: nat)
    requires Multiplexer.Inv(e) && Running(e, h) && Proper(ev) && !ev.Lost?
    requires ev.Arrived? && !e.raised && ev.message.id == e.all[h].id.value ==> !Ends(e.all[h].kind, ev.message.body)
    ensures var next := Step(e, ev);
            && Multiplexer.Inv(next) && Running(next, h) && next.all[h].kind == e.all[h].kind
            && next.all[h].id == e.all[h].id && next.all[h].fired == e.all[h].fired
            && next.all[h].states == e.all[h].states
               + if ev.Arrived? && !e.raised && ev.message.id == e.all[h].id.value
                    && e.all[h].kind.Lookup? && ev.message.body.NodeState?
                 then [ev.message.body.node] else []
  {
    StepKeepsInv(e, ev);
    if ev.Arrived? && !e.raised && ev.message.id == e.all[h].id.value {
      ReplyStep(e, h, ev.message.body, ev.pause);
      ReplyDecides(e.all[h], ev.message.body, ev.pause);
    } else {
      StepDecidesNothing(e, ev, h);
    }
    hide Multiplexer.Inv, Step, Receive;
  }

  lemma Decided(e: Handler, ev: Event, h: nat)
    requires Multiplexer.Inv(e) && Running(e, h)
    requires ev.Lost? || (ev.Arrived? && !e.raised && ev.message.id == e.all[h].id.value
                          && Ends(e.all[h].kind, ev.message.body))
    ensures var next := Step(e, ev);
            var o := if ev.Lost? then Failed(ConnectionLost) else Verdict(e.all[h].kind, ev.message.body);
            h < |next.all| && next.all[h].finished && !next.all[h].started && next.all[h].fired == [o]
  {
    InvOf(e, h);
    if ev.Lost? {
      LostDrains(e, ev.pauses);
    } else {
      ReplyStep(e, h, ev.message.body, ev.pause);
      ReplyDecides(e.all[h], ev.message.body, ev.pause);
    }
    hide Multiplexer.Inv, Step, Receive;
  }

  lemma RunningNow(e: Handler, h: nat)
    requires Multiplexer.Inv(e) && Running(e, h)
    ensures e.all[h].fired == [] && !e.all[h].finished
  {
    InvOf(e, h);
  }

  /** The outcome of a request in every run of the connection, with any cancellations, losses and unhandled
      messages in it: the first reply under its id that ends a request of its kind decides, unless the
      connection is lost before, and its deferred fires with that and nothing else. */
  lemma {:induction false} OutcomeOfRun(e: Handler, events: seq<Event>, h: nat)
    requires Multiplexer.Inv(e) && Running(e, h)
    requires forall i :: 0 <= i < |events| ==> Proper(events[i])
    ensures var end, fate := Multiplexer.Run(e, events), Fate(e, events, e.all[h].kind, e.all[h].id.value);
            && h < |end.all| && (end.all[h].finished <==> fate.Some?)
            && end.all[h].fired == match fate case None => [] case Some(o) => [o]
    decreases |events|
  {
    hide Multiplexer.Inv, Step, Ends, Verdict;
    var r := e.all[h];
    RunningNow(e, h);
    if events != [] {
      var ev := events[0];
      if ev.Lost? || (ev.Arrived? && !e.raised && ev.message.id == r.id.value && Ends(r.kind, ev.message.body)) {
        Decided(e, ev, h);
        DecidedStays(Step(e, ev), events[1..], h,
                     if ev.Lost? then Failed(ConnectionLost) else Verdict(r.kind, ev.message.body));
      } else {
        StillRunning(e, ev, h);
        OutcomeOfRun(Step(e, ev), events[1..], h);
      }
    }
  }

  // Without a loss, by the replies alone

  lemma ProcessedFirst(e: Handler, events: seq<Event>, id: nat)
    requires events != []
    ensures var ev, more := events[0], Addressed(Processed(Step(e, events[0]), events[1..]), id);
            Addressed(Processed(e, events), id)
            == if ev.Arrived? && !e.raised && ev.message.id == id then [ev.message.body] + more else more
  {
    hide Step;
    var ev := events[0];
    if ev.Arrived? && !e.raised {
      assert Processed(e, events)[1..] == Processed(Step(e, ev), events[1..]);
    } else {
      assert Processed(e, events) == Processed(Step(e, ev), events[1..]);
    }
  }

  lemma EndingFirst(kind: Kind, b: Body, more: seq<Body>)
    ensures FirstEnding(kind, [b] + more) == if Ends(kind, b) then Some(b) else FirstEnding(kind, more)
  {
    assert ([b] + more)[1..] == more;
  }

  lemma {:induction false} FateOfReplies(e: Handler, events: seq<Event>, kind: Kind, id: nat)
    requires forall i :: 0 <= i < |events| ==> !events[i].Lost?
    ensures Fate(e, events, kind, id)
            == match FirstEnding(kind, Addressed(Processed(e, events), id))
               case None => None
               case Some(b) => Some(Verdict(kind, b))
    decreases |events|
  {
    hide Step, Ends, Verdict;
    if events != [] {
      var ev, next := events[0], Step(e, events[0]);
      FateOfReplies(next, events[1..], kind, id);
      ProcessedFirst(e, events, id);
      EndingFirst(kind, if ev.Arrived? then ev.message.body else Noop, Addressed(Processed(next, events[1..]), id));
      hide FirstEnding, Processed;
    }
  }

  /** Uploads: of the replies under its id, among anything else, the first that is not a BEGIN_CONTENT decides. */
  lemma UploadOutcome(e: Handler, events: seq<Event>, h: nat)
    requires Multiplexer.Inv(e) && Running(e, h) && e.all[h].kind.Upload?
    requires forall i :: 0 <= i < |events| ==> Proper(events[i]) && !events[i].Lost?
    ensures var end := Multiplexer.Run(e, events);
            h < |end.all|
            && match FirstEnding(Upload, Addressed(Processed(e, events), e.all[h].id.value))
               case None => end.all[h].fired == []
               case Some(b) =>
                 && !b.BeginContent?
                 && (end.all[h].fired == [Succeeded] <==> b.Ok?)
                 && (end.all[h].fired == [Failed(CancelledByPeer)] <==> b.Cancelled?)
                 && (end.all[h].fired == [Failed(PeerError)] <==> b.Error?)
                 && (end.all[h].fired == [Failed(UnexpectedReply)] <==> !b.Ok? && !b.Cancelled? && !b.Error?)
  {
    hide Multiplexer.Inv, Multiplexer.Run, FirstEnding, Fate;
    OutcomeOfRun(e, events, h);
    FateOfReplies(e, events, Upload, e.all[h].id.value);
  }

  /** Downloads: the first reply that is neither NODE_ATTR nor BYTES decides. */
  lemma DownloadOutcome(e: Handler, events: seq<Event>, h: nat)
    requires Multiplexer.Inv(e) && Running(e, h) && e.all[h].kind.Download?
    requires forall i :: 0 <= i < |events| ==> Proper(events[i]) && !events[i].Lost?
    ensures var end := Multiplexer.Run(e, events);
            h < |end.all|
            && match FirstEnding(Download, Addressed(Processed(e, events), e.all[h].id.value))
               case None => end.all[h].fired == []
               case Some(b) =>
                 && !b.NodeAttr? && !b.Bytes?
                 && (end.all[h].fired == [Succeeded] <==> b.Eof? || b.Ok?)
                 && (end.all[h].fired == [Failed(CancelledByPeer)] <==> b.Cancelled?)
                 && (end.all[h].fired == [Failed(PeerError)] <==> b.Error?)
                 && (end.all[h].fired == [Failed(UnexpectedReply)]
                     <==> !b.Eof? && !b.Ok? && !b.Cancelled? && !b.Error?)
  {
    hide Multiplexer.Inv, Multiplexer.Run, FirstEnding, Fate;
    OutcomeOfRun(e, events, h);
    FateOfReplies(e, events, Download, e.all[h].id.value);
  }

  lemma {:induction false} FirstIsEnding(ask: Body, answer: Body, replies: seq<Body>)
    ensures FirstEnding(Exchange(ask, answer), replies) == if replies == [] then None else Some(replies[0])
  {
  }

  /** The one-message requests: the very first reply decides, and only the awaited answer is a success. */
  lemma ExchangeOutcome(e: Handler, events: seq<Event>, h: nat)
    requires Multiplexer.Inv(e) && Running(e, h) && e.all[h].kind.Exchange?
    requires forall i :: 0 <= i < |events| ==> Proper(events[i]) && !events[i].Lost?
    ensures var end, replies := Multiplexer.Run(e, events), Addressed(Processed(e, events), e.all[h].id.value);
            h < |end.all|
            && if replies == [] then end.all[h].fired == []
               else
                 && (end.all[h].fired == [Succeeded] <==> replies[0] == e.all[h].kind.answer)
                 && (end.all[h].fired == [Failed(PeerError)]
                     <==> replies[0] == Error && e.all[h].kind.answer != Error)
                 && |end.all[h].fired| == 1 && !(Failed(CancelledByPeer) in end.all[h].fired)
  {
    hide Multiplexer.Inv, Multiplexer.Run, Fate;
    var kind := e.all[h].kind;
    OutcomeOfRun(e, events, h);
    FateOfReplies(e, events, kind, e.all[h].id.value);
    FirstIsEnding(kind.ask, kind.answer, Addressed(Processed(e, events), e.all[h].id.value));
  }

  // Queries

  lemma StatesFirst(b: Body, more: seq<Body>)
    ensures StatesBefore(Lookup, [b] + more)
            == if b.NodeState? then [b.node] + StatesBefore(Lookup, more) else []
  {
    assert ([b] + more)[1..] == more;
  }

  /** What a query has collected after a run without a loss: what it had, and its own node states before the reply
      that ended it. */
  lemma {:induction false} LookupCollects(e: Handler, events: seq<Event>, h: nat)
    requires Multiplexer.Inv(e) && Running(e, h) && e.all[h].kind.Lookup?
    requires forall i :: 0 <= i < |events| ==> Proper(events[i]) && !events[i].Lost?
    ensures var end := Multiplexer.Run(e, events);
            && h < |end.all|
            && end.all[h].states
               == e.all[h].states + StatesBefore(Lookup, Addressed(Processed(e, events), e.all[h].id.value))
    decreases |events|
  {
    hide Multiplexer.Inv, Step;
    var id := e.all[h].id.value;
    if events == [] {
      assert e.all[h].states + [] == e.all[h].states;
    } else {
      var ev, rest := events[0], events[1..];
      var next := Step(e, ev);
      var more := Addressed(Processed(next, rest), id);
      ProcessedFirst(e, events, id);
      if ev.Arrived? && !e.raised && ev.message.id == id && Ends(Lookup, ev.message.body) {
        RunningNow(e, h);
        Decided(e, ev, h);
        ReplyStep(e, h, ev.message.body, ev.pause);
        ReplyDecides(e.all[h], ev.message.body, ev.pause);
        DecidedStays(next, rest, h, Verdict(Lookup, ev.message.body));
        StatesFirst(ev.message.body, more);
      } else {
        StillRunning(e, ev, h);
        LookupCollects(next, rest, h);
        if ev.Arrived? && !e.raised && ev.message.id == id {
          StatesFirst(ev.message.body, more);
        }
      }
    }
  }

  /** The replies to a query: some node states and QUERY_END. */
  function Answer(nodes: seq<nat>): (replies: seq<Body>)
  {
    if nodes == [] then [QueryEnd] else [NodeState(nodes[0])] + Answer(nodes[1..])
  }

  lemma {:induction false} AnswerEnds(nodes: seq<nat>, late: seq<Body>)
    ensures FirstEnding(Lookup, Answer(nodes) + late) == Some(QueryEnd)
    ensures StatesBefore(Lookup, Answer(nodes) + late) == nodes
  {
    hide FirstEnding, StatesBefore;
    if nodes == [] {
      EndingFirst(Lookup, QueryEnd, late);
      StatesFirst(QueryEnd, late);
    } else {
      var more := Answer(nodes[1..]) + late;
      AnswerEnds(nodes[1..], late);
      EndingFirst(Lookup, NodeState(nodes[0]), more);
      StatesFirst(NodeState(nodes[0]), more);
      assert Answer(nodes) + late == [NodeState(nodes[0])] + more;
      assert [nodes[0]] + nodes[1..] == nodes;
    }
  }

  /** In every run in which the messages under a running query's id are NODE_STATEs and then QUERY_END, and whatever
      after that, it succeeds, exactly once, with what it had and its own node states in order. */
  lemma QueryGetsItsStates(e: Handler, events: seq<Event>, h: nat, nodes: seq<nat>, late: seq<Body>)
    requires Multiplexer.Inv(e) && Running(e, h) && e.all[h].kind.Lookup?
    requires forall i :: 0 <= i < |events| ==> Proper(events[i]) && !events[i].Lost?
    requires Addressed(Processed(e, events), e.all[h].id.value) == Answer(nodes) + late
    ensures var end := Multiplexer.Run(e, events);
            && h < |end.all| && end.all[h].finished && end.all[h].fired == [Succeeded]
            && end.all[h].states == e.all[h].states + nodes
  {
    hide Multiplexer.Inv, Multiplexer.Run, Fate, FirstEnding, StatesBefore;
    OutcomeOfRun(e, events, h);
    FateOfReplies(e, events, Lookup, e.all[h].id.value);
    LookupCollects(e, events, h);
    AnswerEnds(nodes, late);
  }
}
