/** What a cancellation tells the other end (magicicadaprotocol/request.py, `cancel`, and client.py, the `_cancel`
    methods), and what every request says first. Stated on what has been written. */
module Announcements {
  import opened Options
  import opened ByteStrings
  import opened Requests
  import opened Multiplexer
  import opened Uploads
  import opened ConnectionRuns
  import opened Demux

  predicate Transfer(kind: Kind)
  {
    kind.Upload? || kind.Download?
  }

  // Cancelling

  /** A cancellation of a started, uncancelled transfer writes exactly CANCEL_REQUEST and switches an upload's
      current producer off; any other writes nothing. What is not finished is cancelled from then on. */
  lemma CancelAnnounces(r: Req, pause: bool)
    requires Requests.Inv(r)
    ensures var r' := Apply(r, DoCancel(pause));
            var tells := r.started && !r.cancelled && Transfer(r.kind);
            && r'.sent == r.sent + (if tells then [CancelRequest] else [])
            && r'.cancelled == (r.cancelled || !r.finished)
            && |r'.producers| == |r.producers|
            && (tells && r.producers != [] && (r.kind.Upload? || pause) ==> !r'.producers[|r.producers| - 1].producing)
            && (!tells ==> r'.producers == r.producers && r'.producing == r.producing)
            && (tells ==> r'.producing == (r.producing && !pause))
            && r'.id == r.id && r'.started == r.started && r'.finished == r.finished && r'.fired == r.fired
  {
  }

  lemma LossAnnounces(r: Req, pause: bool)
    requires Requests.Inv(r) && r.started
    ensures var r' := Apply(r, DoLose(pause));
            r'.sent == r.sent + (if !r.cancelled && Transfer(r.kind) then [CancelRequest] else []) && r'.cancelled
  {
  }

  /** A transfer that has been cancelled since it was started has said so last. */
  ghost predicate Announced(r: Req)
  {
    && Transfer(r.kind) && (r.started || r.finished)
    && (r.cancelled ==> r.sent != [] && r.sent[|r.sent| - 1] == CancelRequest)
  }

  lemma RepliesDoNotCancel(r: Req, b: Body, pause: bool)
    ensures Receive(r, b, pause).cancelled == r.cancelled
  {
    hide Begin, ReceiveDownload, ReceiveLookup, Reject, Finish;
    if r.kind.Upload? && b.BeginContent? {
      assert Receive(r, b, pause) == Begin(r, b.offset, pause);
    } else {
      assert KeepsPumps(r, Receive(r, b, pause));
    }
  }

  lemma OnlyCancelling(r: Req, a: Act)
    requires !a.DoCancel? && !a.DoLose? && !a.DoStart?
    ensures Apply(r, a).cancelled == r.cancelled && Apply(r, a).kind == r.kind
  {
    hide Go, Receive, Pause, ResumeProducer;
    if a.DoReceive? {
      RepliesDoNotCancel(r, a.body, a.pause);
    }
  }

  lemma StepAnnounced(r: Req, a: Act)
    requires Requests.Inv(r) && Announced(r)
    ensures Announced(Apply(r, a))
  {
    if a.DoStart? {
      assert Apply(r, a) == r;
    } else {
      ApplyStatus(r, a);
      if r.cancelled {
        StepSilent(r, a);
      } else if a.DoCancel? {
        CancelAnnounces(r, a.pause);
      } else if a.DoLose? && r.started {
        LossAnnounces(r, a.pause);
      } else if !a.DoLose? {
        OnlyCancelling(r, a);
      }
    }
    hide Apply;
  }

  lemma {:induction false} RunAnnounced(r: Req, acts: seq<Act>)
    requires Requests.Inv(r) && Announced(r)
    ensures Announced(Requests.Run(r, acts))
    decreases |acts|
  {
    hide Requests.Inv, Apply, Announced;
    if acts != [] {
      StepInv(r, acts[0]);
      StepAnnounced(r, acts[0]);
      RunAnnounced(Apply(r, acts[0]), acts[1..]);
    }
  }

  function Cancels(sent: seq<Body>): nat
  {
    if sent == [] then 0
    else Cancels(sent[..|sent| - 1]) + if sent[|sent| - 1] == CancelRequest then 1 else 0
  }

  lemma {:induction false} NoCancels(sent: seq<Body>)
    requires forall i :: 0 <= i < |sent| ==> sent[i] != CancelRequest
    ensures Cancels(sent) == 0
  {
    if sent != [] {
      NoCancels(sent[..|sent| - 1]);
    }
  }

  lemma LastCancels(sent: seq<Body>)
    requires CancelIsLast(sent)
    ensures Cancels(sent) == if sent != [] && sent[|sent| - 1] == CancelRequest then 1 else 0
  {
    if sent != [] {
      NoCancels(sent[..|sent| - 1]);
    }
  }

  /** In every run of a transfer from its start on, it has written exactly one CANCEL_REQUEST if it has been cancelled,
      and none if it has not. */
  lemma AnnouncedOnce(r: Req, acts: seq<Act>)
    requires Requests.Inv(r) && r.started && !r.cancelled && Transfer(r.kind)
    ensures var end := Requests.Run(r, acts); Cancels(end.sent) == if end.cancelled then 1 else 0
  {
    RunInv(r, acts);
    RunAnnounced(r, acts);
    hide Requests.Run;
    LastCancels(Requests.Run(r, acts).sent);
  }

  // On the connection

  lemma SentNow(e: Handler, h: nat)
    requires Multiplexer.Inv(e) && h < |e.all| && e.all[h].id.Some?
    ensures OfRequest(e.wire, e.all[h].id.value) == e.all[h].sent
  {
  }

  /** What the wire carries for a cancelled request in every run that follows. */
  lemma NothingFollows(e: Handler, h: nat, events: seq<Event>)
    requires Multiplexer.Inv(e) && h < |e.all| && e.all[h].id.Some? && e.all[h].cancelled
    requires e.all[h].started || e.all[h].finished
    requires forall i :: 0 <= i < |events| ==> Proper(events[i])
    ensures OfRequest(Multiplexer.Run(e, events).wire, e.all[h].id.value) == e.all[h].sent
  {
    hide Multiplexer.Run, Requests.Run, OfRequest;
    InvOf(e, h);
    RunKeepsInv(e, events);
    RunReaches(e, events, h);
    var end := Multiplexer.Run(e, events);
    var acts :| Requests.Run(e.all[h], acts) == end.all[h];
    CancelledSendsNothing(e.all[h], acts);
    StartedIdKept(e.all[h], acts);
    SentNow(end, h);
  }

  lemma CancelledNow(e: Handler, h: nat, pause: bool)
    requires Multiplexer.Inv(e) && h < |e.all| && e.all[h].started && !e.all[h].cancelled
    ensures var e' := Step(e, UserCancelled(h, pause));
            && Multiplexer.Inv(e') && h < |e'.all| && e'.all[h].cancelled && e'.all[h].id == e.all[h].id
            && (e'.all[h].started || e'.all[h].finished)
            && e'.all[h].sent == e.all[h].sent + if Transfer(e.all[h].kind) then [CancelRequest] else []
  {
    InvOf(e, h);
    CancelAnnounces(e.all[h], pause);
    OwnMove(e, h, DoCancel(pause), pause);
    StepKeepsInv(e, UserCancelled(h, pause));
    hide Multiplexer.Inv, Move, Apply, Requests.Inv;
  }

  /** On the wire: user code cancels a running transfer, and under its id there is one CANCEL_REQUEST more than
      before, and in no run ever anything else. Cancelling any other request puts nothing on the wire. */
  lemma CancelOnTheWire(e: Handler, h: nat, pause: bool, events: seq<Event>)
    requires Multiplexer.Inv(e) && h < |e.all| && e.all[h].started && !e.all[h].cancelled && e.all[h].id.Some?
    requires forall i :: 0 <= i < |events| ==> Proper(events[i])
    ensures var cancelled, id := Step(e, UserCancelled(h, pause)), e.all[h].id.value;
            OfRequest(Multiplexer.Run(cancelled, events).wire, id)
            == OfRequest(e.wire, id) + if Transfer(e.all[h].kind) then [CancelRequest] else []
  {
    CancelledNow(e, h, pause);
    SentNow(e, h);
    hide *;
    NothingFollows(Step(e, UserCancelled(h, pause)), h, events);
  }

  /** In every run of the connection: the wire carries under a transfer's id one CANCEL_REQUEST if it has been
      cancelled since, by user code or by the loss of the connection, and none otherwise. */
  lemma AnnouncedOnTheWire(e: Handler, h: nat, events: seq<Event>)
    requires Multiplexer.Inv(e) && h < |e.all| && e.all[h].started && !e.all[h].cancelled && Transfer(e.all[h].kind)
    requires e.all[h].id.Some? && forall i :: 0 <= i < |events| ==> Proper(events[i])
    ensures var end := Multiplexer.Run(e, events);
            h < |end.all|
            && Cancels(OfRequest(end.wire, e.all[h].id.value)) == if end.all[h].cancelled then 1 else 0
  {
    hide Multiplexer.Run, Requests.Run, OfRequest, Cancels;
    InvOf(e, h);
    RunKeepsInv(e, events);
    RunReaches(e, events, h);
    var end := Multiplexer.Run(e, events);
    var acts :| Requests.Run(e.all[h], acts) == end.all[h];
    AnnouncedOnce(e.all[h], acts);
    StartedIdKept(e.all[h], acts);
    SentNow(end, h);
  }

  // Creating and starting

  /** A new request has what it was created with, and nothing has happened to it; the others are not touched. */
  lemma CreatedIsBlank(e: Handler, kind: Kind, file: seq<byte>, maxPayload: nat, position: nat)
    ensures var e' := Step(e, Created(kind, file, maxPayload, position));
            && e' == e.(all := e'.all) && |e'.all| == |e.all| + 1 && e'.all[..|e.all|] == e.all
            && e'.all[|e.all|] == Req(kind, file, maxPayload, position, None, false, false, false, false, [], [], None,
                                      [], [], [])
  {
  }

  /** What a request says first, by the message type of the protocol. */
  function Asks(kind: Kind): Body
  {
    match kind
    case Upload => PutContent
    case Download => GetContent
    case Lookup => Query
    case Exchange(ask, _) => ask
    case OneWay => Noop
  }

  lemma StartAsks(r: Req, id: nat, producing: bool, pause: bool)
    requires Requests.Inv(r) && !r.started && !r.finished
    ensures var r' := Apply(r, DoStart(id, producing, pause));
            && r'.sent == [Asks(r.kind)] && r'.id == Some(id)
            && if r.kind.OneWay? then r'.finished && r'.fired == [Succeeded] else r'.started && r'.fired == []
  {
  }

  lemma RunExtends(r: Req, acts: seq<Act>)
    ensures r.sent <= Requests.Run(r, acts).sent
  {
    hide Requests.Run;
    assert Extends(r, Requests.Run(r, acts));
  }

  lemma StartedNow(e: Handler, h: nat, pause: bool)
    requires Multiplexer.Inv(e) && h < |e.all| && !e.all[h].started && !e.all[h].finished
    ensures var e' := Step(e, Started(h, pause));
            && Multiplexer.Inv(e') && h < |e'.all| && e'.all[h].sent == [Asks(e.all[h].kind)]
            && e'.all[h].id == Some(e.counter) && (e'.all[h].started || e'.all[h].finished)
  {
    InvOf(e, h);
    StartAsks(e.all[h], e.counter, e.producing, pause);
    OwnMove(Joining(e, h), h, DoStart(e.counter, e.producing, pause), pause);
    StepKeepsInv(e, Started(h, pause));
    hide Multiplexer.Inv, Move, Apply, Requests.Inv;
  }

  /** On the wire: in every run after its start, the first message under a request's id is the one that its kind asks
      with. */
  lemma AsksFirst(e: Handler, h: nat, pause: bool, events: seq<Event>)
    requires Multiplexer.Inv(e) && h < |e.all| && !e.all[h].started && !e.all[h].finished
    requires forall i :: 0 <= i < |events| ==> Proper(events[i])
    ensures var end := Multiplexer.Run(Step(e, Started(h, pause)), events);
            [Asks(e.all[h].kind)] <= OfRequest(end.wire, e.counter)
  {
    var started := Step(e, Started(h, pause));
    StartedNow(e, h, pause);
    hide Multiplexer.Run, Requests.Run, OfRequest, Multiplexer.Inv, Step;
    RunKeepsInv(started, events);
    RunReaches(started, events, h);
    InvOf(started, h);
    var end := Multiplexer.Run(started, events);
    var acts :| Requests.Run(started.all[h], acts) == end.all[h];
    RunExtends(started.all[h], acts);
    StartedIdKept(started.all[h], acts);
    SentNow(end, h);
  }
}
