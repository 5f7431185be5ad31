/** The request multiplexer of a connection: `RequestHandler` (magicicadaprotocol/request.py) as a step
    system over any number of requests. A step is one call into the handler: a request is created
    or started, a message arrives, the transport pauses or resumes, the user cancels, a scheduled
    `go` runs, the connection is lost. */
module Multiplexer {
  import opened ByteStrings
  import opened Options
  import opened Requests

  const REQUEST_ID_START := 1

  /** An item of the `requests` dictionary: an id and the request it belongs to. */
  datatype Entry = Entry(id: nat, handle: nat)

  /** `requests` keeps the dictionary's insertion order, `all` is every request object ever created,
      named by its position; `attached` says whether the handler is the transport's producer; `raised`
      is set once a message could not be handled and the exception has left `dataReceived`. */
  datatype Handler = Handler(
    counter: nat, requests: seq<Entry>, producing: bool, attached: bool,
    all: seq<Req>, wire: seq<Message>, raised: bool)

  const CONNECTED := Handler(REQUEST_ID_START, [], true, false, [], [], false)

  datatype Event =
    | Created(kind: Kind, file: seq<byte>, maxPayload: nat, position: nat)
    | Started(handle: nat, pause: bool)
    | Arrived(message: Message, pause: bool)
    | Resumed(pauses: set<nat>)
    | Paused
    | UserCancelled(handle: nat, pause: bool)
    | GoDue(handle: nat, k: nat, pause: bool)
    | Lost(pauses: set<nat>)

  // The registry

  predicate Registered(e: Handler, handle: nat)
  {
    exists i :: 0 <= i < |e.requests| && e.requests[i].handle == handle
  }

  function Find(requests: seq<Entry>, id: nat): (i: Option<nat>)
    ensures i.Some? ==> i.value < |requests| && requests[i.value].id == id
    ensures i.None? ==> forall j :: 0 <= j < |requests| ==> requests[j].id != id
  {
    if requests == [] then None
    else if requests[0].id == id then Some(0)
    else
      match Find(requests[1..], id)
      case None =>
        assert forall j :: 1 <= j < |requests| ==> requests[j] == requests[1..][j - 1];
        None
      case Some(i) => Some(i + 1)
  }

  /** `del requests[id]`. */
  function Without(requests: seq<Entry>, handle: nat): (rest: seq<Entry>)
    ensures forall x :: x in rest <==> x in requests && x.handle != handle
    ensures |rest| <= |requests|
  {
    if requests == [] then []
    else
      var tail := Without(requests[1..], handle);
      if requests[0].handle == handle then tail else [requests[0]] + tail
  }

  // What a step does to the requests it is not about

  /** Messages newly sent by a request, with its id. */
  function Tagged(id: nat, bodies: seq<Body>): (messages: seq<Message>)
    ensures |messages| == |bodies|
    ensures forall i :: 0 <= i < |bodies| ==> messages[i] == Message(id, bodies[i])
  {
    seq(|bodies|, i requires 0 <= i < |bodies| => Message(id, bodies[i]))
  }

  function Fresh(r: Req, r': Req): seq<Body>
  {
    if |r.sent| <= |r'.sent| then r'.sent[|r.sent|..] else []
  }

  /** Request `handle` moves to state `r`: what it sent goes to the wire, and once it is finished its
      entry goes, and with the last entry the handler's registration as a producer. */
  function Update(e: Handler, handle: nat, r: Req): (e': Handler)
    requires handle < |e.all|
    ensures e'.all == e.all[handle := r]
  {
    var sent := if r.id.Some? then Tagged(r.id.value, Fresh(e.all[handle], r)) else [];
    var moved := e.(all := e.all[handle := r], wire := e.wire + sent);
    if r.finished && !e.all[handle].finished then
      var rest := Without(e.requests, handle);
      moved.(requests := rest, attached := rest != [])
    else moved
  }

  /** `pauseProducing` (and `stopProducing`) of every registered request but `skip`. */
  function PauseAll(e: Handler, skip: Option<nat>): (e': Handler)
    ensures |e'.all| == |e.all|
  {
    e.(all := seq(|e.all|, h requires 0 <= h < |e.all| =>
                    if Registered(e, h) && skip != Some(h) then Apply(e.all[h], DoPause) else e.all[h]),
       producing := false)
  }

  /** Request `h` has moved to state `r`. With `pause` the transport or the write throttle has paused the handler
      inside a write: the request's own share of it is part of `r`, the other requests follow. */
  function Moved(e: Handler, h: nat, r: Req, pause: bool): (e': Handler)
    requires h < |e.all|
    ensures |e'.all| == |e.all|
  {
    var moved := Update(e, h, r);
    if pause && |r.sent| > |e.all[h].sent| then PauseAll(moved, Some(h)) else moved
  }

  /** One call on one request. */
  function Move(e: Handler, h: nat, a: Act, pause: bool): (e': Handler)
    requires h < |e.all|
    ensures |e'.all| == |e.all|
  {
    Moved(e, h, Apply(e.all[h], a), pause)
  }

  // The steps

  /** The connection once a request has got its id and joined the registry. */
  function Joining(e: Handler, h: nat): Handler
  {
    e.(counter := e.counter + 2, requests := e.requests + [Entry(e.counter, h)], attached := true)
  }

  /** `Request.start` with `addProducer` and `get_new_request_id`. */
  function StartRequest(e: Handler, h: nat, pause: bool): Handler
    requires h < |e.all|
  {
    if e.all[h].started || e.all[h].finished then e
    else
      Move(Joining(e, h), h, DoStart(e.counter, e.producing, pause), pause)
  }

  /** The message types the client has a `handle_` method for. */
  predicate Handled(b: Body)
  {
    b.Noop? || b.Ping? || b.BeginContent? || b.NodeState?
    || (b.Other? && b.kind in {10, 29, 30, 31, 40, 42, 48, 49, 54})
  }

  /** `processMessage`. The handlers for messages of no request change nothing here, but PING answers.
      A message without a handler raises, and nothing that arrives after it is looked at. */
  function Dispatch(e: Handler, m: Message, pause: bool): Handler
  {
    if e.raised then e
    else
      match Find(e.requests, m.id)
      case Some(i) =>
        var h := e.requests[i].handle;
        if h < |e.all| then Move(e, h, DoReceive(m.body, pause), pause) else e
      case None =>
        if m.body.Ping? then
          var answered := e.(wire := e.wire + [Message(m.id, Pong)]);
          if pause then PauseAll(answered, None) else answered
        else if Handled(m.body) then e
        else e.(raised := true)
  }

  /** The loop of `resumeProducing`; `pauses` are the requests inside whose writes the transport pauses
      the handler. */
  function ResumeEach(e: Handler, entries: seq<Entry>, pauses: set<nat>): Handler
    decreases |entries|
  {
    if entries == [] then e
    else
      var h := entries[0].handle;
      var moved := if h < |e.all| then Move(e, h, DoResume(h in pauses), h in pauses) else e;
      ResumeEach(moved, entries[1..], pauses)
  }

  /** The loop of `connectionLost`, over a copy of the registry; `pauses` are the requests inside whose
      CANCEL_REQUEST the handler is paused, which the write throttle can still do. */
  function LoseEach(e: Handler, entries: seq<Entry>, pauses: set<nat>): Handler
    decreases |entries|
  {
    if entries == [] then e
    else
      var h := entries[0].handle;
      var moved := if h < |e.all| then Move(e, h, DoLose(h in pauses), h in pauses) else e;
      LoseEach(moved, entries[1..], pauses)
  }

  function Step(e: Handler, ev: Event): Handler
  {
    match ev
    case Created(kind, file, maxPayload, position) => e.(all := e.all + [New(kind, file, maxPayload, position)])
    case Started(h, pause) => if h < |e.all| then StartRequest(e, h, pause) else e
    case Arrived(m, pause) => Dispatch(e, m, pause)
    case Resumed(pauses) => ResumeEach(e, e.requests, pauses).(producing := true)
    case Paused => PauseAll(e, None)
    case UserCancelled(h, pause) => if h < |e.all| then Move(e, h, DoCancel(pause), pause) else e
    case GoDue(h, k, pause) => if h < |e.all| then Move(e, h, DoGo(k, pause && e.all[h].started), pause) else e
    case Lost(pauses) => LoseEach(e, e.requests, pauses)
  }

  function Run(e: Handler, events: seq<Event>): Handler
    decreases |events|
  {
    if events == [] then e else Run(Step(e, events[0]), events[1..])
  }

  // The registry invariant

  ghost predicate Ids(e: Handler)
  {
    && e.counter % 2 == 1
    && (forall h :: 0 <= h < |e.all| && e.all[h].id.Some? ==>
          e.all[h].id.value % 2 == 1 && e.all[h].id.value < e.counter)
    && (forall g, h :: 0 <= g < h < |e.all| && e.all[g].id.Some? && e.all[h].id.Some? ==> e.all[g].id != e.all[h].id)
  }

  ghost predicate Ascending(requests: seq<Entry>)
  {
    forall i, j :: 0 <= i < j < |requests| ==> requests[i].id < requests[j].id
  }

  /** The registry holds exactly the started requests, each under its own id, oldest first. */
  ghost predicate Registry(e: Handler)
  {
    && (forall i :: 0 <= i < |e.requests| ==>
          var x := e.requests[i];
          x.handle < |e.all| && e.all[x.handle].started && e.all[x.handle].id == Some(x.id))
    && Ascending(e.requests)
    && (forall h :: 0 <= h < |e.all| && e.all[h].started ==> Registered(e, h))
  }

  ghost predicate Requesting(e: Handler)
  {
    forall h :: 0 <= h < |e.all| ==> Requests.Inv(e.all[h])
  }

  /** The messages of the wire that belong to request `id`; a PONG answers the peer under an id of its choosing. */
  function OfRequest(wire: seq<Message>, id: nat): (bodies: seq<Body>)
  {
    if wire == [] then []
    else
      var last := wire[|wire| - 1];
      OfRequest(wire[..|wire| - 1], id) + (if last.id == id && last.body != Pong then [last.body] else [])
  }

  /** What has been written for one request is what the wire carries under its id. */
  ghost predicate WireAgrees(e: Handler)
  {
    && (forall h :: 0 <= h < |e.all| && e.all[h].id.Some? ==> OfRequest(e.wire, e.all[h].id.value) == e.all[h].sent)
    && (forall i :: 0 <= i < |e.wire| && e.wire[i].body != Pong ==> e.wire[i].id < e.counter)
  }

  ghost predicate Inv(e: Handler)
  {
    Ids(e) && Registry(e) && Requesting(e) && WireAgrees(e) && (e.attached <==> e.requests != [])
  }

  ghost predicate Proper(ev: Event)
  {
    ev.Created? ==> ProperKind(ev.kind)
  }

  // Small facts

  lemma {:induction false} OfRequestAppend(wire: seq<Message>, more: seq<Message>, id: nat)
    ensures OfRequest(wire + more, id) == OfRequest(wire, id) + OfRequest(more, id)
  {
    if more == [] {
      assert wire + more == wire;
    } else {
      assert (wire + more)[..|wire + more| - 1] == wire + more[..|more| - 1];
      OfRequestAppend(wire, more[..|more| - 1], id);
    }
  }

  lemma TaggedSnoc(tag: nat, bodies: seq<Body>, b: Body)
    ensures Tagged(tag, bodies + [b]) == Tagged(tag, bodies) + [Message(tag, b)]
  {
  }

  lemma OfRequestSnoc(wire: seq<Message>, last: Message, id: nat)
    ensures OfRequest(wire + [last], id)
            == OfRequest(wire, id) + (if last.id == id && last.body != Pong then [last.body] else [])
  {
    assert (wire + [last])[..|wire|] == wire;
  }

  lemma NothingTagged(tag: nat, id: nat)
    ensures OfRequest(Tagged(tag, []), id) == []
  {
  }

  lemma {:induction false} OfRequestTagged(bodies: seq<Body>, tag: nat, id: nat)
    requires forall i :: 0 <= i < |bodies| ==> bodies[i] != Pong
    ensures OfRequest(Tagged(tag, bodies), id) == if tag == id then bodies else []
  {
    hide OfRequest, Tagged;
    if bodies == [] {
      NothingTagged(tag, id);
    } else {
      var front, last := bodies[..|bodies| - 1], bodies[|bodies| - 1];
      assert bodies == front + [last];
      TaggedSnoc(tag, front, last);
      OfRequestTagged(front, tag, id);
      OfRequestSnoc(Tagged(tag, front), Message(tag, last), id);
    }
  }

  lemma {:induction false} OfRequestUnused(wire: seq<Message>, id: nat)
    requires forall i :: 0 <= i < |wire| && wire[i].body != Pong ==> wire[i].id < id
    ensures OfRequest(wire, id) == []
  {
    if wire != [] {
      OfRequestUnused(wire[..|wire| - 1], id);
    }
  }

  lemma HeadIsLeast(requests: seq<Entry>)
    requires requests != [] && Ascending(requests)
    ensures forall x :: x in requests[1..] ==> requests[0].id < x.id
  {
  }

  lemma {:induction false} WithoutAscending(requests: seq<Entry>, handle: nat)
    requires Ascending(requests)
    ensures Ascending(Without(requests, handle))
  {
    if requests != [] {
      var tail := Without(requests[1..], handle);
      WithoutAscending(requests[1..], handle);
      HeadIsLeast(requests);
      hide Without;
      forall i | 0 <= i < |tail| ensures requests[0].id < tail[i].id {
        assert tail[i] in tail;
      }
    }
  }

  /** How a request may change in one call that does not start it. */
  ghost predicate Successor(r: Req, r': Req)
  {
    && Requests.Inv(r) && Requests.Inv(r') && r.sent <= r'.sent
    && r'.id == r.id
    && (r'.started <==> r.started && !r'.finished)
    && (r.finished ==> r'.finished && !r.started)
    && (r'.finished && !r.finished ==> r.started)
  }

  lemma ApplySuccessor(r: Req, a: Act)
    requires Requests.Inv(r) && !a.DoStart?
    ensures Successor(r, Apply(r, a))
  {
    hide Apply;
    StepInv(r, a);
    ApplyStatus(r, a);
  }

  // One call keeps the invariant

  lemma UpdateIds(e: Handler, h: nat, r: Req)
    requires Inv(e) && h < |e.all| && Successor(e.all[h], r)
    ensures Ids(Update(e, h, r)) && Requesting(Update(e, h, r))
  {
  }

  lemma StillRegistered(e: Handler, h: nat, g: nat)
    requires Registered(e, g) && g != h
    ensures Registered(e.(requests := Without(e.requests, h)), g)
  {
    var i :| 0 <= i < |e.requests| && e.requests[i].handle == g;
    assert e.requests[i] in e.requests;
    var rest := Without(e.requests, h);
    assert e.requests[i] in rest;
    var j :| 0 <= j < |rest| && rest[j] == e.requests[i];
    assert e.(requests := rest).requests[j].handle == g;
  }

  lemma UpdateRegistry(e: Handler, h: nat, r: Req)
    requires Inv(e) && h < |e.all| && Successor(e.all[h], r)
    ensures Registry(Update(e, h, r))
    ensures Update(e, h, r).attached <==> Update(e, h, r).requests != []
  {
    hide Requests.Inv, Requesting, WireAgrees, Without;
    var e' := Update(e, h, r);
    if r.finished && !e.all[h].finished {
      WithoutAscending(e.requests, h);
      forall i | 0 <= i < |e'.requests|
        ensures var x := e'.requests[i];
                x.handle < |e'.all| && e'.all[x.handle].started && e'.all[x.handle].id == Some(x.id)
      {
        assert e'.requests[i] in e.requests && e'.requests[i].handle != h;
      }
      forall g | 0 <= g < |e'.all| && e'.all[g].started ensures Registered(e', g) {
        StillRegistered(e, h, g);
      }
    } else {
      forall g | 0 <= g < |e'.all| && e'.all[g].started ensures Registered(e', g) {
        assert Registered(e, g);
      }
    }
  }

  lemma FreshProper(r: Req, r': Req)
    requires r.sent <= r'.sent && Requests.Inv(r')
    ensures r.sent + Fresh(r, r') == r'.sent
    ensures forall i :: 0 <= i < |Fresh(r, r')| ==> Fresh(r, r')[i] != Pong
  {
  }

  /** What an update leaves of the wire. */
  lemma UpdateShape(e: Handler, h: nat, r: Req)
    requires h < |e.all|
    ensures var e' := Update(e, h, r);
            && e'.counter == e.counter && e'.all == e.all[h := r]
            && e'.wire == e.wire + (if r.id.Some? then Tagged(r.id.value, Fresh(e.all[h], r)) else [])
  {
    hide Without, Tagged, Fresh;
  }

  /** The wire agrees on request `g` after request `h` has written `more`. */
  lemma WireOf(wire: seq<Message>, id: nat, more: seq<Body>, g: nat)
    requires forall i :: 0 <= i < |more| ==> more[i] != Pong
    ensures OfRequest(wire + Tagged(id, more), g) == OfRequest(wire, g) + if g == id then more else []
  {
    OfRequestAppend(wire, Tagged(id, more), g);
    OfRequestTagged(more, id, g);
    hide OfRequest, Tagged;
  }

  /** What has been written for the requests, when request `h` with its own id has written more. */
  lemma SentAgrees(e: Handler, h: nat, r: Req, more: seq<Body>)
    requires Ids(e) && WireAgrees(e) && h < |e.all| && r.id.Some? && r.id == e.all[h].id
    requires r.sent == e.all[h].sent + more && forall i :: 0 <= i < |more| ==> more[i] != Pong
    ensures WireAgrees(e.(all := e.all[h := r], wire := e.wire + Tagged(r.id.value, more)))
  {
    hide OfRequest;
    var e' := e.(all := e.all[h := r], wire := e.wire + Tagged(r.id.value, more));
    forall g | 0 <= g < |e'.all| && e'.all[g].id.Some?
      ensures OfRequest(e'.wire, e'.all[g].id.value) == e'.all[g].sent
    {
      WireOf(e.wire, r.id.value, more, e'.all[g].id.value);
    }
  }

  lemma WireOnly(e: Handler, e': Handler)
    requires e.all == e'.all && e.wire == e'.wire && e.counter == e'.counter && WireAgrees(e)
    ensures WireAgrees(e')
  {
    hide OfRequest;
  }

  lemma NothingWritten(e: Handler, h: nat, r: Req)
    requires WireAgrees(e) && h < |e.all| && r.id == None
    ensures WireAgrees(e.(all := e.all[h := r], wire := e.wire + []))
  {
    hide OfRequest;
    assert e.wire + [] == e.wire;
  }

  lemma UpdateWire(e: Handler, h: nat, r: Req)
    requires Inv(e) && h < |e.all| && Successor(e.all[h], r)
    ensures WireAgrees(Update(e, h, r))
  {
    var more := Fresh(e.all[h], r);
    FreshProper(e.all[h], r);
    UpdateShape(e, h, r);
    hide Without, WireAgrees, Registry, Requesting, Fresh, Requests.Inv, Update, Ids, Tagged;
    if r.id.Some? {
      SentAgrees(e, h, r, more);
      WireOnly(e.(all := e.all[h := r], wire := e.wire + Tagged(r.id.value, more)), Update(e, h, r));
    } else {
      NothingWritten(e, h, r);
      WireOnly(e.(all := e.all[h := r], wire := e.wire + []), Update(e, h, r));
    }
  }

  lemma UpdateInv(e: Handler, h: nat, r: Req)
    requires Inv(e) && h < |e.all| && Successor(e.all[h], r)
    ensures Inv(Update(e, h, r))
  {
    UpdateIds(e, h, r);
    UpdateRegistry(e, h, r);
    UpdateWire(e, h, r);
  }

  lemma PauseKeepsStarted(r: Req)
    ensures Apply(r, DoPause).started == r.started && Apply(r, DoPause).sent == r.sent
  {
  }

  lemma SuccessorRefl(r: Req)
    requires Requests.Inv(r)
    ensures Successor(r, r)
  {
  }

  lemma PauseAllInv(e: Handler, skip: Option<nat>)
    requires Inv(e)
    ensures Inv(PauseAll(e, skip))
  {
    hide Requests.Inv, Apply;
    var e' := PauseAll(e, skip);
    forall h | 0 <= h < |e.all|
      ensures Successor(e.all[h], e'.all[h]) && e'.all[h].sent == e.all[h].sent && e'.all[h].started == e.all[h].started
    {
      ApplySuccessor(e.all[h], DoPause);
      PauseKeepsStarted(e.all[h]);
      SuccessorRefl(e.all[h]);
    }
    forall h | 0 <= h < |e.all| && e'.all[h].started ensures Registered(e', h) {
      assert Registered(e, h);
    }
  }

  lemma InvOf(e: Handler, h: nat)
    requires Inv(e) && h < |e.all|
    ensures Requests.Inv(e.all[h])
  {
  }

  lemma MoveInv(e: Handler, h: nat, a: Act, pause: bool)
    requires Inv(e) && h < |e.all| && !a.DoStart?
    ensures Inv(Move(e, h, a, pause))
  {
    hide Inv, Apply, Update, PauseAll;
    InvOf(e, h);
    ApplySuccessor(e.all[h], a);
    UpdateInv(e, h, Apply(e.all[h], a));
    PauseAllInv(Update(e, h, Apply(e.all[h], a)), Some(h));
  }

  // Starting a request

  lemma StartShape(r: Req, id: nat, producing: bool, pause: bool)
    requires Requests.Inv(r) && !r.started && !r.finished
    ensures var r' := Apply(r, DoStart(id, producing, pause));
            && Requests.Inv(r') && r'.id == Some(id) && r'.sent == [Opening(r.kind)] && r.sent == [] && r.id == None
            && r'.finished == r.kind.OneWay? && r'.started == !r'.finished
  {
    StepInv(r, DoStart(id, producing, pause));
  }

  /** The state in which `start` has sent its first message and not yet completed. */
  ghost predicate Opened(r: Req, r': Req, id: nat)
  {
    && Requests.Inv(r) && !r.started && !r.finished && r.sent == [] && r.id == None
    && Requests.Inv(r') && r'.id == Some(id) && r'.sent == [Opening(r.kind)] && r'.started && !r'.finished
  }

  lemma JoiningAscending(e: Handler, h: nat)
    requires Ids(e) && Registry(e)
    ensures Ascending(Joining(e, h).requests)
  {
    forall i | 0 <= i < |e.requests| ensures e.requests[i].id < e.counter {
      assert e.all[e.requests[i].handle].id.Some?;
    }
  }

  lemma OpenedShape(e: Handler, h: nat, r': Req)
    requires h < |e.all| && !r'.finished
    ensures var e' := Update(Joining(e, h), h, r');
            e'.requests == e.requests + [Entry(e.counter, h)] && e'.all == e.all[h := r']
  {
    hide Tagged, Fresh, Without;
  }

  lemma Joins(e: Handler, e': Handler, x: Entry)
    requires e'.requests == e.requests + [x]
    ensures Registered(e', x.handle) && forall g :: Registered(e, g) ==> Registered(e', g)
  {
    assert e'.requests[|e.requests|].handle == x.handle;
    forall g | Registered(e, g) ensures Registered(e', g) {
      var i :| 0 <= i < |e.requests| && e.requests[i].handle == g;
      assert e'.requests[i].handle == g;
    }
  }

  lemma OpenedRegistry(e: Handler, h: nat, r': Req)
    requires Inv(e) && h < |e.all| && Opened(e.all[h], r', e.counter)
    ensures Registry(Update(Joining(e, h), h, r'))
  {
    JoiningAscending(e, h);
    OpenedShape(e, h, r');
    hide Requests.Inv, WireAgrees, Requesting, Ids, Ascending, Update;
    var e' := Update(Joining(e, h), h, r');
    Joins(e, e', Entry(e.counter, h));
    hide Registered;
  }

  lemma OpenedWire(e: Handler, h: nat, r': Req)
    requires Inv(e) && h < |e.all| && Opened(e.all[h], r', e.counter)
    ensures WireAgrees(Update(Joining(e, h), h, r'))
  {
    hide Registry;
    var added := Joining(e, h);
    var e' := Update(added, h, r');
    assert Fresh(e.all[h], r') == r'.sent;
    OfRequestUnused(e.wire, e.counter);
    forall g | 0 <= g < |e'.all| && e'.all[g].id.Some?
      ensures OfRequest(e'.wire, e'.all[g].id.value) == e'.all[g].sent
    {
      OfRequestAppend(e.wire, Tagged(e.counter, r'.sent), e'.all[g].id.value);
      OfRequestTagged(r'.sent, e.counter, e'.all[g].id.value);
    }
  }

  lemma OpenedInv(e: Handler, h: nat, r': Req)
    requires Inv(e) && h < |e.all| && Opened(e.all[h], r', e.counter)
    ensures Inv(Update(Joining(e, h), h, r'))
  {
    var added := Joining(e, h);
    var e' := Update(added, h, r');
    OpenedRegistry(e, h, r');
    OpenedWire(e, h, r');
  }

  /** A one-way request just before it completes itself. */
  lemma StartedOneWay(r: Req, id: nat, producing: bool, pause: bool) returns (before: Req)
    requires Requests.Inv(r) && !r.started && !r.finished && r.kind.OneWay?
    ensures Opened(r, before, id) && Successor(before, Apply(r, DoStart(id, producing, pause)))
    ensures before.sent == Apply(r, DoStart(id, producing, pause)).sent
  {
    StartShape(r, id, producing, pause);
    before := Apply(r, DoStart(id, producing, pause)).(finished := false, started := true, fired := []);
  }

  lemma TwoUpdates(e: Handler, h: nat, before: Req, r: Req)
    requires h < |e.all| && e.all[h].sent == [] && before.sent == r.sent && before.id == r.id
    requires !e.all[h].finished && !before.finished && r.finished
    ensures Update(Update(e, h, before), h, r) == Update(e, h, r)
  {
    assert Tagged(0, []) == [];
    assert e.all[h := before][h := r] == e.all[h := r];
    assert Fresh(before, r) == [];
    if r.id.Some? {
      assert e.wire + Tagged(r.id.value, Fresh(e.all[h], before)) + []
          == e.wire + Tagged(r.id.value, Fresh(e.all[h], r));
    }
  }

  lemma StartInv(e: Handler, h: nat, pause: bool)
    requires Inv(e) && h < |e.all|
    ensures Inv(StartRequest(e, h, pause))
  {
    hide Inv, Apply, PauseAll, Update;
    var r := e.all[h];
    InvOf(e, h);
    if !r.started && !r.finished {
      var added := Joining(e, h);
      var r' := Apply(r, DoStart(e.counter, e.producing, pause));
      StartShape(r, e.counter, e.producing, pause);
      if r.kind.OneWay? {
        var before := StartedOneWay(r, e.counter, e.producing, pause);
        OpenedInv(e, h, before);
        UpdateInv(Update(added, h, before), h, r');
        TwoUpdates(added, h, before, r');
      } else {
        OpenedInv(e, h, r');
      }
      PauseAllInv(Update(added, h, r'), Some(h));
    }
  }

  // Every step and every run

  lemma PongInv(e: Handler, m: Message)
    requires Inv(e)
    ensures Inv(e.(wire := e.wire + [Message(m.id, Pong)]))
  {
    var pong := [Message(m.id, Pong)];
    forall id ensures OfRequest(e.wire + pong, id) == OfRequest(e.wire, id) {
      assert (e.wire + pong)[..|e.wire + pong| - 1] == e.wire;
    }
    var e' := e.(wire := e.wire + pong);
    forall h | 0 <= h < |e'.all| && e'.all[h].started ensures Registered(e', h) {
      assert Registered(e, h);
    }
  }

  lemma FlagInv(e: Handler, producing: bool, raised: bool)
    requires Inv(e)
    ensures Inv(e.(producing := producing, raised := raised))
  {
    forall h | 0 <= h < |e.all| && e.all[h].started
      ensures Registered(e.(producing := producing, raised := raised), h)
    {
      assert Registered(e, h);
    }
  }

  lemma DispatchInv(e: Handler, m: Message, pause: bool)
    requires Inv(e)
    ensures Inv(Dispatch(e, m, pause))
  {
    hide Move, PauseAll, Inv;
    match Find(e.requests, m.id)
    case Some(i) =>
      var h := e.requests[i].handle;
      if h < |e.all| { MoveInv(e, h, DoReceive(m.body, pause), pause); }
    case None =>
      PongInv(e, m);
      PauseAllInv(e.(wire := e.wire + [Message(m.id, Pong)]), None);
      FlagInv(e, e.producing, true);
  }

  lemma {:induction false} ResumeEachInv(e: Handler, entries: seq<Entry>, pauses: set<nat>)
    requires Inv(e)
    ensures Inv(ResumeEach(e, entries, pauses))
    decreases |entries|
  {
    hide Move, Inv;
    if entries != [] {
      var h := entries[0].handle;
      var moved := if h < |e.all| then Move(e, h, DoResume(h in pauses), h in pauses) else e;
      if h < |e.all| { MoveInv(e, h, DoResume(h in pauses), h in pauses); }
      ResumeEachInv(moved, entries[1..], pauses);
    }
  }

  lemma {:induction false} ResumeEachRaised(e: Handler, entries: seq<Entry>, pauses: set<nat>)
    ensures ResumeEach(e, entries, pauses).raised == e.raised
    decreases |entries|
  {
    if entries != [] {
      var h := entries[0].handle;
      ResumeEachRaised(if h < |e.all| then Move(e, h, DoResume(h in pauses), h in pauses) else e, entries[1..], pauses);
    }
  }

  lemma {:induction false} LoseEachInv(e: Handler, entries: seq<Entry>, pauses: set<nat>)
    requires Inv(e)
    ensures Inv(LoseEach(e, entries, pauses))
    decreases |entries|
  {
    hide Move, Inv;
    if entries != [] {
      var h := entries[0].handle;
      var moved := if h < |e.all| then Move(e, h, DoLose(h in pauses), h in pauses) else e;
      if h < |e.all| { MoveInv(e, h, DoLose(h in pauses), h in pauses); }
      LoseEachInv(moved, entries[1..], pauses);
    }
  }

  lemma CreateInv(e: Handler, r: Req)
    requires Inv(e) && IsNew(r) && ProperKind(r.kind)
    ensures Inv(e.(all := e.all + [r]))
  {
    var e' := e.(all := e.all + [r]);
    NewInv(r.kind, r.file, r.maxPayload, r.position);
    forall h | 0 <= h < |e'.all| && e'.all[h].started ensures Registered(e', h) {
      assert Registered(e, h);
    }
  }

  lemma StepKeepsInv(e: Handler, ev: Event)
    requires Inv(e) && Proper(ev)
    ensures Inv(Step(e, ev))
  {
    hide Inv, Move, StartRequest, Dispatch, ResumeEach, LoseEach, PauseAll;
    match ev
    case Created(kind, file, maxPayload, position) => CreateInv(e, New(kind, file, maxPayload, position));
    case Started(h, pause) => if h < |e.all| { StartInv(e, h, pause); }
    case Arrived(m, pause) => DispatchInv(e, m, pause);
    case Resumed(pauses) =>
      ResumeEachInv(e, e.requests, pauses);
      FlagInv(ResumeEach(e, e.requests, pauses), true, e.raised);
      ResumeEachRaised(e, e.requests, pauses);
    case Paused => PauseAllInv(e, None);
    case UserCancelled(h, pause) => if h < |e.all| { MoveInv(e, h, DoCancel(pause), pause); }
    case GoDue(h, k, pause) => if h < |e.all| { MoveInv(e, h, DoGo(k, pause && e.all[h].started), pause); }
    case Lost(pauses) => LoseEachInv(e, e.requests, pauses);
  }

  /** Over all runs, with any number of requests and with pauses inside any write: the registry holds
      exactly the started, unfinished requests under their own ids; ids are odd, distinct and below
      the counter; the handler is the transport's producer exactly when the registry is not empty;
      no deferred fires twice; and the wire carries for each request what that request sent. */
  lemma {:induction false} RunKeepsInv(e: Handler, events: seq<Event>)
    requires Inv(e) && forall i :: 0 <= i < |events| ==> Proper(events[i])
    ensures Inv(Run(e, events))
    decreases |events|
  {
    hide Inv, Step;
    if events != [] {
      StepKeepsInv(e, events[0]);
      RunKeepsInv(Step(e, events[0]), events[1..]);
    }
  }

  lemma ConnectedInv()
    ensures Inv(CONNECTED)
  {
  }

  lemma MovedShape(e: Handler, h: nat, r: Req, pause: bool)
    requires h < |e.all|
    ensures var e' := Moved(e, h, r, pause);
            e'.all[h] == r && e'.counter == e.counter && (!r.finished ==> e'.requests == e.requests)
  {
    hide Apply, Tagged, Fresh, Without, Registered;
  }

  /** A started request gets an odd id above every id given out before, and the counter moves past it. */
  lemma StartAllotsNewId(e: Handler, h: nat, pause: bool)
    requires Inv(e) && h < |e.all| && !e.all[h].started && !e.all[h].finished
    ensures var e' := Step(e, Started(h, pause));
            && e'.all[h].id == Some(e.counter) && e.counter % 2 == 1 && e'.counter == e.counter + 2
            && forall g :: 0 <= g < |e.all| && e.all[g].id.Some? ==> e.all[g].id.value < e.counter
    ensures var e' := Step(e, Started(h, pause));
            e.requests <= e'.requests || e.all[h].kind.OneWay?
  {
    InvOf(e, h);
    StartShape(e.all[h], e.counter, e.producing, pause);
    MovedShape(Joining(e, h), h, Apply(e.all[h], DoStart(e.counter, e.producing, pause)), pause);
    hide Apply, Registry, WireAgrees, Requesting, Requests.Inv, Moved;
  }
}
