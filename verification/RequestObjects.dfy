/** The objects behind the step system of `Multiplexer`: `RequestHandler` and `Request`
    (magicicadaprotocol/request.py) and `BytesMessageProducer` (magicicadaprotocol/client.py), which
    update their fields in place and call each other. Every call is proved to do to the objects what
    the step functions do to the values. Inside any write the transport or the write throttle may call back and
    pause the handler, which then pauses every registered request, the writing one included: `pause` says
    whether it does. */
module RequestObjects {
  import opened ByteStrings
  import opened Options
  import opened Requests
  import opened Multiplexer
  import opened Effects

  /** The file an upload reads from. */
  class File {
    const content: seq<byte>
    var position: nat

    constructor (content: seq<byte>)
      ensures this.content == content && position == 0
    {
      this.content, position := content, 0;
    }

    method Seek(at: nat)
      modifies this
      ensures position == at
    {
      position := at;
    }

    method Read(n: nat) returns (data: seq<byte>)
      modifies this
      ensures data == Requests.Read(content, old(position), n) && position == old(position) + |data|
    {
      data := Requests.Read(content, position, n);
      position := position + |data|;
    }
  }

  /** A working `go` call, from its read to its last assignment, is one move. */
  lemma ReadAndSend(e: Handler, h: nat, k: nat, pause: bool)
    requires h < |e.all| && k < |e.all[h].producers| && Active(e.all[h], k) && e.all[h].id.Some? && KnowsStarted(e)
    ensures var r := e.all[h];
            var data := NextData(r, k);
            var read := r.(position := Cursor(r, k) + |data|);
            Settle(Emit(Put(Put(e, h, read), h, Ahead(read, k, data)), h, Piece(data), pause), h, k, data)
            == Moved(e, h, Go(r, k, Own(e, h, pause)), pause)
  {
    GoIsMoved(e, h, k, pause);
    hide Go, Moved, Own, Emit, Settle, NextData, Cursor, KnowsStarted;
    var r := e.all[h];
    var data := NextData(r, k);
    PutPut(e, h, r.(position := Cursor(r, k) + |data|), Advanced(r, k, data));
  }

  lemma NothingRead(r: Req, k: nat)
    requires k < |r.producers|
    ensures Ahead(r, k, []) == r
  {
    assert r.producers[k := r.producers[k]] == r.producers;
  }

  ghost function Views(producers: seq<BytesMessageProducer>): (views: seq<Producer>)
    reads producers
    ensures |views| == |producers| && forall k :: 0 <= k < |producers| ==> views[k] == producers[k].View()
  {
    seq(|producers|, k requires 0 <= k < |producers| reads producers => producers[k].View())
  }

  /** One producer has changed since the request looked like `before`. */
  lemma OneChanged(r: Request, p: BytesMessageProducer, before: Req)
    requires r.Valid() && p.index < |r.producers| && r.producers[p.index] == p
    requires |before.producers| == |r.producers|
    requires forall k :: 0 <= k < |r.producers| && r.producers[k] != p ==> before.producers[k] == r.producers[k].View()
    ensures r.View().producers == before.producers[p.index := p.View()]
  {
    hide Views;
    assert forall k :: 0 <= k < |r.producers| && k != p.index ==> r.producers[k] != p;
  }

  twostate lemma SameProducers(r: Request)
    requires unchanged(r`producers) && forall p :: p in r.producers ==> unchanged(p)
    ensures r.View().producers == old(r.View()).producers
  {
    hide Views;
    assert forall k :: 0 <= k < |r.producers| ==> r.producers[k] in r.producers;
  }

  ghost predicate Within(all: seq<Request>, parts: set<object>)
    reads parts
  {
    forall r :: r in all ==> r in parts && r.Parts() <= parts
  }

  ghost function RequestViews(all: seq<Request>, parts: set<object>): (views: seq<Req>)
    requires Within(all, parts)
    reads parts
    ensures |views| == |all| && forall h :: 0 <= h < |all| ==> views[h] == all[h].View()
  {
    if all == [] then []
    else
      var last := all[|all| - 1];
      assert last in all;
      RequestViews(all[..|all| - 1], parts) + [last.View()]
  }

  function Taken(r: Req, k: nat): Req
    requires k < |r.producers| && r.producers[k].calls > 0
  {
    SetProducer(r, k, r.producers[k].(calls := r.producers[k].calls - 1))
  }

  /** `calls` counts the `go` calls that wait in the reactor; `index` is the producer's place among those
      of its request. */
  class BytesMessageProducer {
    const request: Request
    ghost const index: nat
    var producing: bool
    var offset: nat
    var finished: bool
    ghost var calls: nat

    ghost function View(): Producer
      reads this
    {
      Producer(offset, producing, finished, calls)
    }

    constructor (request: Request, offset: nat, ghost index: nat)
      ensures this.request == request && this.index == index && View() == Producer(offset, false, false, 0)
    {
      this.request, this.offset, this.index := request, offset, index;
      producing, finished, calls := false, false, 0;
    }

    /** `stopProducing` and `pauseProducing`. */
    method StopProducing()
      modifies this`producing
      ensures !producing
    {
      producing := false;
    }

    /** The producer is one of its request's, and the request one of its connection's. */
    ghost predicate InPlace()
      reads request, request.protocol, request.protocol.parts
    {
      && request.InPlace() && request.id.Some?
      && index < |request.producers| && request.producers[index] == this
    }

    method MoveOffset(data: seq<byte>)
      requires InPlace()
      modifies this`offset
      ensures request.protocol.Structure()
      ensures var e, h, r := old(request.protocol.View()), request.handle, old(request.View());
              request.protocol.View() == Put(e, h, Ahead(r, index, data))
    {
      hide Views, RequestViews, RequestHandler.Structure, KnowsStarted;
      request.protocol.Placed(request);
      ghost var r := request.View();
      if offset != 0 {
        offset := offset + |data|;
      }
      OneChanged(request, this, r);
      request.protocol.Touched(request);
    }

    method AnotherCall(ghost data: seq<byte>)
      requires InPlace() && data != []
      modifies this`calls
      ensures request.protocol.Structure()
      ensures request.protocol.View() == Settle(old(request.protocol.View()), request.handle, index, data)
    {
      hide Views, RequestViews, RequestHandler.Structure, KnowsStarted;
      request.protocol.Placed(request);
      ghost var r := request.View();
      calls := calls + 1;
      OneChanged(request, this, r);
      request.protocol.Touched(request);
    }

    method SendEof(pause: bool)
      requires InPlace()
      modifies this, request`sent, request.protocol`wire, request.protocol`producing
      modifies request.protocol.all`producing, request.protocol.pumps`producing
      ensures request.protocol.Structure()
      ensures request.protocol.View()
              == Settle(Emit(old(request.protocol.View()), request.handle, Eof, pause), request.handle, index, [])
    {
      hide Views, RequestViews, RequestHandler.Structure, Write, Emit, KnowsStarted;
      request.protocol.Placed(request);
      request.SendMessage(Eof, pause);
      request.protocol.Placed(request);
      ghost var r := request.View();
      label Sent:
      producing, finished := false, true;
      OneChanged(request, this, r);
      request.protocol.Touched@Sent(request);
    }

    /** `go` with what it has read: BYTES and another call, or EOF and the end. */
    method Announce(data: seq<byte>, pause: bool)
      requires InPlace()
      modifies this, request`sent, request.protocol`wire, request.protocol`producing
      modifies request.protocol.all`producing, request.protocol.pumps`producing
      ensures request.protocol.Structure()
      ensures var e, h, r := old(request.protocol.View()), request.handle, old(request.View());
              request.protocol.View()
              == Settle(Emit(Put(e, h, Ahead(r, index, data)), h, Piece(data), pause), h, index, data)
    {
      hide Views, RequestViews, RequestHandler.Structure, Emit, KnowsStarted, Settle, Ahead;
      request.protocol.Placed(request);
      if data != [] {
        MoveOffset(data);
        request.SendMessage(Bytes(data), pause);
        AnotherCall(data);
      } else {
        NothingRead(request.View(), index);
        PutSame(request.protocol.View(), request.handle);
        SendEof(pause);
      }
    }

    /** The next piece of the file. */
    method ReadNext() returns (data: seq<byte>)
      requires InPlace()
      modifies request.fd
      ensures request.protocol.Structure()
      ensures var e, h, r := old(request.protocol.View()), request.handle, old(request.View());
              data == NextData(r, index)
              && request.protocol.View() == Put(e, h, r.(position := Cursor(r, index) + |data|))
    {
      hide Requests.Read, Views, RequestViews, RequestHandler.Structure;
      request.protocol.Placed(request);
      if offset != 0 {
        request.fd.Seek(offset);
      }
      data := request.fd.Read(request.maxPayload);
      SameProducers(request);
      request.protocol.Touched(request);
    }

    /** `go` past its first test. */
    method Produce(pause: bool)
      requires InPlace() && Active(request.View(), index)
      modifies this, request`sent, request.fd, request.protocol`wire, request.protocol`producing
      modifies request.protocol.all`producing, request.protocol.pumps`producing
      ensures request.protocol.Structure()
      ensures var e, h := old(request.protocol.View()), request.handle;
              request.protocol.View() == Moved(e, h, Requests.Go(old(request.View()), index, Own(e, h, pause)), pause)
    {
      hide Requests.Go, Moved, Own, Views, RequestViews, Emit, NextData, Cursor;
      hide RequestHandler.Structure, KnowsStarted, Active, Settle, Ahead, Put;
      request.protocol.Placed(request);
      ReadAndSend(request.protocol.View(), request.handle, index, pause);
      var data := ReadNext();
      request.protocol.Placed(request);
      Announce(data, pause);
    }

    method Go(pause: bool)
      requires InPlace()
      modifies this, request`sent, request.fd, request.protocol`wire, request.protocol`producing
      modifies request.protocol.all`producing, request.protocol.pumps`producing
      ensures request.protocol.Structure()
      ensures var e, h := old(request.protocol.View()), request.handle;
              request.protocol.View() == Moved(e, h, Requests.Go(old(request.View()), index, Own(e, h, pause)), pause)
    {
      hide Requests.Go, Moved, Own, Views, RequestViews, RequestHandler.Structure, KnowsStarted;
      request.protocol.Placed(request);
      ghost var e, h, r := request.protocol.View(), request.handle, request.View();
      if !producing || request.cancelled || finished {
        GoSends(r, index, Own(e, h, pause));
        PutIsMoved(e, h, r, pause);
        PutSame(e, h);
        return;
      }
      Produce(pause);
    }

    method ResumeProducing(pause: bool)
      requires InPlace()
      modifies this, request`sent, request.fd, request.protocol`wire, request.protocol`producing
      modifies request.protocol.all`producing, request.protocol.pumps`producing
      ensures request.protocol.Structure()
      ensures var e, h, r := old(request.protocol.View()), request.handle, old(request.View());
              var on := SetProducer(r, index, r.producers[index].(producing := true));
              request.protocol.View() == Moved(e, h, Requests.Go(on, index, Own(e, h, pause)), pause)
    {
      hide Requests.Go, Moved, Own, Views, RequestViews, RequestHandler.Structure, KnowsStarted;
      request.protocol.Placed(request);
      ghost var e, h, r := request.protocol.View(), request.handle, request.View();
      producing := true;
      ghost var on := SetProducer(r, index, r.producers[index].(producing := true));
      OneChanged(request, this, r);
      request.protocol.Touched(request);
      Go(pause);
      PutMoved(e, h, on, Requests.Go(on, index, Own(e, h, pause)), pause);
    }

    /** The reactor takes a scheduled call off its queue. */
    method TakeCall()
      requires InPlace() && calls > 0
      modifies this`calls
      ensures request.protocol.Structure()
      ensures var e, h, r := old(request.protocol.View()), request.handle, old(request.View());
              request.protocol.View() == Put(e, h, Taken(r, index))
    {
      hide Views, RequestViews, RequestHandler.Structure, KnowsStarted;
      request.protocol.Placed(request);
      ghost var r := request.View();
      calls := calls - 1;
      OneChanged(request, this, r);
      request.protocol.Touched(request);
    }

    /** A scheduled call. */
    method RunCall(pause: bool)
      requires InPlace() && calls > 0
      modifies this, request`sent, request.fd, request.protocol`wire, request.protocol`producing
      modifies request.protocol.all`producing, request.protocol.pumps`producing
      ensures request.protocol.Structure()
      ensures var e, h, r := old(request.protocol.View()), request.handle, old(request.View());
              request.protocol.View() == Moved(e, h, Requests.Go(Taken(r, index), index, Own(e, h, pause)), pause)
    {
      hide Requests.Go, Moved, Own, Views, RequestViews, RequestHandler.Structure, KnowsStarted;
      request.protocol.Placed(request);
      ghost var e, h, r := request.protocol.View(), request.handle, request.View();
      PutMoved(e, h, Taken(r, index), Requests.Go(Taken(r, index), index, Own(e, h, pause)), pause);
      TakeCall();
      request.protocol.Placed(request);
      Go(pause);
    }
  }

  /** `del requests[id]`. */
  function Deleted(requests: seq<Item>, id: nat): (rest: seq<Item>)
    ensures forall i :: 0 <= i < |rest| ==> rest[i] in requests && rest[i].id != id
  {
    if requests == [] then []
    else
      var rest := Deleted(requests[1..], id);
      if requests[0].id == id then rest else [requests[0]] + rest
  }

  /** What `_start` does on the connection. */
  function Exchanged(e: Handler, h: nat, pause: bool): Handler
    requires h < |e.all| && e.all[h].id.Some?
  {
    var spoken := Emit(e, h, Opening(e.all[h].kind), pause);
    if e.all[h].kind.OneWay? then Moved(spoken, h, Finish(spoken.all[h], Succeeded), false) else spoken
  }

  function Enrolled(e: Handler, h: nat): (e': Handler)
    requires h < |e.all|
    ensures |e'.all| == |e.all| && e'.all[h].id.Some?
  {
    var r := if e.producing then e.all[h].(producing := true) else e.all[h];
    Put(Joining(e, h), h, r.(id := Some(e.counter), started := true))
  }

  lemma StepStarted(e: Handler, h: nat, pause: bool)
    requires h < |e.all| && !e.all[h].started && !e.all[h].finished
    ensures Step(e, Started(h, pause))
            == Moved(Joining(e, h), h, Apply(e.all[h], DoStart(e.counter, e.producing, pause)), pause)
  {
    hide Moved, Apply;
  }

  lemma Joined(e: Handler, h: nat, before: Req)
    requires h < |e.all| && KnowsStarted(e) && before.started
    ensures Joining(e, h).all == e.all && KnowsStarted(Put(Joining(e, h), h, before))
    ensures forall pause :: Own(Joining(e, h), h, pause) == pause
  {
    var added := Joining(e, h);
    assert added.requests[|e.requests|].handle == h;
    forall g | 0 <= g < |e.all| && Registered(Put(added, h, before), g) && g != h ensures e.all[g].started {
      var i :| 0 <= i < |added.requests| && added.requests[i].handle == g;
      assert e.requests[i].handle == g;
      assert Registered(e, g);
    }
  }

  /** `start` on the values, for a request that has no byte producer yet. */
  lemma StartedIs(r: Req, id: nat, producing: bool, pause: bool)
    requires r.producers == [] && !r.started && !r.finished
    ensures var before := (if producing then r.(producing := true) else r).(id := Some(id), started := true);
            var opening := Interrupted(Send(before, Opening(r.kind)), pause);
            Apply(r, DoStart(id, producing, pause))
            == if r.kind.OneWay? then Finish(opening, Succeeded) else opening
  {
    hide Interrupted;
  }

  /** `start`, from `addProducer` to the end of `_start`, is one move. */
  lemma StartIsMoved(e: Handler, h: nat, pause: bool)
    requires h < |e.all| && !e.all[h].started && !e.all[h].finished && KnowsStarted(e)
    requires e.all[h].producers == [] && e.all[h].sent == [] && e.all[h].id == None
    ensures Exchanged(Enrolled(e, h), h, pause) == Step(e, Started(h, pause))
  {
    hide Moved, Emit, KnowsStarted, Interrupted, Step, Joining, Own;
    var added := Joining(e, h);
    var r := if e.producing then e.all[h].(producing := true) else e.all[h];
    var before := r.(id := Some(e.counter), started := true);
    Joined(e, h, before);
    var opening := Interrupted(Send(before, Opening(r.kind)), pause);
    OpeningIsMoved(added, h, before, Opening(r.kind), pause);
    MovedAt(added, h, opening, pause);
    if r.kind.OneWay? {
      MovedFinished(added, h, opening, Finish(opening, Succeeded), pause);
    }
    StartedIs(e.all[h], e.counter, e.producing, pause);
    StepStarted(e, h, pause);
  }

  /** What ends a transfer. */
  function Result(r: Req, b: Body): Req
  {
    match b
    case Ok => Finish(r, Succeeded)
    case Cancelled => Finish(r, Failed(CancelledByPeer))
    case _ => Reject(r, b)
  }

  /** The end of a download, on the connection. */
  lemma DownloadEnds(e: Handler, h: nat)
    requires h < |e.all|
    ensures var r := e.all[h];
            var ended := if r.cancelled then r else r.(data := Some(Concat(r.parts)));
            Moved(Put(e, h, ended), h, Finish(ended, Succeeded), false) == Moved(e, h, ReceiveDownload(r, Eof), false)
            && (r.cancelled ==> Put(e, h, ended) == e)
  {
    hide Moved, Concat;
    var r := e.all[h];
    var ended := if r.cancelled then r else r.(data := Some(Concat(r.parts)));
    PutMoved(e, h, ended, Finish(ended, Succeeded), false);
    PutSame(e, h);
  }

  /** A new request, on the connection. */
  lemma CreatedInv(e: Handler, kind: Kind, file: seq<byte>, maxPayload: nat, position: nat)
    requires Multiplexer.Inv(e) && ProperKind(kind)
    ensures var e' := e.(all := e.all + [New(kind, file, maxPayload, position)]);
            e' == Step(e, Created(kind, file, maxPayload, position)) && Multiplexer.Inv(e')
  {
    hide Multiplexer.Inv;
    StepKeepsInv(e, Created(kind, file, maxPayload, position));
  }

  /** The replies to a download that change nothing, and those that end it. */
  lemma DownloadReply(r: Req, b: Body)
    ensures b.NodeAttr? ==> ReceiveDownload(r, b) == r
    ensures !b.NodeAttr? && !b.Bytes? && !b.Eof? ==> ReceiveDownload(r, b) == Result(r, b)
  {
  }

  /** A new byte producer and its first `go` call are one move. */
  lemma RegisteredIsMoved(e: Handler, h: nat, r: Req, pause: bool)
    requires h < |e.all| && r.producers != [] && r.sent == e.all[h].sent && r.finished == e.all[h].finished
    ensures Moved(e, h, r, pause) == Put(e, h, r)
    ensures var k := |r.producers| - 1;
            var on := SetProducer(r, k, r.producers[k].(producing := true));
            Moved(Put(e, h, r), h, Go(on, k, Own(Put(e, h, r), h, pause)), pause)
            == Moved(e, h, ResumeProducer(r, Own(e, h, pause)), pause)
  {
    hide Go, Moved, Own;
    PutIsMoved(e, h, r, pause);
    PutMoved(e, h, r, ResumeProducer(r, Own(e, h, pause)), pause);
  }

  /** `handle` is the request's place among all requests of the connection, `producers` are all byte
      producers it ever had, `fired` the firings of its deferred and `sent` what it has written. */
  class Request {
    const protocol: RequestHandler
    const kind: Kind
    const fd: File
    const maxPayload: nat
    ghost const handle: nat
    var id: Option<nat>
    var producer: BytesMessageProducer?
    var started: bool
    var finished: bool
    var cancelled: bool
    var producing: bool
    var parts: seq<seq<byte>>
    var data: Option<seq<byte>>
    var states: seq<nat>
    ghost var producers: seq<BytesMessageProducer>
    ghost var fired: seq<Outcome>
    ghost var sent: seq<Body>

    ghost predicate Valid()
      reads this
    {
      && producer == (if producers == [] then null else producers[|producers| - 1])
      && (forall k :: 0 <= k < |producers| ==> producers[k].request == this && producers[k].index == k)
      && (producers != [] || started ==> id.Some?)
    }

    /** The objects whose state is the state of the request. */
    ghost function Parts(): set<object>
      reads this
    {
      {this, fd} + set p | p in producers
    }

    ghost function View(): Req
      reads this, Parts()
    {
      Req(kind, fd.content, maxPayload, fd.position, id, started, finished, cancelled, producing,
          Views(producers), parts, data, states, fired, sent)
    }

    ghost predicate InPlace()
      reads this, protocol, protocol.parts
    {
      this in protocol.all && protocol.Structure()
    }

    /** The request is not touched. */
    twostate predicate Still()
      reads this, Parts()
    {
      unchanged(this) && forall o :: o in Parts() ==> unchanged(o)
    }

    twostate lemma StillView()
      requires Still()
      ensures View() == old(View()) && Valid() == old(Valid())
    {
      assert fd in Parts();
      forall k | 0 <= k < |producers| ensures producers[k].View() == old(producers[k].View()) {
        assert producers[k] in Parts();
      }
      assert Views(producers) == old(Views(producers));
    }

    constructor (protocol: RequestHandler, kind: Kind, fd: File, maxPayload: nat)
      requires protocol.Valid() && ProperKind(kind)
      requires forall r :: r in protocol.all ==> r.fd != fd
      modifies protocol`all, protocol`parts
      ensures this in protocol.all && View() == New(kind, fd.content, maxPayload, fd.position)
      ensures protocol.Valid() && protocol.all == old(protocol.all) + [this]
      ensures protocol.View() == Step(old(protocol.View()), Created(kind, fd.content, maxPayload, fd.position))
    {
      this.protocol, this.kind, this.fd, this.maxPayload := protocol, kind, fd, maxPayload;
      id, producer := None, null;
      started, finished, cancelled, producing := false, false, false, false;
      parts, data, states := [], None, [];
      handle := |protocol.all|;
      producers, fired, sent := [], [], [];
      new;
      hide Multiplexer.Inv, Views, RequestViews, ProperKind, RequestHandler.Structure, Step;
      assert View() == New(kind, fd.content, maxPayload, fd.position) by {
        assert Views(producers) == [];
      }
      CreatedInv(protocol.View(), kind, fd.content, maxPayload, fd.position);
      hide Request.View, New;
      protocol.Admit(this);
    }

    method SendMessage(b: Body, pause: bool)
      requires InPlace() && id.Some?
      modifies this`sent, protocol`wire, protocol`producing, protocol.all`producing, protocol.pumps`producing
      ensures protocol.Structure()
      ensures protocol.View() == Emit(old(protocol.View()), handle, b, pause)
    {
      hide Views, RequestViews, RequestHandler.Structure, Write;
      protocol.Placed(this);
      sent := sent + [b];
      SameProducers(this);
      protocol.Touched(this);
      protocol.SendMessage(Message(id.value, b), pause);
    }

    method ResumeProducing(pause: bool)
      requires InPlace()
      modifies this`producing, this`sent, fd, producers, protocol`wire, protocol`producing
      modifies protocol.all`producing, protocol.pumps`producing
      ensures protocol.Structure()
      ensures var e := old(protocol.View());
              protocol.View() == Moved(e, handle, Resume(old(View()), Own(e, handle, pause)), pause)
    {
      hide Requests.Go, Moved, Own, Views, RequestViews, RequestHandler.Structure, KnowsStarted;
      protocol.Placed(this);
      ghost var e, r := protocol.View(), View();
      ghost var on := if producers == [] then r else ResumeProducer(r, Own(e, handle, pause));
      MovedAt(e, handle, on, pause);
      if producer != null {
        producer.ResumeProducing(pause);
      } else {
        PutIsMoved(e, handle, r, pause);
        PutSame(e, handle);
      }
      protocol.Placed(this);
      assert View() == on;
      label Resumed:
      producing := true;
      SameProducers@Resumed(this);
      protocol.Touched@Resumed(this);
      MovedPut(e, handle, on, on.(producing := true), pause);
    }

    /** `stopProducing` and `pauseProducing`. */
    method StopProducing()
      requires Valid()
      modifies this`producing, producers`producing
      ensures View() == Pause(old(View()))
    {
      hide Views;
      ghost var r := View();
      if producer != null {
        producer.StopProducing();
        OneChanged(this, producer, r);
      }
      producing := false;
    }

    /** The request is in the registry, under its id. */
    ghost predicate Registered()
      reads this, protocol
    {
      id.Some? && Item(id.value, this) in protocol.requests
    }

    /** Exactly this request leaves the registry, and with the last one the handler is no producer any more. */
    method Cleanup()
      requires Registered()
      modifies this`finished, this`started, protocol`requests, protocol`attached
      ensures finished && !started
      ensures protocol.requests == Deleted(old(protocol.requests), id.value)
      ensures protocol.attached == (old(protocol.attached) && protocol.requests != [])
    {
      finished, started := true, false;
      protocol.requests := Deleted(protocol.requests, id.value);
      protocol.RemoveProducer(this);
    }

    /** `done`. */
    method Done()
      requires InPlace() && Registered() && !finished
      modifies this`finished, this`started, this`fired, protocol`requests, protocol`attached
      ensures protocol.Structure()
      ensures protocol.View() == Moved(old(protocol.View()), handle, Finish(old(View()), Succeeded), false)
    {
      hide Views, RequestViews, RequestHandler.Structure, Moved, KnowsStarted, Deleted;
      protocol.Placed(this);
      Cleanup();
      fired := fired + [Succeeded];
      SameProducers(this);
      protocol.Completed(this);
    }

    method Error(reason: Reason)
      requires InPlace() && Registered() && !finished
      modifies this`finished, this`started, this`fired, protocol`requests, protocol`attached
      ensures protocol.Structure()
      ensures protocol.View() == Moved(old(protocol.View()), handle, Finish(old(View()), Failed(reason)), false)
      ensures protocol.requests == Deleted(old(protocol.requests), id.value)
    {
      hide Views, RequestViews, RequestHandler.Structure, Moved, KnowsStarted, Deleted;
      protocol.Placed(this);
      Cleanup();
      fired := fired + [Failed(reason)];
      SameProducers(this);
      protocol.Completed(this);
    }

    /** `_default_process_message`. */
    method DefaultProcessMessage(b: Body)
      requires InPlace() && Registered() && !finished
      modifies this`finished, this`started, this`fired, protocol`requests, protocol`attached
      ensures protocol.Structure()
      ensures protocol.View() == Moved(old(protocol.View()), handle, Reject(old(View()), b), false)
    {
      Error(if b == Body.Error then PeerError else UnexpectedReply);
    }

    method ProcessExchangeReply(b: Body)
      requires InPlace() && Registered() && !finished && kind.Exchange?
      modifies this`finished, this`started, this`fired, protocol`requests, protocol`attached
      ensures protocol.Structure()
      ensures protocol.View() == Moved(old(protocol.View()), handle, Receive(old(View()), b, false), false)
    {
      hide Moved, Views, RequestViews, RequestHandler.Structure;
      protocol.Placed(this);
      if b == kind.answer {
        Done();
      } else {
        DefaultProcessMessage(b);
      }
    }

    method AddState(node: nat)
      requires InPlace()
      modifies this`states
      ensures protocol.Structure()
      ensures var r := old(View());
              protocol.View() == Put(old(protocol.View()), handle, r.(states := r.states + [node]))
    {
      hide Views, RequestViews, RequestHandler.Structure, KnowsStarted;
      protocol.Placed(this);
      states := states + [node];
      SameProducers(this);
      protocol.Touched(this);
    }

    method AddPart(part: seq<byte>)
      requires InPlace()
      modifies this`parts
      ensures protocol.Structure()
      ensures var r := old(View()); protocol.View() == Put(old(protocol.View()), handle, r.(parts := r.parts + [part]))
    {
      hide Views, RequestViews, RequestHandler.Structure, KnowsStarted;
      protocol.Placed(this);
      parts := parts + [part];
      SameProducers(this);
      protocol.Touched(this);
    }

    method Assemble()
      requires InPlace()
      modifies this`data
      ensures protocol.Structure()
      ensures var r := old(View());
              protocol.View() == Put(old(protocol.View()), handle, r.(data := Some(Concat(r.parts))))
    {
      hide Views, RequestViews, RequestHandler.Structure, KnowsStarted, Concat;
      protocol.Placed(this);
      data := Some(Concat(parts));
      SameProducers(this);
      protocol.Touched(this);
    }

    method CollectState(node: nat)
      requires InPlace()
      modifies this`states
      ensures protocol.Structure()
      ensures protocol.View() == Moved(old(protocol.View()), handle, ReceiveLookup(old(View()), NodeState(node)), false)
    {
      hide Moved, Views, RequestViews, RequestHandler.Structure, KnowsStarted;
      protocol.Placed(this);
      ghost var r := View();
      PutIsMoved(protocol.View(), handle, r.(states := r.states + [node]), false);
      AddState(node);
    }

    method ProcessQueryReply(b: Body)
      requires InPlace() && Registered() && !finished && kind.Lookup?
      modifies this`states, this`finished, this`started, this`fired, protocol`requests, protocol`attached
      ensures protocol.Structure()
      ensures protocol.View() == Moved(old(protocol.View()), handle, ReceiveLookup(old(View()), b), false)
    {
      hide Moved, Views, RequestViews, RequestHandler.Structure, KnowsStarted, Finish, Reject;
      match b
      case NodeState(node) => CollectState(node);
      case QueryEnd => Done();
      case _ => DefaultProcessMessage(b);
    }

    /** The replies that end a transfer. */
    method ProcessResult(b: Body)
      requires InPlace() && Registered() && !finished
      modifies this`finished, this`started, this`fired, protocol`requests, protocol`attached
      ensures protocol.Structure()
      ensures protocol.View() == Moved(old(protocol.View()), handle, Result(old(View()), b), false)
    {
      hide Moved, Views, RequestViews, RequestHandler.Structure, KnowsStarted, Finish, Reject;
      if b.Ok? {
        Done();
      } else if b.Cancelled? {
        Error(CancelledByPeer);
      } else {
        DefaultProcessMessage(b);
      }
    }

    /** A reply that changes nothing. */
    lemma Kept()
      requires InPlace()
      ensures protocol.Structure() && protocol.View() == Moved(protocol.View(), handle, View(), false)
    {
      hide Moved, Views, RequestViews, RequestHandler.Structure, KnowsStarted;
      protocol.Placed(this);
      PutIsMoved(protocol.View(), handle, View(), false);
      PutSame(protocol.View(), handle);
    }

    /** BYTES; for a cancelled download they are of no use any more. */
    method CollectPart(part: seq<byte>)
      requires InPlace() && kind.Download?
      modifies this`parts
      ensures protocol.Structure()
      ensures protocol.View() == Moved(old(protocol.View()), handle, ReceiveDownload(old(View()), Bytes(part)), false)
    {
      hide Moved, Views, RequestViews, RequestHandler.Structure, KnowsStarted;
      if cancelled {
        Kept();
      } else {
        protocol.Placed(this);
        ghost var r := View();
        PutIsMoved(protocol.View(), handle, r.(parts := r.parts + [part]), false);
        AddPart(part);
      }
    }

    /** EOF; for a cancelled download the cancellation came too late. */
    method EndDownload()
      requires InPlace() && Registered() && !finished && kind.Download?
      modifies this`data, this`finished, this`started, this`fired, protocol`requests, protocol`attached
      ensures protocol.Structure()
      ensures protocol.View() == Moved(old(protocol.View()), handle, ReceiveDownload(old(View()), Eof), false)
    {
      hide Moved, Views, RequestViews, RequestHandler.Structure, Concat, KnowsStarted, Finish, ReceiveDownload, Put;
      protocol.Placed(this);
      DownloadEnds(protocol.View(), handle);
      if !cancelled {
        Assemble();
        protocol.Placed(this);
      }
      Done();
    }

    method ProcessDownloadReply(b: Body)
      requires InPlace() && Registered() && !finished && kind.Download?
      modifies this`parts, this`data, this`finished, this`started, this`fired, protocol`requests, protocol`attached
      ensures protocol.Structure()
      ensures protocol.View() == Moved(old(protocol.View()), handle, ReceiveDownload(old(View()), b), false)
    {
      DownloadReply(View(), b);
      hide *;
      match b
      case NodeAttr => Kept();
      case Bytes(d) => CollectPart(d);
      case Eof => EndDownload();
      case _ => ProcessResult(b);
    }

    /** `registerProducer` without its last two lines. */
    method AppendProducer(producer: BytesMessageProducer)
      requires InPlace() && id.Some?
      requires producer.request == this && producer.index == |producers| && producer !in protocol.parts
      modifies this`producer, this`producers, protocol`pumps, protocol`parts
      ensures protocol.Structure()
      ensures producers == old(producers) + [producer] && protocol.pumps == old(protocol.pumps) + {producer}
      ensures var e, r := old(protocol.View()), old(View());
              protocol.View() == Put(e, handle, r.(producers := r.producers + [producer.View()]))
    {
      hide Views, RequestViews, RequestHandler.Structure, KnowsStarted;
      protocol.Placed(this);
      ghost var r := View();
      this.producer, producers := producer, producers + [producer];
      protocol.pumps, protocol.parts := protocol.pumps + {producer}, protocol.parts + {producer};
      assert Views(producers) == r.producers + [producer.View()];
      protocol.Extended(this, producer);
    }

    method RegisterProducer(producer: BytesMessageProducer, pause: bool)
      requires InPlace() && id.Some?
      requires producer.request == this && producer.index == |producers| && producer !in protocol.parts
      modifies this`producer, this`producers, this`producing, this`sent, fd, producer
      modifies protocol`wire, protocol`producing, protocol`pumps, protocol`parts
      modifies protocol.all`producing, protocol.pumps`producing
      ensures protocol.Structure()
      ensures var e, r := old(protocol.View()), old(View());
              var registered := r.(producers := r.producers + [old(producer.View())]);
              var r' := if r.producing then ResumeProducer(registered, Own(e, handle, pause)) else registered;
              protocol.View() == Moved(e, handle, r', pause)
    {
      hide Requests.Go, Moved, Own, Views, RequestViews, RequestHandler.Structure, KnowsStarted;
      protocol.Placed(this);
      ghost var e, r := protocol.View(), View();
      ghost var registered := r.(producers := r.producers + [producer.View()]);
      RegisteredIsMoved(e, handle, registered, pause);
      hide ResumeProducer, Put;
      AppendProducer(producer);
      if producing {
        protocol.Placed(this);
        producer.ResumeProducing(pause);
      }
    }

    method BeginContent(offset: nat, pause: bool)
      requires InPlace() && id.Some?
      modifies this`producer, this`producers, this`producing, this`sent, fd
      modifies protocol`wire, protocol`producing, protocol`pumps, protocol`parts
      modifies protocol.all`producing, protocol.pumps`producing
      ensures protocol.Structure()
      ensures var e := old(protocol.View());
              protocol.View() == Moved(e, handle, Begin(old(View()), offset, Own(e, handle, pause)), pause)
    {
      hide ResumeProducer, Moved, Own, Views, RequestViews, RequestHandler.Structure, KnowsStarted;
      protocol.Placed(this);
      var producer := new BytesMessageProducer(this, offset, |producers|);
      RegisterProducer(producer, pause);
    }

    method ProcessUploadReply(b: Body, pause: bool)
      requires InPlace() && Registered() && !finished && kind.Upload?
      modifies this`producer, this`producers, this`producing, this`sent, fd
      modifies this`finished, this`started, this`fired, protocol`requests, protocol`attached
      modifies protocol`wire, protocol`producing, protocol`pumps, protocol`parts
      modifies protocol.all`producing, protocol.pumps`producing
      ensures protocol.Structure()
      ensures var e := old(protocol.View());
              protocol.View() == Moved(e, handle, ReceiveUpload(old(View()), b, Own(e, handle, pause)), pause)
    {
      hide Begin, Moved, Own, Views, RequestViews, RequestHandler.Structure, KnowsStarted, Finish, Reject;
      protocol.Placed(this);
      if b.BeginContent? {
        BeginContent(b.offset, pause);
      } else {
        ghost var e, r := protocol.View(), View();
        QuietMoved(e, handle, ReceiveUpload(r, b, false), pause);
        ProcessResult(b);
      }
    }

    method ProcessMessage(b: Body, pause: bool)
      requires InPlace() && Registered() && !finished
      modifies this`states, this`parts, this`data, this`producer, this`producers, this`producing, this`sent, fd
      modifies this`finished, this`started, this`fired, protocol`requests, protocol`attached
      modifies protocol`wire, protocol`producing, protocol`pumps, protocol`parts
      modifies protocol.all`producing, protocol.pumps`producing
      ensures protocol.Structure()
      ensures var e := old(protocol.View());
              protocol.View() == Moved(e, handle, Receive(old(View()), b, Own(e, handle, pause)), pause)
    {
      hide ReceiveDownload, ReceiveLookup, ReceiveUpload, Moved, Own, Views, RequestViews, RequestHandler.Structure;
      hide KnowsStarted, Finish, Reject;
      protocol.Placed(this);
      ghost var e, r := protocol.View(), View();
      match kind
      case OneWay =>
        PutIsMoved(e, handle, r, pause);
        PutSame(e, handle);
      case Exchange(_, _) =>
        QuietMoved(e, handle, Receive(r, b, false), pause);
        ProcessExchangeReply(b);
      case Lookup =>
        QuietMoved(e, handle, ReceiveLookup(r, b), pause);
        ProcessQueryReply(b);
      case Download =>
        QuietMoved(e, handle, ReceiveDownload(r, b), pause);
        ProcessDownloadReply(b);
      case Upload =>
        ProcessUploadReply(b, pause);
    }

    /** `_cancel` of the request classes that have one. */
    method CancelTransfer(pause: bool)
      requires InPlace() && id.Some? && (kind.Upload? || kind.Download?)
      modifies this`sent, producers`producing, protocol`wire, protocol`producing
      modifies protocol.all`producing, protocol.pumps`producing
      ensures protocol.Structure()
      ensures var e, r := old(protocol.View()), old(View());
              var stopped := if kind.Upload? then StopProducer(r) else r;
              protocol.View()
              == Moved(e, handle, Interrupted(Send(stopped, CancelRequest), Own(e, handle, pause)), pause)
    {
      hide Moved, Own, Views, RequestViews, RequestHandler.Structure, KnowsStarted, Interrupted, Emit;
      protocol.Placed(this);
      ghost var e, r := protocol.View(), View();
      ghost var stopped := if kind.Upload? then StopProducer(r) else r;
      PutSame(e, handle);
      if kind.Upload? && producer != null {
        producer.StopProducing();
        OneChanged(this, producer, r);
        protocol.Touched(this);
      }
      WrittenIsMoved(e, handle, stopped, CancelRequest, pause);
      SendMessage(CancelRequest, pause);
    }

    method Cancel(pause: bool)
      requires InPlace()
      modifies this`cancelled, this`sent, producers`producing, protocol`wire, protocol`producing
      modifies protocol.all`producing, protocol.pumps`producing
      ensures protocol.Structure()
      ensures var e := old(protocol.View());
              protocol.View() == Moved(e, handle, Requests.Cancel(old(View()), Own(e, handle, pause)), pause)
    {
      hide Moved, Own, Views, RequestViews, RequestHandler.Structure, KnowsStarted, StopProducer, Interrupted;
      protocol.Placed(this);
      ghost var e, r := protocol.View(), View();
      if finished {
        PutIsMoved(e, handle, r, pause);
        PutSame(e, handle);
        return;
      }
      var cancellable := started && !cancelled;
      cancelled := true;
      SameProducers(this);
      protocol.Touched(this);
      PutIsMoved(e, handle, r.(cancelled := true), pause);
      if cancellable && (kind.Upload? || kind.Download?) {
        PutMoved(e, handle, r.(cancelled := true), Requests.Cancel(r, Own(e, handle, pause)), pause);
        CancelTransfer(pause);
      }
    }

    /** `stopProducing` and `cancel` of a request whose connection is lost. */
    method Halt(pause: bool)
      requires InPlace() && started
      modifies this`producing, this`cancelled, this`sent, producers`producing, protocol`wire, protocol`producing
      modifies protocol.all`producing, protocol.pumps`producing
      ensures protocol.Structure()
      ensures var e := old(protocol.View());
              var halted := Requests.Cancel(Pause(old(View())), Own(e, handle, pause));
              protocol.View() == Moved(e, handle, halted, pause)
    {
      hide Requests.Cancel, Moved, Own, Views, RequestViews, RequestHandler.Structure, KnowsStarted;
      protocol.Placed(this);
      ghost var e, r := protocol.View(), View();
      StopProducing();
      protocol.Touched(this);
      PutMoved(e, handle, Pause(r), Requests.Cancel(Pause(r), Own(e, handle, pause)), pause);
      if started {
        Cancel(pause);
      }
    }

    /** The body of the loop of `connectionLost`. */
    method Abort(pause: bool)
      requires InPlace() && Registered() && started && !finished
      modifies this`producing, this`cancelled, this`sent, producers`producing, protocol`wire, protocol`producing
      modifies protocol.all`producing, protocol.pumps`producing
      modifies this`finished, this`started, this`fired, protocol`requests, protocol`attached
      ensures protocol.Structure() && protocol.requests == Deleted(old(protocol.requests), id.value)
      ensures var e := old(protocol.View());
              var halted := Requests.Cancel(Pause(old(View())), Own(e, handle, pause));
              protocol.View()
              == Moved(Moved(e, handle, halted, pause), handle, Finish(halted, Failed(Reason.ConnectionLost)), false)
    {
      hide Requests.Cancel, Moved, Own, Views, RequestViews, RequestHandler.Structure, KnowsStarted, Pause, Finish;
      hide Deleted;
      protocol.Placed(this);
      ghost var e := protocol.View();
      MovedAt(e, handle, Requests.Cancel(Pause(View()), Own(e, handle, pause)), pause);
      Halt(pause);
      protocol.Placed(this);
      Error(Reason.ConnectionLost);
    }

    /** `addProducer` for a request without a byte producer. */
    method Join()
      requires InPlace() && View().producers == []
      modifies this`producing, this`sent, fd, producers, protocol`attached, protocol`wire, protocol`producing
      modifies protocol.all`producing, protocol.pumps`producing
      ensures protocol.Structure() && protocol.attached
      ensures var e, r := old(protocol.View()), old(View());
              protocol.View() == Put(e.(attached := true), handle, if e.producing then r.(producing := true) else r)
    {
      hide Views, RequestViews, RequestHandler.Structure, Moved, Own, KnowsStarted;
      protocol.Placed(this);
      ghost var e, r := protocol.View(), View();
      if protocol.requests != [] {
        protocol.Attached();
      }
      PutSame(e.(attached := true), handle);
      PutIsMoved(e.(attached := true), handle, r.(producing := true), false);
      protocol.AddProducer(this, false);
    }

    /** The id, the registry and the flag. */
    method Enlist()
      requires InPlace() && !started && !finished && id == None && protocol.attached
      requires forall x :: x in protocol.requests ==> x.id < protocol.requestCounter
      modifies this`id, this`started, protocol`requestCounter, protocol`requests
      ensures protocol.Structure() && Registered() && started
      ensures var e := old(protocol.View());
              protocol.View()
              == Put(Joining(e, handle), handle,
                     old(View()).(id := Some(e.counter), started := true))
    {
      hide Views, RequestViews, RequestHandler.Structure;
      protocol.Placed(this);
      var newId := protocol.GetNewRequestId();
      id := Some(newId);
      protocol.requests := protocol.requests + [Item(newId, this)];
      started := true;
      SameProducers(this);
      protocol.Enlisted(this);
    }

    /** `start` up to the call of `_start`. */
    method Enroll()
      requires InPlace() && View().producers == [] && !started && !finished && id == None
      requires forall x :: x in protocol.requests ==> x.id < protocol.requestCounter
      modifies this`id, this`started, this`producing, this`sent, fd, producers
      modifies protocol`requestCounter, protocol`requests, protocol`attached, protocol`wire, protocol`producing
      modifies protocol.all`producing, protocol.pumps`producing
      ensures protocol.Structure() && Registered() && !finished
      ensures protocol.View() == Enrolled(old(protocol.View()), handle)
    {
      hide Views, RequestViews, RequestHandler.Structure, KnowsStarted;
      protocol.Placed(this);
      ghost var e, r := protocol.View(), View();
      Join();
      protocol.Placed(this);
      ghost var joined := View();
      Enlist();
      PutPut(e, handle, joined, joined.(id := Some(e.counter), started := true));
    }

    /** `_start` of the request classes. */
    method StartExchange(pause: bool)
      requires InPlace() && Registered() && !finished
      modifies this`sent, this`finished, this`started, this`fired, protocol`requests, protocol`attached
      modifies protocol`wire, protocol`producing, protocol.all`producing, protocol.pumps`producing
      ensures protocol.Structure()
      ensures protocol.View() == Exchanged(old(protocol.View()), handle, pause)
    {
      hide Views, RequestViews, RequestHandler.Structure, KnowsStarted, Emit, Moved;
      protocol.Placed(this);
      SendMessage(Opening(kind), pause);
      protocol.Placed(this);
      if kind.OneWay? {
        Done();
      }
    }

    method Start(pause: bool)
      requires this in protocol.all && protocol.Valid() && !started && !finished
      modifies this`id, this`started, this`producing, this`sent, this`finished, this`fired, fd, producers
      modifies protocol`requestCounter, protocol`requests, protocol`attached, protocol`wire, protocol`producing
      modifies protocol.all`producing, protocol.pumps`producing
      ensures protocol.Valid() && protocol.View() == Step(old(protocol.View()), Started(handle, pause))
    {
      hide Multiplexer.Inv, Views, RequestViews, RequestHandler.Structure, KnowsStarted, Step, Exchanged, Enrolled;
      protocol.Placed(this);
      protocol.Unstarted(this);
      StepKeepsInv(protocol.View(), Started(handle, pause));
      StartIsMoved(protocol.View(), handle, pause);
      Enroll();
      StartExchange(pause);
    }
  }

  // The registry: a dictionary in insertion order

  datatype Item = Item(id: nat, request: Request)

  ghost function Entries(requests: seq<Item>): (entries: seq<Entry>)
    ensures |entries| == |requests|
    ensures forall i :: 0 <= i < |requests| ==> entries[i] == Entry(requests[i].id, requests[i].request.handle)
  {
    seq(|requests|, i requires 0 <= i < |requests| => Entry(requests[i].id, requests[i].request.handle))
  }

  /** Where `requests[id]` is. */
  function Position(requests: seq<Item>, id: nat): (i: Option<nat>)
    ensures i == Find(Entries(requests), id)
    ensures i.Some? ==> i.value < |requests| && requests[i.value].id == id
  {
    if requests == [] then None
    else if requests[0].id == id then Some(0)
    else
      assert Entries(requests)[1..] == Entries(requests[1..]);
      match Position(requests[1..], id)
      case None => None
      case Some(i) => Some(i + 1)
  }

  lemma {:induction false} NoneDeleted(requests: seq<Item>, id: nat)
    requires forall i :: 0 <= i < |requests| ==> requests[i].id != id
    ensures Deleted(requests, id) == requests
  {
    if requests != [] {
      NoneDeleted(requests[1..], id);
    }
  }

  ghost predicate DistinctIds(requests: seq<Item>)
  {
    forall i, j :: 0 <= i < j < |requests| ==> requests[i].id != requests[j].id
  }

  lemma {:induction false} DeletedDistinct(requests: seq<Item>, id: nat)
    requires DistinctIds(requests)
    ensures DistinctIds(Deleted(requests, id))
  {
    if requests != [] {
      var rest := Deleted(requests[1..], id);
      DeletedDistinct(requests[1..], id);
      forall j | 0 <= j < |rest| ensures rest[j].id != requests[0].id {
        assert rest[j] in requests[1..];
      }
    }
  }

  lemma EntriesCons(first: Item, rest: seq<Item>)
    ensures Entries([first] + rest) == [Entry(first.id, first.request.handle)] + Entries(rest)
  {
  }

  lemma EntriesSnoc(rest: seq<Item>, last: Item)
    ensures Entries(rest + [last]) == Entries(rest) + [Entry(last.id, last.request.handle)]
  {
  }

  lemma {:induction false} DeletedEntries(requests: seq<Item>, id: nat, handle: nat)
    requires forall x :: x in requests ==> (x.id == id <==> x.request.handle == handle)
    ensures Entries(Deleted(requests, id)) == Multiplexer.Without(Entries(requests), handle)
  {
    if requests != [] {
      var first, rest := requests[0], requests[1..];
      var kept := Deleted(rest, id);
      DeletedEntries(rest, id, handle);
      hide Entries;
      EntriesCons(first, rest);
      EntriesCons(first, kept);
      assert requests == [first] + rest;
      assert Entries(requests)[1..] == Entries(rest);
    }
  }

  lemma OnlyItem(requests: seq<Item>, x: Item, y: Item)
    requires DistinctIds(requests) && x in requests && y in requests && x.id == y.id
    ensures x == y
  {
  }

  /** The loop of `pauseProducing`, one request at a time. */
  ghost function PauseEach(e: Handler, entries: seq<Entry>): Handler
    decreases |entries|
  {
    if entries == [] then e
    else
      var h := entries[0].handle;
      PauseEach(if h < |e.all| then Put(e, h, Apply(e.all[h], DoPause)) else e, entries[1..])
  }

  ghost predicate Listed(entries: seq<Entry>, h: nat)
  {
    exists i :: 0 <= i < |entries| && entries[i].handle == h
  }

  ghost function HandlesOf(requests: seq<Item>, ids: set<nat>): set<nat>
  {
    set i | 0 <= i < |requests| && requests[i].id in ids :: requests[i].request.handle
  }

  /** On a connection that keeps the invariant, a pause reaches exactly the started requests. */
  lemma OwnIff(e: Handler, h: nat, pause: bool)
    requires Multiplexer.Inv(e) && h < |e.all|
    ensures Own(e, h, pause) <==> pause && e.all[h].started
  {
    if Multiplexer.Registered(e, h) {
      var i :| 0 <= i < |e.requests| && e.requests[i].handle == h;
    }
  }

  /** One reply, on the connection. */
  lemma ReceiveIsMove(e: Handler, h: nat, b: Body, pause: bool)
    requires Multiplexer.Inv(e) && h < |e.all| && e.all[h].started
    ensures Moved(e, h, Receive(e.all[h], b, Own(e, h, pause)), pause) == Move(e, h, DoReceive(b, pause), pause)
  {
    hide Multiplexer.Inv, Own, Moved, Receive;
    OwnIff(e, h, pause);
  }

  /** One turn of the loop of `resumeProducing`, on the connection. */
  lemma ResumeIsMove(e: Handler, h: nat, pause: bool)
    requires Multiplexer.Inv(e) && h < |e.all| && e.all[h].started
    ensures var e' := Moved(e, h, Resume(e.all[h], Own(e, h, pause)), pause);
            e' == Move(e, h, DoResume(pause), pause) && Multiplexer.Inv(e')
  {
    MoveInv(e, h, DoResume(pause), pause);
    OwnIff(e, h, pause);
    hide Multiplexer.Inv, Own, Moved, Resume;
  }

  /** A scheduled call, on the connection. */
  lemma CallIsMove(e: Handler, h: nat, k: nat, pause: bool)
    requires Multiplexer.Inv(e) && h < |e.all| && k < |e.all[h].producers| && e.all[h].producers[k].calls > 0
    ensures var e' := Moved(e, h, Go(Taken(e.all[h], k), k, Own(e, h, pause)), pause);
            e' == Step(e, GoDue(h, k, pause)) && Multiplexer.Inv(e')
  {
    MoveInv(e, h, DoGo(k, pause && e.all[h].started), pause);
    OwnIff(e, h, pause);
    hide Multiplexer.Inv, Own, Moved, Go;
  }

  /** Only a started request writes when it is cancelled. */
  lemma CancelOwn(r: Req, pause: bool)
    ensures Apply(r, DoCancel(pause)) == Requests.Cancel(r, pause && r.started)
  {
  }

  /** A cancellation, on the connection. */
  lemma CancelIsMove(e: Handler, h: nat, pause: bool)
    requires Multiplexer.Inv(e) && h < |e.all|
    ensures var e' := Moved(e, h, Requests.Cancel(e.all[h], Own(e, h, pause)), pause);
            e' == Step(e, UserCancelled(h, pause)) && Multiplexer.Inv(e')
  {
    MoveInv(e, h, DoCancel(pause), pause);
    OwnIff(e, h, pause);
    CancelOwn(e.all[h], pause);
    hide Multiplexer.Inv, Own, Moved, Apply, Requests.Cancel;
  }

  /** One turn of the loop of `connectionLost`, on the connection: stop and cancel, then fail. */
  lemma LoseIsMove(e: Handler, h: nat, pause: bool)
    requires Multiplexer.Inv(e) && h < |e.all| && e.all[h].started
    ensures var halted := Requests.Cancel(Pause(e.all[h]), Own(e, h, pause));
            var e' := Moved(Moved(e, h, halted, pause), h, Finish(halted, Failed(ConnectionLost)), false);
            e' == Move(e, h, DoLose(pause), pause) && Multiplexer.Inv(e') && !e.all[h].finished
  {
    MoveInv(e, h, DoLose(pause), pause);
    InvOf(e, h);
    OwnIff(e, h, pause);
    var r := e.all[h];
    CancelKeepsStarted(Pause(r), pause);
    hide Multiplexer.Inv, Moved, Own, Requests.Cancel;
    var halted := Requests.Cancel(Pause(r), pause);
    MovedFinished(e, h, halted, Finish(halted, Failed(ConnectionLost)), pause);
  }

  lemma PauseTwice(r: Req)
    ensures Apply(Apply(r, DoPause), DoPause) == Apply(r, DoPause)
  {
  }

  lemma ListedCons(entries: seq<Entry>, h: nat)
    requires entries != []
    ensures Listed(entries, h) <==> h == entries[0].handle || Listed(entries[1..], h)
  {
    if h == entries[0].handle {
      assert Listed(entries, h);
    } else if Listed(entries, h) {
      var i :| 0 <= i < |entries| && entries[i].handle == h;
      assert entries[1..][i - 1].handle == h;
    }
  }

  lemma {:induction false} PauseEachAll(e: Handler, entries: seq<Entry>)
    ensures var e' := PauseEach(e, entries);
            |e'.all| == |e.all| && e' == e.(all := e'.all)
            && forall h :: 0 <= h < |e.all| ==>
                 e'.all[h] == if Listed(entries, h) then Apply(e.all[h], DoPause) else e.all[h]
    decreases |entries|
  {
    hide Apply;
    if entries != [] {
      var g := entries[0].handle;
      var e1 := if g < |e.all| then Put(e, g, Apply(e.all[g], DoPause)) else e;
      if g < |e.all| { PauseTwice(e.all[g]); }
      PauseEachAll(e1, entries[1..]);
      forall h | 0 <= h < |e.all| ensures Listed(entries, h) <==> h == g || Listed(entries[1..], h) {
        ListedCons(entries, h);
      }
    }
  }

  lemma FirstPaused(e: Handler, entries: seq<Entry>)
    requires entries != [] && entries[0].handle < |e.all|
    ensures var h := entries[0].handle;
            PauseEach(e, entries) == PauseEach(Put(e, h, Apply(e.all[h], DoPause)), entries[1..])
  {
    hide Apply;
  }

  lemma NonePaused(e: Handler)
    ensures PauseEach(e, []) == e
  {
  }

  /** Pausing the registered requests one after the other pauses them all. */
  lemma PauseEachIsAll(e: Handler)
    ensures PauseEach(e, e.requests).(producing := false) == PauseAll(e, None)
  {
    hide Apply, PauseEach;
    PauseEachAll(e, e.requests);
    assert forall h :: 0 <= h < |e.all| ==> (Listed(e.requests, h) <==> Registered(e, h));
    assert PauseEach(e, e.requests).all == PauseAll(e, None).all;
  }

  /** `all` are the requests ever created for the connection, in order, `pumps` all their producers, and `parts`
      the objects they are made of. */
  class RequestHandler {
    var requestCounter: nat
    var requests: seq<Item>
    var producing: bool
    var attached: bool
    var raised: bool
    var wire: seq<Message>
    ghost var all: seq<Request>
    ghost var pumps: set<BytesMessageProducer>
    ghost var parts: set<object>

    ghost function View(): Handler
      requires Within(all, parts)
      reads this, parts
    {
      Handler(requestCounter, Entries(requests), producing, attached, RequestViews(all, parts), wire, raised)
    }

    /** Every request knows its place and shares no state with another, and the registry knows started
        requests under ids of their own. */
    ghost predicate Structure()
      reads this, parts
    {
      && Within(all, parts) && this !in parts
      && (forall h :: 0 <= h < |all| ==> all[h].handle == h && all[h].protocol == this && all[h].Valid())
      && (forall g, h :: 0 <= g < h < |all| ==> all[g].fd != all[h].fd)
      && (forall r, p :: r in all && p in r.producers ==> p in pumps)
      && (forall p :: p in pumps ==> p in parts)
      && (forall x :: x in requests ==> x.request in all && x.request.started && x.request.id == Some(x.id))
      && DistinctIds(requests) && (requests != [] ==> attached)
    }

    /** What the structure says about one request. */
    lemma Placed(r: Request)
      requires Structure() && r in all
      ensures Within(all, parts) && r.handle < |all| && all[r.handle] == r && View().all[r.handle] == r.View()
      ensures r.protocol == this && r.Valid() && r.Parts() <= parts && this !in parts
      ensures (forall p :: p in r.producers ==> p in pumps) && KnowsStarted(View())
    {
      hide Views, RequestViews;
      forall h | 0 <= h < |all| && Registered(View(), h) ensures View().all[h].started {
        var i :| 0 <= i < |requests| && View().requests[i].handle == h;
        assert requests[i] in requests && all[requests[i].request.handle] == requests[i].request;
      }
    }

    /** Two requests have no object in common. */
    twostate lemma Apart(new q: Request, new r: Request)
      requires q in old(all) && r in old(all) && q != r && old(Structure())
      ensures old(q.Parts()) !! old(r.Parts()) && old(q.Parts()) <= old(parts)
    {
    }

    twostate lemma Untouched(new q: Request, new r: Request)
      requires q in old(all) && r in old(all) && q != r && old(Structure())
      requires forall o :: o in old(parts) && o !in old(r.Parts()) ==> unchanged(o)
      ensures q.View() == old(q.View()) && q.Valid() && q.Still()
    {
      hide Views;
      Apart(q, r);
      q.StillView();
    }

    twostate lemma Others(new r: Request)
      requires r in old(all) && old(Structure()) && unchanged(`all)
      requires forall o :: o in old(parts) && o !in old(r.Parts()) ==> unchanged(o)
      ensures forall q :: q in all && q != r ==> q.View() == old(q.View()) && q.Valid() && q.Still()
    {
      hide Views, RequestViews, Entries, Request.View, Request.Parts;
      forall q | q in all && q != r ensures q.View() == old(q.View()) && q.Valid() && q.Still() {
        Untouched(q, r);
      }
    }

    /** Only the view of one request has changed. */
    twostate lemma OnlyOne(new r: Request)
      requires r in old(all) && old(Structure()) && unchanged(`all)
      requires forall o :: o in old(parts) && o !in old(r.Parts()) ==> unchanged(o)
      requires old(parts) <= parts && r.Parts() <= parts && r.Valid()
      ensures Within(all, parts) && RequestViews(all, parts) == old(RequestViews(all, parts))[r.handle := r.View()]
      ensures forall q :: q in all && q != r ==> q.Still()
      ensures forall h :: 0 <= h < |all| ==> all[h].Valid()
    {
      hide Views, RequestViews, Request.View;
      Others(r);
      assert forall h :: 0 <= h < |all| ==> all[h] in all;
    }

    /** Nothing but one request has changed, and not its status. */
    twostate lemma Touched(new r: Request)
      requires r in old(all) && old(Structure())
      requires unchanged(`all, `requests, `requestCounter, `producing, `attached, `raised, `wire, `pumps, `parts)
      requires forall o :: o in parts && o !in old(r.Parts()) ==> unchanged(o)
      requires r.Valid() && unchanged(r`producers, r`id, r`started)
      ensures Structure() && View() == Put(old(View()), r.handle, r.View())
    {
      hide Views, RequestViews, Entries, Request.View;
      OnlyOne(r);
    }

    /** A new byte producer of one request. */
    twostate lemma Extended(new r: Request, new p: BytesMessageProducer)
      requires r in old(all) && old(Structure())
      requires unchanged(`all, `requests, `requestCounter, `producing, `attached, `raised, `wire)
      requires parts == old(parts) + {p} && pumps == old(pumps) + {p} && p !in old(parts)
      requires forall o :: o in old(parts) && o !in old(r.Parts()) ==> unchanged(o)
      requires r.Valid() && r.producers == old(r.producers) + [p] && unchanged(r`id, r`started)
      ensures Structure() && View() == Put(old(View()), r.handle, r.View())
    {
      hide Views, RequestViews, Entries, Request.View;
      OnlyOne(r);
    }

    /** The request's entry is the one under its id. */
    twostate lemma KeyOf(new r: Request)
      requires r in old(all) && old(Structure())
      requires old(r.id).Some? && Item(old(r.id).value, r) in old(requests)
      ensures forall x :: x in old(requests) ==> (x.id == old(r.id).value <==> x.request.handle == r.handle)
    {
      forall x | x in old(requests) ensures x.id == old(r.id).value <==> x.request.handle == r.handle {
        if x.id == old(r.id).value {
          OnlyItem(old(requests), x, Item(old(r.id).value, r));
        }
      }
    }

    /** One request has finished and left the registry. */
    twostate lemma Completed(new r: Request)
      requires r in old(all) && old(Structure())
      requires unchanged(`all, `requestCounter, `producing, `raised, `wire, `pumps, `parts)
      requires forall o :: o in parts && o !in old(r.Parts()) ==> unchanged(o)
      requires unchanged(r`producers, r`producer, r`id, r`sent) && r.finished && !r.started && !old(r.finished)
      requires r.id.Some? && Item(r.id.value, r) in old(requests)
      requires requests == Deleted(old(requests), r.id.value) && attached == (old(attached) && requests != [])
      ensures Structure() && View() == Moved(old(View()), r.handle, r.View(), false)
    {
      hide Views, RequestViews, Entries, Multiplexer.Without, Deleted, Tagged, Fresh, Find;
      OnlyOne(r);
      var h, before := r.handle, old(View());
      KeyOf(r);
      DeletedEntries(old(requests), r.id.value, h);
      DeletedDistinct(old(requests), r.id.value);
      NothingFresh(before.all[h], r.View());
      assert before.wire + [] == before.wire;
    }

    method RemoveProducer(who: Request)
      modifies this`attached
      ensures attached == (old(attached) && requests != [])
    {
      if requests == [] {
        attached := false;
      }
    }

    lemma Framed()
      requires Structure()
      ensures Within(all, parts) && |View().requests| == |requests| && |View().all| == |all|
      ensures this !in parts && (forall r :: r in all ==> r in parts) && (forall p :: p in pumps ==> p in parts)
    {
    }

    method SetProducing(flag: bool)
      requires Structure()
      modifies this`producing
      ensures Structure() && View() == old(View()).(producing := flag)
    {
      hide Views, RequestViews, Entries;
      producing := flag;
    }

    /** One turn of the loop. */
    method PauseRequest(i: nat)
      requires Structure() && i < |requests|
      modifies all`producing, pumps`producing
      ensures Structure()
      ensures var e := old(View());
              var h := e.requests[i].handle;
              h < |e.all| && View() == Put(e, h, Apply(e.all[h], DoPause))
    {
      hide Views, RequestViews, Entries, Pause;
      var request := requests[i].request;
      assert requests[i] in requests;
      Placed(request);
      request.StopProducing();
      Touched(request);
    }

    /** The loop of `pauseProducing`. */
    method PauseRequests()
      requires Structure()
      modifies all`producing, pumps`producing
      ensures Structure() && View() == PauseEach(old(View()), old(View()).requests)
    {
      hide Views, RequestViews, Entries, Apply, RequestHandler.Structure, PauseEach;
      Framed();
      ghost var before := View();
      var i := 0;
      while i < |requests|
        invariant i <= |requests| && Structure() && Within(all, parts)
        invariant View().requests == before.requests
        invariant PauseEach(View(), before.requests[i..]) == PauseEach(before, before.requests)
      {
        ghost var now := View();
        PauseRequest(i);
        FirstPaused(now, before.requests[i..]);
        assert before.requests[i..][1..] == before.requests[i + 1..];
        i := i + 1;
        Framed();
      }
      NonePaused(View());
    }

    /** `pauseProducing` and `stopProducing`. */
    method PauseProducing()
      requires Structure()
      modifies this`producing, all`producing, pumps`producing
      ensures Structure() && View() == PauseAll(old(View()), None)
      ensures old(Multiplexer.Inv(View())) ==> Multiplexer.Inv(View())
    {
      hide Multiplexer.Inv;
      hide Views, RequestViews, Entries, PauseAll, PauseEach, RequestHandler.Structure;
      Framed();
      ghost var before := View();
      PauseEachIsAll(before);
      PauseRequests();
      SetProducing(false);
      if old(Multiplexer.Inv(View())) {
        PauseAllInv(before, None);
      }
    }

    method SendMessage(m: Message, pause: bool)
      requires Structure()
      modifies this`wire, this`producing, all`producing, pumps`producing
      ensures Structure() && View() == Write(old(View()), m, pause)
    {
      hide Views, RequestViews, Entries, PauseAll;
      wire := wire + [m];
      if pause {
        PauseProducing();
      }
    }

    /** The structure, and the invariant of the step system. */
    ghost predicate Valid()
      reads this, parts
    {
      Structure() && Multiplexer.Inv(View())
    }

    constructor ()
      ensures Valid() && View() == CONNECTED && all == []
    {
      requestCounter, requests, producing, attached, raised, wire := REQUEST_ID_START, [], true, false, false, [];
      all, pumps, parts := [], {}, {};
      new;
      ConnectedInv();
      assert View() == CONNECTED;
    }

    method GetNewRequestId() returns (id: nat)
      modifies this`requestCounter
      ensures id == old(requestCounter) && requestCounter == id + 2
    {
      id := requestCounter;
      requestCounter := requestCounter + 2;
    }

    /** The first request makes the handler the producer of the transport. */
    method Attach()
      requires Structure()
      modifies this`attached
      ensures Structure() && View() == old(View()).(attached := old(attached) || requests == [])
    {
      hide Views, RequestViews, Entries;
      if requests == [] {
        attached := true;
      }
    }

    method AddProducer(who: Request, pause: bool)
      requires who.InPlace() && who.protocol == this
      modifies who`producing, who`sent, who.fd, who.producers, this`attached, this`wire, this`producing
      modifies all`producing, pumps`producing
      ensures Structure()
      ensures var e, h, r := old(View()).(attached := old(attached) || requests == []), who.handle, old(who.View());
              View() == if e.producing then Moved(e, h, Resume(r, Own(e, h, pause)), pause) else e
    {
      hide Views, RequestViews, Moved, Own, Resume, RequestHandler.Structure, KnowsStarted;
      Placed(who);
      Attach();
      if producing {
        who.ResumeProducing(pause);
      }
    }

    lemma Attached()
      requires Structure() && requests != []
      ensures attached
    {
    }

    /** A started request joins the registry under the id it has just been given. */
    twostate lemma Enlisted(new r: Request)
      requires r in old(all) && old(Structure())
      requires unchanged(`all, `producing, `attached, `raised, `wire, `pumps, `parts) && attached
      requires forall o :: o in parts && o !in old(r.Parts()) ==> unchanged(o)
      requires r.Valid() && unchanged(r`producers) && r.started && !old(r.started) && r.id == Some(old(requestCounter))
      requires requestCounter == old(requestCounter) + 2
      requires requests == old(requests) + [Item(old(requestCounter), r)]
      requires forall x :: x in old(requests) ==> x.id < old(requestCounter)
      ensures Structure()
      ensures var e := old(View());
              View() == Put(Joining(e, r.handle), r.handle, r.View())
    {
      hide Views, RequestViews, Request.View;
      OnlyOne(r);
      hide Entries;
      EntriesSnoc(old(requests), Item(old(requestCounter), r));
      assert forall i :: 0 <= i < |requests| ==>
          requests[i] == if i < |old(requests)| then old(requests)[i] else Item(old(requestCounter), r);
    }

    /** A request that has not been started has nothing yet, and the handler nothing of it. */
    lemma Unstarted(r: Request)
      requires Valid() && r in all && !r.started && !r.finished
      ensures var v := r.View();
              v.producers == [] && v.sent == [] && v.id == None && (attached <==> requests != [])
      ensures forall x :: x in requests ==> x.id < requestCounter
    {
      hide Views, RequestViews, Entries, Find;
      Placed(r);
      InvOf(View(), r.handle);
      forall x | x in requests ensures x.id < requestCounter {
        var i :| 0 <= i < |requests| && requests[i] == x;
        assert View().requests[i] == Entry(x.id, x.request.handle);
      }
    }

    /** The requests there were have not changed. */
    twostate lemma Earlier()
      requires old(Structure()) && forall o :: o in old(parts) ==> unchanged(o)
      ensures forall q :: q in old(all) ==> q.View() == old(q.View()) && q.Valid() && q.Still()
    {
      hide Views, RequestViews, Entries;
      forall q | q in old(all) ensures q.View() == old(q.View()) && q.Valid() && q.Still() {
        q.StillView();
      }
    }

    /** A new request. */
    twostate lemma Added(new r: Request)
      requires old(Structure()) && unchanged(`requestCounter, `requests, `producing, `attached, `raised, `wire, `pumps)
      requires all == old(all) + [r] && parts == old(parts) + r.Parts() && r.producers == []
      requires r.handle == |old(all)| && r.protocol == this && r.Valid() && (forall q :: q in old(all) ==> q.fd != r.fd)
      requires forall o :: o in old(parts) ==> unchanged(o)
      ensures Structure() && View() == old(View()).(all := old(View().all) + [r.View()])
    {
      hide Find, Views, RequestViews, Entries, Request.View;
      Earlier();
      assert forall h :: 0 <= h < |old(all)| ==> old(all)[h] in old(all);
      assert RequestViews(all, parts) == old(RequestViews(all, parts)) + [r.View()];
    }

    /** A new request is one of the connection's. */
    ghost method Admit(r: Request)
      requires Structure() && r.producers == [] && r.handle == |all| && r.protocol == this && r.Valid()
      requires forall q :: q in all ==> q.fd != r.fd
      requires this != r as object
      modifies this`all, this`parts
      ensures Structure() && all == old(all) + [r] && View() == old(View()).(all := old(View().all) + [r.View()])
    {
      hide Views, RequestViews, RequestHandler.Structure, Request.View;
      Framed();
      all, parts := all + [r], parts + r.Parts();
      Added(r);
    }

    /** The request of an entry. */
    lemma Entered(i: nat)
      requires Structure() && i < |requests|
      ensures var r := requests[i].request;
              r in all && r.Registered() && r.started && r.id.value == requests[i].id && r.InPlace()
              && View().requests[i] == Entry(requests[i].id, r.handle)
    {
      hide Views, RequestViews;
      assert requests[i] in requests;
    }

    /** A message for a registered request. */
    method Deliver(i: nat, b: Body, pause: bool)
      requires Valid() && i < |requests|
      modifies this, parts
      ensures Structure() && all == old(all)
      ensures var e := old(View());
              var h := e.requests[i].handle;
              h < |e.all| && View() == Move(e, h, DoReceive(b, pause), pause)
    {
      hide Multiplexer.Inv, Views, RequestViews, Entries, Move, Moved, Own, RequestHandler.Structure, KnowsStarted;
      var request := requests[i].request;
      Framed();
      Entered(i);
      Placed(request);
      ReceiveIsMove(View(), request.handle, b, pause);
      InvOf(View(), request.handle);
      request.ProcessMessage(b, pause);
    }

    method HandlePing(m: Message, pause: bool)
      requires Structure()
      modifies this`wire, this`producing, all`producing, pumps`producing
      ensures Structure() && View() == Write(old(View()), Message(m.id, Pong), pause)
    {
      SendMessage(Message(m.id, Pong), pause);
    }

    /** The exception that leaves `dataReceived`. */
    method SetRaised()
      requires Structure()
      modifies this`raised
      ensures Structure() && View() == old(View()).(raised := true)
    {
      hide Views, RequestViews, Entries;
      raised := true;
    }

    method ProcessMessage(m: Message, pause: bool)
      requires Valid() && !raised
      modifies this, parts
      ensures Valid() && all == old(all) && View() == Step(old(View()), Arrived(m, pause))
    {
      hide Multiplexer.Inv, Find, Position, Views, RequestViews, Entries, Move, PauseAll;
      hide RequestHandler.Structure;
      Framed();
      ghost var before := View();
      var i := Position(requests, m.id);
      DispatchInv(before, m, pause);
      if i.Some? {
        Deliver(i.value, m.body, pause);
      } else if m.body.Ping? {
        HandlePing(m, pause);
      } else if !Handled(m.body) {
        SetRaised();
      }
    }

    lemma HandleOfId(i: nat, pauses: set<nat>)
      requires Structure() && i < |requests|
      ensures requests[i].request.handle in HandlesOf(requests, pauses) <==> requests[i].id in pauses
    {
      hide Views, RequestViews;
      var request := requests[i].request;
      if j :| 0 <= j < |requests| && requests[j].id in pauses && requests[j].request.handle == request.handle {
        assert requests[i] in requests && requests[j] in requests;
      }
    }

    /** One turn of the loop. */
    method ResumeRequest(i: nat, pauses: set<nat>)
      requires Valid() && i < |requests|
      modifies this`wire, this`producing, parts
      ensures Valid() && all == old(all) && parts == old(parts) && pumps == old(pumps) && requests == old(requests)
      ensures var e, hit := old(View()), HandlesOf(requests, pauses);
              var h := e.requests[i].handle;
              h < |e.all| && View() == Move(e, h, DoResume(h in hit), h in hit)
    {
      hide Multiplexer.Inv, Find, Views, RequestViews, Entries, Own, Move, Moved, RequestHandler.Structure, HandlesOf;
      hide KnowsStarted;
      var request := requests[i].request;
      Entered(i);
      Framed();
      Placed(request);
      HandleOfId(i, pauses);
      ResumeIsMove(View(), request.handle, requests[i].id in pauses);
      request.ResumeProducing(requests[i].id in pauses);
    }

    /** `pauses` are the ids of the requests inside whose writes the transport pauses the handler. */
    method ResumeProducing(pauses: set<nat>)
      requires Valid()
      modifies this, parts
      ensures Valid() && all == old(all)
      ensures View() == Step(old(View()), Resumed(HandlesOf(old(requests), pauses)))
    {
      hide Multiplexer.Inv, Find, Views, RequestViews, Entries, Move, RequestHandler.Structure;
      Framed();
      ghost var before, hit := View(), HandlesOf(requests, pauses);
      StepKeepsInv(before, Resumed(hit));
      var i := 0;
      while i < |requests|
        invariant i <= |requests| && Structure() && Within(all, parts) && Multiplexer.Inv(View())
        invariant all == old(all) && parts == old(parts) && pumps == old(pumps) && requests == old(requests)
        invariant ResumeEach(View(), before.requests[i..], hit) == ResumeEach(before, before.requests, hit)
      {
        ResumeRequest(i, pauses);
        assert before.requests[i..][1..] == before.requests[i + 1..];
        i := i + 1;
        Framed();
      }
      SetProducing(true);
    }

    /** The reactor makes a scheduled call of one of the connection's producers. */
    method RunScheduled(producer: BytesMessageProducer, pause: bool)
      requires Valid() && producer.request.protocol == this && producer.InPlace() && producer.calls > 0
      modifies this`wire, this`producing, parts
      ensures Valid() && all == old(all)
      ensures View() == Step(old(View()), GoDue(producer.request.handle, producer.index, pause))
    {
      hide Requests.Go, Multiplexer.Inv, Moved, Views, RequestViews, Own, RequestHandler.Structure, Step, KnowsStarted;
      Framed();
      Placed(producer.request);
      CallIsMove(View(), producer.request.handle, producer.index, pause);
      producer.RunCall(pause);
    }

    /** User code cancels a request. */
    method UserCancel(request: Request, pause: bool)
      requires Valid() && request in all
      modifies this`wire, this`producing, parts
      ensures Valid() && all == old(all) && View() == Step(old(View()), UserCancelled(request.handle, pause))
    {
      hide Requests.Cancel, Multiplexer.Inv, Moved, Views, RequestViews, Own, RequestHandler.Structure, Step;
      hide KnowsStarted;
      Framed();
      Placed(request);
      CancelIsMove(View(), request.handle, pause);
      request.Cancel(pause);
    }

    /** Without its first entry the registry is what is left after deleting it. */
    lemma FirstOnly()
      requires Structure() && requests != []
      ensures Deleted(requests, requests[0].id) == requests[1..]
    {
      NoneDeleted(requests[1..], requests[0].id);
    }

    lemma AllHandles(pauses: set<nat>)
      requires Structure()
      ensures forall i :: 0 <= i < |requests| ==>
                (requests[i].request.handle in HandlesOf(requests, pauses) <==> requests[i].id in pauses)
    {
      hide Views, RequestViews, RequestHandler.Structure, HandlesOf;
      forall i | 0 <= i < |requests|
        ensures requests[i].request.handle in HandlesOf(requests, pauses) <==> requests[i].id in pauses
      {
        HandleOfId(i, pauses);
      }
    }

    /** One turn of the loop. */
    method AbortFirst(request: Request, pause: bool)
      requires Valid() && requests != [] && requests[0].request == request
      modifies this`wire, this`producing, this`requests, this`attached, parts
      ensures Valid() && all == old(all) && parts == old(parts) && pumps == old(pumps) && requests == old(requests)[1..]
      ensures var e := old(View());
              var h := e.requests[0].handle;
              h == request.handle && h < |e.all| && View() == Move(e, h, DoLose(pause), pause)
    {
      hide Multiplexer.Inv, Move, Moved, Own, Views, RequestViews, Entries, Pause, Requests.Cancel, Finish;
      hide RequestHandler.Structure, Deleted, KnowsStarted;
      Entered(0);
      Framed();
      Placed(request);
      LoseIsMove(View(), request.handle, pause);
      FirstOnly();
      request.Abort(pause);
    }

    /** `pauses` are the ids of the requests inside whose CANCEL_REQUEST the handler is paused. */
    method ConnectionLost(pauses: set<nat>)
      requires Valid()
      modifies this, parts
      ensures Valid() && all == old(all)
      ensures View() == Step(old(View()), Lost(HandlesOf(old(requests), pauses)))
    {
      hide Multiplexer.Inv, Find, Views, RequestViews, Entries, Move, RequestHandler.Structure, HandlesOf;
      Framed();
      ghost var before, hit := View(), HandlesOf(requests, pauses);
      AllHandles(pauses);
      var copy := requests;
      var i := 0;
      while i < |copy|
        invariant i <= |copy| && Structure() && Within(all, parts) && Multiplexer.Inv(View())
        invariant all == old(all) && parts == old(parts) && pumps == old(pumps) && requests == copy[i..]
        invariant LoseEach(View(), before.requests[i..], hit) == LoseEach(before, before.requests, hit)
      {
        assert requests[0] == copy[i] && requests[1..] == copy[i + 1..];
        assert before.requests[i..][1..] == before.requests[i + 1..];
        Framed();
        AbortFirst(copy[i].request, copy[i].id in pauses);
        i := i + 1;
        Framed();
      }
      assert before.requests[i..] == [];
    }
  }
}
