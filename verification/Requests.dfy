/** One request of the connection, from creation to completion: the state of `Request` and its
    subclasses (magicicadaprotocol/request.py, magicicadaprotocol/client.py) together with the
    `BytesMessageProducer`s of an upload, and what each call does to it. */
module Requests {
  import opened ByteStrings
  import opened Options

  /** The message types the modelled requests tell apart; `Other` is any further type by its number. */
  datatype Body =
    | Noop | Ping | Pong | Ok | Error | Cancelled | CancelRequest
    | GetContent | NodeAttr | PutContent | BeginContent(offset: nat)
    | Bytes(data: seq<byte>) | Eof
    | Query | NodeState(node: nat) | QueryEnd
    | Other(kind: nat)

  datatype Message = Message(id: nat, body: Body)

  datatype Reason = CancelledByPeer | PeerError | UnexpectedReply | ConnectionLost

  /** How a request's deferred fired. */
  datatype Outcome = Succeeded | Failed(reason: Reason)

  /** `Exchange` is every request that sends one message and waits for one type of answer. */
  datatype Kind = OneWay | Exchange(ask: Body, answer: Body) | Download | Upload | Lookup

  /** A `BytesMessageProducer`; `calls` counts its `go` calls waiting in the reactor. */
  datatype Producer = Producer(offset: nat, producing: bool, finished: bool, calls: nat)

  /** `position` is the read position of the file that all producers of the request share; the last
      producer is the one in `Request.producer`. `fired` lists the firings of the deferred and `sent`
      the messages written for this request. */
  datatype Req = Req(
    kind: Kind, file: seq<byte>, maxPayload: nat, position: nat,
    id: Option<nat>, started: bool, finished: bool, cancelled: bool, producing: bool,
    producers: seq<Producer>,
    parts: seq<seq<byte>>, data: Option<seq<byte>>, states: seq<nat>,
    fired: seq<Outcome>, sent: seq<Body>)

  function New(kind: Kind, file: seq<byte>, maxPayload: nat, position: nat): Req
  {
    Req(kind, file, maxPayload, position, None, false, false, false, false, [], [], None, [], [], [])
  }

  ghost predicate IsNew(r: Req)
  {
    r == New(r.kind, r.file, r.maxPayload, r.position)
  }

  // The parts of the calls

  function Send(r: Req, b: Body): Req
  {
    r.(sent := r.sent + [b])
  }

  /** `done` and `error`, apart from the registry. */
  function Finish(r: Req, o: Outcome): Req
  {
    r.(finished := true, started := false, fired := r.fired + [o])
  }

  function SetProducer(r: Req, k: nat, p: Producer): Req
    requires k < |r.producers|
  {
    r.(producers := r.producers[k := p])
  }

  /** Everything about a request except its producers, its flow control and what it has sent. */
  ghost predicate SameExchange(r: Req, r': Req)
  {
    && r'.kind == r.kind && r'.file == r.file && r'.maxPayload == r.maxPayload && r'.id == r.id
    && r'.started == r.started && r'.finished == r.finished && r'.cancelled == r.cancelled
    && r'.parts == r.parts && r'.data == r.data && r'.states == r.states && r'.fired == r.fired
  }

  /** The request keeps its id and goes on, or it is finished. */
  ghost predicate GoesOnOrEnds(r: Req, r': Req)
  {
    && r'.id == r.id
    && ((r'.started == r.started && r'.finished == r.finished) || (r'.finished && !r'.started))
  }

  /** Nothing changes that has to do with sending. */
  ghost predicate KeepsPumps(r: Req, r': Req)
  {
    && r'.producing == r.producing && r'.producers == r.producers && r'.cancelled == r.cancelled
    && r'.sent == r.sent && r'.position == r.position
  }

  /** What a request is created with never changes, producers are never dropped and nothing sent is
      taken back. */
  ghost predicate Extends(r: Req, r': Req)
  {
    && r'.kind == r.kind && r'.file == r.file && r'.maxPayload == r.maxPayload
    && |r'.producers| >= |r.producers| && r.sent <= r'.sent
  }

  function StopProducer(r: Req): (r': Req)
    ensures SameExchange(r, r') && r'.sent == r.sent && |r'.producers| == |r.producers|
  {
    if r.producers == [] then r
    else
      var k := |r.producers| - 1;
      SetProducer(r, k, r.producers[k].(producing := false))
  }

  /** `pauseProducing` and `stopProducing`. */
  function Pause(r: Req): (r': Req)
    ensures SameExchange(r, r') && r'.sent == r.sent && |r'.producers| == |r.producers|
  {
    StopProducer(r).(producing := false)
  }

  /** The transport may pause the whole connection from inside a write. */
  function Interrupted(r: Req, pause: bool): (r': Req)
    ensures SameExchange(r, r') && r'.sent == r.sent && |r'.producers| == |r.producers|
  {
    if pause then Pause(r) else r
  }

  /** `file.seek(at)` if asked for, then `file.read(n)`. */
  function Read(file: seq<byte>, at: nat, n: nat): seq<byte>
  {
    if at >= |file| then [] else if |file| - at <= n then file[at..] else file[at..at + n]
  }

  predicate Active(r: Req, k: nat)
    requires k < |r.producers|
  {
    r.producers[k].producing && !r.cancelled && !r.producers[k].finished
  }

  /** Where producer `k` reads next: it seeks only if its offset is not zero. */
  function Cursor(r: Req, k: nat): nat
    requires k < |r.producers|
  {
    if r.producers[k].offset != 0 then r.producers[k].offset else r.position
  }

  ghost predicate IsContent(b: Body)
  {
    b.Bytes? || b.Eof?
  }

  /** The message for what has been read. */
  function Piece(data: seq<byte>): (b: Body)
    ensures IsContent(b)
  {
    if data != [] then Bytes(data) else Eof
  }

  /** Producer `k` moves its offset over what it has read, if it has one. */
  function Ahead(r: Req, k: nat, data: seq<byte>): (r': Req)
    requires k < |r.producers|
    ensures SameExchange(r, r') && r'.sent == r.sent && |r'.producers| == |r.producers|
  {
    var p := r.producers[k];
    SetProducer(r, k, if p.offset != 0 then p.(offset := p.offset + |data|) else p)
  }

  /** `go` before its write: producer `k` has read `data`. */
  function Advanced(r: Req, k: nat, data: seq<byte>): (r': Req)
    requires k < |r.producers|
    ensures SameExchange(r, r') && r'.sent == r.sent && |r'.producers| == |r.producers|
  {
    Ahead(r.(position := Cursor(r, k) + |data|), k, data)
  }

  /** `go` after its write: it is called again later, or it is through. */
  function Settled(r: Req, k: nat, data: seq<byte>): (r': Req)
    requires k < |r.producers|
    ensures SameExchange(r, r') && r'.sent == r.sent && |r'.producers| == |r.producers|
  {
    var p := r.producers[k];
    SetProducer(r, k, if data != [] then p.(calls := p.calls + 1) else p.(producing := false, finished := true))
  }

  /** `BytesMessageProducer.go`. */
  function Go(r: Req, k: nat, pause: bool): (r': Req)
    requires k < |r.producers|
    ensures SameExchange(r, r') && r.sent <= r'.sent && |r'.producers| == |r.producers|
  {
    if !Active(r, k) then r
    else
      var data := Read(r.file, Cursor(r, k), r.maxPayload);
      Settled(Interrupted(Send(Advanced(r, k, data), Piece(data)), pause), k, data)
  }

  /** `BytesMessageProducer.resumeProducing` on the current producer. */
  function ResumeProducer(r: Req, pause: bool): (r': Req)
    requires r.producers != []
    ensures SameExchange(r, r') && r.sent <= r'.sent && |r'.producers| == |r.producers|
  {
    var k := |r.producers| - 1;
    Go(SetProducer(r, k, r.producers[k].(producing := true)), k, pause)
  }

  /** `Request.resumeProducing`. */
  function Resume(r: Req, pause: bool): (r': Req)
    ensures SameExchange(r, r') && r.sent <= r'.sent && |r'.producers| == |r.producers|
  {
    (if r.producers == [] then r else ResumeProducer(r, pause)).(producing := true)
  }

  /** BEGIN_CONTENT: `registerProducer` with a new producer. */
  function Begin(r: Req, offset: nat, pause: bool): (r': Req)
    ensures SameExchange(r, r') && r.sent <= r'.sent && |r'.producers| == |r.producers| + 1
  {
    var registered := r.(producers := r.producers + [Producer(offset, false, false, 0)]);
    if r.producing then ResumeProducer(registered, pause) else registered
  }

  function Opening(kind: Kind): Body
  {
    match kind
    case OneWay => Noop
    case Exchange(ask, _) => ask
    case Download => GetContent
    case Upload => PutContent
    case Lookup => Query
  }

  /** `_default_process_message`. */
  function Reject(r: Req, b: Body): (r': Req)
    ensures Extends(r, r') && GoesOnOrEnds(r, r') && KeepsPumps(r, r')
  {
    Finish(r, Failed(if b == Error then PeerError else UnexpectedReply))
  }

  // The calls

  /** `start`, once the request handler has allotted `id`; `producing` is the handler's flag. */
  function Start(r: Req, id: nat, producing: bool, pause: bool): (r': Req)
    ensures Extends(r, r')
  {
    var added := if producing then Resume(r, pause) else r;
    var opening := Interrupted(Send(added.(id := Some(id), started := true), Opening(r.kind)), pause);
    if r.kind.OneWay? then Finish(opening, Succeeded) else opening
  }

  /** `cancel`; the request classes that transfer content tell the server. */
  function Cancel(r: Req, pause: bool): (r': Req)
    ensures Extends(r, r')
  {
    if r.finished then r
    else
      var c := r.(cancelled := true);
      if !r.started || r.cancelled then c
      else match r.kind
        case Upload => Interrupted(Send(StopProducer(c), CancelRequest), pause)
        case Download => Interrupted(Send(c, CancelRequest), pause)
        case _ => c
  }

  /** `processMessage` of a download. */
  function ReceiveDownload(r: Req, b: Body): (r': Req)
    ensures Extends(r, r') && GoesOnOrEnds(r, r') && KeepsPumps(r, r')
  {
    match b
    case NodeAttr => r
    case Bytes(d) => if r.cancelled then r else r.(parts := r.parts + [d])
    case Eof => Finish(if r.cancelled then r else r.(data := Some(Concat(r.parts))), Succeeded)
    case Ok => Finish(r, Succeeded)
    case Cancelled => Finish(r, Failed(CancelledByPeer))
    case _ => Reject(r, b)
  }

  /** `processMessage` of an upload. */
  function ReceiveUpload(r: Req, b: Body, pause: bool): (r': Req)
    ensures Extends(r, r') && GoesOnOrEnds(r, r') && (!b.BeginContent? ==> KeepsPumps(r, r'))
  {
    match b
    case BeginContent(offset) => Begin(r, offset, pause)
    case Ok => Finish(r, Succeeded)
    case Cancelled => Finish(r, Failed(CancelledByPeer))
    case _ => Reject(r, b)
  }

  /** `processMessage` of a query. */
  function ReceiveLookup(r: Req, b: Body): (r': Req)
    ensures Extends(r, r') && GoesOnOrEnds(r, r') && KeepsPumps(r, r')
  {
    match b
    case NodeState(n) => r.(states := r.states + [n])
    case QueryEnd => Finish(r, Succeeded)
    case _ => Reject(r, b)
  }

  /** `processMessage`. */
  function Receive(r: Req, b: Body, pause: bool): (r': Req)
    ensures Extends(r, r') && GoesOnOrEnds(r, r') && (!(r.kind.Upload? && b.BeginContent?) ==> KeepsPumps(r, r'))
  {
    match r.kind
    case OneWay => r
    case Exchange(_, answer) => if b == answer then Finish(r, Succeeded) else Reject(r, b)
    case Lookup => ReceiveLookup(r, b)
    case Download => ReceiveDownload(r, b)
    case Upload => ReceiveUpload(r, b, pause)
  }

  /** What `connectionLost` does to a registered request. */
  function Lose(r: Req, pause: bool): (r': Req)
    ensures Extends(r, r')
  {
    Finish(if r.started then Cancel(Pause(r), pause) else Pause(r), Failed(ConnectionLost))
  }

  // Runs

  datatype Act =
    | DoStart(id: nat, producing: bool, pause: bool)
    | DoResume(pause: bool) | DoPause
    | DoReceive(body: Body, pause: bool) | DoCancel(pause: bool)
    | DoGo(k: nat, pause: bool) | DoLose(pause: bool)

  /** The handler starts a request once and only reaches the ones in its registry; user code may
      cancel at any time, and a scheduled `go` runs whatever has become of the request. */
  predicate Enabled(r: Req, a: Act)
  {
    match a
    case DoStart(_, _, _) => !r.started && !r.finished
    case DoCancel(_) => true
    case DoGo(k, pause) => k < |r.producers| && r.producers[k].calls > 0 && (pause ==> r.started)
    case _ => r.started
  }

  function Apply(r: Req, a: Act): (r': Req)
    ensures Extends(r, r')
  {
    if !Enabled(r, a) then r
    else match a
      case DoStart(id, producing, pause) => Start(r, id, producing, pause)
      case DoResume(pause) => Resume(r, pause)
      case DoPause => Pause(r)
      case DoReceive(b, pause) => Receive(r, b, pause)
      case DoCancel(pause) => Cancel(r, pause)
      case DoGo(k, pause) => Go(SetProducer(r, k, r.producers[k].(calls := r.producers[k].calls - 1)), k, pause)
      case DoLose(pause) => Lose(r, pause)
  }

  function Run(r: Req, acts: seq<Act>): (r': Req)
    ensures Extends(r, r')
    decreases |acts|
  {
    if acts == [] then r else Run(Apply(r, acts[0]), acts[1..])
  }

  lemma {:induction false} RunAppend(r: Req, front: seq<Act>, back: seq<Act>)
    ensures Run(r, front + back) == Run(Run(r, front), back)
    decreases |front|
  {
    if front == [] {
      assert front + back == back;
    } else {
      assert (front + back)[1..] == front[1..] + back;
      RunAppend(Apply(r, front[0]), front[1..], back);
    }
  }

  /** CANCEL_REQUEST is never followed by anything. */
  ghost predicate CancelIsLast(sent: seq<Body>)
  {
    forall i :: 0 <= i < |sent| - 1 ==> sent[i] != CancelRequest
  }

  ghost predicate NoContent(sent: seq<Body>)
  {
    forall i :: 0 <= i < |sent| ==> !IsContent(sent[i])
  }

  /** A producer that has work to do is going to be woken up. */
  ghost predicate Awake(r: Req)
  {
    forall k :: 0 <= k < |r.producers| && Active(r, k) ==> r.producers[k].calls > 0
  }

  /** Completion and firing of the deferred are the same event, and happen at most once. */
  ghost predicate FiresOnce(r: Req)
  {
    && |r.fired| == (if r.finished then 1 else 0)
    && !(r.finished && r.started)
    && (r.started ==> r.id.Some?)
  }

  ghost predicate Untouched(r: Req)
  {
    !r.started && !r.finished ==> r.(cancelled := false) == New(r.kind, r.file, r.maxPayload, r.position)
  }

  /** The messages a request may be created with: not a cancellation, not content and not an answer to the peer. */
  ghost predicate ProperKind(kind: Kind)
  {
    Opening(kind) != CancelRequest && !IsContent(Opening(kind)) && Opening(kind) != Pong
  }

  ghost predicate SentOrder(r: Req)
  {
    && CancelIsLast(r.sent)
    && (forall i :: 0 <= i < |r.sent| ==> r.sent[i] != Pong)
    && (r.sent != [] && r.sent[|r.sent| - 1] == CancelRequest ==> r.cancelled)
    && (r.producers == [] ==> NoContent(r.sent))
    && (!r.kind.Upload? ==> r.producers == [])
    && ProperKind(r.kind)
  }

  ghost predicate Inv(r: Req)
  {
    FiresOnce(r) && Untouched(r) && SentOrder(r) && Awake(r)
  }

  lemma NewInv(kind: Kind, file: seq<byte>, maxPayload: nat, position: nat)
    requires ProperKind(kind)
    ensures Inv(New(kind, file, maxPayload, position))
  {
  }

  /** Between switching a producer on, or taking a call off its queue, and running `go`, only that
      producer may be without a pending call. */
  ghost predicate AwakeBut(r: Req, k: nat)
  {
    forall j :: 0 <= j < |r.producers| && j != k && Active(r, j) ==> r.producers[j].calls > 0
  }

  /** What producer `k` reads next. */
  function NextData(r: Req, k: nat): seq<byte>
    requires k < |r.producers|
  {
    Read(r.file, Cursor(r, k), r.maxPayload)
  }

  /** What producer `k` sends next. */
  function Next(r: Req, k: nat): (b: Body)
    requires k < |r.producers|
    ensures IsContent(b)
  {
    Piece(NextData(r, k))
  }

  /** Producer `p` after a working `go` call that read `data`. */
  function Pumped(p: Producer, data: seq<byte>): Producer
  {
    if data != [] then p.(offset := if p.offset != 0 then p.offset + |data| else 0, calls := p.calls + 1)
    else p.(producing := false, finished := true)
  }

  /** A working `go` call in one piece. */
  function Worked(r: Req, k: nat): Req
    requires k < |r.producers|
  {
    var data := NextData(r, k);
    r.(position := Cursor(r, k) + |data|, sent := r.sent + [Piece(data)],
       producers := r.producers[k := Pumped(r.producers[k], data)])
  }

  lemma SettlePaused(r: Req, k: nat, data: seq<byte>)
    requires k < |r.producers|
    ensures Settled(Pause(r), k, data) == Pause(Settled(r, k, data))
  {
    assert Settled(Pause(r), k, data).producers == Pause(Settled(r, k, data)).producers;
  }

  /** A pause inside the write of a `go` call comes to the same as a pause right after the call. */
  lemma GoWorks(r: Req, k: nat, pause: bool)
    requires k < |r.producers| && Active(r, k)
    ensures Go(r, k, pause) == Interrupted(Worked(r, k), pause)
  {
    hide Read, Cursor;
    var data := NextData(r, k);
    var ahead := Send(Advanced(r, k, data), Piece(data));
    assert Settled(ahead, k, data) == Worked(r, k);
    SettlePaused(ahead, k, data);
  }

  /** What a `go` call sends. */
  lemma GoSends(r: Req, k: nat, pause: bool)
    requires k < |r.producers|
    ensures !Active(r, k) ==> Go(r, k, pause) == r
    ensures Active(r, k) ==> Go(r, k, pause).sent == r.sent + [Next(r, k)]
  {
    hide Pause, NextData;
    if Active(r, k) {
      GoWorks(r, k, pause);
      hide Go, Active;
    }
  }

  /** What pausing does to producer `j`. */
  lemma PausedProducer(r: Req, j: nat, pause: bool)
    requires j < |r.producers|
    ensures Interrupted(r, pause).producers[j]
            == if pause && j == |r.producers| - 1 then r.producers[j].(producing := false) else r.producers[j]
  {
  }

  /** What a `go` call leaves of producer `j`. */
  lemma GoProducer(r: Req, k: nat, pause: bool, j: nat)
    requires k < |r.producers| && Active(r, k) && j < |r.producers|
    ensures var p := if j == k then Pumped(r.producers[k], NextData(r, k)) else r.producers[j];
            Go(r, k, pause).producers[j] == if pause && j == |r.producers| - 1 then p.(producing := false) else p
  {
    GoWorks(r, k, pause);
    PausedProducer(Worked(r, k), j, pause);
  }

  /** What a `go` call leaves of the producers. */
  lemma GoShape(r: Req, k: nat, pause: bool)
    requires k < |r.producers|
    ensures Active(r, k) ==> var p := Go(r, k, pause).producers[k]; p.calls > 0 || p.finished
    ensures forall j :: 0 <= j < |r.producers| && j != k ==>
              var p := Go(r, k, pause).producers[j];
              p == r.producers[j] || p == r.producers[j].(producing := false)
  {
    if Active(r, k) {
      hide Go, NextData, Active;
      forall j | 0 <= j < |r.producers| ensures
        var p := if j == k then Pumped(r.producers[k], NextData(r, k)) else r.producers[j];
        Go(r, k, pause).producers[j] == if pause && j == |r.producers| - 1 then p.(producing := false) else p
      {
        GoProducer(r, k, pause, j);
      }
    }
  }

  lemma GoInv(r: Req, k: nat, pause: bool)
    requires k < |r.producers| && SentOrder(r) && AwakeBut(r, k)
    ensures SentOrder(Go(r, k, pause)) && Awake(Go(r, k, pause))
  {
    hide Go, Next;
    GoSends(r, k, pause);
    GoShape(r, k, pause);
  }

  lemma ResumeInv(r: Req, pause: bool)
    requires SentOrder(r) && Awake(r)
    ensures SentOrder(Resume(r, pause)) && Awake(Resume(r, pause))
    ensures r.producers != [] ==> SentOrder(ResumeProducer(r, pause)) && Awake(ResumeProducer(r, pause))
  {
    hide Go;
    if r.producers != [] {
      var k := |r.producers| - 1;
      GoInv(SetProducer(r, k, r.producers[k].(producing := true)), k, pause);
    }
  }

  lemma BeginInv(r: Req, offset: nat, pause: bool)
    requires SentOrder(r) && Awake(r) && r.kind.Upload?
    ensures SentOrder(Begin(r, offset, pause)) && Awake(Begin(r, offset, pause))
  {
    hide ResumeProducer;
    ResumeInv(r.(producers := r.producers + [Producer(offset, false, false, 0)]), pause);
  }

  lemma StopProducerInv(r: Req)
    requires SentOrder(r) && Awake(r)
    ensures SentOrder(StopProducer(r)) && Awake(StopProducer(r))
    ensures SentOrder(Pause(r)) && Awake(Pause(r))
  {
  }

  lemma AnnounceCancelInv(r: Req)
    requires r.started && r.cancelled && Inv(r)
    requires r.sent == [] || r.sent[|r.sent| - 1] != CancelRequest
    requires r.kind.Upload? || r.kind.Download?
    ensures Inv(Send(r, CancelRequest))
  {
  }

  lemma CancelInv(r: Req, pause: bool)
    requires Inv(r)
    ensures Inv(Cancel(r, pause))
  {
    hide StopProducer, Pause;
    var c := r.(cancelled := true);
    if !r.finished && r.started && !r.cancelled {
      assert Inv(c);
      StopProducerInv(c);
      if r.kind.Upload? || r.kind.Download? {
        AnnounceCancelInv(c);
        AnnounceCancelInv(StopProducer(c));
        StopProducerInv(Send(c, CancelRequest));
        StopProducerInv(Send(StopProducer(c), CancelRequest));
      }
    }
  }

  lemma StartInv(r: Req, id: nat, producing: bool, pause: bool)
    requires Inv(r) && !r.started && !r.finished
    ensures Inv(Start(r, id, producing, pause))
  {
  }

  lemma FinishInv(r: Req, o: Outcome)
    requires Inv(r) && r.started
    ensures Inv(Finish(r, o))
  {
  }

  lemma BegunInv(r: Req, offset: nat, pause: bool)
    requires Inv(r) && r.started && r.kind.Upload?
    ensures Inv(Begin(r, offset, pause))
  {
    hide Begin;
    BeginInv(r, offset, pause);
  }

  lemma ResultInv(r: Req, parts: seq<seq<byte>>, data: Option<seq<byte>>, states: seq<nat>)
    requires Inv(r) && r.started
    ensures Inv(r.(parts := parts, data := data, states := states))
  {
  }

  /** A reply only ever finishes the request, fills its result, or starts another producer. */
  lemma ReceiveInv(r: Req, b: Body, pause: bool)
    requires Inv(r) && r.started
    ensures Inv(Receive(r, b, pause))
  {
    hide Inv, Begin, Finish, Concat;
    var failed := if b == Error then PeerError else UnexpectedReply;
    if r.kind.Upload? && b.BeginContent? {
      BegunInv(r, b.offset, pause);
    } else {
      FinishInv(r, Succeeded);
      FinishInv(r, Failed(failed));
      FinishInv(r, Failed(CancelledByPeer));
      ResultInv(r, r.parts, Some(Concat(r.parts)), r.states);
      FinishInv(r.(data := Some(Concat(r.parts))), Succeeded);
      if b.Bytes? { ResultInv(r, r.parts + [b.data], r.data, r.states); }
      if b.NodeState? { ResultInv(r, r.parts, r.data, r.states + [b.node]); }
    }
  }

  lemma CancelKeepsStarted(r: Req, pause: bool)
    ensures var c := Cancel(r, pause);
            c.id == r.id && c.started == r.started && c.finished == r.finished && c.fired == r.fired
  {
  }

  lemma LoseInv(r: Req, pause: bool)
    requires Inv(r) && r.started
    ensures Inv(Lose(r, pause))
  {
    hide Cancel, Pause;
    StopProducerInv(r);
    CancelInv(Pause(r), pause);
    assert Cancel(Pause(r), pause).started && !Cancel(Pause(r), pause).finished by {
      CancelKeepsStarted(Pause(r), pause);
    }
  }

  lemma StepInv(r: Req, a: Act)
    requires Inv(r)
    ensures Inv(Apply(r, a))
  {
    hide Start, Receive, Cancel, Lose, Resume, Go;
    if Enabled(r, a) {
      match a
      case DoStart(id, producing, pause) => StartInv(r, id, producing, pause);
      case DoResume(pause) => ResumeInv(r, pause);
      case DoPause => StopProducerInv(r);
      case DoReceive(b, pause) => ReceiveInv(r, b, pause);
      case DoCancel(pause) => CancelInv(r, pause);
      case DoGo(k, pause) => GoInv(SetProducer(r, k, r.producers[k].(calls := r.producers[k].calls - 1)), k, pause);
      case DoLose(pause) => LoseInv(r, pause);
    }
  }

  lemma LoseStatus(r: Req, pause: bool)
    ensures var r' := Lose(r, pause); r'.id == r.id && !r'.started && r'.finished
  {
    hide Cancel, Pause;
    CancelKeepsStarted(Pause(r), pause);
  }

  /** Only starting a request gives it an id or makes it started, and a request stops being started
      exactly by finishing. */
  lemma ApplyStatus(r: Req, a: Act)
    requires Inv(r) && !a.DoStart?
    ensures var r' := Apply(r, a);
            && r'.id == r.id
            && (r'.started <==> r.started && !r'.finished)
            && (r.finished ==> r'.finished)
            && (r'.finished && !r.finished ==> r.started)
  {
    hide Go, Pause, ResumeProducer, Cancel, Receive, Lose, SentOrder, Awake, Untouched;
    if Enabled(r, a) {
      if a.DoCancel? { CancelKeepsStarted(r, a.pause); }
      if a.DoLose? { LoseStatus(r, a.pause); }
    }
  }

  /** Every run of a request: it completes at most once and exactly when its deferred fires,
      CANCEL_REQUEST is sent at most once and no BYTES, EOF or anything else follows it, and
      whenever a producer is producing, unfinished and uncancelled a `go` call is pending. */
  lemma {:induction false} RunInv(r: Req, acts: seq<Act>)
    requires Inv(r)
    ensures Inv(Run(r, acts))
    decreases |acts|
  {
    if acts != [] {
      StepInv(r, acts[0]);
      RunInv(Apply(r, acts[0]), acts[1..]);
    }
  }
}
