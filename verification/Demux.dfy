/** Which messages of a run are about which request, and what leaves a request alone
    (magicicadaprotocol/request.py, `processMessage`). */
module Demux {
  import opened Options
  import opened Requests
  import opened Multiplexer
  import opened ConnectionRuns

  /** The messages that arrive in a run. */
  function Arrivals(events: seq<Event>): (messages: seq<Message>)
  {
    if events == [] then []
    else (if events[0].Arrived? then [events[0].message] else []) + Arrivals(events[1..])
  }

  /** The bodies of the messages under one id, in order. */
  function Addressed(messages: seq<Message>, id: nat): (bodies: seq<Body>)
  {
    if messages == [] then []
    else (if messages[0].id == id then [messages[0].body] else []) + Addressed(messages[1..], id)
  }

  /** Request `h` has its id and has not been completed. */
  ghost predicate Running(e: Handler, h: nat)
  {
    h < |e.all| && e.all[h].id.Some? && e.all[h].started
  }

  // Events that are not about the request

  lemma SameExchangeTrans(r: Req, s: Req, t: Req)
    requires SameExchange(r, s) && SameExchange(s, t)
    ensures SameExchange(r, t)
  {
  }

  lemma OwnMove(e: Handler, h: nat, a: Act, pause: bool)
    requires h < |e.all|
    ensures Move(e, h, a, pause).all[h] == Apply(e.all[h], a)
  {
    hide Apply;
  }

  lemma FlowOnly(r: Req, a: Act)
    requires a.DoResume? || a.DoPause? || a.DoGo?
    ensures SameExchange(r, Apply(r, a))
  {
    hide Go, Resume, Pause;
  }

  lemma PauseAllSame(e: Handler, skip: Option<nat>, h: nat)
    requires h < |e.all|
    ensures SameExchange(e.all[h], PauseAll(e, skip).all[h])
  {
    hide Apply;
    FlowOnly(e.all[h], DoPause);
  }

  lemma SameExchangeSelf(r: Req)
    ensures SameExchange(r, r)
  {
  }

  lemma MoveOther(e: Handler, g: nat, a: Act, pause: bool, h: nat)
    requires g < |e.all| && h < |e.all|
    requires g != h || a.DoResume? || a.DoPause? || a.DoGo?
    ensures SameExchange(e.all[h], Move(e, g, a, pause).all[h])
  {
    hide Apply, PauseAll, SameExchange;
    var moved := Update(e, g, Apply(e.all[g], a));
    if g == h {
      FlowOnly(e.all[h], a);
    } else {
      SameExchangeSelf(e.all[h]);
    }
    PauseAllSame(moved, Some(g), h);
    SameExchangeTrans(e.all[h], moved.all[h], PauseAll(moved, Some(g)).all[h]);
  }

  lemma {:induction false} ResumeEachSame(e: Handler, entries: seq<Entry>, pauses: set<nat>, h: nat)
    requires h < |e.all|
    ensures h < |ResumeEach(e, entries, pauses).all|
    ensures SameExchange(e.all[h], ResumeEach(e, entries, pauses).all[h])
    decreases |entries|
  {
    hide Move, SameExchange;
    SameExchangeSelf(e.all[h]);
    if entries != [] {
      var g := entries[0].handle;
      var moved := if g < |e.all| then Move(e, g, DoResume(g in pauses), g in pauses) else e;
      if g < |e.all| { MoveOther(e, g, DoResume(g in pauses), g in pauses, h); }
      ResumeEachSame(moved, entries[1..], pauses, h);
      SameExchangeTrans(e.all[h], moved.all[h], ResumeEach(moved, entries[1..], pauses).all[h]);
    }
  }

  /** Nothing but its own messages, its own cancellation and the loss of the connection changes what has become of
      a request. */
  lemma StepSame(e: Handler, ev: Event, h: nat)
    requires Multiplexer.Inv(e) && Running(e, h) && !ev.Lost? && !(ev.UserCancelled? && ev.handle == h)
    requires ev.Arrived? ==> e.raised || ev.message.id != e.all[h].id.value
    ensures h < |Step(e, ev).all| && SameExchange(e.all[h], Step(e, ev).all[h])
  {
    hide Move, ResumeEach, PauseAll, SameExchange, Requests.Inv, WireAgrees;
    SameExchangeSelf(e.all[h]);
    match ev
    case Created(kind, file, maxPayload, position) =>
    case Started(g, pause) =>
      if g < |e.all| && !e.all[g].started && !e.all[g].finished {
        var added := Joining(e, g);
        MoveOther(added, g, DoStart(e.counter, e.producing, pause), pause, h);
      }
    case Arrived(m, pause) =>
      if !e.raised {
        match Find(e.requests, m.id) {
          case Some(i) => MoveOther(e, e.requests[i].handle, DoReceive(m.body, pause), pause, h);
          case None => PauseAllSame(e.(wire := e.wire + [Message(m.id, Pong)]), None, h);
        }
      }
    case Resumed(pauses) => ResumeEachSame(e, e.requests, pauses, h);
    case Paused => PauseAllSame(e, None, h);
    case UserCancelled(g, pause) => if g < |e.all| { MoveOther(e, g, DoCancel(pause), pause, h); }
    case GoDue(g, k, pause) => if g < |e.all| { MoveOther(e, g, DoGo(k, pause && e.all[g].started), pause, h); }
  }

  // A finished request

  lemma FinishedStep(r: Req, a: Act)
    requires r.finished && !r.started
    ensures SameExchange(r, Apply(r, a))
  {
    hide Go;
  }

  lemma {:induction false} FinishedRun(r: Req, acts: seq<Act>)
    requires r.finished && !r.started
    ensures SameExchange(r, Requests.Run(r, acts))
    decreases |acts|
  {
    hide Apply;
    if acts != [] {
      FinishedStep(r, acts[0]);
      FinishedRun(Apply(r, acts[0]), acts[1..]);
    }
  }

  lemma FinishedStays(e: Handler, events: seq<Event>, h: nat)
    requires h < |e.all| && e.all[h].finished && !e.all[h].started
    ensures h < |Multiplexer.Run(e, events).all| && SameExchange(e.all[h], Multiplexer.Run(e, events).all[h])
  {
    hide Multiplexer.Run, Requests.Run, SameExchange;
    RunReaches(e, events, h);
    var acts :| Requests.Run(e.all[h], acts) == Multiplexer.Run(e, events).all[h];
    FinishedRun(e.all[h], acts);
  }

  // Messages of the request

  lemma {:induction false} LoseEachRaised(e: Handler, entries: seq<Entry>, pauses: set<nat>)
    ensures LoseEach(e, entries, pauses).raised == e.raised
    decreases |entries|
  {
    if entries != [] {
      var h := entries[0].handle;
      LoseEachRaised(if h < |e.all| then Move(e, h, DoLose(h in pauses), h in pauses) else e, entries[1..], pauses);
    }
  }

  lemma StepRaised(e: Handler, ev: Event)
    requires e.raised
    ensures Step(e, ev).raised
  {
    hide Apply, ResumeEach, LoseEach;
    ResumeEachRaised(e, e.requests, if ev.Resumed? then ev.pauses else {});
    LoseEachRaised(e, e.requests, if ev.Lost? then ev.pauses else {});
  }

  lemma {:induction false} RaisedStays(e: Handler, events: seq<Event>)
    requires e.raised
    ensures Multiplexer.Run(e, events).raised
    decreases |events|
  {
    if events != [] {
      StepRaised(e, events[0]);
      RaisedStays(Step(e, events[0]), events[1..]);
    }
  }

  lemma MoveRaised(e: Handler, h: nat, a: Act, pause: bool)
    requires h < |e.all|
    ensures Move(e, h, a, pause).raised == e.raised && |Move(e, h, a, pause).all| == |e.all|
  {
    hide Apply;
  }

  lemma ReplyStep(e: Handler, h: nat, b: Body, pause: bool)
    requires Multiplexer.Inv(e) && Running(e, h) && !e.raised
    ensures var e' := Step(e, Arrived(Message(e.all[h].id.value, b), pause));
            && h < |e'.all| && !e'.raised
            && e'.all[h] == Receive(e.all[h], b, pause)
  {
    DeliverToOwner(e, h, b, pause);
    hide Receive, Multiplexer.Inv, Update;
    MoveRaised(e, h, DoReceive(b, pause), pause);
  }

  lemma RepliesOfArrival(events: seq<Event>, id: nat)
    requires events != [] && events[0].Arrived? && events[0].message.id == id
    ensures Addressed(Arrivals(events), id) == [events[0].message.body] + Addressed(Arrivals(events[1..]), id)
  {
    assert Arrivals(events)[1..] == Arrivals(events[1..]);
  }

  // Messages of no request

  /** The number of a message type in protocol.proto. */
  function TypeNumber(b: Body): nat
  {
    match b
    case Noop => 0
    case Error => 1
    case Ok => 2
    case Ping => 3
    case Pong => 4
    case Query => 15
    case NodeState(_) => 16
    case QueryEnd => 17
    case GetContent => 18
    case PutContent => 19
    case BeginContent(_) => 20
    case Bytes(_) => 21
    case Eof => 22
    case CancelRequest => 32
    case NodeAttr => 33
    case Cancelled => 35
    case Other(kind) => kind
  }

  /** A type with a name of its own is not written by its number. */
  predicate Numbered(b: Body)
  {
    b.Other? ==> b.kind !in {0, 1, 2, 3, 4, 15, 16, 17, 18, 19, 20, 21, 22, 32, 33, 35}
  }

  predicate Unowned(e: Handler, id: nat)
  {
    forall i :: 0 <= i < |e.requests| ==> e.requests[i].id != id
  }

  /** A message under an id that no request has: by the number of its type, it either has a handler or raises; PING is
      answered by PONG under its own id, and nothing else is written. */
  lemma UnownedMessage(e: Handler, m: Message, pause: bool)
    requires !e.raised && Unowned(e, m.id) && Numbered(m.body)
    ensures var e', n := Step(e, Arrived(m, pause)), TypeNumber(m.body);
            && (e'.raised <==> n !in {0, 3, 10, 16, 20, 29, 30, 31, 40, 42, 48, 49, 54})
            && e'.wire == e.wire + (if n == 3 then [Message(m.id, Pong)] else [])
            && e'.requests == e.requests && e'.counter == e.counter && e'.attached == e.attached
            && (!(n == 3 && pause) ==> e'.all == e.all && e'.producing == e.producing)
  {
    assert e.wire + [] == e.wire;
    hide Apply;
  }

  /** Once a message has raised, none is looked at. */
  lemma RaisedIsDeaf(e: Handler, m: Message, pause: bool)
    requires e.raised
    ensures Step(e, Arrived(m, pause)) == e
  {
  }

  /** The ids of the PONGs on the wire. */
  function Pongs(wire: seq<Message>): seq<nat>
  {
    if wire == [] then []
    else Pongs(wire[..|wire| - 1]) + if wire[|wire| - 1].body == Pong then [wire[|wire| - 1].id] else []
  }

  /** The ids of the PINGs in a run that are under no request's id when they arrive. */
  function Pings(e: Handler, events: seq<Event>): seq<nat>
    decreases |events|
  {
    if events == [] then []
    else
      (if events[0].Arrived? && !e.raised && events[0].message.body == Ping && Unowned(e, events[0].message.id)
       then [events[0].message.id] else [])
      + Pings(Step(e, events[0]), events[1..])
  }

  lemma {:induction false} NoPongs(wire: seq<Message>, more: seq<Message>)
    requires forall i :: 0 <= i < |more| ==> more[i].body != Pong
    ensures Pongs(wire + more) == Pongs(wire)
  {
    if more == [] {
      assert wire + more == wire;
    } else {
      var n := |more| - 1;
      NoPongs(wire, more[..n]);
      assert (wire + more)[..|wire + more| - 1] == wire + more[..n];
    }
  }

  lemma OnePong(wire: seq<Message>, id: nat)
    ensures Pongs(wire + [Message(id, Pong)]) == Pongs(wire) + [id]
  {
    assert (wire + [Message(id, Pong)])[..|wire|] == wire;
  }

  lemma MovedWire(e: Handler, h: nat, r: Req, pause: bool)
    requires h < |e.all|
    ensures Moved(e, h, r, pause).wire
            == e.wire + if r.id.Some? then Tagged(r.id.value, Fresh(e.all[h], r)) else []
  {
    hide Apply, Tagged, Fresh, Without;
  }

  lemma MovedPongs(e: Handler, h: nat, r: Req, pause: bool)
    requires h < |e.all| && Requests.Inv(r)
    ensures Pongs(Moved(e, h, r, pause).wire) == Pongs(e.wire)
  {
    var more := if r.id.Some? then Tagged(r.id.value, Fresh(e.all[h], r)) else [];
    MovedWire(e, h, r, pause);
    assert forall i :: 0 <= i < |r.sent| ==> r.sent[i] != Pong;
    hide Requests.Inv, Moved;
    NoPongs(e.wire, more);
  }

  lemma MovePongs(e: Handler, h: nat, a: Act, pause: bool)
    requires Multiplexer.Inv(e) && h < |e.all|
    ensures Pongs(Move(e, h, a, pause).wire) == Pongs(e.wire)
  {
    InvOf(e, h);
    StepInv(e.all[h], a);
    MovedPongs(e, h, Apply(e.all[h], a), pause);
    hide *;
  }

  lemma {:induction false} ResumeEachPongs(e: Handler, entries: seq<Entry>, pauses: set<nat>)
    requires Multiplexer.Inv(e)
    ensures Pongs(ResumeEach(e, entries, pauses).wire) == Pongs(e.wire)
    decreases |entries|
  {
    hide Move, Multiplexer.Inv, Pongs;
    if entries != [] {
      var h := entries[0].handle;
      if h < |e.all| {
        MovePongs(e, h, DoResume(h in pauses), h in pauses);
        MoveInv(e, h, DoResume(h in pauses), h in pauses);
        ResumeEachPongs(Move(e, h, DoResume(h in pauses), h in pauses), entries[1..], pauses);
      } else {
        ResumeEachPongs(e, entries[1..], pauses);
      }
    }
  }

  lemma {:induction false} LoseEachPongs(e: Handler, entries: seq<Entry>, pauses: set<nat>)
    requires Multiplexer.Inv(e)
    ensures Pongs(LoseEach(e, entries, pauses).wire) == Pongs(e.wire)
    decreases |entries|
  {
    hide Move, Multiplexer.Inv, Pongs;
    if entries != [] {
      var h := entries[0].handle;
      if h < |e.all| {
        MovePongs(e, h, DoLose(h in pauses), h in pauses);
        MoveInv(e, h, DoLose(h in pauses), h in pauses);
        LoseEachPongs(Move(e, h, DoLose(h in pauses), h in pauses), entries[1..], pauses);
      } else {
        LoseEachPongs(e, entries[1..], pauses);
      }
    }
  }

  lemma ArrivedPongs(e: Handler, m: Message, pause: bool)
    requires Multiplexer.Inv(e) && !e.raised
    ensures Pongs(Step(e, Arrived(m, pause)).wire)
            == Pongs(e.wire) + if m.body == Ping && Unowned(e, m.id) then [m.id] else []
  {
    hide Apply, Pongs;
    match Find(e.requests, m.id)
    case Some(i) =>
      hide Move;
      if e.requests[i].handle < |e.all| {
        MovePongs(e, e.requests[i].handle, DoReceive(m.body, pause), pause);
      }
    case None =>
      OnePong(e.wire, m.id);
  }

  lemma StartedPongs(e: Handler, h: nat, pause: bool)
    requires Multiplexer.Inv(e) && h < |e.all|
    ensures Pongs(StartRequest(e, h, pause).wire) == Pongs(e.wire)
  {
    InvOf(e, h);
    StepInv(e.all[h], DoStart(e.counter, e.producing, pause));
    hide Multiplexer.Inv, Requests.Inv, Apply, Moved, Pongs;
    MovedPongs(Joining(e, h), h, Apply(e.all[h], DoStart(e.counter, e.producing, pause)), pause);
  }

  lemma PauseAllWire(e: Handler)
    ensures PauseAll(e, None).wire == e.wire
  {
    hide Apply;
  }

  lemma PingsOne(e: Handler, ev: Event)
    ensures Pings(e, [ev])
            == if ev.Arrived? && !e.raised && ev.message.body == Ping && Unowned(e, ev.message.id)
               then [ev.message.id] else []
  {
    hide Step;
    assert Pings(Step(e, ev), [ev][1..]) == [];
  }

  lemma StepPongs(e: Handler, ev: Event)
    requires Multiplexer.Inv(e)
    ensures Pongs(Step(e, ev).wire) == Pongs(e.wire) + Pings(e, [ev])
  {
    PingsOne(e, ev);
    hide Multiplexer.Inv, Move, Pongs, Pings, ResumeEach, LoseEach, Dispatch, StartRequest, PauseAll;
    match ev
    case Created(kind, file, maxPayload, position) =>
    case Started(h, pause) => if h < |e.all| { StartedPongs(e, h, pause); }
    case Arrived(m, pause) => if e.raised { RaisedIsDeaf(e, m, pause); } else { ArrivedPongs(e, m, pause); }
    case Resumed(pauses) => ResumeEachPongs(e, e.requests, pauses);
    case Paused => PauseAllWire(e);
    case UserCancelled(h, pause) => if h < |e.all| { MovePongs(e, h, DoCancel(pause), pause); }
    case GoDue(h, k, pause) => if h < |e.all| { MovePongs(e, h, DoGo(k, pause && e.all[h].started), pause); }
    case Lost(pauses) => LoseEachPongs(e, e.requests, pauses);
  }

  /** In every run, the PONGs on the wire are those of before and one, under the same id, for each PING that is not a
      request's reply, in the order of their arrival. */
  lemma {:induction false} PongsAnswerPings(e: Handler, events: seq<Event>)
    requires Multiplexer.Inv(e) && forall i :: 0 <= i < |events| ==> Proper(events[i])
    ensures Pongs(Multiplexer.Run(e, events).wire) == Pongs(e.wire) + Pings(e, events)
    decreases |events|
  {
    hide Multiplexer.Inv, Step, Pongs;
    if events != [] {
      StepKeepsInv(e, events[0]);
      StepPongs(e, events[0]);
      PingsOne(e, events[0]);
      PongsAnswerPings(Step(e, events[0]), events[1..]);
    }
  }
}
