/** Any number of downloads at once: what `GetContent` requests (magicicadaprotocol/client.py) collect when
    the messages of all requests of the connection arrive interleaved, framed, and cut anywhere. */
module Downloads {
  import opened ByteStrings
  import opened Options
  import opened Requests
  import opened Multiplexer
  import opened ConnectionRuns
  import opened Demux
  import F = FrameCodec
  import H = HelloLine

  /** The content that one download's replies carry: NODE_ATTR and BYTES in any mixture, then EOF. */
  function Downloaded(replies: seq<Body>): (content: Option<seq<byte>>)
  {
    if replies == [] then None
    else
      match replies[0]
      case Eof => if |replies| == 1 then Some([]) else None
      case NodeAttr => Downloaded(replies[1..])
      case Bytes(d) =>
        (match Downloaded(replies[1..])
         case Some(rest) => Some(d + rest)
         case None => None)
      case _ => None
  }

  /** Besides the loss of the connection, the download's own cancellation would be about it. */
  ghost predicate LeavesAlone(ev: Event, h: nat)
  {
    Proper(ev) && !ev.Lost? && !(ev.UserCancelled? && ev.handle == h)
  }

  ghost predicate Downloading(e: Handler, h: nat)
  {
    Running(e, h) && e.all[h].kind == Download && !e.all[h].cancelled
  }

  // The download

  /** A download that has collected `r.parts` when the rest of its replies carry `content`. */
  ghost predicate Complete(r: Req, before: Req, content: seq<byte>)
  {
    r.finished && r.fired == [Succeeded] && r.data == Some(Concat(before.parts) + content)
  }

  lemma StillDownloading(r: Req, r': Req)
    requires SameExchange(r, r')
    ensures r'.kind == r.kind && r'.started == r.started && r'.cancelled == r.cancelled
    ensures r'.id == r.id && r'.parts == r.parts
  {
  }

  lemma ConcatMiddle(parts: seq<seq<byte>>, d: seq<byte>, rest: seq<byte>)
    ensures Concat(parts + [d]) + rest == Concat(parts) + (d + rest)
  {
    ConcatSnoc(parts, d);
  }

  lemma DownloadedCons(b: Body, replies: seq<Body>)
    requires Downloaded([b] + replies).Some?
    ensures b.Eof? || b.NodeAttr? || b.Bytes?
    ensures b.Eof? ==> Downloaded([b] + replies) == Some([])
    ensures !b.Eof? ==> Downloaded(replies).Some?
    ensures b.NodeAttr? ==> Downloaded([b] + replies) == Downloaded(replies)
    ensures b.Bytes? ==> Downloaded([b] + replies) == Some(b.data + Downloaded(replies).value)
  {
    assert ([b] + replies)[1..] == replies;
  }

  /** What the replies of a download do to it, one at a time. */
  lemma DownloadReceives(r: Req, b: Body, pause: bool)
    requires r.kind.Download? && r.started && !r.cancelled
    ensures b.NodeAttr? ==> Receive(r, b, pause) == r
    ensures b.Bytes? ==> Receive(r, b, pause) == r.(parts := r.parts + [b.data])
    ensures b.Eof? ==> Receive(r, b, pause) == Finish(r.(data := Some(Concat(r.parts))), Succeeded)
  {
    hide Concat;
  }

  lemma DownloadStep(e: Handler, events: seq<Event>, h: nat)
    requires Multiplexer.Inv(e) && Downloading(e, h)
    requires events != [] && events[0].Arrived? && e.all[h].id == Some(events[0].message.id)
    requires forall i :: 0 <= i < |events| ==> LeavesAlone(events[i], h)
    requires !Multiplexer.Run(e, events).raised && !e.raised
    requires Multiplexer.Inv(Step(e, events[0]))
    requires var next := Step(e, events[0]);
             h < |next.all| && next.all[h] == Receive(e.all[h], events[0].message.body, events[0].pause)
    requires Downloaded(Addressed(Arrivals(events), e.all[h].id.value)).Some?
    ensures var end := Multiplexer.Run(e, events);
            var content := Downloaded(Addressed(Arrivals(events), e.all[h].id.value)).value;
            h < |end.all| && Complete(end.all[h], e.all[h], content)
    decreases |events|, 0
  {
    var id := e.all[h].id.value;
    var rest := events[1..];
    var next := Step(e, events[0]);
    var replies := Addressed(Arrivals(events), id);
    RepliesOfArrival(events, id);
    DownloadReceives(e.all[h], events[0].message.body, events[0].pause);
    assert Multiplexer.Run(e, events) == Multiplexer.Run(next, rest);
    InvOf(e, h);
    InvOf(next, h);
    assert forall i :: 0 <= i < |rest| ==> LeavesAlone(rest[i], h);
    DownloadedCons(events[0].message.body, Addressed(Arrivals(rest), id));
    hide *;
    match events[0].message.body
    case Eof =>
      FinishedStays(next, rest, h);
      assert Concat(e.all[h].parts) + [] == Concat(e.all[h].parts);
    case NodeAttr =>
      DownloadGetsItsBytes(next, rest, h);
    case Bytes(d) =>
      DownloadGetsItsBytes(next, rest, h);
      var content := Downloaded(Addressed(Arrivals(rest), id)).value;
      ConcatMiddle(e.all[h].parts, d, content);
    case _ =>
  }

  /** Demultiplexing: in every run in which the download's own replies are, in order, some BYTES and an
      EOF - among any other messages, starts, pauses, resumes, cancellations of others and `go`
      calls - the download finishes exactly once with exactly the concatenation of its own bytes. */
  lemma {:induction false} DownloadGetsItsBytes(e: Handler, events: seq<Event>, h: nat)
    requires Multiplexer.Inv(e) && Downloading(e, h)
    requires forall i :: 0 <= i < |events| ==> LeavesAlone(events[i], h)
    requires !Multiplexer.Run(e, events).raised
    requires Downloaded(Addressed(Arrivals(events), e.all[h].id.value)).Some?
    ensures var end := Multiplexer.Run(e, events);
            var content := Downloaded(Addressed(Arrivals(events), e.all[h].id.value)).value;
            h < |end.all| && Complete(end.all[h], e.all[h], content)
    decreases |events|
  {
    hide Multiplexer.Inv, Step, SameExchange;
    InvOf(e, h);
    var id := e.all[h].id.value;
    if events != [] {
      var ev := events[0];
      var next := Step(e, ev);
      StepKeepsInv(e, ev);
      if e.raised { RaisedStays(e, events); }
      if ev.Arrived? && ev.message.id == id {
        ReplyStep(e, h, ev.message.body, ev.pause);
        DownloadStep(e, events, h);
      } else {
        StepSame(e, ev, h);
        StillDownloading(e.all[h], next.all[h]);
        if ev.Arrived? {
          assert Arrivals(events)[1..] == Arrivals(events[1..]);
        } else {
          assert Arrivals(events) == Arrivals(events[1..]);
        }
        assert Addressed(Arrivals(events), id) == Addressed(Arrivals(events[1..]), id);
        DownloadGetsItsBytes(next, events[1..], h);
      }
    }
  }

  // A cancelled download

  lemma CancelledStep(r: Req, a: Act)
    requires r.cancelled
    ensures var r' := Apply(r, a); r'.cancelled && r'.parts == r.parts && r'.data == r.data
  {
    hide Go, Resume, Pause, Begin, Concat, StopProducer;
  }

  /** Once a download is cancelled, nothing that arrives is added to it and it never gets its data, however
      the peer's replies and the cancellation cross. */
  lemma {:induction false} CancelledCollectsNothing(r: Req, acts: seq<Act>)
    requires r.cancelled
    ensures Requests.Run(r, acts).parts == r.parts && Requests.Run(r, acts).data == r.data
    decreases |acts|
  {
    hide Apply;
    if acts != [] {
      CancelledStep(r, acts[0]);
      CancelledCollectsNothing(Apply(r, acts[0]), acts[1..]);
    }
  }

  // Nothing but downloads

  /** Download `h` is running, and what is to arrive under its id is one complete reply. */
  ghost predicate Expecting(e: Handler, events: seq<Event>, h: nat)
  {
    && Downloading(e, h)
    && (forall i :: 0 <= i < |events| ==> LeavesAlone(events[i], h))
    && Downloaded(Addressed(Arrivals(events), e.all[h].id.value)).Some?
  }

  ghost predicate Owns(e: Handler, events: seq<Event>, h: nat, id: nat)
  {
    Expecting(e, events, h) && e.all[h].id == Some(id)
  }

  /** Every message that arrives is for a download that expects it. */
  ghost predicate AllOwned(e: Handler, events: seq<Event>)
  {
    forall i :: 0 <= i < |events| && events[i].Arrived? ==> exists h: nat :: Owns(e, events, h, events[i].message.id)
  }

  lemma AddressedRest(events: seq<Event>, id: nat)
    requires events != []
    ensures Addressed(Arrivals(events), id)
            == (if events[0].Arrived? && events[0].message.id == id then [events[0].message.body] else [])
               + Addressed(Arrivals(events[1..]), id)
  {
    if events[0].Arrived? {
      assert Arrivals(events)[1..] == Arrivals(events[1..]);
    } else {
      assert Arrivals(events) == Arrivals(events[1..]);
    }
  }

  lemma {:induction false} AddressedMember(events: seq<Event>, i: nat)
    requires i < |events| && events[i].Arrived?
    ensures Addressed(Arrivals(events), events[i].message.id) != []
  {
    if i == 0 {
      RepliesOfArrival(events, events[0].message.id);
    } else {
      AddressedMember(events[1..], i - 1);
      AddressedRest(events, events[i].message.id);
    }
  }

  /** A download goes on expecting the rest of its reply, as long as there is any. */
  lemma StillOwns(e: Handler, events: seq<Event>, h: nat, id: nat)
    requires Multiplexer.Inv(e) && !e.raised && events != [] && Owns(e, events, h, id)
    requires Addressed(Arrivals(events[1..]), id) != []
    ensures Owns(Step(e, events[0]), events[1..], h, id)
  {
    var ev, rest := events[0], events[1..];
    assert LeavesAlone(ev, h) && forall i :: 0 <= i < |rest| ==> rest[i] == events[i + 1];
    assert forall i :: 0 <= i < |rest| ==> LeavesAlone(rest[i], h);
    AddressedRest(events, id);
    hide Multiplexer.Inv, Step, Arrivals, Addressed, LeavesAlone, Receive;
    if ev.Arrived? && ev.message.id == id {
      DownloadedCons(ev.message.body, Addressed(Arrivals(rest), id));
      ReplyStep(e, h, ev.message.body, ev.pause);
      DownloadReceives(e.all[h], ev.message.body, ev.pause);
    } else {
      StepSame(e, ev, h);
      StillDownloading(e.all[h], Step(e, ev).all[h]);
      assert [] + Addressed(Arrivals(rest), id) == Addressed(Arrivals(rest), id);
    }
  }

  lemma OneMoveNotRaised(e: Handler, ev: Event)
    requires ev.Started? || ev.UserCancelled? || ev.GoDue?
    ensures Step(e, ev).raised == e.raised
  {
    hide Apply;
  }

  lemma StepNotRaised(e: Handler, ev: Event)
    requires Multiplexer.Inv(e) && !e.raised
    requires ev.Arrived? ==> exists h: nat :: Downloading(e, h) && e.all[h].id == Some(ev.message.id)
    ensures !Step(e, ev).raised
  {
    hide Multiplexer.Inv, Apply, ResumeEach, LoseEach, Dispatch, Move;
    if ev.Arrived? {
      var h: nat :| Downloading(e, h) && e.all[h].id == Some(ev.message.id);
      ReplyStep(e, h, ev.message.body, ev.pause);
    } else {
      ResumeEachRaised(e, e.requests, if ev.Resumed? then ev.pauses else {});
      LoseEachRaised(e, e.requests, if ev.Lost? then ev.pauses else {});
      if ev.Started? || ev.UserCancelled? || ev.GoDue? { OneMoveNotRaised(e, ev); }
    }
  }

  lemma OwnerDownloads(e: Handler, events: seq<Event>)
    requires events != [] && AllOwned(e, events)
    ensures events[0].Arrived? ==> exists h: nat :: Downloading(e, h) && e.all[h].id == Some(events[0].message.id)
  {
    if events[0].Arrived? {
      var h: nat :| Owns(e, events, h, events[0].message.id);
      assert Downloading(e, h);
    }
  }

  lemma {:induction false} OwnedNotRaised(e: Handler, events: seq<Event>)
    requires Multiplexer.Inv(e) && !e.raised && AllOwned(e, events)
    requires forall i :: 0 <= i < |events| ==> Proper(events[i])
    ensures !Multiplexer.Run(e, events).raised
    decreases |events|
  {
    if events != [] {
      var ev, rest := events[0], events[1..];
      hide Multiplexer.Inv, Step, Expecting, Addressed, Arrivals;
      StepKeepsInv(e, ev);
      OwnerDownloads(e, events);
      StepNotRaised(e, ev);
      forall i | 0 <= i < |rest| && rest[i].Arrived?
        ensures exists h: nat :: Owns(Step(e, ev), rest, h, rest[i].message.id)
      {
        var h: nat :| Owns(e, events, h, events[i + 1].message.id);
        AddressedMember(rest, i);
        StillOwns(e, events, h, rest[i].message.id);
      }
      OwnedNotRaised(Step(e, ev), rest);
    }
  }

  // With the framing

  /** What reaches the connection: bytes from the network, or one of the other events. Of the messages that a
      chunk completes, those numbered in `pauses` make the transport pause the handler inside a write. */
  datatype Input = Chunk(data: seq<byte>, pauses: set<nat>) | Local(event: Event)

  function Chunks(inputs: seq<Input>): (chunks: seq<seq<byte>>)
  {
    if inputs == [] then []
    else (if inputs[0].Chunk? then [inputs[0].data] else []) + Chunks(inputs[1..])
  }

  function Parsed(payloads: seq<seq<byte>>, parse: seq<byte> -> Message): (messages: seq<Message>)
    ensures |messages| == |payloads|
    ensures forall i :: 0 <= i < |payloads| ==> messages[i] == parse(payloads[i])
  {
    seq(|payloads|, i requires 0 <= i < |payloads| => parse(payloads[i]))
  }

  function Deliveries(messages: seq<Message>, pauses: set<nat>): (events: seq<Event>)
    ensures |events| == |messages|
    ensures forall i :: 0 <= i < |messages| ==> events[i] == Arrived(messages[i], i in pauses)
  {
    seq(|messages|, i requires 0 <= i < |messages| => Arrived(messages[i], i in pauses))
  }

  /** `dataReceived` on every chunk, and each frame it completes parsed and processed on the spot. */
  ghost function Events(c: H.Client, inputs: seq<Input>, parse: seq<byte> -> Message): (events: seq<Event>)
    requires H.ValidClient(c)
    decreases |inputs|
  {
    if inputs == [] then []
    else
      match inputs[0]
      case Local(ev) => [ev] + Events(c, inputs[1..], parse)
      case Chunk(data, pauses) =>
        var r := H.Receive(c, data);
        Deliveries(Parsed(r.messages, parse), pauses) + if r.tooBig then [] else Events(r.client, inputs[1..], parse)
  }

  ghost predicate LocalsSendNothing(inputs: seq<Input>)
  {
    forall i :: 0 <= i < |inputs| && inputs[i].Local? ==> !inputs[i].event.Arrived?
  }

  lemma {:induction false} ArrivalsAppend(a: seq<Event>, b: seq<Event>)
    ensures Arrivals(a + b) == Arrivals(a) + Arrivals(b)
  {
    if a == [] {
      assert a + b == b;
    } else {
      assert (a + b)[1..] == a[1..] + b;
      ArrivalsAppend(a[1..], b);
      hide Arrivals;
      var first := if a[0].Arrived? then [a[0].message] else [];
      assert first + (Arrivals(a[1..]) + Arrivals(b)) == first + Arrivals(a[1..]) + Arrivals(b);
    }
  }

  lemma {:induction false} ArrivalsOnly(events: seq<Event>)
    requires forall i :: 0 <= i < |events| ==> events[i].Arrived?
    ensures |Arrivals(events)| == |events|
    ensures forall i :: 0 <= i < |events| ==> Arrivals(events)[i] == events[i].message
  {
    if events != [] {
      ArrivalsOnly(events[1..]);
    }
  }

  lemma ArrivalsOfDeliveries(messages: seq<Message>, pauses: set<nat>)
    ensures Arrivals(Deliveries(messages, pauses)) == messages
  {
    ArrivalsOnly(Deliveries(messages, pauses));
  }

  lemma LocalArrival(events: seq<Event>, parse: seq<byte> -> Message)
    requires |events| <= 1 && forall i :: 0 <= i < |events| ==> !events[i].Arrived?
    ensures Arrivals(events) == [] && Parsed([], parse) == []
  {
  }

  lemma ParsedAppend(a: seq<seq<byte>>, b: seq<seq<byte>>, parse: seq<byte> -> Message)
    ensures Parsed(a + b, parse) == Parsed(a, parse) + Parsed(b, parse)
  {
  }

  /** The first chunk of `ArrivalsOfEvents`. */
  lemma ArrivalsOfChunk(c: H.Client, data: seq<byte>, pauses: set<nat>, rest: seq<Input>, parse: seq<byte> -> Message)
    requires H.ValidClient(c) && LocalsSendNothing(rest)
    ensures Arrivals(Events(c, [Chunk(data, pauses)] + rest, parse))
            == Parsed(H.ReceiveAll(c, [data] + Chunks(rest)).messages, parse)
    decreases |rest|, 1
  {
    hide H.Receive, Arrivals, Deliveries, Parsed, Chunks;
    var r := H.Receive(c, data);
    assert ([data] + Chunks(rest))[1..] == Chunks(rest) && ([Chunk(data, pauses)] + rest)[1..] == rest;
    var now := Parsed(r.messages, parse);
    ArrivalsOfDeliveries(now, pauses);
    if r.tooBig {
      assert Deliveries(now, pauses) + [] == Deliveries(now, pauses);
    } else {
      ArrivalsOfEvents(r.client, rest, parse);
      ArrivalsAppend(Deliveries(now, pauses), Events(r.client, rest, parse));
      ParsedAppend(r.messages, H.ReceiveAll(r.client, Chunks(rest)).messages, parse);
    }
  }

  /** The messages that arrive are those of the decoder, whatever happens between the chunks. */
  lemma {:induction false} ArrivalsOfEvents(c: H.Client, inputs: seq<Input>, parse: seq<byte> -> Message)
    requires H.ValidClient(c) && LocalsSendNothing(inputs)
    ensures Arrivals(Events(c, inputs, parse)) == Parsed(H.ReceiveAll(c, Chunks(inputs)).messages, parse)
    decreases |inputs|, 0
  {
    hide H.Receive, Arrivals, Deliveries, Parsed;
    if inputs == [] {
      LocalArrival([], parse);
    } else {
      var rest := inputs[1..];
      match inputs[0]
      case Local(ev) =>
        ArrivalsOfEvents(c, rest, parse);
        ArrivalsAppend([ev], Events(c, rest, parse));
        LocalArrival([ev], parse);
        assert Chunks(inputs) == Chunks(rest);
      case Chunk(data, pauses) =>
        assert Chunks(inputs) == [data] + Chunks(rest) && inputs == [Chunk(data, pauses)] + rest;
        ArrivalsOfChunk(c, data, pauses, rest, parse);
    }
  }

  lemma {:induction false} ProperEvents(c: H.Client, inputs: seq<Input>, parse: seq<byte> -> Message, h: nat)
    requires H.ValidClient(c)
    requires forall i :: 0 <= i < |inputs| && inputs[i].Local? ==> LeavesAlone(inputs[i].event, h)
    ensures forall i :: 0 <= i < |Events(c, inputs, parse)| ==> LeavesAlone(Events(c, inputs, parse)[i], h)
    decreases |inputs|
  {
    hide H.Receive;
    if inputs != [] {
      if inputs[0].Local? {
        ProperEvents(c, inputs[1..], parse, h);
      } else if !H.Receive(c, inputs[0].data).tooBig {
        ProperEvents(H.Receive(c, inputs[0].data).client, inputs[1..], parse, h);
      }
    }
  }

  /** Download `h` is running, nothing else happens to it, and the messages under its id are one complete reply. */
  ghost predicate Awaiting(e: Handler, inputs: seq<Input>, messages: seq<Message>, h: nat)
  {
    && Downloading(e, h)
    && (forall i :: 0 <= i < |inputs| && inputs[i].Local? ==> LeavesAlone(inputs[i].event, h))
    && Downloaded(Addressed(messages, e.all[h].id.value)).Some?
  }

  /** From the client state `c` on, which may be before the hello line or in the middle of a frame, the decoder
      makes `messages` of the chunks, and the local events happen between the chunks. */
  ghost predicate Carries(c: H.Client, inputs: seq<Input>, messages: seq<Message>, parse: seq<byte> -> Message)
  {
    && H.ValidClient(c) && LocalsSendNothing(inputs)
    && Parsed(H.ReceiveAll(c, Chunks(inputs)).messages, parse) == messages
  }

  /** End to end: what arrives is any interleaving of the replies of any number of downloads, with other messages
      and events in between and pauses inside any write. Every download that is running at the start
      finishes exactly once with exactly the bytes sent under its own id. */
  lemma EndToEnd(e: Handler, c: H.Client, inputs: seq<Input>, messages: seq<Message>, parse: seq<byte> -> Message)
    requires Multiplexer.Inv(e) && Carries(c, inputs, messages, parse)
    requires !Multiplexer.Run(e, Events(c, inputs, parse)).raised
    ensures forall h: nat :: Awaiting(e, inputs, messages, h) ==>
              var end := Multiplexer.Run(e, Events(c, inputs, parse));
              var content := Downloaded(Addressed(messages, e.all[h].id.value)).value;
              h < |end.all| && Complete(end.all[h], e.all[h], content)
  {
    hide Downloaded, Addressed, Complete, Multiplexer.Inv, Events, Multiplexer.Run;
    ArrivalsOfEvents(c, inputs, parse);
    forall h: nat | Awaiting(e, inputs, messages, h)
      ensures var end := Multiplexer.Run(e, Events(c, inputs, parse));
              var content := Downloaded(Addressed(messages, e.all[h].id.value)).value;
              h < |end.all| && Complete(end.all[h], e.all[h], content)
    {
      ProperEvents(c, inputs, parse, h);
      DownloadGetsItsBytes(e, Events(c, inputs, parse), h);
    }
  }

  lemma {:induction false} ArrivedAmong(events: seq<Event>, i: nat)
    requires i < |events| && events[i].Arrived?
    ensures events[i].message in Arrivals(events)
  {
    if i > 0 {
      ArrivedAmong(events[1..], i - 1);
    }
  }

  lemma {:induction false} EventsProper(c: H.Client, inputs: seq<Input>, parse: seq<byte> -> Message)
    requires H.ValidClient(c)
    requires forall i :: 0 <= i < |inputs| && inputs[i].Local? ==> Proper(inputs[i].event)
    ensures forall i :: 0 <= i < |Events(c, inputs, parse)| ==> Proper(Events(c, inputs, parse)[i])
    decreases |inputs|
  {
    hide H.Receive;
    if inputs != [] {
      if inputs[0].Local? {
        EventsProper(c, inputs[1..], parse);
      } else if !H.Receive(c, inputs[0].data).tooBig {
        EventsProper(H.Receive(c, inputs[0].data).client, inputs[1..], parse);
      }
    }
  }

  /** And when the replies of the running downloads are all that arrives, no message is left over either:
      none raises, and every one of the downloads is complete. */
  lemma DownloadsComplete(e: Handler, c: H.Client, inputs: seq<Input>, messages: seq<Message>,
                          parse: seq<byte> -> Message)
    requires Multiplexer.Inv(e) && !e.raised && Carries(c, inputs, messages, parse)
    requires forall i :: 0 <= i < |inputs| && inputs[i].Local? ==> Proper(inputs[i].event)
    requires forall i :: 0 <= i < |messages| ==>
               exists h: nat :: Awaiting(e, inputs, messages, h) && e.all[h].id == Some(messages[i].id)
    ensures var end := Multiplexer.Run(e, Events(c, inputs, parse));
            !end.raised
            && forall h: nat :: Awaiting(e, inputs, messages, h) ==>
                 var content := Downloaded(Addressed(messages, e.all[h].id.value)).value;
                 h < |end.all| && Complete(end.all[h], e.all[h], content)
  {
    hide Downloaded, Addressed, Complete, Multiplexer.Inv, Events, Multiplexer.Run, LeavesAlone, Arrivals;
    var events := Events(c, inputs, parse);
    ArrivalsOfEvents(c, inputs, parse);
    EventsProper(c, inputs, parse);
    forall i | 0 <= i < |events| && events[i].Arrived?
      ensures exists h: nat :: Owns(e, events, h, events[i].message.id)
    {
      ArrivedAmong(events, i);
      var h: nat :| Awaiting(e, inputs, messages, h) && e.all[h].id == Some(events[i].message.id);
      ProperEvents(c, inputs, parse, h);
      assert Owns(e, events, h, events[i].message.id);
    }
    OwnedNotRaised(e, events);
    EndToEnd(e, c, inputs, messages, parse);
  }

  // From the bytes that the peer writes

  /** `serialize` is a wire form of the messages: it fits a frame and `parse` undoes it. */
  ghost predicate WireForm(messages: seq<Message>, serialize: Message -> seq<byte>, parse: seq<byte> -> Message)
  {
    forall i :: 0 <= i < |messages| ==>
      1 <= |serialize(messages[i])| <= F.MAX_MESSAGE_SIZE && parse(serialize(messages[i])) == messages[i]
  }

  function Serialized(messages: seq<Message>, serialize: Message -> seq<byte>): (payloads: seq<seq<byte>>)
    ensures |payloads| == |messages|
    ensures forall i :: 0 <= i < |messages| ==> payloads[i] == serialize(messages[i])
  {
    seq(|messages|, i requires 0 <= i < |messages| => serialize(messages[i]))
  }

  /** The peer writes the frames of `messages`, and the network cuts them into non-empty chunks. Past the hello line
      the first frame may have been begun already; on a new connection the hello line comes first, and one
      chunk holds all of its CR LF. */
  ghost predicate Written(c: H.Client, inputs: seq<Input>, hello: seq<byte>, messages: seq<Message>,
                          serialize: Message -> seq<byte>, parse: seq<byte> -> Message)
  {
    && H.ValidClient(c) && LocalsSendNothing(inputs) && WireForm(messages, serialize, parse)
    && F.NonEmptyChunks(Chunks(inputs)) && F.Packable(Serialized(messages, serialize))
    && if c.lineMode then
         && FirstCrlf(hello + CRLF) == |hello| && H.WithinOneChunk(Chunks(inputs), |hello|)
         && Concat(Chunks(inputs)) == hello + CRLF + F.Frames(Serialized(messages, serialize))
       else F.Unread(c.decoder) + Concat(Chunks(inputs)) == F.Frames(Serialized(messages, serialize))
  }

  /** Past the hello line, the decoder makes of any chunks of the frames what was framed. */
  lemma FramesAfter(c: H.Client, payloads: seq<seq<byte>>, chunks: seq<seq<byte>>)
    requires H.ValidClient(c) && !c.lineMode && F.NonEmptyChunks(chunks)
    requires forall i :: 0 <= i < |payloads| ==> 1 <= |payloads[i]| <= F.MAX_MESSAGE_SIZE
    requires F.Unread(c.decoder) + Concat(chunks) == F.Frames(payloads)
    ensures H.ReceiveAll(c, chunks).messages == payloads
  {
    F.ChunkingInvariance(c.decoder, chunks);
    F.RoundTrip(payloads);
    H.BinaryMode(c.decoder, chunks);
    assert c == H.Client(false, c.decoder);
    hide F.DecodeStream, F.FeedAll, H.ReceiveAll, Concat;
  }

  /** The messages that are processed are the messages written. */
  lemma WrittenCarries(c: H.Client, inputs: seq<Input>, hello: seq<byte>, messages: seq<Message>,
                       serialize: Message -> seq<byte>, parse: seq<byte> -> Message)
    requires Written(c, inputs, hello, messages, serialize, parse)
    ensures Carries(c, inputs, messages, parse)
  {
    hide Chunks, FirstCrlf, Concat, H.ReceiveAll, H.WithinOneChunk, F.Frames, F.Unread;
    var payloads := Serialized(messages, serialize);
    if c.lineMode {
      H.AfterHello(hello, payloads, Chunks(inputs));
    } else {
      FramesAfter(c, payloads, Chunks(inputs));
    }
    assert Parsed(payloads, parse) == messages;
  }

  /** From the bytes that the peer writes to the content of the downloads, at any time of a connection. */
  lemma WireToDownloads(e: Handler, c: H.Client, inputs: seq<Input>, hello: seq<byte>, messages: seq<Message>,
                        serialize: Message -> seq<byte>, parse: seq<byte> -> Message)
    requires Multiplexer.Inv(e) && Written(c, inputs, hello, messages, serialize, parse)
    requires !Multiplexer.Run(e, Events(c, inputs, parse)).raised
    ensures forall h: nat :: Awaiting(e, inputs, messages, h) ==>
              var end := Multiplexer.Run(e, Events(c, inputs, parse));
              var content := Downloaded(Addressed(messages, e.all[h].id.value)).value;
              h < |end.all| && Complete(end.all[h], e.all[h], content)
  {
    WrittenCarries(c, inputs, hello, messages, serialize, parse);
    EndToEnd(e, c, inputs, messages, parse);
    hide *;
  }
}
