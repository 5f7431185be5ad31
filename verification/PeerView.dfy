/** What the other end makes of an upload: its decoder is fed the frames of the wire, cut anywhere, and may not
    have got all of them yet (magicicadaprotocol/request.py, `sendMessage` and `dataReceived`). */
module PeerView {
  import opened ByteStrings
  import opened Options
  import opened Requests
  import opened Multiplexer
  import opened Uploads
  import opened ConnectionRuns
  import D = Downloads
  import F = FrameCodec

  /** A decoder that has seen the beginning of some frames has delivered the first of them. */
  lemma PrefixDecodes(payloads: seq<seq<byte>>, s: seq<byte>)
    requires forall i :: 0 <= i < |payloads| ==> 1 <= |payloads[i]| <= F.MAX_MESSAGE_SIZE
    requires s <= F.Frames(payloads)
    ensures F.DecodeStream(s).messages <= payloads
  {
    F.RoundTrip(payloads);
    hide F.DecodeStream, F.Frames;
    var rest := F.Frames(payloads)[|s|..];
    assert s + rest == F.Frames(payloads);
    if rest == [] {
      assert s == F.Frames(payloads);
    } else {
      F.DecodeSplit(s, rest);
    }
  }

  lemma {:induction false} ContentAppend(a: seq<Body>, b: seq<Body>)
    ensures Content(a + b) == Content(a) + Content(b)
  {
    if b == [] {
      assert a + b == a;
    } else {
      hide Content;
      var front, last := b[..|b| - 1], b[|b| - 1];
      var mine := if IsContent(last) then [last] else [];
      assert b == front + [last] && a + b == a + front + [last];
      ContentSnoc(a + front, last);
      ContentSnoc(front, last);
      ContentAppend(a, front);
      assert Content(a) + Content(front) + mine == Content(a) + (Content(front) + mine);
    }
  }

  /** A part of the wire carries a part of each request's messages. */
  lemma PrefixOfWire(wire: seq<Message>, part: seq<Message>, id: nat)
    requires part <= wire
    ensures OfRequest(part, id) <= OfRequest(wire, id)
    ensures Content(OfRequest(part, id)) <= Content(OfRequest(wire, id))
  {
    var rest := wire[|part|..];
    assert wire == part + rest;
    OfRequestAppend(part, rest, id);
    ContentAppend(OfRequest(part, id), OfRequest(rest, id));
    hide Content, OfRequest;
  }

  /** The messages that the peer has got out of the chunks. */
  ghost function Got(chunks: seq<seq<byte>>, parse: seq<byte> -> Message): seq<Message>
  {
    D.Parsed(F.FeedAll(F.INITIAL, chunks).messages, parse)
  }

  /** The network has brought the peer the chunks so far of the frames of the wire. */
  ghost predicate Brings(chunks: seq<seq<byte>>, wire: seq<Message>, serialize: Message -> seq<byte>,
                         parse: seq<byte> -> Message)
  {
    && D.WireForm(wire, serialize, parse) && F.Packable(D.Serialized(wire, serialize))
    && F.NonEmptyChunks(chunks) && Concat(chunks) <= F.Frames(D.Serialized(wire, serialize))
  }

  lemma ParsedPrefix(payloads: seq<seq<byte>>, wire: seq<Message>, serialize: Message -> seq<byte>,
                     parse: seq<byte> -> Message)
    requires D.WireForm(wire, serialize, parse) && payloads <= D.Serialized(wire, serialize)
    ensures D.Parsed(payloads, parse) == wire[..|payloads|]
  {
  }

  lemma GotIsPrefix(chunks: seq<seq<byte>>, wire: seq<Message>, serialize: Message -> seq<byte>,
                    parse: seq<byte> -> Message)
    requires Brings(chunks, wire, serialize, parse)
    ensures Got(chunks, parse) <= wire
    ensures Concat(chunks) == F.Frames(D.Serialized(wire, serialize)) ==> Got(chunks, parse) == wire
  {
    var payloads := D.Serialized(wire, serialize);
    F.ChunkingInvariance(F.INITIAL, chunks);
    assert F.Unread(F.INITIAL) + Concat(chunks) == Concat(chunks);
    PrefixDecodes(payloads, Concat(chunks));
    F.RoundTrip(payloads);
    hide F.DecodeStream, F.FeedAll, F.Frames, Concat;
    ParsedPrefix(F.FeedAll(F.INITIAL, chunks).messages, wire, serialize, parse);
  }

  /** What a canonical prefix tells the peer. */
  lemma PrefixTells(mine: seq<Body>, base: seq<byte>, maxPayload: nat)
    requires maxPayload > 0 && mine <= Canonical(base, maxPayload)
    ensures Payload(mine) <= base && (Eof in mine ==> Payload(mine) == base)
  {
    PrefixOfUpload(base, maxPayload, |mine|);
    hide Canonical, Payload;
    assert mine == Canonical(base, maxPayload)[..|mine|];
  }

  lemma PrefixStill(part: seq<Body>, whole: seq<Body>)
    requires part <= whole && CancelIsLast(whole)
    ensures CancelIsLast(part)
  {
  }

  /** Upload safety at the other end, at any moment of any run of the connection and however the network cuts
      the bytes: the content that the peer has got under the upload's id is a prefix of the requested
      suffix, an EOF among it means that it is all of it, and nothing follows a CANCEL_REQUEST. */
  lemma UploadAtPeer(e: Handler, h: nat, offset: nat, pause: bool, events: seq<Event>, chunks: seq<seq<byte>>,
                     serialize: Message -> seq<byte>, parse: seq<byte> -> Message)
    requires Multiplexer.Inv(e) && h < |e.all| && e.all[h].kind.Upload? && e.all[h].started && !e.raised
    requires e.all[h].producers == [] && e.all[h].maxPayload > 0
    requires forall i :: 0 <= i < |events| ==> Proper(events[i])
    requires var begun := Step(e, Arrived(Message(e.all[h].id.value, BeginContent(offset)), pause));
             var end := Multiplexer.Run(begun, events);
             h < |end.all| && |end.all[h].producers| == 1 && Brings(chunks, end.wire, serialize, parse)
    ensures var r := e.all[h];
            var mine := OfRequest(Got(chunks, parse), r.id.value);
            var base := Suffix(r.file, if offset != 0 then offset else r.position);
            && Content(mine) <= Canonical(base, r.maxPayload) && CancelIsLast(mine)
            && Payload(Content(mine)) <= base && (Eof in Content(mine) ==> Payload(Content(mine)) == base)
  {
    var r := e.all[h];
    var end := Multiplexer.Run(Step(e, Arrived(Message(r.id.value, BeginContent(offset)), pause)), events);
    UploadOnTheWire(e, h, offset, pause, events);
    GotIsPrefix(chunks, end.wire, serialize, parse);
    hide *;
    var got, id := Got(chunks, parse), r.id.value;
    var base := Suffix(r.file, if offset != 0 then offset else r.position);
    PrefixOfWire(end.wire, got, id);
    PrefixStill(OfRequest(got, id), OfRequest(end.wire, id));
    PrefixTells(Content(OfRequest(got, id)), base, r.maxPayload);
  }

  /** And it arrives: once an upload that is producing has made its remaining calls, and the bytes of the wire have
      come through, the peer has all of the requested suffix. */
  lemma UploadArrives(e: Handler, h: nat, base: seq<byte>, chunks: seq<seq<byte>>,
                      serialize: Message -> seq<byte>, parse: seq<byte> -> Message)
    requires Multiplexer.Inv(e) && h < |e.all| && e.all[h].id.Some?
    requires OnTrack(e.all[h], base) && Active(e.all[h], 0)
    requires var end := Multiplexer.Run(e, GoDues(h, |ToSend(e.all[h])|));
             && Brings(chunks, end.wire, serialize, parse)
             && Concat(chunks) == F.Frames(D.Serialized(end.wire, serialize))
    ensures var mine := Content(OfRequest(Got(chunks, parse), e.all[h].id.value));
            mine == Canonical(base, e.all[h].maxPayload) && Payload(mine) == base
  {
    var end := Multiplexer.Run(e, GoDues(h, |ToSend(e.all[h])|));
    UploadReachesEof(e, h, base);
    GotIsPrefix(chunks, end.wire, serialize, parse);
    CanonicalPayload(base, e.all[h].maxPayload);
    hide *;
  }
}
