/** The length-prefixed framing of magicicadaprotocol/request.py: `sendMessage` writes a frame,
    `buildMessage` takes a byte stream apart again however the network cuts it. */
module FrameCodec {
  import opened ByteStrings

  const SIZE_FMT_SIZE := 4
  const MAX_MESSAGE_SIZE := 65536

  /** `struct.pack("!I", n)`. */
  function Pack(n: nat): (s: seq<byte>)
    requires n < 0x1_0000_0000
    ensures |s| == SIZE_FMT_SIZE
  {
    [n / 0x100_0000, n / 0x1_0000 % 256, n / 256 % 256, n % 256]
  }

  /** `struct.unpack("!I", s)[0]`. */
  function Unpack(s: seq<byte>): (n: nat)
    requires |s| == SIZE_FMT_SIZE
    ensures n < 0x1_0000_0000
  {
    var hi: int, mid: int, lo: int := s[0], s[1], s[2];
    hi * 0x100_0000 + mid * 0x1_0000 + lo * 256 + s[3]
  }

  lemma UnpackPack(n: nat)
    requires n < 0x1_0000_0000
    ensures Unpack(Pack(n)) == n
  {
    assert n / 0x1_0000 == n / 0x100_0000 * 256 + n / 0x1_0000 % 256;
    assert n / 256 == n / 0x1_0000 * 256 + n / 256 % 256;
  }

  lemma PackUnpack(s: seq<byte>)
    requires |s| == SIZE_FMT_SIZE
    ensures Pack(Unpack(s)) == s
  {
    var n := Unpack(s);
    var hi: int, mid: int, lo: int := s[0], s[1], s[2];
    assert n / 256 == hi * 0x1_0000 + mid * 256 + lo;
    assert n / 0x1_0000 == hi * 256 + mid;
    assert n / 0x100_0000 == hi;
  }

  datatype Phase = Size | Message

  /** What the decoder remembers between calls: `waiting_for`, the joined `pending_parts`, `pending_length`. */
  datatype State = State(phase: Phase, buffer: seq<byte>, pending: nat)

  const INITIAL := State(Size, [], SIZE_FMT_SIZE)

  /** The buffered bytes and the missing bytes always make up the unit being read; a unit that needs
      nothing more is a zero-length message still waiting for the next byte of the stream. */
  ghost predicate Reachable(st: State)
  {
    match st.phase
    case Size => |st.buffer| + st.pending == SIZE_FMT_SIZE && st.pending > 0
    case Message => |st.buffer| + st.pending <= MAX_MESSAGE_SIZE && (st.pending > 0 || st.buffer == [])
  }

  /** The bytes received and not yet delivered, header included. */
  ghost function Unread(st: State): (s: seq<byte>)
    requires Reachable(st)
  {
    match st.phase
    case Size => st.buffer
    case Message => Pack(|st.buffer| + st.pending) + st.buffer
  }

  /** What reading some bytes gives: the delivered messages, the state left behind, and whether an
      oversized header stopped it. */
  datatype Decoded = Decoded(messages: seq<seq<byte>>, state: State, tooBig: bool)

  function After(messages: seq<seq<byte>>, d: Decoded): Decoded
  {
    d.(messages := messages + d.messages)
  }

  /** The reference decoder: it has the whole stream in front of it. */
  function DecodeStream(s: seq<byte>): (d: Decoded)
    ensures !d.tooBig ==> Reachable(d.state)
    ensures d.tooBig ==> d.state == State(Size, [], 0)
  {
    if |s| < SIZE_FMT_SIZE then Decoded([], State(Size, s, SIZE_FMT_SIZE - |s|), false)
    else
      var size := Unpack(s[..4]);
      var body := s[4..];
      if size > MAX_MESSAGE_SIZE then Decoded([], State(Size, [], 0), true)
      else if |body| < size || body == [] then Decoded([], State(Message, body, size - |body|), false)
      else After([body[..size]], DecodeStream(body[size..]))
  }

  /** What one `buildMessage(data)` call does from state `st`. Only an empty chunk can tell a
      pending zero-length message from any other unfinished unit. */
  ghost function Feed(st: State, data: seq<byte>): (d: Decoded)
    requires Reachable(st)
    ensures !d.tooBig ==> Reachable(d.state)
  {
    if data == [] && st.pending == 0 then Decoded([[]], INITIAL, false)
    else DecodeStream(Unread(st) + data)
  }

  /** One `buildMessage` call per chunk; an oversized header drops the connection and with it the rest. */
  ghost function FeedAll(st: State, chunks: seq<seq<byte>>): (d: Decoded)
    requires Reachable(st)
    decreases |chunks|
  {
    if chunks == [] then Decoded([], st, false)
    else
      var d := Feed(st, chunks[0]);
      if d.tooBig then d else After(d.messages, FeedAll(d.state, chunks[1..]))
  }

  // Reading in two parts

  lemma UnreadDecodes(st: State)
    requires Reachable(st)
    ensures DecodeStream(Unread(st)) == Decoded([], st, false)
  {
    if st.phase == Message {
      var size := |st.buffer| + st.pending;
      UnpackPack(size);
      assert (Pack(size) + st.buffer)[..4] == Pack(size);
      assert (Pack(size) + st.buffer)[4..] == st.buffer;
    }
  }

  lemma DecodeFrame(m: seq<byte>, rest: seq<byte>)
    requires |m| <= MAX_MESSAGE_SIZE && m + rest != []
    ensures DecodeStream(Pack(|m|) + m + rest) == After([m], DecodeStream(rest))
  {
    var s := Pack(|m|) + m + rest;
    UnpackPack(|m|);
    assert s[..4] == Pack(|m|);
    assert s[4..] == m + rest;
    assert (m + rest)[..|m|] == m && (m + rest)[|m|..] == rest;
  }

  /** A stream either starts with a complete frame or gives no message. */
  lemma StartsWithFrame(s: seq<byte>) returns (m: seq<byte>, rest: seq<byte>)
    requires DecodeStream(s).messages != []
    ensures |m| <= MAX_MESSAGE_SIZE && m + rest != []
    ensures s == Pack(|m|) + m + rest
  {
    var size := Unpack(s[..4]);
    var body := s[4..];
    m, rest := body[..size], body[size..];
    PackUnpack(s[..4]);
    assert s == s[..4] + body;
    assert body == m + rest;
  }

  /** A stream without a complete frame is all header or all buffered, or starts with an oversized header. */
  lemma NoFrameYet(a: seq<byte>, b: seq<byte>)
    requires DecodeStream(a).messages == []
    ensures DecodeStream(a).tooBig ==> DecodeStream(a + b) == DecodeStream(a)
    ensures !DecodeStream(a).tooBig ==> Unread(DecodeStream(a).state) == a
  {
    if |a| >= SIZE_FMT_SIZE {
      assert (a + b)[..4] == a[..4];
      assert Pack(Unpack(a[..4])) + a[4..] == a by {
        PackUnpack(a[..4]);
        assert a == a[..4] + a[4..];
      }
      hide Pack;
    }
  }

  lemma AfterAfter(first: seq<seq<byte>>, second: seq<seq<byte>>, d: Decoded)
    ensures After(first, After(second, d)) == After(first + second, d)
  {
    assert first + (second + d.messages) == first + second + d.messages;
  }

  /** Decoding stops at the same place whatever follows, and what follows is decoded from there. */
  lemma {:induction false} DecodeSplit(a: seq<byte>, b: seq<byte>)
    requires b != []
    ensures DecodeStream(a).tooBig ==> DecodeStream(a + b) == DecodeStream(a)
    ensures !DecodeStream(a).tooBig ==>
              DecodeStream(a + b) == After(DecodeStream(a).messages, DecodeStream(Unread(DecodeStream(a).state) + b))
    decreases |a|
  {
    hide DecodeStream, Pack, Unpack;
    var d := DecodeStream(a);
    if d.messages == [] {
      NoFrameYet(a, b);
      assert After([], DecodeStream(a + b)) == DecodeStream(a + b);
    } else {
      var m, rest := StartsWithFrame(a);
      DecodeFrame(m, rest);
      DecodeSplit(rest, b);
      var e := DecodeStream(rest);
      assert a + b == Pack(|m|) + m + (rest + b);
      DecodeFrame(m, rest + b);
      if !d.tooBig {
        AfterAfter([m], e.messages, DecodeStream(Unread(e.state) + b));
      }
    }
  }

  /** Delivery does not depend on where a stream is cut in two. */
  lemma FeedSplit(st: State, a: seq<byte>, b: seq<byte>)
    requires Reachable(st) && a != [] && b != []
    ensures Feed(st, a).tooBig ==> Feed(st, a + b) == Feed(st, a)
    ensures !Feed(st, a).tooBig ==> Feed(st, a + b) == After(Feed(st, a).messages, Feed(Feed(st, a).state, b))
  {
    hide DecodeStream;
    DecodeSplit(Unread(st) + a, b);
    assert Unread(st) + (a + b) == Unread(st) + a + b;
  }

  ghost predicate NonEmptyChunks(chunks: seq<seq<byte>>)
  {
    forall i :: 0 <= i < |chunks| ==> chunks[i] != []
  }

  lemma ConcatEmpty(chunks: seq<seq<byte>>)
    requires NonEmptyChunks(chunks) && Concat(chunks) == []
    ensures chunks == []
  {
  }

  /** Chunking invariance: any split of a stream into non-empty chunks delivers the same messages and
      leaves the same buffer, pending length and phase as the whole-stream reference decoder. */
  lemma {:induction false} ChunkingInvariance(st: State, chunks: seq<seq<byte>>)
    requires Reachable(st) && NonEmptyChunks(chunks)
    ensures FeedAll(st, chunks) == DecodeStream(Unread(st) + Concat(chunks))
    decreases |chunks|
  {
    hide DecodeStream;
    if chunks == [] {
      UnreadDecodes(st);
      assert Unread(st) + Concat(chunks) == Unread(st);
    } else {
      var a, b := chunks[0], Concat(chunks[1..]);
      var d := Feed(st, a);
      if b == [] {
        assert a + b == a;
        ConcatEmpty(chunks[1..]);
        assert After(d.messages, Decoded([], d.state, false)) == d || d.tooBig;
      } else {
        FeedSplit(st, a, b);
        if !d.tooBig {
          ChunkingInvariance(d.state, chunks[1..]);
        }
      }
    }
  }

  // The sending side

  /** What `struct.pack("!I", len(m))` accepts. */
  ghost predicate Packable(messages: seq<seq<byte>>)
  {
    forall i :: 0 <= i < |messages| ==> |messages[i]| < 0x1_0000_0000
  }

  /** What the receiving side accepts. */
  ghost predicate Sendable(messages: seq<seq<byte>>)
  {
    forall i :: 0 <= i < |messages| ==> |messages[i]| <= MAX_MESSAGE_SIZE
  }

  /** The bytes that sending `messages` one after the other puts on the wire. */
  ghost function Frames(messages: seq<seq<byte>>): (s: seq<byte>)
    requires Packable(messages)
  {
    if messages == [] then [] else Pack(|messages[0]|) + messages[0] + Frames(messages[1..])
  }

  lemma {:induction false} FramesSnoc(messages: seq<seq<byte>>, m: seq<byte>)
    requires Packable(messages) && |m| < 0x1_0000_0000
    ensures Packable(messages + [m])
    ensures Frames(messages + [m]) == Frames(messages) + (Pack(|m|) + m)
  {
    if messages == [] {
      assert messages + [m] == [m];
      assert Frames([m]) == Pack(|m|) + m + Frames([]);
    } else {
      assert (messages + [m])[1..] == messages[1..] + [m];
      FramesSnoc(messages[1..], m);
    }
  }

  ghost predicate EndsEmpty(messages: seq<seq<byte>>)
  {
    messages != [] && messages[|messages| - 1] == []
  }

  lemma FirstFrame(messages: seq<seq<byte>>, tail: seq<byte>)
    requires messages != [] && Sendable(messages) && (EndsEmpty(messages) ==> tail != [])
    ensures Frames(messages) + tail == Pack(|messages[0]|) + messages[0] + (Frames(messages[1..]) + tail)
    ensures messages[0] + (Frames(messages[1..]) + tail) != []
    ensures EndsEmpty(messages[1..]) ==> tail != []
  {
    var m, rest := messages[0], messages[1..];
    assert rest != [] ==> rest[|rest| - 1] == messages[|messages| - 1];
    if m == [] && tail == [] {
      assert rest != [];
      assert |Frames(rest)| >= 4;
    }
  }

  /** A list of frames is decoded to the list, and what follows is decoded as if it stood alone. */
  lemma {:induction false} DecodeFrames(messages: seq<seq<byte>>, tail: seq<byte>)
    requires Sendable(messages)
    requires EndsEmpty(messages) ==> tail != []
    ensures DecodeStream(Frames(messages) + tail) == After(messages, DecodeStream(tail))
  {
    hide DecodeStream;
    if messages == [] {
      assert Frames(messages) + tail == tail;
    } else {
      var m, rest := messages[0], messages[1..];
      FirstFrame(messages, tail);
      hide Frames, Pack;
      DecodeFrame(m, Frames(rest) + tail);
      DecodeFrames(rest, tail);
      AfterAfter([m], rest, DecodeStream(tail));
      assert messages == [m] + rest;
    }
  }

  lemma EmptyFrameWaits()
    ensures DecodeStream(Pack(0)) == Decoded([], State(Message, [], 0), false)
  {
    UnpackPack(0);
    assert Pack(0)[..4] == Pack(0);
  }

  lemma TrailingEmptyWaits(front: seq<seq<byte>>)
    requires Sendable(front)
    ensures Packable(front + [[]])
    ensures DecodeStream(Frames(front + [[]])) == Decoded(front, State(Message, [], 0), false)
  {
    hide DecodeStream;
    FramesSnoc(front, []);
    assert Pack(0) + [] == Pack(0);
    DecodeFrames(front, Pack(0));
    EmptyFrameWaits();
    assert front + [] == front;
  }

  lemma FramesAlone(messages: seq<seq<byte>>)
    requires Sendable(messages) && !EndsEmpty(messages)
    ensures DecodeStream(Frames(messages)) == Decoded(messages, INITIAL, false)
  {
    DecodeFrames(messages, []);
    assert Frames(messages) + [] == Frames(messages);
    assert DecodeStream([]) == Decoded([], INITIAL, false);
    assert messages + [] == messages;
  }

  /** Frame round trip, for every list of messages that may be sent: what comes out is the list
      itself, except that a trailing empty message is still waiting for one more byte. */
  lemma RoundTrip(messages: seq<seq<byte>>)
    requires Sendable(messages)
    ensures DecodeStream(Frames(messages))
            == if EndsEmpty(messages) then Decoded(messages[..|messages| - 1], State(Message, [], 0), false)
               else Decoded(messages, INITIAL, false)
  {
    hide DecodeStream, Frames;
    if EndsEmpty(messages) {
      var front := messages[..|messages| - 1];
      assert messages == front + [[]];
      TrailingEmptyWaits(front);
    } else {
      FramesAlone(messages);
    }
  }

  /** The first oversized header stops delivery after exactly the frames before it, whatever follows. */
  lemma OversizedStops(messages: seq<seq<byte>>, size: nat, tail: seq<byte>)
    requires Sendable(messages)
    requires MAX_MESSAGE_SIZE < size < 0x1_0000_0000
    ensures DecodeStream(Frames(messages) + (Pack(size) + tail)) == Decoded(messages, State(Size, [], 0), true)
  {
    var end := Pack(size) + tail;
    UnpackPack(size);
    assert end[..4] == Pack(size);
    DecodeFrames(messages, end);
  }

  lemma EmptyMessageFirst(st: State, data: seq<byte>)
    requires Reachable(st) && st.pending == 0 && data != []
    ensures Feed(st, data) == After([[]], Feed(INITIAL, data))
  {
    UnpackPack(0);
    assert Unread(st) + data == Pack(0) + [] + data;
    DecodeFrame([], data);
    assert Unread(INITIAL) + data == data;
  }

  /** What the loop relies on: the bytes that complete the current unit can be read first. */
  lemma CompleteUnitFirst(st: State, log: seq<seq<byte>>, data: seq<byte>)
    requires Reachable(st) && |data| > st.pending
    ensures var d := Feed(st, data[..st.pending]);
            After(log, Feed(st, data))
            == if d.tooBig then After(log, d) else After(After(log, d).messages, Feed(d.state, data[st.pending..]))
  {
    hide DecodeStream;
    var p := st.pending;
    var d := Feed(st, data[..p]);
    if p == 0 {
      EmptyMessageFirst(st, data);
    } else {
      assert data == data[..p] + data[p..];
      FeedSplit(st, data[..p], data[p..]);
    }
    if !d.tooBig {
      AfterAfter(log, d.messages, Feed(d.state, data[p..]));
    }
  }

  lemma PartialUnit(st: State, data: seq<byte>)
    requires Reachable(st) && |data| < st.pending
    ensures Feed(st, data) == Decoded([], State(st.phase, st.buffer + data, st.pending - |data|), false)
  {
    var next := State(st.phase, st.buffer + data, st.pending - |data|);
    UnreadDecodes(next);
    assert Unread(st) + data == Unread(next);
  }

  lemma CompleteHeader(st: State, data: seq<byte>)
    requires Reachable(st) && |data| == st.pending && st.phase == Size
    ensures |st.buffer + data| == SIZE_FMT_SIZE
    ensures var size := Unpack(st.buffer + data);
            Feed(st, data) == if size > MAX_MESSAGE_SIZE then Decoded([], State(Size, [], 0), true)
                              else Decoded([], State(Message, [], size), false)
  {
    var s := st.buffer + data;
    assert s[..4] == s && s[4..] == [];
  }

  lemma CompleteMessage(st: State, data: seq<byte>)
    requires Reachable(st) && |data| == st.pending && st.phase == Message
    ensures Feed(st, data) == Decoded([st.buffer + data], INITIAL, false)
  {
    var m := st.buffer + data;
    if st.pending > 0 {
      assert Unread(st) + data == Pack(|m|) + m + [];
      DecodeFrame(m, []);
    } else {
      assert m == [];
    }
  }

  /** The framing half of `RequestHandler`. `delivered` stands for the calls of `processMessage`. */
  class FrameDecoder {
    var pendingLength: nat
    var waitingFor: Phase
    var pendingParts: seq<seq<byte>>
    var delivered: seq<seq<byte>>

    ghost function View(): State
      reads this
    {
      State(waitingFor, Concat(pendingParts), pendingLength)
    }

    ghost predicate Valid()
      reads this
    {
      Reachable(View())
    }

    constructor ()
      ensures Valid() && View() == INITIAL && delivered == []
    {
      pendingLength := SIZE_FMT_SIZE;
      waitingFor := Size;
      pendingParts := [];
      delivered := [];
    }

    /** The `else` branch of the loop: the chunk's last part completes the unit at most. */
    method LastPart(data: seq<byte>) returns (ok: bool)
      requires Valid() && |data| <= pendingLength
      modifies this
      ensures Decoded(delivered, View(), !ok) == After(old(delivered), Feed(old(View()), data))
    {
      ghost var before := View();
      ConcatSnoc(pendingParts, data);
      pendingParts := pendingParts + [data];
      pendingLength := pendingLength - |data|;
      ok := true;
      if pendingLength == 0 {
        var buf := Concat(pendingParts);
        pendingParts := [];
        if waitingFor == Size {
          CompleteHeader(before, data);
          var size := Unpack(buf);
          if size > MAX_MESSAGE_SIZE {
            return false;
          }
          pendingLength := size;
          waitingFor := Message;
        } else {
          CompleteMessage(before, data);
          waitingFor := Size;
          pendingLength := SIZE_FMT_SIZE;
          delivered := delivered + [buf];
        }
      } else {
        PartialUnit(before, data);
      }
    }

    /** `buildMessage`; false is the "message too big" exception. A full unit calls back into
        the method itself with exactly the bytes that complete it; a pending zero-length message
        is completed by an empty prefix, so the loop's measure counts that too. */
    method BuildMessage(input: seq<byte>) returns (ok: bool)
      requires Valid()
      modifies this
      ensures Decoded(delivered, View(), !ok) == After(old(delivered), Feed(old(View()), input))
      decreases |input|
    {
      ghost var goal := After(delivered, Feed(View(), input));
      var data := input;
      while |data| > pendingLength
        invariant Valid() && |data| <= |input|
        invariant After(delivered, Feed(View(), data)) == goal
        decreases |data|, if pendingLength == 0 then 1 else 0
      {
        var p := pendingLength;
        CompleteUnitFirst(View(), delivered, data);
        ok := BuildMessage(data[..p]);
        if !ok {
          return;
        }
        data := data[p..];
      }
      ok := LastPart(data);
    }
  }

  /** The writing half of `RequestHandler`: two writes to the transport for each message. */
  class FrameSender {
    var wire: seq<byte>
    ghost var messages: seq<seq<byte>>

    ghost predicate Valid()
      reads this
    {
      && Packable(messages)
      && wire == Frames(messages)
    }

    constructor ()
      ensures Valid() && messages == []
    {
      wire := [];
      messages := [];
    }

    method Write(data: seq<byte>)
      modifies `wire
      ensures wire == old(wire) + data
    {
      wire := wire + data;
    }

    /** `sendMessage` after serialization. */
    method SendMessage(m: seq<byte>)
      requires Valid() && |m| < 0x1_0000_0000
      modifies this
      ensures Valid() && messages == old(messages) + [m]
    {
      FramesSnoc(messages, m);
      assert wire + Pack(|m|) + m == wire + (Pack(|m|) + m);
      Write(Pack(|m|));
      Write(m);
      messages := messages + [m];
    }
  }

  /** Sender to receiver: whatever chunks the sender's bytes arrive in, the receiver's decoder gets
      exactly the messages, and is back in its initial state. */
  lemma Transmission(messages: seq<seq<byte>>, chunks: seq<seq<byte>>)
    requires forall i :: 0 <= i < |messages| ==> 1 <= |messages[i]| <= MAX_MESSAGE_SIZE
    requires NonEmptyChunks(chunks) && Concat(chunks) == Frames(messages)
    ensures FeedAll(INITIAL, chunks) == Decoded(messages, INITIAL, false)
  {
    hide DecodeStream;
    ChunkingInvariance(INITIAL, chunks);
    assert Unread(INITIAL) + Concat(chunks) == Frames(messages);
    RoundTrip(messages);
  }
}
