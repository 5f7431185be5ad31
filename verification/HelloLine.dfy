/** The client's entry point for network data (magicicadaprotocol/client.py, `StorageClient.dataReceived`):
    a hello line ended by CR LF, then frames. The search for CR LF looks at one chunk at a time and
    forgets the chunks it was not found in. */
module HelloLine {
  import opened ByteStrings
  import opened FrameCodec

  datatype Client = Client(lineMode: bool, decoder: State)

  const CONNECTED := Client(true, INITIAL)

  datatype Received = Received(messages: seq<seq<byte>>, client: Client, tooBig: bool)

  ghost predicate ValidClient(c: Client)
  {
    Reachable(c.decoder) && (c.lineMode ==> c.decoder == INITIAL)
  }

  /** What one `dataReceived(data)` call does. */
  ghost function Receive(c: Client, data: seq<byte>): (r: Received)
    requires ValidClient(c)
    ensures !r.tooBig ==> ValidClient(r.client)
  {
    if c.lineMode && FirstCrlf(data) < 0 then Received([], c, false)
    else
      var d := Feed(c.decoder, if c.lineMode then data[FirstCrlf(data) + 2..] else data);
      Received(d.messages, Client(false, d.state), d.tooBig)
  }

  ghost function ReceiveAll(c: Client, chunks: seq<seq<byte>>): (r: Received)
    requires ValidClient(c)
    decreases |chunks|
  {
    if chunks == [] then Received([], c, false)
    else
      var r := Receive(c, chunks[0]);
      if r.tooBig then r
      else
        var rest := ReceiveAll(r.client, chunks[1..]);
        rest.(messages := r.messages + rest.messages)
  }

  class StorageClient {
    var lineMode: bool
    const decoder: FrameDecoder

    ghost function View(): Client
      reads this, decoder
    {
      Client(lineMode, decoder.View())
    }

    ghost predicate Valid()
      reads this, decoder
    {
      ValidClient(View())
    }

    constructor ()
      ensures Valid() && View() == CONNECTED && decoder.delivered == [] && fresh(decoder)
    {
      lineMode := true;
      decoder := new FrameDecoder();
    }

    /** `dataReceived`; false when the connection is dropped for an oversized message. */
    method DataReceived(input: seq<byte>) returns (ok: bool)
      requires Valid()
      modifies this, decoder
      ensures var r := Receive(old(View()), input);
              View() == r.client && decoder.delivered == old(decoder.delivered) + r.messages && ok == !r.tooBig
    {
      var data := input;
      if lineMode {
        var pos := FirstCrlf(data);
        if pos < 0 {
          return true;
        }
        lineMode := false;
        data := data[pos + 2..];
      }
      ok := decoder.BuildMessage(data);
    }
  }

  // Runs

  lemma {:induction false} BinaryMode(st: State, chunks: seq<seq<byte>>)
    requires Reachable(st)
    ensures var d := FeedAll(st, chunks);
            ReceiveAll(Client(false, st), chunks) == Received(d.messages, Client(false, d.state), d.tooBig)
    decreases |chunks|
  {
    hide DecodeStream;
    if chunks != [] {
      var d := Feed(st, chunks[0]);
      if !d.tooBig {
        BinaryMode(d.state, chunks[1..]);
      }
    }
  }

  /** The first chunk with a CR LF in it ends the hello line, wherever in the stream it lies. */
  ghost predicate EndsHello(chunks: seq<seq<byte>>, k: int)
  {
    && 0 <= k < |chunks|
    && FirstCrlf(chunks[k]) >= 0
    && forall i :: 0 <= i < k ==> FirstCrlf(chunks[i]) < 0
  }

  /** The bytes after the hello line are read like any other chunk, even when there are none. */
  lemma RestOfHelloChunk(first: seq<byte>, rest: seq<seq<byte>>)
    requires NonEmptyChunks(rest)
    ensures FeedAll(INITIAL, [first] + rest) == DecodeStream(first + Concat(rest))
  {
    hide DecodeStream;
    assert Unread(INITIAL) == [];
    assert ([first] + rest)[1..] == rest;
    if first == [] {
      UnreadDecodes(INITIAL);
      ChunkingInvariance(INITIAL, rest);
      assert [] + first == [];
      assert Unread(INITIAL) + Concat(rest) == first + Concat(rest);
      var d := FeedAll(INITIAL, rest);
      assert [] + d.messages == d.messages;
    } else {
      ChunkingInvariance(INITIAL, [first] + rest);
      assert [] + (first + Concat(rest)) == first + Concat(rest);
    }
  }

  lemma SameFromHere(chunk: seq<byte>, rest: seq<seq<byte>>)
    requires FirstCrlf(chunk) >= 0
    ensures ReceiveAll(CONNECTED, [chunk] + rest)
            == ReceiveAll(Client(false, INITIAL), [chunk[FirstCrlf(chunk) + 2..]] + rest)
  {
    assert ([chunk] + rest)[1..] == rest;
    assert ([chunk[FirstCrlf(chunk) + 2..]] + rest)[1..] == rest;
  }

  lemma HelloInFirst(chunk: seq<byte>, rest: seq<seq<byte>>)
    requires FirstCrlf(chunk) >= 0 && NonEmptyChunks(rest)
    ensures var d := DecodeStream(chunk[FirstCrlf(chunk) + 2..] + Concat(rest));
            ReceiveAll(CONNECTED, [chunk] + rest) == Received(d.messages, Client(false, d.state), d.tooBig)
  {
    hide DecodeStream, FeedAll, ReceiveAll, Concat;
    var left := chunk[FirstCrlf(chunk) + 2..];
    RestOfHelloChunk(left, rest);
    BinaryMode(INITIAL, [left] + rest);
    SameFromHere(chunk, rest);
  }

  /** What a connection delivers, for every chunking: exactly the frames that follow the CR LF found. */
  lemma {:induction false} DeliversAfterHello(chunks: seq<seq<byte>>, k: int)
    requires NonEmptyChunks(chunks) && EndsHello(chunks, k)
    ensures var d := DecodeStream(chunks[k][FirstCrlf(chunks[k]) + 2..] + Concat(chunks[k + 1..]));
            ReceiveAll(CONNECTED, chunks) == Received(d.messages, Client(false, d.state), d.tooBig)
    decreases k
  {
    hide DecodeStream, FeedAll, Concat;
    var rest := chunks[1..];
    assert chunks == [chunks[0]] + rest;
    if k > 0 {
      assert EndsHello(rest, k - 1);
      assert rest[k - 1 + 1..] == chunks[k + 1..];
      DeliversAfterHello(rest, k - 1);
      var r := ReceiveAll(CONNECTED, rest);
      assert [] + r.messages == r.messages;
    } else {
      hide ReceiveAll;
      assert chunks[k + 1..] == rest;
      HelloInFirst(chunks[0], rest);
    }
  }

  lemma {:induction false} NeverLeavesLineMode(chunks: seq<seq<byte>>)
    requires forall i :: 0 <= i < |chunks| ==> FirstCrlf(chunks[i]) < 0
    ensures ReceiveAll(CONNECTED, chunks) == Received([], CONNECTED, false)
  {
    if chunks != [] {
      NeverLeavesLineMode(chunks[1..]);
    }
  }

  /** The delivered messages never hold more bytes than the stream did. */
  lemma {:induction false} DeliveredSize(s: seq<byte>)
    ensures Sendable(DecodeStream(s).messages)
    ensures |Frames(DecodeStream(s).messages)| <= |s|
    decreases |s|
  {
    hide DecodeStream;
    var d := DecodeStream(s);
    if d.messages != [] {
      var m, rest := StartsWithFrame(s);
      DecodeFrame(m, rest);
      DeliveredSize(rest);
      assert d.messages[1..] == DecodeStream(rest).messages;
    }
  }

  /** Bytes of the chunks before chunk `k`. */
  ghost function Before(chunks: seq<seq<byte>>, k: nat): nat
    requires k <= |chunks|
  {
    |Concat(chunks[..k])|
  }

  /** No cut falls between the CR and the LF at offset `at` of the stream. */
  ghost predicate WithinOneChunk(chunks: seq<seq<byte>>, at: nat)
  {
    exists k :: 0 <= k < |chunks| && Before(chunks, k) <= at && at + 2 <= Before(chunks, k + 1)
  }

  lemma ChunkInStream(chunks: seq<seq<byte>>, k: nat)
    requires k < |chunks|
    ensures Concat(chunks) == Concat(chunks[..k]) + chunks[k] + Concat(chunks[k + 1..])
    ensures Before(chunks, k + 1) == Before(chunks, k) + |chunks[k]|
  {
    assert chunks == chunks[..k] + chunks[k..];
    ConcatAppend(chunks[..k], chunks[k..]);
    assert chunks[k..][1..] == chunks[k + 1..];
    assert chunks[..k + 1] == chunks[..k] + [chunks[k]];
    ConcatSnoc(chunks[..k], chunks[k]);
  }

  lemma BeforeMonotone(chunks: seq<seq<byte>>, i: nat, j: nat)
    requires i <= j <= |chunks|
    ensures Before(chunks, i) <= Before(chunks, j)
  {
    assert chunks[..j] == chunks[..i] + chunks[i..j];
    ConcatAppend(chunks[..i], chunks[i..j]);
  }

  lemma LaterBytes(prefix: seq<byte>, hello: seq<byte>, pos: nat, tail: seq<byte>, frames: seq<byte>)
    requires pos + 2 <= |prefix|
    requires hello + CRLF + frames == prefix + tail
    requires pos == |hello|
    ensures prefix[pos + 2..] + tail == frames
  {
    assert (hello + CRLF + frames)[pos + 2..] == frames;
    assert (prefix + tail)[pos + 2..] == prefix[pos + 2..] + tail;
  }

  lemma ByteOfChunk(chunks: seq<seq<byte>>, k: nat, i: nat)
    requires k < |chunks| && i < |chunks[k]|
    ensures Before(chunks, k) + i < |Concat(chunks)|
    ensures Concat(chunks)[Before(chunks, k) + i] == chunks[k][i]
  {
    hide Concat;
    ChunkInStream(chunks, k);
  }

  lemma CrlfOfChunk(chunks: seq<seq<byte>>, k: nat, i: nat)
    requires k < |chunks| && i < |chunks[k]| - 1
    ensures CrlfAt(chunks[k], i) <==> CrlfAt(Concat(chunks), Before(chunks, k) + i)
  {
    hide Concat;
    ByteOfChunk(chunks, k, i);
    ByteOfChunk(chunks, k, i + 1);
  }

  /** The hello line's own CR LF is the first one of the stream. */
  lemma HelloCrlf(hello: seq<byte>, frames: seq<byte>, p: nat)
    requires FirstCrlf(hello + CRLF) == |hello| && p <= |hello|
    ensures CrlfAt(hello + CRLF + frames, p) <==> p == |hello|
  {
    var line := hello + CRLF;
    assert line[|hello|] == 13 && line[|hello| + 1] == 10;
    assert (line + frames)[p] == line[p] && (line + frames)[p + 1] == line[p + 1];
  }

  /** The chunk that holds a whole CR LF of the hello line is the one that ends it. */
  lemma WholeCrlfEndsHello(chunks: seq<seq<byte>>, hello: seq<byte>, frames: seq<byte>, k: nat)
    requires FirstCrlf(hello + CRLF) == |hello|
    requires Concat(chunks) == hello + CRLF + frames
    requires k < |chunks| && Before(chunks, k) <= |hello| && |hello| + 2 <= Before(chunks, k + 1)
    ensures EndsHello(chunks, k) && Before(chunks, k) + FirstCrlf(chunks[k]) == |hello|
  {
    hide FirstCrlf, Concat;
    var at := |hello| - Before(chunks, k);
    ChunkInStream(chunks, k);
    forall i | 0 <= i <= at ensures CrlfAt(chunks[k], i) <==> i == at {
      CrlfOfChunk(chunks, k, i);
      HelloCrlf(hello, frames, Before(chunks, k) + i);
    }
    FirstCrlfIs(chunks[k], at);
    forall i | 0 <= i < k ensures FirstCrlf(chunks[i]) < 0 {
      ChunkInStream(chunks, i);
      BeforeMonotone(chunks, i + 1, k);
      forall j | 0 <= j < |chunks[i]| - 1 ensures !CrlfAt(chunks[i], j) {
        CrlfOfChunk(chunks, i, j);
        HelloCrlf(hello, frames, Before(chunks, i) + j);
      }
      assert FirstCrlf(chunks[i]) >= 0 ==> CrlfAt(chunks[i], FirstCrlf(chunks[i]));
    }
  }

  lemma FoundAtHello(hello: seq<byte>, messages: seq<seq<byte>>, chunks: seq<seq<byte>>, k: nat)
    requires forall i :: 0 <= i < |messages| ==> 1 <= |messages[i]| <= MAX_MESSAGE_SIZE
    requires NonEmptyChunks(chunks) && Concat(chunks) == hello + CRLF + Frames(messages)
    requires EndsHello(chunks, k) && Before(chunks, k) + FirstCrlf(chunks[k]) == |hello|
    ensures ReceiveAll(CONNECTED, chunks) == Received(messages, Client(false, INITIAL), false)
  {
    hide DecodeStream, Concat, FirstCrlf, FeedAll;
    DeliversAfterHello(chunks, k);
    ChunkInStream(chunks, k);
    var prefix, tail := Concat(chunks[..k]) + chunks[k], Concat(chunks[k + 1..]);
    LaterBytes(prefix, hello, |hello|, tail, Frames(messages));
    assert prefix[|hello| + 2..] == chunks[k][FirstCrlf(chunks[k]) + 2..];
    RoundTrip(messages);
  }

  /** After a hello line whose CR LF lies in one chunk, the frame round trip holds as it does without one. */
  lemma AfterHello(hello: seq<byte>, messages: seq<seq<byte>>, chunks: seq<seq<byte>>)
    requires FirstCrlf(hello + CRLF) == |hello|
    requires forall i :: 0 <= i < |messages| ==> 1 <= |messages[i]| <= MAX_MESSAGE_SIZE
    requires NonEmptyChunks(chunks) && Concat(chunks) == hello + CRLF + Frames(messages)
    requires WithinOneChunk(chunks, |hello|)
    ensures ReceiveAll(CONNECTED, chunks) == Received(messages, Client(false, INITIAL), false)
  {
    hide DecodeStream;
    var k :| 0 <= k < |chunks| && Before(chunks, k) <= |hello| && |hello| + 2 <= Before(chunks, k + 1);
    WholeCrlfEndsHello(chunks, hello, Frames(messages), k);
    FoundAtHello(hello, messages, chunks, k);
  }

  lemma {:induction false} FirstWithCrlf(chunks: seq<seq<byte>>) returns (k: nat)
    requires exists i :: 0 <= i < |chunks| && FirstCrlf(chunks[i]) >= 0
    ensures EndsHello(chunks, k)
  {
    k := 0;
    while FirstCrlf(chunks[k]) < 0
      invariant k < |chunks|
      invariant forall i :: 0 <= i < k ==> FirstCrlf(chunks[i]) < 0
      decreases |chunks| - k
    {
      k := k + 1;
    }
  }

  /** If what follows the CR LF found is no shorter than the frames, it is the CR LF that ends the hello line. */
  lemma EndsThere(hello: seq<byte>, frames: seq<byte>, chunks: seq<seq<byte>>, k: nat)
    requires FirstCrlf(hello + CRLF) == |hello| && EndsHello(chunks, k)
    requires Concat(chunks) == hello + CRLF + frames
    requires |frames| <= |chunks[k][FirstCrlf(chunks[k]) + 2..] + Concat(chunks[k + 1..])|
    ensures WithinOneChunk(chunks, |hello|)
  {
    hide FirstCrlf, Concat;
    var f := FirstCrlf(chunks[k]);
    ChunkInStream(chunks, k);
    var p := Before(chunks, k) + f;
    assert |Concat(chunks)| - (p + 2) == |chunks[k][f + 2..] + Concat(chunks[k + 1..])|;
    CrlfOfChunk(chunks, k, f);
    HelloCrlf(hello, frames, p);
  }

  lemma FindsCrlf(chunks: seq<seq<byte>>) returns (k: nat)
    requires ReceiveAll(CONNECTED, chunks).messages != []
    ensures EndsHello(chunks, k) && k < |chunks| && FirstCrlf(chunks[k]) >= 0
  {
    hide FirstCrlf, ReceiveAll;
    if forall i :: 0 <= i < |chunks| ==> FirstCrlf(chunks[i]) < 0 {
      NeverLeavesLineMode(chunks);
    }
    k := FirstWithCrlf(chunks);
  }

  /** What arrives fits into what follows the CR LF found. */
  lemma ArrivedSize(messages: seq<seq<byte>>, chunks: seq<seq<byte>>, k: nat)
    requires NonEmptyChunks(chunks) && EndsHello(chunks, k) && ReceiveAll(CONNECTED, chunks).messages == messages
    ensures Sendable(messages)
    ensures |Frames(messages)| <= |chunks[k][FirstCrlf(chunks[k]) + 2..] + Concat(chunks[k + 1..])|
  {
    hide FirstCrlf, Concat, DecodeStream, ReceiveAll, Frames;
    DeliversAfterHello(chunks, k);
    DeliveredSize(chunks[k][FirstCrlf(chunks[k]) + 2..] + Concat(chunks[k + 1..]));
  }

  lemma SplitLoses(hello: seq<byte>, messages: seq<seq<byte>>, chunks: seq<seq<byte>>)
    requires FirstCrlf(hello + CRLF) == |hello|
    requires messages != [] && Packable(messages)
    requires NonEmptyChunks(chunks) && Concat(chunks) == hello + CRLF + Frames(messages)
    requires ReceiveAll(CONNECTED, chunks).messages == messages
    ensures WithinOneChunk(chunks, |hello|)
  {
    var k := FindsCrlf(chunks);
    ArrivedSize(messages, chunks, k);
    hide *;
    EndsThere(hello, Frames(messages), chunks, k);
  }

  /** On the client the frame round trip holds after a hello line exactly when no cut falls between
      the line's CR and LF: otherwise at least one message is lost. */
  lemma HelloThenFrames(hello: seq<byte>, messages: seq<seq<byte>>, chunks: seq<seq<byte>>)
    requires FirstCrlf(hello + CRLF) == |hello|
    requires messages != [] && forall i :: 0 <= i < |messages| ==> 1 <= |messages[i]| <= MAX_MESSAGE_SIZE
    requires NonEmptyChunks(chunks) && Concat(chunks) == hello + CRLF + Frames(messages)
    ensures ReceiveAll(CONNECTED, chunks).messages == messages <==> WithinOneChunk(chunks, |hello|)
    ensures WithinOneChunk(chunks, |hello|) ==>
              ReceiveAll(CONNECTED, chunks) == Received(messages, Client(false, INITIAL), false)
  {
    hide DecodeStream, FirstCrlf, Concat, WithinOneChunk, ReceiveAll, Frames;
    if WithinOneChunk(chunks, |hello|) {
      AfterHello(hello, messages, chunks);
    } else if ReceiveAll(CONNECTED, chunks).messages == messages {
      SplitLoses(hello, messages, chunks);
    }
  }

  lemma NoCr(s: seq<byte>)
    requires forall i :: 0 <= i < |s| ==> s[i] != 13
    ensures FirstCrlf(s) < 0
  {
  }

  lemma OneFrame()
    ensures Frames([[7]]) == [0, 0, 0, 1, 7]
    ensures Concat<byte>([[65, 13]]) == [65, 13] && Concat<byte>([[10, 0, 0, 0, 1, 7]]) == [10, 0, 0, 0, 1, 7]
  {
    assert [[7]][1..] == [];
    assert Frames([[7]]) == Pack(1) + [7] + Frames([]);
    assert [[65, 13]][1..] == [] && [[10, 0, 0, 0, 1, 7]][1..] == [];
  }

  /** A hello line `A`, a frame with one byte, and a cut between the CR and the LF: nothing is delivered. */
  lemma SplitHelloExample()
    ensures var chunks: seq<seq<byte>> := [[65, 13], [10, 0, 0, 0, 1, 7]];
            && Concat(chunks) == [65] + [13, 10] + Frames([[7]])
            && ReceiveAll(CONNECTED, chunks) == Received([], CONNECTED, false)
  {
    var chunks: seq<seq<byte>> := [[65, 13], [10, 0, 0, 0, 1, 7]];
    var first, second: seq<byte> := chunks[0], chunks[1];
    assert chunks == [first] + [second];
    ConcatAppend([first], [second]);
    OneFrame();
    assert FirstCrlf(first) < 0;
    NoCr(second);
    NeverLeavesLineMode(chunks);
  }
}
