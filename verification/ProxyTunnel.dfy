/** Reading the proxy's reply to CONNECT: `dataReceived` and `lineReceived` of `ProxyTunnelClient`
    (magicicadaprotocol/proxy_tunnel.py), however the network cuts the reply. */
module ProxyTunnel {
  import opened ByteStrings
  import opened Options

  const MAX_LINE_LEN := 16384
  const SPACE: byte := 32

  /** The bytes `200`. */
  const CONNECTED: seq<byte> := [50, 48, 48]

  /** `lines` are the calls of `lineReceived`, `errors` counts the calls of `error`, `forwarded` is what was
      passed on to the tunnelled protocol, and `raised` marks the `ValueError` of a line without a space. */
  datatype Tunnel = Tunnel(
    buffer: seq<byte>, negotiationDone: bool, status: Option<seq<byte>>, message: seq<byte>,
    lines: seq<seq<byte>>, errors: nat, forwarded: seq<byte>, raised: bool)

  const CONNECTING := Tunnel([], false, None, [], [], 0, [], false)

  /** Where the first space of `s` is, or its length. */
  function FirstSpace(s: seq<byte>): (k: nat)
    ensures k <= |s|
    ensures k < |s| ==> s[k] == SPACE
    ensures forall i :: 0 <= i < k ==> s[i] != SPACE
  {
    if s == [] || s[0] == SPACE then 0
    else
      var k := FirstSpace(s[1..]);
      assert forall i :: 1 <= i < k + 1 ==> s[i] == s[1..][i - 1];
      k + 1
  }

  predicate HasSpace(line: seq<byte>)
  {
    SPACE in line
  }

  /** What follows the first space: `line.split(b" ", 2)[1:]`, still joined. */
  function AfterVersion(line: seq<byte>): seq<byte>
  {
    var k := FirstSpace(line);
    if k < |line| then line[k + 1..] else []
  }

  function StatusOf(line: seq<byte>): seq<byte>
  {
    var rest := AfterVersion(line);
    rest[..FirstSpace(rest)]
  }

  function MessageOf(line: seq<byte>): seq<byte>
  {
    AfterVersion(AfterVersion(line))
  }

  function Fail(t: Tunnel): Tunnel
  {
    t.(errors := t.errors + 1)
  }

  /** `lineReceived`. */
  function OnLine(t: Tunnel, line: seq<byte>): (t': Tunnel)
    ensures t'.buffer == t.buffer
  {
    var called := t.(lines := t.lines + [line]);
    if line != [] then
      if HasSpace(line) then called.(status := Some(StatusOf(line)), message := MessageOf(line))
      else called.(raised := true)
    else if t.status == Some(CONNECTED) then called.(negotiationDone := true)
    else Fail(called)
  }

  /** The loop of `dataReceived`. */
  function Drain(t: Tunnel): Tunnel
    decreases |t.buffer|
  {
    if t.negotiationDone || t.raised then t
    else
      var k := FirstCrlf(t.buffer);
      if k < 0 then (if |t.buffer| > MAX_LINE_LEN then Fail(t) else t)
      else
        var line, rest := t.buffer[..k], t.(buffer := t.buffer[k + 2..]);
        if |line| > MAX_LINE_LEN then Fail(rest) else Drain(OnLine(rest, line))
  }

  /** `dataReceived`. */
  function Receive(t: Tunnel, data: seq<byte>): Tunnel
  {
    if t.raised then t
    else if t.negotiationDone then t.(forwarded := t.forwarded + data)
    else Drain(t.(buffer := t.buffer + data))
  }

  function ReceiveAll(t: Tunnel, chunks: seq<seq<byte>>): Tunnel
    decreases |chunks|
  {
    if chunks == [] then t else ReceiveAll(Receive(t, chunks[0]), chunks[1..])
  }

  class ProxyTunnelClient {
    var buffer: seq<byte>
    var negotiationDone: bool
    var status: Option<seq<byte>>
    var message: seq<byte>
    var lines: seq<seq<byte>>
    var errors: nat
    var forwarded: seq<byte>

    ghost function View(raised: bool): Tunnel
      reads this
    {
      Tunnel(buffer, negotiationDone, status, message, lines, errors, forwarded, raised)
    }

    constructor ()
      ensures View(false) == CONNECTING
    {
      buffer, negotiationDone, status, message := [], false, None, [];
      lines, errors, forwarded := [], 0, [];
    }

    method Error()
      modifies `errors
      ensures errors == old(errors) + 1
    {
      errors := errors + 1;
    }

    /** `lineReceived`; false is the `ValueError`. */
    method LineReceived(line: seq<byte>) returns (ok: bool)
      modifies this
      ensures View(!ok) == OnLine(old(View(false)), line)
    {
      lines := lines + [line];
      ok := true;
      if line != [] {
        var first := FirstSpace(line);
        if first == |line| {
          assert !HasSpace(line);
          return false;
        }
        assert line[first] in line;
        var rest := line[first + 1..];
        var second := FirstSpace(rest);
        status := Some(rest[..second]);
        message := if second < |rest| then rest[second + 1..] else [];
      } else if status == Some(CONNECTED) {
        negotiationDone := true;
      } else {
        Error();
      }
    }

    /** `dataReceived`; false when the exception of a line without a space leaves it. */
    method DataReceived(data: seq<byte>) returns (ok: bool)
      modifies this
      ensures View(!ok) == Receive(old(View(false)), data)
    {
      ok := true;
      if negotiationDone {
        forwarded := forwarded + data;
        return;
      }
      buffer := buffer + data;
      ghost var start := View(false);
      while !negotiationDone
        invariant Drain(View(false)) == Drain(start)
        decreases |buffer|
      {
        var k := FirstCrlf(buffer);
        if k < 0 {
          if |buffer| > MAX_LINE_LEN {
            Error();
          }
          return;
        }
        var line := buffer[..k];
        buffer := buffer[k + 2..];
        if |line| > MAX_LINE_LEN {
          Error();
          return;
        }
        ok := LineReceived(line);
        if !ok {
          return;
        }
      }
    }
  }

  // A reply: status line and headers, then an empty line

  function Text(lines: seq<seq<byte>>): (s: seq<byte>)
  {
    if lines == [] then [] else lines[0] + CRLF + Text(lines[1..])
  }

  /** A line of a reply: not empty, with a space, without CR LF, and within the limit. */
  ghost predicate Proper(line: seq<byte>)
  {
    line != [] && HasSpace(line) && FirstCrlf(line + CRLF) == |line| && |line| <= MAX_LINE_LEN
  }

  ghost predicate ProperLines(lines: seq<seq<byte>>)
  {
    forall i :: 0 <= i < |lines| ==> Proper(lines[i])
  }

  /** What is left of a reply while it is being read: nothing, or lines up to and with the empty one. */
  ghost predicate ReplyTail(lines: seq<seq<byte>>)
  {
    lines == [] || (lines[|lines| - 1] == [] && ProperLines(lines[..|lines| - 1]))
  }

  function Lines(t: Tunnel, lines: seq<seq<byte>>): (t': Tunnel)
    ensures t'.buffer == t.buffer
    decreases |lines|
  {
    if lines == [] then t else Lines(OnLine(t, lines[0]), lines[1..])
  }

  /** The lines can still be received: the reply has not ended before them. */
  ghost predicate Open(t: Tunnel, lines: seq<seq<byte>>)
  {
    && ReplyTail(lines) && !t.raised
    && (lines != [] ==> !t.negotiationDone)
  }

  // Where a chunk must not end

  /** The first `n` bytes of the text end between the CR and the LF of line `i`, which has maximal length. */
  ghost predicate TornAt(lines: seq<seq<byte>>, n: nat, i: nat)
  {
    i < |lines| && |lines[i]| == MAX_LINE_LEN && n == |Text(lines[..i])| + MAX_LINE_LEN + 1
  }

  ghost predicate Torn(lines: seq<seq<byte>>, n: nat)
  {
    exists i: nat :: TornAt(lines, n, i)
  }

  /** How many chunks end there, when `b` bytes of the text have been received already. */
  ghost function Tears(lines: seq<seq<byte>>, b: nat, chunks: seq<seq<byte>>): nat
    decreases |chunks|
  {
    if chunks == [] then 0
    else
      var n := b + |chunks[0]|;
      (if Torn(lines, n) then 1 else 0) + Tears(lines, n, chunks[1..])
  }

  lemma TornFirst(lines: seq<seq<byte>>, n: nat)
    requires lines != []
    ensures var m := |lines[0]| + 2;
            Torn(lines, n)
            <==> if n >= m then Torn(lines[1..], n - m) else |lines[0]| == MAX_LINE_LEN && n == MAX_LINE_LEN + 1
  {
    var m, rest := |lines[0]| + 2, lines[1..];
    forall i: nat | 0 < i <= |lines| ensures |Text(lines[..i])| == m + |Text(rest[..i - 1])| {
      assert lines[..i][1..] == rest[..i - 1];
    }
    if n >= m {
      if Torn(lines, n) {
        var i: nat :| TornAt(lines, n, i);
        assert TornAt(rest, n - m, i - 1);
      }
      if Torn(rest, n - m) {
        var j: nat :| TornAt(rest, n - m, j);
        assert TornAt(lines, n, j + 1);
      }
    } else {
      assert |lines[0]| == MAX_LINE_LEN && n == MAX_LINE_LEN + 1 <==> TornAt(lines, n, 0);
    }
  }

  lemma NeverTorn(n: nat)
    ensures !Torn([], n)
  {
  }

  /** `d` bytes after the `n`th byte of one text and the `k`th of another, both or neither are torn. */
  ghost predicate AlikeAfter(lines: seq<seq<byte>>, n: nat, left: seq<seq<byte>>, k: nat, d: nat)
  {
    Torn(lines, n + d) <==> Torn(left, k + d)
  }

  ghost predicate TornAlike(lines: seq<seq<byte>>, n: nat, left: seq<seq<byte>>, k: nat)
  {
    forall d: nat :: AlikeAfter(lines, n, left, k, d)
  }

  lemma TornAlikeSelf(lines: seq<seq<byte>>, n: nat)
    ensures TornAlike(lines, n, lines, n)
  {
  }

  lemma TornAlikeLater(lines: seq<seq<byte>>, n: nat, left: seq<seq<byte>>, k: nat)
    requires lines != [] && n >= |lines[0]| + 2 && TornAlike(lines[1..], n - |lines[0]| - 2, left, k)
    ensures TornAlike(lines, n, left, k)
    ensures Torn(lines, n) <==> Torn(lines[1..], n - |lines[0]| - 2)
  {
    hide Torn;
    forall d: nat ensures AlikeAfter(lines, n, left, k, d) {
      TornFirst(lines, n + d);
      assert AlikeAfter(lines[1..], n - |lines[0]| - 2, left, k, d);
    }
    TornFirst(lines, n);
  }

  /** Counting in what is left of the text comes to the same. */
  lemma {:induction false} TearsShift(
      lines: seq<seq<byte>>, n: nat, left: seq<seq<byte>>, k: nat, chunks: seq<seq<byte>>)
    requires TornAlike(lines, n, left, k)
    ensures Tears(lines, n, chunks) == Tears(left, k, chunks)
    decreases |chunks|
  {
    hide Torn;
    if chunks != [] {
      var size := |chunks[0]|;
      var n', k' := n + size, k + size;
      forall d: nat ensures AlikeAfter(lines, n', left, k', d) {
        assert AlikeAfter(lines, n, left, k, size + d);
      }
      assert AlikeAfter(lines, n, left, k, size);
      TearsShift(lines, n', left, k', chunks[1..]);
    }
  }

  /** No chunk ends there exactly if no cut of the stream falls there. */
  lemma {:induction false} TearsNone(lines: seq<seq<byte>>, b: nat, chunks: seq<seq<byte>>)
    ensures Tears(lines, b, chunks) == 0
            <==> forall k :: 1 <= k <= |chunks| ==> !Torn(lines, b + |Concat(chunks[..k])|)
    decreases |chunks|
  {
    hide Torn;
    if chunks != [] {
      var n := b + |chunks[0]|;
      TearsNone(lines, n, chunks[1..]);
      forall k | 1 <= k <= |chunks|
        ensures b + |Concat(chunks[..k])| == n + |Concat(chunks[1..][..k - 1])|
      {
        assert chunks[..k][1..] == chunks[1..][..k - 1];
      }
      if Tears(lines, b, chunks) == 0 {
        forall k | 1 <= k <= |chunks| ensures !Torn(lines, b + |Concat(chunks[..k])|) {
          if k > 1 {
            assert !Torn(lines, n + |Concat(chunks[1..][..k - 1])|);
          }
        }
      } else if Torn(lines, n) {
        assert |Concat(chunks[..1])| == |chunks[0]|;
      } else {
        var k :| 1 <= k <= |chunks| - 1 && Torn(lines, n + |Concat(chunks[1..][..k])|);
        assert Torn(lines, b + |Concat(chunks[..k + 1])|);
      }
    }
  }

  function Failures(t: Tunnel, n: nat): Tunnel
  {
    t.(errors := t.errors + n)
  }

  lemma LineFailures(t: Tunnel, line: seq<byte>, n: nat)
    ensures OnLine(Failures(t, n), line) == Failures(OnLine(t, line), n)
  {
    hide StatusOf, MessageOf;
  }

  lemma {:induction false} LinesFailures(t: Tunnel, lines: seq<seq<byte>>, n: nat)
    ensures Lines(Failures(t, n), lines) == Failures(Lines(t, lines), n)
    decreases |lines|
  {
    hide OnLine;
    if lines != [] {
      LineFailures(t, lines[0], n);
      LinesFailures(OnLine(t, lines[0]), lines[1..], n);
    }
  }

  // Reading

  lemma ReplyTailStep(lines: seq<seq<byte>>)
    requires ReplyTail(lines) && lines != []
    ensures ReplyTail(lines[1..])
    ensures lines[0] == [] <==> lines[1..] == []
    ensures lines[0] != [] ==> Proper(lines[0])
  {
    var rest := lines[1..];
    if rest != [] {
      assert lines[..|lines| - 1][0] == lines[0];
      assert rest[..|rest| - 1] == lines[..|lines| - 1][1..];
      assert rest[|rest| - 1] == lines[|lines| - 1];
    }
  }

  lemma EmptyLineCrlf()
    ensures FirstCrlf([] + CRLF) == 0
  {
  }

  lemma SameBytes(front: seq<byte>, back: seq<byte>, s: seq<byte>, i: nat)
    requires front + back == s && i < |front| - 1
    ensures CrlfAt(front, i) <==> CrlfAt(s, i)
  {
  }

  /** How much of the first line is in a buffer that is a prefix of the text. */
  lemma FirstLineIn(line: seq<byte>, buffer: seq<byte>, rest: seq<byte>, more: seq<byte>)
    requires FirstCrlf(line + CRLF) == |line|
    requires buffer + rest == line + CRLF + more
    ensures FirstCrlf(buffer) == if |buffer| >= |line| + 2 then |line| else -1
    ensures |buffer| >= |line| + 2 ==> buffer[..|line|] == line && buffer[|line| + 2..] + rest == more
  {
    hide FirstCrlf;
    var s := line + CRLF + more;
    forall i | 0 <= i < |buffer| - 1 && i <= |line| ensures CrlfAt(buffer, i) <==> i == |line| {
      SameBytes(buffer, rest, s, i);
      SameBytes(line + CRLF, more, s, i);
      assert CrlfAt(line + CRLF, |line|);
    }
    if |buffer| >= |line| + 2 {
      FirstCrlfIs(buffer, |line|);
      assert (buffer + rest)[|line| + 2..] == buffer[|line| + 2..] + rest;
      assert s[|line| + 2..] == more;
      assert (buffer + rest)[..|line|] == buffer[..|line|] && s[..|line|] == line;
    } else {
      assert FirstCrlf(buffer) >= 0 ==> CrlfAt(buffer, FirstCrlf(buffer));
    }
  }

  /** One turn of the loop, when the buffer starts with a whole line and when it does not. */
  lemma DrainStep(t: Tunnel, line: seq<byte>, rest: seq<byte>, more: seq<byte>)
    requires !t.raised && !t.negotiationDone && |line| <= MAX_LINE_LEN
    requires FirstCrlf(line + CRLF) == |line| && t.buffer + rest == line + CRLF + more
    ensures if |t.buffer| >= |line| + 2 then
              && Drain(t) == Drain(OnLine(t.(buffer := t.buffer[|line| + 2..]), line))
              && t.buffer[|line| + 2..] + rest == more
            else Drain(t) == if |t.buffer| > MAX_LINE_LEN then Fail(t) else t
  {
    FirstLineIn(line, t.buffer, rest, more);
    hide FirstCrlf, OnLine;
  }

  lemma OpenStep(t: Tunnel, lines: seq<seq<byte>>, buffer: seq<byte>)
    requires Open(t, lines) && lines != []
    ensures var next := OnLine(t.(buffer := buffer), lines[0]);
            && Open(next, lines[1..]) && next.buffer == buffer
            && Lines(next.(buffer := []), lines[1..]) == Lines(t.(buffer := []), lines)
    ensures FirstCrlf(lines[0] + CRLF) == |lines[0]| && |lines[0]| <= MAX_LINE_LEN
  {
    ReplyTailStep(lines);
    EmptyLineCrlf();
    hide FirstCrlf, StatusOf, MessageOf;
    assert OnLine(t.(buffer := []), lines[0]) == OnLine(t.(buffer := buffer), lines[0]).(buffer := []);
  }

  lemma NothingToDrain(t: Tunnel)
    requires t.buffer == []
    ensures Drain(t) == t
  {
  }

  /** Draining takes complete lines off the buffer and leaves the rest of the reply as it was. It reports a
      line as too long exactly if the buffer ends between the CR and the LF of a line of maximal length. */
  lemma {:induction false} DrainLines(t: Tunnel, lines: seq<seq<byte>>, rest: seq<byte>) returns (left: seq<seq<byte>>)
    requires Open(t, lines) && t.buffer + rest == Text(lines)
    ensures var d, n := Drain(t), |t.buffer|;
            && Open(d, left) && d.buffer + rest == Text(left)
            && Lines(d.(buffer := []), left)
               == Failures(Lines(t.(buffer := []), lines), if Torn(lines, n) then 1 else 0)
            && TornAlike(lines, n, left, |d.buffer|)
            && (rest == [] ==> left == [])
    decreases |t.buffer|
  {
    hide FirstCrlf, OnLine, Lines, ReplyTail, Torn, TornAlike;
    TornAlikeSelf(lines, |t.buffer|);
    if lines == [] {
      NothingToDrain(t);
      NeverTorn(|t.buffer|);
      return [];
    }
    var line, later, n := lines[0], lines[1..], |t.buffer|;
    OpenStep(t, lines, if n >= |line| + 2 then t.buffer[|line| + 2..] else []);
    DrainStep(t, line, rest, Text(later));
    hide Drain;
    if n >= |line| + 2 {
      var next := OnLine(t.(buffer := t.buffer[|line| + 2..]), line);
      left := DrainLines(next, later, rest);
      TornAlikeLater(lines, n, left, |Drain(next).buffer|);
    } else {
      left := lines;
      TornFirst(lines, n);
      LinesFailures(t.(buffer := []), lines, 1);
      assert |Text(lines)| >= |line| + 2;
    }
  }

  lemma NoCrlfInNothing()
    ensures FirstCrlf([]) == -1
  {
  }

  lemma StillOpen(t: Tunnel, lines: seq<seq<byte>>, data: seq<byte>)
    requires Open(t, lines) && lines != []
    ensures Open(t.(buffer := t.buffer + data), lines) && !t.raised && !t.negotiationDone
  {
  }

  lemma NothingToDraw(left: seq<seq<byte>>)
    ensures Text(left) == [] <==> left == []
  {
  }

  /** After the reply only empty chunks are left, which change nothing. */
  lemma {:induction false} NothingLeft(t: Tunnel, chunks: seq<seq<byte>>)
    requires Open(t, []) && t.buffer + Concat(chunks) == Text([])
    ensures ReceiveAll(t, chunks) == t && t.buffer == [] && Tears([], 0, chunks) == 0
    decreases |chunks|
  {
    if chunks != [] {
      assert t.buffer + [] == t.buffer && t.forwarded + [] == t.forwarded;
      NothingToDrain(t);
      NeverTorn(0);
      NothingLeft(t, chunks[1..]);
    }
  }

  /** Every chunking of what is left of a reply passes exactly its lines to `lineReceived`, in order, and
      reports an error for every chunk that tears the end of a line of maximal length. */
  lemma {:induction false} ChunksAreLines(t: Tunnel, chunks: seq<seq<byte>>, lines: seq<seq<byte>>)
    requires Open(t, lines) && t.buffer + Concat(chunks) == Text(lines)
    requires lines != [] ==> Concat(chunks) != []
    ensures ReceiveAll(t, chunks) == Failures(Lines(t.(buffer := []), lines), Tears(lines, |t.buffer|, chunks))
    decreases |chunks|
  {
    hide Drain, Torn, TornAlike, OnLine, Open, Text;
    if lines == [] {
      NothingLeft(t, chunks);
    } else {
      var data, later := chunks[0], Concat(chunks[1..]);
      var fed := t.(buffer := t.buffer + data);
      assert t.buffer + (data + later) == fed.buffer + later;
      StillOpen(t, lines, data);
      var left := DrainLines(fed, lines, later);
      TearsShift(lines, |fed.buffer|, left, |Drain(fed).buffer|, chunks[1..]);
      NothingToDraw(left);
      ChunksAreLines(Drain(fed), chunks[1..], left);
    }
  }

  // The outcome

  /** What reading the lines of a reply comes to. */
  lemma {:induction false} LinesOutcome(t: Tunnel, lines: seq<seq<byte>>)
    requires ProperLines(lines) && !t.raised && !t.negotiationDone
    ensures var end := Lines(t, lines);
            && end.lines == t.lines + lines && end.errors == t.errors && !end.raised && !end.negotiationDone
            && end.forwarded == t.forwarded
            && end.status == (if lines == [] then t.status else Some(StatusOf(lines[|lines| - 1])))
            && end.message == (if lines == [] then t.message else MessageOf(lines[|lines| - 1]))
    decreases |lines|
  {
    hide StatusOf, MessageOf, FirstCrlf;
    if lines == [] {
      assert t.lines + lines == t.lines;
    } else {
      assert Proper(lines[0]);
      var next := OnLine(t, lines[0]);
      LinesOutcome(next, lines[1..]);
      assert t.lines + [lines[0]] + lines[1..] == t.lines + lines;
    }
  }

  lemma {:induction false} LinesAppend(t: Tunnel, front: seq<seq<byte>>, back: seq<seq<byte>>)
    ensures Lines(t, front + back) == Lines(Lines(t, front), back)
    decreases |front|
  {
    hide OnLine;
    if front == [] {
      assert front + back == back;
    } else {
      assert (front + back)[1..] == front[1..] + back;
      LinesAppend(OnLine(t, front[0]), front[1..], back);
    }
  }

  lemma TextNotEmpty(lines: seq<seq<byte>>)
    requires lines != []
    ensures Text(lines) != []
  {
  }

  lemma WholeReply(lines: seq<seq<byte>>)
    requires ProperLines(lines)
    ensures Open(CONNECTING, lines + [[]]) && Text(lines + [[]]) != []
    ensures CONNECTING.buffer + Text(lines + [[]]) == Text(lines + [[]])
  {
    var all := lines + [[]];
    assert all[..|all| - 1] == lines;
    TextNotEmpty(all);
  }

  lemma LastLine(t: Tunnel)
    ensures Lines(t, [[]]) == OnLine(t, [])
  {
    var none: seq<seq<byte>> := [];
    assert [[]][1..] == none;
  }

  lemma EmptyLineOutcome(t: Tunnel)
    requires !t.negotiationDone
    ensures var end := Lines(t, [[]]);
            && end.lines == t.lines + [[]] && end.buffer == t.buffer && end.forwarded == t.forwarded
            && end.raised == t.raised && end.status == t.status && end.message == t.message
            && (end.negotiationDone <==> t.status == Some(CONNECTED))
            && end.errors == t.errors + if end.negotiationDone then 0 else 1
  {
    LastLine(t);
  }

  /** Proxy line splitting: a reply of proper lines and an empty one, cut into chunks anywhere, calls
      `lineReceived` with exactly its lines in order, and ends with the same status, message and
      verdict. The tunnel is set up exactly if the LAST non-empty line has status 200: every header
      line overwrites the status of the line before it. Only the number of errors can depend on the
      cuts: there is one more for each chunk that ends inside the CR LF of a line of maximal length. */
  lemma ReplyOutcome(lines: seq<seq<byte>>, chunks: seq<seq<byte>>)
    requires ProperLines(lines) && Concat(chunks) == Text(lines + [[]])
    ensures var end := ReceiveAll(CONNECTING, chunks);
            && end.lines == lines + [[]] && end.buffer == [] && end.forwarded == [] && !end.raised
            && end.status == (if lines == [] then None else Some(StatusOf(lines[|lines| - 1])))
            && end.message == (if lines == [] then [] else MessageOf(lines[|lines| - 1]))
            && (end.negotiationDone <==> lines != [] && StatusOf(lines[|lines| - 1]) == [50, 48, 48])
            && end.errors == (if end.negotiationDone then 0 else 1) + Tears(lines + [[]], 0, chunks)
  {
    hide Drain, StatusOf, MessageOf, FirstCrlf, OnLine, Lines, Text, ReceiveAll, Tears;
    WholeReply(lines);
    ChunksAreLines(CONNECTING, chunks, lines + [[]]);
    LinesAppend(CONNECTING, lines, [[]]);
    LinesOutcome(CONNECTING, lines);
    EmptyLineOutcome(Lines(CONNECTING, lines));
    assert [] + lines == lines;
  }

  lemma OneChunk(text: seq<byte>)
    ensures Concat([text]) == text
  {
    var none: seq<seq<byte>> := [];
    assert [text][1..] == none;
    assert Concat([text]) == text + Concat(none);
  }

  lemma {:induction false} WholeIsNotTorn(lines: seq<seq<byte>>)
    ensures !Torn(lines, |Text(lines)|) && Tears(lines, 0, [Text(lines)]) == 0
  {
    if lines == [] {
      NeverTorn(0);
    } else {
      WholeIsNotTorn(lines[1..]);
      TornFirst(lines, |Text(lines)|);
    }
    hide Torn, Text;
    assert [Text(lines)][1..] == [];
  }

  /** So the whole outcome is independent of the chunks if and only if no cut falls between the CR and the
      LF of a line of exactly the maximal length. */
  lemma CutsShowIff(lines: seq<seq<byte>>, chunks: seq<seq<byte>>)
    requires ProperLines(lines) && Concat(chunks) == Text(lines + [[]])
    ensures var end := ReceiveAll(CONNECTING, chunks);
            end == ReceiveAll(CONNECTING, [Text(lines + [[]])])
            <==> forall k :: 1 <= k <= |chunks| ==> !Torn(lines + [[]], |Concat(chunks[..k])|)
    ensures var end := ReceiveAll(CONNECTING, chunks);
            end.errors == (if end.negotiationDone then 0 else 1)
            <==> forall k :: 1 <= k <= |chunks| ==> !Torn(lines + [[]], |Concat(chunks[..k])|)
  {
    var text := Text(lines + [[]]);
    hide *;
    ReplyOutcome(lines, chunks);
    OneChunk(text);
    ReplyOutcome(lines, [text]);
    TearsNone(lines + [[]], 0, chunks);
    WholeIsNotTorn(lines + [[]]);
  }

  // At the limit

  lemma TooLong(t: Tunnel, line: seq<byte>)
    requires |line| == MAX_LINE_LEN && FirstCrlf(line + CRLF) == |line| && t.buffer == line + [13]
    requires !t.raised && !t.negotiationDone
    ensures Drain(t) == Fail(t)
  {
    assert t.buffer + [10] == line + CRLF + [];
    FirstLineIn(line, t.buffer, [10], []);
  }

  lemma TakesLine(t: Tunnel, line: seq<byte>)
    requires line != [] && |line| <= MAX_LINE_LEN && HasSpace(line) && FirstCrlf(line + CRLF) == |line|
    requires !t.raised && !t.negotiationDone
    ensures var d := Drain(t.(buffer := line + CRLF));
            d.lines == t.lines + [line] && d.errors == t.errors
  {
    assert (line + CRLF)[..|line|] == line;
    assert (line + CRLF)[|line| + 2..] == [];
    var next := OnLine(t.(buffer := []), line);
    assert Drain(next) == next by { NoCrlfInNothing(); }
  }

  lemma One(t: Tunnel, a: seq<byte>)
    ensures ReceiveAll(t, [a]) == Receive(t, a)
    ensures t.buffer == [] ==> t.(buffer := t.buffer + a) == t.(buffer := a)
  {
    hide Receive;
    var none: seq<seq<byte>> := [];
    assert [a][1..] == none;
    assert [] + a == a;
  }

  lemma Two(t: Tunnel, a: seq<byte>, b: seq<byte>)
    ensures ReceiveAll(t, [a, b]) == Receive(Receive(t, a), b)
  {
    hide Receive;
    assert [a, b][1..] == [b];
    One(Receive(t, a), b);
  }

  /** A line of exactly the maximal length is taken when its CR LF comes with it, and refused when a
      chunk ends between the CR and the LF: below the limit is where splitting is safe. */
  lemma LongestLineDependsOnChunks(line: seq<byte>)
    requires |line| == 16384 && HasSpace(line) && FirstCrlf(line + CRLF) == |line|
    ensures ReceiveAll(CONNECTING, [line + CRLF]).errors == 0
    ensures ReceiveAll(CONNECTING, [line + [13], [10]]).errors == 1
    ensures ReceiveAll(CONNECTING, [line + CRLF]).lines == ReceiveAll(CONNECTING, [line + [13], [10]]).lines == [line]
  {
    hide StatusOf, MessageOf, FirstCrlf, Drain, ReceiveAll;
    TakesLine(CONNECTING, line);
    One(CONNECTING, line + CRLF);
    var t := CONNECTING.(buffer := line + [13]);
    TooLong(t, line);
    assert [] + (line + [13]) == line + [13];
    assert [] + (line + CRLF) == line + CRLF;
    assert line + [13] + [10] == line + CRLF;
    TakesLine(Fail(t), line);
    Two(CONNECTING, line + [13], [10]);
    assert [] + [line] == [line];
  }

  /** A longer line is refused even in one piece, and nobody is called with it. */
  lemma LongLineRefused(t: Tunnel, line: seq<byte>, rest: seq<byte>)
    requires |line| > 16384 && (forall i :: 0 <= i < |line| ==> line[i] != 13) && !t.raised && !t.negotiationDone
    ensures Drain(t.(buffer := line + [13, 10] + rest)) == t.(buffer := rest, errors := t.errors + 1)
  {
    var buffer := line + [13, 10] + rest;
    assert CrlfAt(buffer, |line|);
    assert forall i :: 0 <= i < |line| ==> buffer[i] == line[i];
    FirstCrlfIs(buffer, |line|);
    assert buffer[..|line|] == line && buffer[|line| + 2..] == rest;
  }

  /** A line without a space ends the reading with an exception, and its line has been counted. */
  lemma NoSpaceRaises(t: Tunnel, line: seq<byte>)
    requires line != [] && 32 !in line
    ensures OnLine(t, line) == t.(lines := t.lines + [line], raised := true)
  {
  }

  /** Once the tunnel is set up, every chunk is passed on and nothing else happens. */
  lemma {:induction false} TunnelForwards(t: Tunnel, chunks: seq<seq<byte>>)
    requires t.negotiationDone && !t.raised
    ensures ReceiveAll(t, chunks) == t.(forwarded := t.forwarded + Concat(chunks))
    decreases |chunks|
  {
    if chunks == [] {
      assert t.forwarded + [] == t.forwarded;
    } else {
      TunnelForwards(Receive(t, chunks[0]), chunks[1..]);
      assert t.forwarded + chunks[0] + Concat(chunks[1..]) == t.forwarded + (chunks[0] + Concat(chunks[1..]));
    }
  }

  /** `HTTP/1.0 200 OK` and `HTTP/1.0 407 No`. */
  const ACCEPTED: seq<byte> := [72, 84, 84, 80, 47, 49, 46, 48, 32, 50, 48, 48, 32, 79, 75]
  const REFUSED: seq<byte> := [72, 84, 84, 80, 47, 49, 46, 48, 32, 52, 48, 55, 32, 78, 111]

  lemma FirstSpaceIs(s: seq<byte>, k: nat)
    requires k < |s| && s[k] == 32 && 32 !in s[..k]
    ensures FirstSpace(s) == k
  {
    forall i | 0 <= i < |s[..k]| ensures s[i] != 32 {
      assert s[..k][i] == s[i];
    }
  }

  lemma StatusAt(line: seq<byte>, version: seq<byte>, status: seq<byte>, message: seq<byte>)
    requires line == version + [32] + status + [32] + message && 32 !in version && 32 !in status
    ensures StatusOf(line) == status && MessageOf(line) == message && HasSpace(line)
  {
    FirstSpaceIs(line, |version|);
    assert line[|version| + 1..] == status + [32] + message;
    var rest := AfterVersion(line);
    FirstSpaceIs(rest, |status|);
    assert rest[|status| + 1..] == message;
  }

  /** What a first line says. */
  lemma StatusExamples()
    ensures StatusOf(ACCEPTED) == [50, 48, 48] && MessageOf(ACCEPTED) == [79, 75]
    ensures StatusOf(REFUSED) == [52, 48, 55] && MessageOf(REFUSED) == [78, 111]
  {
    var version: seq<byte> := [72, 84, 84, 80, 47, 49, 46, 48];
    assert ACCEPTED == version + [32] + [50, 48, 48] + [32] + [79, 75];
    assert REFUSED == version + [32] + [52, 48, 55] + [32] + [78, 111];
    StatusAt(ACCEPTED, version, [50, 48, 48], [79, 75]);
    StatusAt(REFUSED, version, [52, 48, 55], [78, 111]);
  }

  // The parts of a line

  lemma SplitAt(s: seq<byte>, k: nat)
    requires k < |s|
    ensures s == s[..k] + [s[k]] + s[k + 1..]
  {
  }

  lemma SplitOnce(s: seq<byte>)
    ensures !HasSpace(s[..FirstSpace(s)])
    ensures s == if FirstSpace(s) < |s| then s[..FirstSpace(s)] + [SPACE] + AfterVersion(s) else s[..FirstSpace(s)]
  {
    hide FirstSpace;
    var k := FirstSpace(s);
    forall i | 0 <= i < |s[..k]| ensures s[..k][i] != SPACE {
      assert s[..k][i] == s[i];
    }
    if k < |s| {
      SplitAt(s, k);
    }
  }

  lemma Regroup(a: seq<byte>, b: seq<byte>, c: seq<byte>, d: seq<byte>)
    ensures a + (b + c + d) == a + b + (c + d)
    ensures a + b == a + b + []
  {
  }

  lemma SpaceFound(line: seq<byte>)
    ensures HasSpace(line) <==> FirstSpace(line) < |line|
  {
    var k := FirstSpace(line);
    hide FirstSpace;
    if k < |line| {
      assert line[k] in line;
    }
  }

  /** The three parts of a line are the whole line again. */
  lemma PartsOfLine(line: seq<byte>)
    requires HasSpace(line)
    ensures var version := line[..FirstSpace(line)];
            && !HasSpace(version) && !HasSpace(StatusOf(line))
            && line == version + [32] + StatusOf(line)
                       + if HasSpace(AfterVersion(line)) then [32] + MessageOf(line) else []
  {
    hide FirstSpace, AfterVersion, HasSpace;
    var rest := AfterVersion(line);
    SplitOnce(line);
    SplitOnce(rest);
    SpaceFound(line);
    SpaceFound(rest);
    Regroup(line[..FirstSpace(line)] + [SPACE], StatusOf(line), [SPACE], MessageOf(line));
  }
}
