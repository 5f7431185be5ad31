/** The upload pump: what a `PutContent` request sends after BEGIN_CONTENT, over every interleaving of
    resume, pause, stop, cancel and pending `go` calls (magicicadaprotocol/client.py,
    `BytesMessageProducer` and `PutContent`). */
module Uploads {
  import opened ByteStrings
  import opened Requests

  /** The messages that upload `s`: full payloads, a last shorter one, and EOF. */
  function Canonical(s: seq<byte>, maxPayload: nat): (messages: seq<Body>)
    requires maxPayload > 0
    decreases |s|
  {
    if s == [] then [Eof]
    else if |s| <= maxPayload then [Bytes(s), Eof]
    else [Bytes(s[..maxPayload])] + Canonical(s[maxPayload..], maxPayload)
  }

  /** `file[at:]`. */
  function Suffix(file: seq<byte>, at: nat): seq<byte>
  {
    if at >= |file| then [] else file[at..]
  }

  /** The BYTES and EOF messages among those a request has sent. */
  function Content(sent: seq<Body>): (content: seq<Body>)
  {
    if sent == [] then []
    else
      var last := sent[|sent| - 1];
      Content(sent[..|sent| - 1]) + (if last.Bytes? || last.Eof? then [last] else [])
  }

  function Payload(content: seq<Body>): (s: seq<byte>)
  {
    if content == [] then []
    else (if content[0].Bytes? then content[0].data else []) + Payload(content[1..])
  }

  // The canonical list is what its name says

  lemma PayloadCons(data: seq<byte>, content: seq<Body>)
    ensures Payload([Bytes(data)] + content) == data + Payload(content)
  {
    assert ([Bytes(data)] + content)[1..] == content;
  }

  lemma CanonicalRead(file: seq<byte>, at: nat, maxPayload: nat)
    requires maxPayload > 0
    ensures var data := Read(file, at, maxPayload);
            Canonical(Suffix(file, at), maxPayload)
            == if data == [] then [Eof] else [Bytes(data)] + Canonical(Suffix(file, at + |data|), maxPayload)
  {
    var s := Suffix(file, at);
    if at < |file| && |s| > maxPayload {
      assert file[at..at + maxPayload] == s[..maxPayload];
      assert file[at + maxPayload..] == s[maxPayload..];
    }
  }

  lemma {:induction false} CanonicalPayload(s: seq<byte>, maxPayload: nat)
    requires maxPayload > 0
    ensures Payload(Canonical(s, maxPayload)) == s
    decreases |s|
  {
    if s != [] {
      var front, rest := Read(s, 0, maxPayload), Suffix(s, maxPayload);
      CanonicalPayload(rest, maxPayload);
      CanonicalRead(s, 0, maxPayload);
      assert s[0..] == s;
      hide Canonical, Payload;
      PayloadCons(front, Canonical(rest, maxPayload));
      assert s == front + rest;
    }
  }

  /** EOF ends the list and is nowhere else; every other message carries at most a full payload. */
  lemma {:induction false} CanonicalShape(s: seq<byte>, maxPayload: nat)
    requires maxPayload > 0
    ensures var c := Canonical(s, maxPayload);
            && c != [] && c[|c| - 1] == Eof
            && forall i :: 0 <= i < |c| - 1 ==> c[i].Bytes? && 0 < |c[i].data| <= maxPayload
    decreases |s|
  {
    if |s| > maxPayload {
      CanonicalShape(s[maxPayload..], maxPayload);
    }
  }

  lemma {:induction false} PayloadAppend(a: seq<Body>, b: seq<Body>)
    ensures Payload(a + b) == Payload(a) + Payload(b)
  {
    if a == [] {
      assert a + b == b;
    } else {
      assert (a + b)[1..] == a[1..] + b;
      PayloadAppend(a[1..], b);
    }
  }

  lemma ContentSnoc(sent: seq<Body>, b: Body)
    ensures Content(sent + [b]) == if IsContent(b) then Content(sent) + [b] else Content(sent)
  {
    assert (sent + [b])[..|sent + [b]| - 1] == sent;
  }

  lemma {:induction false} NoContentMeansNone(sent: seq<Body>)
    requires NoContent(sent)
    ensures Content(sent) == []
  {
    if sent != [] {
      NoContentMeansNone(sent[..|sent| - 1]);
    }
  }

  // The invariant of a single producer

  /** What is still to be sent. */
  ghost function ToSend(r: Req): seq<Body>
    requires |r.producers| == 1 && r.maxPayload > 0
  {
    if r.producers[0].finished then [] else Canonical(Suffix(r.file, Cursor(r, 0)), r.maxPayload)
  }

  /** Sent so far and still to be sent always make up the canonical upload of `base`. */
  ghost predicate OnTrack(r: Req, base: seq<byte>)
  {
    && |r.producers| == 1 && r.maxPayload > 0
    && Content(r.sent) + ToSend(r) == Canonical(base, r.maxPayload)
  }

  /** Whether `go` run by act `a` gets to send something. */
  ghost predicate Pumps(r: Req, a: Act)
  {
    && Enabled(r, a)
    && match a
       case DoGo(k, _) => Active(r, k)
       case DoResume(_) => r.producers != [] && !r.cancelled && !r.producers[|r.producers| - 1].finished
       case DoReceive(b, _) => r.kind.Upload? && b.BeginContent? && r.producing && !r.cancelled
       case _ => false
  }

  lemma GoIdle(r: Req, pause: bool)
    requires |r.producers| == 1 && !Active(r, 0)
    ensures Go(r, 0, pause) == r
  {
  }

  lemma Reassociate(a: seq<Body>, b: Body, c: seq<Body>)
    ensures a + ([b] + c) == a + [b] + c
    ensures ([b] + c)[0] == b && ([b] + c)[1..] == c
  {
  }

  lemma GoMoves(r: Req, pause: bool)
    requires |r.producers| == 1 && Active(r, 0)
    ensures var data := Read(r.file, Cursor(r, 0), r.maxPayload);
            var r' := Go(r, 0, pause);
            && r'.sent == r.sent + [if data != [] then Bytes(data) else Eof]
            && r'.producers[0].finished == (data == [])
            && Cursor(r', 0) == Cursor(r, 0) + |data|
  {
  }

  lemma GoOnTrack(r: Req, pause: bool, base: seq<byte>)
    requires OnTrack(r, base)
    ensures OnTrack(Go(r, 0, pause), base)
    ensures Active(r, 0) ==>
              && ToSend(r) != []
              && Content(Go(r, 0, pause).sent) == Content(r.sent) + [ToSend(r)[0]]
              && ToSend(Go(r, 0, pause)) == ToSend(r)[1..]
    ensures !Active(r, 0) ==> Go(r, 0, pause) == r
  {
    hide Canonical, Content, Go;
    if Active(r, 0) {
      CanonicalRead(r.file, Cursor(r, 0), r.maxPayload);
      GoMoves(r, pause);
      var data := Read(r.file, Cursor(r, 0), r.maxPayload);
      var b := if data != [] then Bytes(data) else Eof;
      ContentSnoc(r.sent, b);
      var r' := Go(r, 0, pause);
      assert ToSend(r) == [b] + ToSend(r');
      Reassociate(Content(r.sent), b, ToSend(r'));
    } else {
      GoIdle(r, pause);
    }
  }

  lemma SameTrack(r: Req, r': Req, base: seq<byte>)
    requires OnTrack(r, base)
    requires |r'.producers| == 1 && r'.maxPayload == r.maxPayload && r'.file == r.file
    requires Content(r'.sent) == Content(r.sent) && r'.position == r.position
    requires r'.producers[0].offset == r.producers[0].offset && r'.producers[0].finished == r.producers[0].finished
    ensures OnTrack(r', base) && ToSend(r') == ToSend(r)
  {
  }

  /** What the calls that do not run `go` leave alone. */
  ghost predicate Quiet(r: Req, r': Req)
    requires |r.producers| == 1
  {
    && |r'.producers| == 1 && r'.maxPayload == r.maxPayload && r'.file == r.file && r'.position == r.position
    && r'.producers[0].offset == r.producers[0].offset && r'.producers[0].finished == r.producers[0].finished
    && (r'.sent == r.sent || r'.sent == r.sent + [CancelRequest])
  }

  lemma PauseQuiet(r: Req)
    requires |r.producers| == 1
    ensures Quiet(r, Pause(r)) && Quiet(r, StopProducer(r))
  {
  }

  lemma CancelQuiet(r: Req, pause: bool)
    requires |r.producers| == 1
    ensures Quiet(r, Cancel(r, pause))
  {
  }

  lemma LoseQuiet(r: Req, pause: bool)
    requires |r.producers| == 1
    ensures Quiet(r, Lose(r, pause))
  {
    hide Pause, Cancel;
    PauseQuiet(r);
    CancelQuiet(Pause(r), pause);
  }

  lemma RejectFinishes(r: Req, b: Body)
    ensures Reject(r, b) == Finish(r, Failed(if b == Error then PeerError else UnexpectedReply))
  {
  }

  lemma ReceiveQuiet(r: Req, b: Body, pause: bool)
    requires |r.producers| == 1 && |Receive(r, b, pause).producers| == 1
    ensures Quiet(r, Receive(r, b, pause))
    ensures !(r.kind.Upload? && b.BeginContent?)
  {
    hide Concat, ResumeProducer, Reject;
    var failed := if b == Error then PeerError else UnexpectedReply;
    assert Reject(r, b) == Finish(r, Failed(failed)) by { RejectFinishes(r, b); }
  }

  lemma QuietOnTrack(r: Req, r': Req, base: seq<byte>)
    requires OnTrack(r, base) && Quiet(r, r')
    ensures OnTrack(r', base) && |Content(r'.sent)| == |Content(r.sent)|
  {
    hide Canonical, Content;
    ContentSnoc(r.sent, CancelRequest);
    SameTrack(r, r', base);
  }

  lemma ResumeOnTrack(r: Req, pause: bool, base: seq<byte>)
    requires OnTrack(r, base) && r.started
    ensures var r' := Apply(r, DoResume(pause));
            OnTrack(r', base) && |Content(r'.sent)| == |Content(r.sent)| + if Pumps(r, DoResume(pause)) then 1 else 0
  {
    hide Canonical, Content, Go;
    var on := SetProducer(r, 0, r.producers[0].(producing := true));
    QuietOnTrack(r, on, base);
    GoOnTrack(on, pause, base);
    QuietOnTrack(Go(on, 0, pause), Resume(r, pause), base);
  }

  /** The calls that pump nothing. */
  lemma QuietStep(r: Req, a: Act)
    requires |r.producers| == 1 && Enabled(r, a) && |Apply(r, a).producers| == 1
    requires a.DoPause? || a.DoReceive? || a.DoCancel? || a.DoLose?
    ensures Quiet(r, Apply(r, a)) && !Pumps(r, a)
  {
    hide Pause, Receive, Cancel, Lose, Quiet;
    match a
    case DoPause => PauseQuiet(r);
    case DoReceive(b, pause) => ReceiveQuiet(r, b, pause);
    case DoCancel(pause) => CancelQuiet(r, pause);
    case DoLose(pause) => LoseQuiet(r, pause);
  }

  lemma NothingDone(r: Req, a: Act)
    requires !Enabled(r, a)
    ensures Apply(r, a) == r && !Pumps(r, a)
  {
  }

  lemma GoStep(r: Req, k: nat, pause: bool, base: seq<byte>)
    requires OnTrack(r, base) && Enabled(r, DoGo(k, pause))
    ensures OnTrack(Apply(r, DoGo(k, pause)), base)
    ensures |Content(Apply(r, DoGo(k, pause)).sent)| == |Content(r.sent)| + if Pumps(r, DoGo(k, pause)) then 1 else 0
  {
    hide Canonical, Content, Go;
    var taken := SetProducer(r, 0, r.producers[0].(calls := r.producers[0].calls - 1));
    QuietOnTrack(r, taken, base);
    GoOnTrack(taken, pause, base);
  }

  /** Every act that is not a second BEGIN_CONTENT keeps the upload on track, and exactly the pumping
      ones move it, by one message. */
  lemma StepOnTrack(r: Req, a: Act, base: seq<byte>)
    requires Inv(r) && OnTrack(r, base)
    requires |Apply(r, a).producers| == 1
    ensures OnTrack(Apply(r, a), base)
    ensures |Content(Apply(r, a).sent)| == |Content(r.sent)| + if Pumps(r, a) then 1 else 0
  {
    assert r.producers != [] && r.kind.Upload? && (r.started || r.finished);
    hide Canonical, Content, Inv, Apply, Pumps, OnTrack;
    if !Enabled(r, a) {
      NothingDone(r, a);
    } else if a.DoGo? {
      GoStep(r, a.k, a.pause, base);
    } else if a.DoResume? {
      ResumeOnTrack(r, a.pause, base);
    } else if !a.DoStart? {
      QuietStep(r, a);
      QuietOnTrack(r, Apply(r, a), base);
    }
  }

  /** How many acts of a run get to send something. */
  ghost function PumpCount(r: Req, acts: seq<Act>): nat
    decreases |acts|
  {
    if acts == [] then 0
    else (if Pumps(r, acts[0]) then 1 else 0) + PumpCount(Apply(r, acts[0]), acts[1..])
  }

  lemma {:induction false} RunOnTrack(r: Req, acts: seq<Act>, base: seq<byte>)
    requires Inv(r) && OnTrack(r, base)
    requires |Run(r, acts).producers| == 1
    ensures OnTrack(Run(r, acts), base) && Run(r, acts).maxPayload == r.maxPayload
    ensures |Content(Run(r, acts).sent)| == |Content(r.sent)| + PumpCount(r, acts)
    decreases |acts|
  {
    if acts != [] {
      var next := Apply(r, acts[0]);
      StepInv(r, acts[0]);
      StepOnTrack(r, acts[0], base);
      RunOnTrack(next, acts[1..], base);
    }
  }

  /** A producer that has just been registered has everything to send. */
  lemma FreshOnTrack(r: Req, p: Producer, base: seq<byte>)
    requires r.maxPayload > 0 && Content(r.sent) == [] && !p.finished
    requires base == Suffix(r.file, if p.offset != 0 then p.offset else r.position)
    ensures OnTrack(r.(producers := [p]), base)
  {
    hide Canonical, Content, Suffix;
    var toSend := ToSend(r.(producers := [p]));
    assert [] + toSend == toSend;
  }

  lemma BeginShape(r: Req, offset: nat, pause: bool)
    requires r.kind.Upload? && r.started && r.producers == []
    ensures Apply(r, DoReceive(BeginContent(offset), pause))
            == Go(r.(producers := [Producer(offset, r.producing, false, 0)]), 0, pause)
    ensures Pumps(r, DoReceive(BeginContent(offset), pause))
            <==> Active(r.(producers := [Producer(offset, r.producing, false, 0)]), 0)
  {
    hide Read, Cursor, Pause;
    var registered := r.producers + [Producer(offset, false, false, 0)];
    assert registered == [Producer(offset, false, false, 0)];
    assert registered[0 := Producer(offset, true, false, 0)] == [Producer(offset, true, false, 0)];
  }

  lemma BeginOnTrack(r: Req, offset: nat, pause: bool)
    requires Inv(r) && r.kind.Upload? && r.started && r.producers == [] && r.maxPayload > 0
    ensures var base := Suffix(r.file, if offset != 0 then offset else r.position);
            var begin := DoReceive(BeginContent(offset), pause);
            && OnTrack(Apply(r, begin), base)
            && |Content(Apply(r, begin).sent)| == if Pumps(r, begin) then 1 else 0
  {
    var base := Suffix(r.file, if offset != 0 then offset else r.position);
    var producer := Producer(offset, r.producing, false, 0);
    assert NoContent(r.sent);
    hide *;
    BeginShape(r, offset, pause);
    NoContentMeansNone(r.sent);
    FreshOnTrack(r, producer, base);
    GoOnTrack(r.(producers := [producer]), pause, base);
  }

  /** Upload safety over all runs. After one BEGIN_CONTENT, whatever interleaving of resumes, pauses,
      stops, cancellations, other replies and pending `go` calls follows, with pauses allowed inside
      any send: the content sent is exactly the first `n` messages of the canonical upload of the
      file from the requested offset, where `n` counts the `go` executions that got to work. So the
      bytes are a prefix of that suffix, EOF is sent at most once, only after all of it, and nothing
      follows it; and every working `go` is progress. */
  lemma UploadSafety(r: Req, offset: nat, pause: bool, acts: seq<Act>)
    requires Inv(r) && r.kind.Upload? && r.started && r.producers == [] && r.maxPayload > 0
    requires |Run(Apply(r, DoReceive(BeginContent(offset), pause)), acts).producers| == 1
    ensures var begin := DoReceive(BeginContent(offset), pause);
            var c := Canonical(Suffix(r.file, if offset != 0 then offset else r.position), r.maxPayload);
            var n := PumpCount(r, [begin] + acts);
            n <= |c| && Content(Run(Apply(r, begin), acts).sent) == c[..n]
  {
    var begun := Apply(r, DoReceive(BeginContent(offset), pause));
    var base := Suffix(r.file, if offset != 0 then offset else r.position);
    BeginOnTrack(r, offset, pause);
    StepInv(r, DoReceive(BeginContent(offset), pause));
    RunOnTrack(begun, acts, base);
    assert ([DoReceive(BeginContent(offset), pause)] + acts)[1..] == acts;
    hide Canonical, Content, Run, Apply;
    var end := Run(begun, acts);
    assert (Content(end.sent) + ToSend(end))[..|Content(end.sent)|] == Content(end.sent);
  }

  /** The consequences named one by one, for any `n` messages of the canonical upload. */
  lemma PrefixOfUpload(base: seq<byte>, maxPayload: nat, n: nat)
    requires maxPayload > 0 && n <= |Canonical(base, maxPayload)|
    ensures var c := Canonical(base, maxPayload)[..n];
            && Payload(c) <= base
            && (forall i :: 0 <= i < |c| && c[i] == Eof ==> i == |c| - 1 && Payload(c) == base)
  {
    hide Canonical, Payload;
    var all := Canonical(base, maxPayload);
    CanonicalShape(base, maxPayload);
    CanonicalPayload(base, maxPayload);
    assert all == all[..n] + all[n..];
    PayloadAppend(all[..n], all[n..]);
    if n == |all| {
      assert all[..n] == all;
    }
  }

  /** `n` runs of the pending `go` call. */
  function GoCalls(n: nat): (acts: seq<Act>)
    ensures |acts| == n && forall i :: 0 <= i < n ==> acts[i] == DoGo(0, false)
  {
    seq(n, i => DoGo(0, false))
  }

  lemma StaysActive(r: Req)
    requires |r.producers| == 1 && Active(r, 0) && r.maxPayload > 0
    ensures var r' := Go(r, 0, false);
            Active(r', 0) || r'.producers[0].finished
  {
  }

  /** Progress: from any state the pump can get into, if it is producing and nobody pauses or cancels
      it any more, then running as many pending calls as there are messages left sends all of them. */
  lemma {:induction false} ReachesEof(r: Req, base: seq<byte>)
    requires Inv(r) && OnTrack(r, base) && Active(r, 0)
    ensures var end := Run(r, GoCalls(|ToSend(r)|));
            |end.producers| == 1 && end.producers[0].finished && Content(end.sent) == Canonical(base, r.maxPayload)
    decreases |ToSend(r)|
  {
    hide Canonical, Content, Go, SentOrder, FiresOnce, Untouched;
    var taken := SetProducer(r, 0, r.producers[0].(calls := r.producers[0].calls - 1));
    var next := Apply(r, DoGo(0, false));
    StepInv(r, DoGo(0, false));
    QuietOnTrack(r, taken, base);
    GoOnTrack(taken, false, base);
    assert next == Go(taken, 0, false);
    assert ToSend(taken) == ToSend(r);
    var n := |ToSend(r)|;
    assert GoCalls(n)[1..] == GoCalls(n - 1);
    assert Run(r, GoCalls(n)) == Run(next, GoCalls(n - 1));
    StaysActive(taken);
    if next.producers[0].finished {
      assert ToSend(next) == [];
      assert GoCalls(0) == [];
      assert Content(next.sent) + [] == Content(next.sent);
    } else {
      ReachesEof(next, base);
    }
  }

  // Cancellation

  lemma CancelledResume(r: Req, pause: bool)
    requires r.cancelled
    ensures Resume(r, pause).sent == r.sent
    ensures r.producers != [] ==> ResumeProducer(r, pause).sent == r.sent
  {
    hide Go;
    if r.producers != [] {
      var k := |r.producers| - 1;
      GoSends(SetProducer(r, k, r.producers[k].(producing := true)), k, pause);
    }
  }

  lemma StepSilent(r: Req, a: Act)
    requires Inv(r) && r.cancelled && (r.started || r.finished)
    ensures var r' := Apply(r, a); r'.sent == r.sent && r'.cancelled && (r'.started || r'.finished)
  {
    hide Go, Concat, Pause, StopProducer;
    if Enabled(r, a) {
      match a
      case DoGo(k, pause) => GoSends(SetProducer(r, k, r.producers[k].(calls := r.producers[k].calls - 1)), k, pause);
      case DoResume(pause) => CancelledResume(r, pause);
      case DoReceive(b, pause) =>
        hide ResumeProducer;
        if r.kind.Upload? && b.BeginContent? {
          CancelledResume(r.(producers := r.producers + [Producer(b.offset, false, false, 0)]), pause);
        }
      case _ =>
    }
  }

  /** After a cancellation no `go`, resume or BEGIN_CONTENT sends anything again. */
  lemma {:induction false} CancelledSendsNothing(r: Req, acts: seq<Act>)
    requires Inv(r) && r.cancelled && (r.started || r.finished)
    ensures Run(r, acts).sent == r.sent
    decreases |acts|
  {
    hide Apply, Inv;
    if acts != [] {
      StepInv(r, acts[0]);
      StepSilent(r, acts[0]);
      CancelledSendsNothing(Apply(r, acts[0]), acts[1..]);
    }
  }
}
