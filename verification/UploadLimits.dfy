/** Where the promises of an upload end: what a second BEGIN_CONTENT and what a completion can do to it
    (magicicadaprotocol/client.py, `BytesMessageProducer` and `PutContent`), each with the exact
    condition under which the promise still holds. */
module UploadLimits {
  import opened ByteStrings
  import opened Requests
  import opened Uploads

  // EOF messages and finished producers

  function Eofs(sent: seq<Body>): nat
  {
    if sent == [] then 0
    else Eofs(sent[..|sent| - 1]) + if sent[|sent| - 1] == Eof then 1 else 0
  }

  function Through(producers: seq<Producer>): nat
  {
    if producers == [] then 0
    else Through(producers[..|producers| - 1]) + if producers[|producers| - 1].finished then 1 else 0
  }

  /** Every finished producer has sent one EOF, and nobody else has. */
  ghost predicate EofPerProducer(r: Req)
  {
    Eofs(r.sent) == Through(r.producers)
  }

  lemma EofsSnoc(sent: seq<Body>, b: Body)
    ensures Eofs(sent + [b]) == Eofs(sent) + if b == Eof then 1 else 0
  {
    assert (sent + [b])[..|sent + [b]| - 1] == sent;
  }

  ghost predicate SameThrough(a: seq<Producer>, b: seq<Producer>)
  {
    |a| == |b| && forall k :: 0 <= k < |a| ==> a[k].finished == b[k].finished
  }

  lemma {:induction false} ThroughSame(a: seq<Producer>, b: seq<Producer>)
    requires SameThrough(a, b)
    ensures Through(a) == Through(b)
  {
    if a != [] {
      ThroughSame(a[..|a| - 1], b[..|b| - 1]);
    }
  }

  /** One more producer is finished. */
  lemma {:induction false} ThroughOneMore(a: seq<Producer>, b: seq<Producer>, k: nat)
    requires k < |a| && |b| == |a| && !a[k].finished && b[k].finished
    requires forall j :: 0 <= j < |a| && j != k ==> a[j].finished == b[j].finished
    ensures Through(b) == Through(a) + 1
  {
    var n := |a| - 1;
    if k == n {
      ThroughSame(a[..n], b[..n]);
    } else {
      ThroughOneMore(a[..n], b[..n], k);
    }
  }

  lemma ThroughSnoc(producers: seq<Producer>, p: Producer)
    ensures Through(producers + [p]) == Through(producers) + if p.finished then 1 else 0
  {
    assert (producers + [p])[..|producers + [p]| - 1] == producers;
  }

  lemma {:induction false} ThroughOne(producers: seq<Producer>, k: nat)
    requires k < |producers| && producers[k].finished
    ensures Through(producers) >= 1
  {
    var n := |producers| - 1;
    if k < n {
      ThroughOne(producers[..n], k);
    }
  }

  lemma {:induction false} ThroughTwo(producers: seq<Producer>, j: nat, k: nat)
    requires j < k < |producers| && producers[j].finished && producers[k].finished
    ensures Through(producers) >= 2
  {
    var n := |producers| - 1;
    if k < n {
      ThroughTwo(producers[..n], j, k);
    } else {
      ThroughOne(producers[..n], j);
    }
  }

  lemma {:induction false} ThroughNone(producers: seq<Producer>)
    requires forall k :: 0 <= k < |producers| ==> !producers[k].finished
    ensures Through(producers) == 0
  {
    if producers != [] {
      ThroughNone(producers[..|producers| - 1]);
    }
  }

  // Every run sends one EOF per finished producer

  /** What `go` finishes. */
  lemma GoFinishes(r: Req, k: nat, pause: bool, j: nat)
    requires k < |r.producers| && Active(r, k) && j < |r.producers|
    ensures Go(r, k, pause).producers[j].finished
            <==> if j == k then Next(r, k) == Eof else r.producers[j].finished
  {
    hide Go, NextData;
    GoProducer(r, k, pause, j);
  }

  lemma GoEofs(r: Req, k: nat, pause: bool)
    requires k < |r.producers| && EofPerProducer(r)
    ensures EofPerProducer(Go(r, k, pause))
  {
    hide Go, Next, Eofs, Through;
    GoSends(r, k, pause);
    if Active(r, k) {
      forall j | 0 <= j < |r.producers| ensures
        Go(r, k, pause).producers[j].finished <==> if j == k then Next(r, k) == Eof else r.producers[j].finished
      {
        GoFinishes(r, k, pause, j);
      }
      EofsSnoc(r.sent, Next(r, k));
      if Next(r, k) == Eof {
        ThroughOneMore(r.producers, Go(r, k, pause).producers, k);
      } else {
        ThroughSame(r.producers, Go(r, k, pause).producers);
      }
    }
  }

  lemma ResumeEofs(r: Req, pause: bool)
    requires EofPerProducer(r)
    ensures EofPerProducer(Resume(r, pause))
    ensures r.producers != [] ==> EofPerProducer(ResumeProducer(r, pause))
  {
    hide Go;
    if r.producers != [] {
      var k := |r.producers| - 1;
      var on := SetProducer(r, k, r.producers[k].(producing := true));
      ThroughSame(r.producers, on.producers);
      GoEofs(on, k, pause);
    }
  }

  lemma BeginEofs(r: Req, offset: nat, pause: bool)
    requires EofPerProducer(r)
    ensures EofPerProducer(Begin(r, offset, pause))
  {
    hide ResumeProducer;
    ThroughSnoc(r.producers, Producer(offset, false, false, 0));
    ResumeEofs(r.(producers := r.producers + [Producer(offset, false, false, 0)]), pause);
  }

  /** The calls that run no `go` finish no producer and send no EOF. */
  ghost predicate NoEof(r: Req, r': Req)
  {
    SameThrough(r.producers, r'.producers) && (r'.sent == r.sent || exists b :: b != Eof && r'.sent == r.sent + [b])
  }

  lemma NoEofKeeps(r: Req, r': Req)
    requires EofPerProducer(r) && NoEof(r, r')
    ensures EofPerProducer(r')
  {
    ThroughSame(r.producers, r'.producers);
    if r'.sent != r.sent {
      var b :| b != Eof && r'.sent == r.sent + [b];
      EofsSnoc(r.sent, b);
    }
  }

  lemma PauseNoEof(r: Req)
    ensures NoEof(r, Pause(r)) && Pause(r).sent == r.sent
  {
  }

  lemma CancelNoEof(r: Req, pause: bool)
    ensures NoEof(r, Cancel(r, pause))
  {
  }

  lemma StartNoEof(r: Req, id: nat, producing: bool, pause: bool)
    requires Inv(r) && !r.started && !r.finished
    ensures NoEof(r, Start(r, id, producing, pause))
  {
    var r' := Start(r, id, producing, pause);
    assert r'.sent == r.sent + [Opening(r.kind)] && r'.producers == [];
  }

  lemma LoseNoEof(r: Req, pause: bool)
    ensures NoEof(r, Lose(r, pause))
  {
    hide Pause, Cancel;
    PauseNoEof(r);
    CancelNoEof(Pause(r), pause);
  }

  lemma ReplyNoEof(r: Req, b: Body, pause: bool)
    ensures if r.kind.Upload? && b.BeginContent? then Receive(r, b, pause) == Begin(r, b.offset, pause)
            else Receive(r, b, pause).sent == r.sent && Receive(r, b, pause).producers == r.producers
  {
    hide Begin, Reject, Finish, ReceiveDownload, ReceiveLookup;
    assert !(r.kind.Upload? && b.BeginContent?) ==> KeepsPumps(r, Receive(r, b, pause));
  }

  lemma StepEofs(r: Req, a: Act)
    requires Inv(r) && EofPerProducer(r)
    ensures EofPerProducer(Apply(r, a))
  {
    hide Start, Receive, Cancel, Lose, Resume, Go, Pause, Inv, NoEof;
    if Enabled(r, a) {
      match a
      case DoStart(id, producing, pause) =>
        StartNoEof(r, id, producing, pause);
        NoEofKeeps(r, Start(r, id, producing, pause));
      case DoResume(pause) => ResumeEofs(r, pause);
      case DoPause =>
        PauseNoEof(r);
        NoEofKeeps(r, Pause(r));
      case DoReceive(b, pause) =>
        ReplyNoEof(r, b, pause);
        if r.kind.Upload? && b.BeginContent? { BeginEofs(r, b.offset, pause); }
      case DoCancel(pause) =>
        CancelNoEof(r, pause);
        NoEofKeeps(r, Cancel(r, pause));
      case DoGo(k, pause) =>
        var taken := SetProducer(r, k, r.producers[k].(calls := r.producers[k].calls - 1));
        ThroughSame(r.producers, taken.producers);
        GoEofs(taken, k, pause);
      case DoLose(pause) =>
        LoseNoEof(r, pause);
        NoEofKeeps(r, Lose(r, pause));
    }
  }

  /** Over every run, whatever the number of BEGIN_CONTENT messages: the EOFs sent are as many as the
      producers that have come to the end of the file. */
  lemma {:induction false} RunEofs(r: Req, acts: seq<Act>)
    requires Inv(r) && EofPerProducer(r)
    ensures Inv(Run(r, acts)) && EofPerProducer(Run(r, acts))
    decreases |acts|
  {
    hide Inv, Apply, EofPerProducer;
    if acts != [] {
      StepInv(r, acts[0]);
      StepEofs(r, acts[0]);
      RunEofs(Apply(r, acts[0]), acts[1..]);
    }
  }

  /** So it is in every run of a request from its creation. */
  lemma EofsFromCreation(kind: Kind, file: seq<byte>, maxPayload: nat, position: nat, acts: seq<Act>)
    requires ProperKind(kind)
    ensures var r := Run(New(kind, file, maxPayload, position), acts); Inv(r) && EofPerProducer(r)
  {
    NewInv(kind, file, maxPayload, position);
    RunEofs(New(kind, file, maxPayload, position), acts);
  }

  // Running one producer to the end of the file

  /** What is left of the file for producer `k`. */
  function LeftToRead(r: Req, k: nat): nat
    requires k < |r.producers|
  {
    if Cursor(r, k) < |r.file| then |r.file| - Cursor(r, k) else 0
  }

  /** `r'` is where `go` calls of producer `k` alone lead: the other producers are untouched. */
  ghost predicate OnlyPumped(r: Req, r': Req, k: nat)
  {
    && |r'.producers| == |r.producers| && r'.started == r.started && r'.finished == r.finished
    && r'.cancelled == r.cancelled && r'.kind == r.kind
    && forall j :: 0 <= j < |r.producers| && j != k ==> r'.producers[j] == r.producers[j]
  }

  lemma ReadSize(file: seq<byte>, at: nat, n: nat)
    ensures Read(file, at, n) != [] ==> at < |file| && |Read(file, at, n)| <= |file| - at
  {
  }

  /** One scheduled call of an active producer: it is through, or it is active and has less left. */
  lemma OneCall(r: Req, k: nat)
    requires Inv(r) && k < |r.producers| && Active(r, k)
    ensures var r' := Apply(r, DoGo(k, false));
            && Inv(r') && OnlyPumped(r, r', k)
            && (r'.producers[k].finished || (Active(r', k) && LeftToRead(r', k) < LeftToRead(r, k)))
  {
    StepInv(r, DoGo(k, false));
    var taken := SetProducer(r, k, r.producers[k].(calls := r.producers[k].calls - 1));
    assert r.producers[k].calls > 0;
    GoWorks(taken, k, false);
    hide Go, Inv, Read;
    ReadSize(r.file, Cursor(r, k), r.maxPayload);
  }

  /** Some run of its own calls takes an active producer to the end. */
  lemma {:induction false} RunsThrough(r: Req, k: nat) returns (acts: seq<Act>)
    requires Inv(r) && k < |r.producers| && Active(r, k)
    ensures Inv(Run(r, acts)) && OnlyPumped(r, Run(r, acts), k) && Run(r, acts).producers[k].finished
    decreases LeftToRead(r, k)
  {
    hide Inv, Apply, LeftToRead, Active;
    var next := Apply(r, DoGo(k, false));
    OneCall(r, k);
    var rest: seq<Act> := [];
    if !next.producers[k].finished {
      rest := RunsThrough(next, k);
    }
    acts := [DoGo(k, false)] + rest;
    assert acts[1..] == rest;
  }

  // A further BEGIN_CONTENT

  /** Every run that gets no further BEGIN_CONTENT sends at most one EOF. */
  ghost predicate OneEofAtMost(begun: Req)
  {
    forall acts :: |Run(begun, acts).producers| == |begun.producers| ==> Eofs(Run(begun, acts).sent) <= 1
  }

  /** A producer that stands still, before or on its way through the file. */
  ghost predicate Idle(p: Producer)
  {
    !p.finished && !p.producing
  }

  /** All producers but the current one stand still. */
  ghost predicate OthersIdle(r: Req)
  {
    r.producers != [] && forall k :: 0 <= k < |r.producers| - 1 ==> Idle(r.producers[k])
  }

  lemma IdleGo(r: Req, k: nat, pause: bool)
    requires k < |r.producers| && OthersIdle(r)
    ensures OthersIdle(Go(r, k, pause))
  {
    hide Go;
    if Active(r, k) {
      forall j | 0 <= j < |r.producers| - 1 ensures Idle(Go(r, k, pause).producers[j]) {
        GoProducer(r, k, pause, j);
      }
    } else {
      GoSends(r, k, pause);
    }
  }

  lemma NotYetStarted(r: Req)
    requires Inv(r) && !r.started && !r.finished
    ensures r.producers == []
  {
  }

  lemma IdleCancel(r: Req, pause: bool)
    requires OthersIdle(r)
    ensures OthersIdle(Cancel(r, pause))
  {
  }

  /** Only the current producer is ever switched on, so the others stay idle. */
  lemma IdleStep(r: Req, a: Act)
    requires Inv(r) && OthersIdle(r) && |Apply(r, a).producers| == |r.producers|
    ensures OthersIdle(Apply(r, a))
  {
    hide Inv, Start, Receive, Cancel, Go;
    if Enabled(r, a) {
      match a
      case DoStart(_, _, _) =>
        NotYetStarted(r);
        assert false;
      case DoResume(pause) =>
        var k := |r.producers| - 1;
        IdleGo(SetProducer(r, k, r.producers[k].(producing := true)), k, pause);
      case DoPause =>
      case DoReceive(b, pause) => ReplyNoEof(r, b, pause);
      case DoCancel(pause) => IdleCancel(r, pause);
      case DoGo(k, pause) => IdleGo(SetProducer(r, k, r.producers[k].(calls := r.producers[k].calls - 1)), k, pause);
      case DoLose(pause) => IdleCancel(Pause(r), pause);
    }
  }

  lemma OneThrough(r: Req)
    requires EofPerProducer(r) && OthersIdle(r)
    ensures Eofs(r.sent) <= 1
  {
    var n := |r.producers| - 1;
    ThroughNone(r.producers[..n]);
    ThroughSnoc(r.producers[..n], r.producers[n]);
    assert r.producers[..n] + [r.producers[n]] == r.producers;
  }

  lemma {:induction false} IdleRun(r: Req, acts: seq<Act>)
    requires Inv(r) && EofPerProducer(r) && OthersIdle(r) && |Run(r, acts).producers| == |r.producers|
    ensures Eofs(Run(r, acts).sent) <= 1
    decreases |acts|
  {
    hide Inv, Apply, EofPerProducer;
    if acts == [] {
      OneThrough(r);
    } else {
      StepInv(r, acts[0]);
      StepEofs(r, acts[0]);
      assert Extends(r, Apply(r, acts[0])) && Extends(Apply(r, acts[0]), Run(r, acts));
      IdleStep(r, acts[0]);
      IdleRun(Apply(r, acts[0]), acts[1..]);
    }
  }

  /** What a BEGIN_CONTENT does to the producers: the new one is put behind the others. */
  lemma BeginAdds(r: Req, offset: nat, pause: bool)
    requires r.kind.Upload? && r.started && !r.cancelled
    ensures var r' := Apply(r, DoReceive(BeginContent(offset), pause));
            && |r'.producers| == |r.producers| + 1 && r'.started && !r'.cancelled
            && forall k :: 0 <= k < |r.producers| ==> r'.producers[k] == r.producers[k]
  {
    var n := |r.producers|;
    var registered := r.(producers := r.producers + [Producer(offset, false, false, 0)]);
    var on := SetProducer(registered, n, registered.producers[n].(producing := true));
    hide Go;
    if r.producing {
      forall k | 0 <= k < n ensures Go(on, n, pause).producers[k] == r.producers[k] {
        GoProducer(on, n, pause, k);
      }
    }
  }

  lemma ResumedCurrent(r: Req)
    requires r.started && !r.cancelled && r.producers != []
    ensures var k, r' := |r.producers| - 1, Apply(r, DoResume(false));
            && |r'.producers| == |r.producers| && (r'.producers[k].finished || Active(r', k))
            && forall j :: 0 <= j < k ==> r'.producers[j] == r.producers[j]
  {
    var k := |r.producers| - 1;
    var on := SetProducer(r, k, r.producers[k].(producing := true));
    hide Go, NextData;
    if Active(on, k) {
      forall j | 0 <= j < |r.producers| ensures Go(on, k, false).producers[j]
        == if j == k then Pumped(on.producers[k], NextData(on, k)) else on.producers[j]
      {
        GoProducer(on, k, false, j);
      }
    } else {
      GoSends(on, k, false);
    }
  }

  /** The current producer of a running upload can always be brought to the end. */
  lemma CurrentRunsThrough(r: Req) returns (acts: seq<Act>)
    requires Inv(r) && r.started && !r.cancelled && r.producers != []
    ensures var k, r' := |r.producers| - 1, Run(r, acts);
            Inv(r') && |r'.producers| == |r.producers| && r'.producers[k].finished
            && forall j :: 0 <= j < k ==> r'.producers[j] == r.producers[j]
  {
    var k := |r.producers| - 1;
    var next := Apply(r, DoResume(false));
    StepInv(r, DoResume(false));
    ResumedCurrent(r);
    hide Apply, Inv, Active;
    var rest: seq<Act> := [];
    if !next.producers[k].finished {
      rest := RunsThrough(next, k);
    }
    acts := [DoResume(false)] + rest;
    assert acts[1..] == rest;
  }

  lemma EofsAfterBegin(r: Req, offset: nat, pause: bool, acts: seq<Act>)
    requires Inv(r) && EofPerProducer(r)
    ensures EofPerProducer(Run(Apply(r, DoReceive(BeginContent(offset), pause)), acts))
  {
    hide *;
    StepInv(r, DoReceive(BeginContent(offset), pause));
    StepEofs(r, DoReceive(BeginContent(offset), pause));
    RunEofs(Apply(r, DoReceive(BeginContent(offset), pause)), acts);
  }

  /** The earlier producer comes to its end first, if it has not already. */
  lemma EarlierRunsThrough(r: Req, offset: nat, pause: bool, k: nat) returns (acts: seq<Act>)
    requires Inv(r) && r.kind.Upload? && r.started && !r.cancelled
    requires k < |r.producers| && !Idle(r.producers[k])
    ensures var begun := Apply(r, DoReceive(BeginContent(offset), pause));
            var end := Run(begun, acts);
            && |end.producers| == |begun.producers| == |r.producers| + 1 && end.producers[k].finished
            && Inv(end) && end.started && !end.cancelled
  {
    var begun := Apply(r, DoReceive(BeginContent(offset), pause));
    StepInv(r, DoReceive(BeginContent(offset), pause));
    BeginAdds(r, offset, pause);
    assert begun.producers[k].finished || Active(begun, k);
    hide Apply, Inv, Active;
    acts := [];
    if !begun.producers[k].finished {
      acts := RunsThrough(begun, k);
    }
  }

  lemma BothThrough(r: Req, k: nat)
    requires EofPerProducer(r) && k < |r.producers| - 1
    requires r.producers[k].finished && r.producers[|r.producers| - 1].finished
    ensures Eofs(r.sent) >= 2
  {
    ThroughTwo(r.producers, k, |r.producers| - 1);
  }

  /** A producer that is through or still pumping when the next BEGIN_CONTENT comes makes a second EOF possible. */
  lemma TwoEofs(r: Req, offset: nat, pause: bool, k: nat) returns (acts: seq<Act>)
    requires Inv(r) && EofPerProducer(r) && r.kind.Upload? && r.started && !r.cancelled
    requires k < |r.producers| && !Idle(r.producers[k])
    ensures var begun := Apply(r, DoReceive(BeginContent(offset), pause));
            |Run(begun, acts).producers| == |begun.producers| && Eofs(Run(begun, acts).sent) >= 2
  {
    var begun := Apply(r, DoReceive(BeginContent(offset), pause));
    var first := EarlierRunsThrough(r, offset, pause, k);
    var middle := Run(begun, first);
    hide *;
    var second := CurrentRunsThrough(middle);
    acts := first + second;
    RunAppend(begun, first, second);
    EofsAfterBegin(r, offset, pause, acts);
    BothThrough(Run(begun, acts), k);
  }

  /** The exact limit of one EOF per upload, for any number of producers, any offsets and any pause: when
      another BEGIN_CONTENT comes for a running upload, no run without yet another one ever sends
      two EOFs if and only if every producer so far stands still and has not come to its end. */
  lemma FurtherBeginIff(r: Req, offset: nat, pause: bool)
    requires Inv(r) && EofPerProducer(r) && r.kind.Upload? && r.started && !r.cancelled
    ensures OneEofAtMost(Apply(r, DoReceive(BeginContent(offset), pause)))
            <==> forall k :: 0 <= k < |r.producers| ==> Idle(r.producers[k])
  {
    var begin := DoReceive(BeginContent(offset), pause);
    var begun := Apply(r, begin);
    StepInv(r, begin);
    StepEofs(r, begin);
    BeginAdds(r, offset, pause);
    hide Apply, Inv, Eofs, EofPerProducer, Run;
    if forall k :: 0 <= k < |r.producers| ==> Idle(r.producers[k]) {
      forall acts | |Run(begun, acts).producers| == |begun.producers| ensures Eofs(Run(begun, acts).sent) <= 1 {
        IdleRun(begun, acts);
      }
    } else {
      var k :| 0 <= k < |r.producers| && !Idle(r.producers[k]);
      var acts := TwoEofs(r, offset, pause, k);
      assert !(Eofs(Run(begun, acts).sent) <= 1);
    }
  }

  lemma FourContent(first: Body, a: Body, b: Body, c: Body, d: Body)
    requires !IsContent(first) && IsContent(a) && IsContent(b) && IsContent(c) && IsContent(d)
    ensures Content([first, a, b, c, d]) == [a, b, c, d]
  {
    hide Content;
    NoContentMeansNone([first]);
    ContentSnoc([first], a);
    ContentSnoc([first] + [a], b);
    ContentSnoc([first] + [a] + [b], c);
    ContentSnoc([first] + [a] + [b] + [c], d);
    assert [first] + [a] + [b] + [c] + [d] == [first, a, b, c, d];
    assert [] + [a] + [b] + [c] + [d] == [a, b, c, d];
  }

  lemma TwoBegins(r0: Req) returns (r2: Req)
    requires r0 == Start(New(Upload, [7, 8], 1, 0), 1, true, false)
    ensures var begin := DoReceive(BeginContent(0), false);
            r2 == Apply(Apply(r0, begin), begin)
    ensures r2.kind == Upload && r2.file == [7, 8] && r2.maxPayload == 1 && r2.started && !r2.cancelled
    ensures r2.producers == [Producer(0, true, false, 1), Producer(0, true, false, 1)]
    ensures r2.sent == [PutContent, Bytes([7]), Bytes([8])] && r2.position == 2
  {
    var begin := DoReceive(BeginContent(0), false);
    var r1 := Apply(r0, begin);
    assert [7, 8][0..1] == [7] && [7, 8][1..] == [8];
    assert r1.producers == [Producer(0, true, false, 1)] && r1.position == 1;
    assert r1.sent == [PutContent, Bytes([7])];
    r2 := Apply(r1, begin);
  }

  lemma TwoLastCalls(r2: Req) returns (r4: Req)
    requires r2.kind == Upload && r2.file == [7, 8] && r2.maxPayload == 1 && r2.started && !r2.cancelled
    requires r2.producers == [Producer(0, true, false, 1), Producer(0, true, false, 1)]
    requires r2.sent == [PutContent, Bytes([7]), Bytes([8])] && r2.position == 2
    ensures r4 == Apply(Apply(r2, DoGo(0, false)), DoGo(1, false))
    ensures r4.sent == [PutContent, Bytes([7]), Bytes([8]), Eof, Eof]
  {
    var r3 := Apply(r2, DoGo(0, false));
    assert r3.sent == [PutContent, Bytes([7]), Bytes([8]), Eof];
    assert r3.producers == [Producer(0, false, true, 0), Producer(0, true, false, 1)];
    r4 := Apply(r3, DoGo(1, false));
  }

  lemma RunFour(r: Req, a: Act, b: Act, c: Act, d: Act)
    ensures Run(r, [a, b, c, d]) == Apply(Apply(Apply(Apply(r, a), b), c), d)
  {
    hide Apply;
    assert [a, b, c, d][1..] == [b, c, d] && [b, c, d][1..] == [c, d] && [c, d][1..] == [d] && [d][1..] == [];
    assert Run(r, [a, b, c, d]) == Run(Apply(r, a), [b, c, d]);
    assert Run(Apply(r, a), [b, c, d]) == Run(Apply(Apply(r, a), b), [c, d]);
    assert Run(Apply(Apply(Apply(r, a), b), c), [d]) == Apply(Apply(Apply(Apply(r, a), b), c), d);
  }

  /** Two BEGIN_CONTENT with offset 0: the producers share the position of the file, which goes out once, but
      each of them runs into its end, and EOF is sent twice. */
  lemma TwoBeginsTwoEofs()
    ensures var begin := DoReceive(BeginContent(0), false);
            var started := Start(New(Upload, [7, 8], 1, 0), 1, true, false);
            Content(Run(started, [begin, begin, DoGo(0, false), DoGo(1, false)]).sent)
            == [Bytes([7]), Bytes([8]), Eof, Eof]
  {
    hide Content, Run, Apply, Start;
    var r0 := Start(New(Upload, [7, 8], 1, 0), 1, true, false);
    var begin := DoReceive(BeginContent(0), false);
    var r2 := TwoBegins(r0);
    var r4 := TwoLastCalls(r2);
    RunFour(r0, begin, begin, DoGo(0, false), DoGo(1, false));
    FourContent(PutContent, Bytes([7]), Bytes([8]), Eof, Eof);
  }

  lemma TwoSuffixes(r0: Req) returns (r2: Req)
    requires r0 == Start(New(Upload, [7, 8, 9], 2, 0), 1, true, false)
    ensures var begin := DoReceive(BeginContent(1), false);
            r2 == Apply(Apply(r0, begin), begin)
    ensures r2.kind == Upload && r2.file == [7, 8, 9] && r2.maxPayload == 2 && r2.started && !r2.cancelled
    ensures r2.producers == [Producer(3, true, false, 1), Producer(3, true, false, 1)]
    ensures r2.sent == [PutContent, Bytes([8, 9]), Bytes([8, 9])]
  {
    var begin := DoReceive(BeginContent(1), false);
    var r1 := Apply(r0, begin);
    assert [7, 8, 9][1..] == [8, 9];
    assert r1.producers == [Producer(3, true, false, 1)];
    assert r1.sent == [PutContent, Bytes([8, 9])];
    r2 := Apply(r1, begin);
  }

  lemma TwoEnds(r2: Req) returns (r4: Req)
    requires r2.kind == Upload && r2.file == [7, 8, 9] && r2.maxPayload == 2 && r2.started && !r2.cancelled
    requires r2.producers == [Producer(3, true, false, 1), Producer(3, true, false, 1)]
    requires r2.sent == [PutContent, Bytes([8, 9]), Bytes([8, 9])]
    ensures r4 == Apply(Apply(r2, DoGo(0, false)), DoGo(1, false))
    ensures r4.sent == [PutContent, Bytes([8, 9]), Bytes([8, 9]), Eof, Eof]
  {
    var r3 := Apply(r2, DoGo(0, false));
    assert r3.sent == [PutContent, Bytes([8, 9]), Bytes([8, 9]), Eof];
    assert r3.producers == [Producer(3, false, true, 0), Producer(3, true, false, 1)];
    r4 := Apply(r3, DoGo(1, false));
  }

  /** Two BEGIN_CONTENT with another offset: each producer seeks its own place, and all of the requested
      suffix is sent twice. */
  lemma TwoBeginsTwoSuffixes()
    ensures var begin := DoReceive(BeginContent(1), false);
            var started := Start(New(Upload, [7, 8, 9], 2, 0), 1, true, false);
            Content(Run(started, [begin, begin, DoGo(0, false), DoGo(1, false)]).sent)
            == [Bytes([8, 9]), Bytes([8, 9]), Eof, Eof]
  {
    hide Content, Run, Apply, Start;
    var r0 := Start(New(Upload, [7, 8, 9], 2, 0), 1, true, false);
    var begin := DoReceive(BeginContent(1), false);
    var r2 := TwoSuffixes(r0);
    var r4 := TwoEnds(r2);
    RunFour(r0, begin, begin, DoGo(0, false), DoGo(1, false));
    FourContent(PutContent, Bytes([8, 9]), Bytes([8, 9]), Eof, Eof);
  }

  // After completion

  lemma PendingCallSends(r: Req, k: nat)
    requires Inv(r) && k < |r.producers| && Active(r, k)
    ensures |Apply(r, DoGo(k, false)).sent| == |r.sent| + 1
  {
    hide Go, Next, FiresOnce, Untouched, SentOrder;
    var taken := SetProducer(r, k, r.producers[k].(calls := r.producers[k].calls - 1));
    assert Active(taken, k);
    GoSends(taken, k, false);
  }

  lemma RunOne(r: Req, a: Act)
    ensures Run(r, [a]) == Apply(r, a)
  {
    hide Apply;
    assert [a][1..] == [];
  }

  ghost predicate Silent(r: Req)
  {
    r.finished && !r.started && forall k :: 0 <= k < |r.producers| ==> !Active(r, k)
  }

  lemma SilentStep(r: Req, a: Act)
    requires Silent(r)
    ensures Silent(Apply(r, a)) && Apply(r, a).sent == r.sent
  {
    hide Go;
    if Enabled(r, a) && a.DoGo? {
      var taken := SetProducer(r, a.k, r.producers[a.k].(calls := r.producers[a.k].calls - 1));
      assert forall j :: 0 <= j < |r.producers| ==> Active(taken, j) == Active(r, j);
      GoSends(taken, a.k, a.pause);
    }
  }

  lemma {:induction false} SilentRun(r: Req, acts: seq<Act>)
    requires Silent(r)
    ensures Run(r, acts).sent == r.sent
    decreases |acts|
  {
    hide Apply;
    if acts != [] {
      SilentStep(r, acts[0]);
      SilentRun(Apply(r, acts[0]), acts[1..]);
    }
  }

  /** The exact condition under which a completed request sends nothing more, whatever comes: none of its
      producers is switched on, uncancelled and unfinished. */
  lemma CompletedIsSilentIff(r: Req)
    requires Inv(r) && r.finished
    ensures (forall acts :: Run(r, acts).sent == r.sent) <==> forall k :: 0 <= k < |r.producers| ==> !Active(r, k)
  {
    hide Run, Apply, Active;
    if forall k :: 0 <= k < |r.producers| ==> !Active(r, k) {
      forall acts ensures Run(r, acts).sent == r.sent {
        SilentRun(r, acts);
      }
    } else {
      var k :| 0 <= k < |r.producers| && Active(r, k);
      PendingCallSends(r, k);
      RunOne(r, DoGo(k, false));
      assert Run(r, [DoGo(k, false)]).sent != r.sent;
    }
  }

  /** Such a producer's own scheduled calls can take its file all the way to EOF after the completion. */
  lemma CompletedGoesOn(r: Req, k: nat) returns (acts: seq<Act>)
    requires Inv(r) && EofPerProducer(r) && r.finished && k < |r.producers| && Active(r, k)
    ensures Eofs(Run(r, acts).sent) == Eofs(r.sent) + 1
  {
    acts := RunsThrough(r, k);
    RunEofs(r, acts);
    ThroughOneMore(r.producers, Run(r, acts).producers, k);
  }

  lemma RunThree(r: Req, a: Act, b: Act, c: Act)
    ensures Run(r, [a, b, c]) == Apply(Apply(Apply(r, a), b), c)
  {
    hide Apply;
    assert [a, b, c][1..] == [b, c] && [b, c][1..] == [c] && [c][1..] == [];
    assert Run(r, [a, b, c]) == Run(Apply(r, a), [b, c]);
    assert Run(Apply(r, a), [b, c]) == Run(Apply(Apply(r, a), b), [c]);
  }

  lemma OneBegin(r1: Req) returns (r2: Req)
    requires r1 == Apply(New(Upload, [7, 8], 1, 0), DoStart(1, true, false))
    ensures r2 == Apply(r1, DoReceive(BeginContent(0), false))
    ensures r2.kind == Upload && r2.file == [7, 8] && r2.maxPayload == 1 && r2.started && !r2.cancelled
    ensures r2.producers == [Producer(0, true, false, 1)] && r2.position == 1
  {
    r2 := Apply(r1, DoReceive(BeginContent(0), false));
    assert [7, 8][0..1] == [7];
    assert r2.producers == [Producer(0, true, false, 1)];
  }

  lemma AnsweredOk(r2: Req)
    requires r2.kind == Upload && r2.started
    ensures var r := Apply(r2, DoReceive(Ok, false));
            r.finished && r == r2.(finished := true, started := r.started, fired := r.fired)
  {
    hide Go, Concat;
  }

  lemma SecondByte(r: Req)
    requires r.file == [7, 8] && r.maxPayload == 1 && r.position == 1 && !r.cancelled
    requires r.producers == [Producer(0, true, false, 1)]
    ensures Active(r, 0) && Apply(r, DoGo(0, false)).sent == r.sent + [Bytes([8])]
  {
    var taken := SetProducer(r, 0, r.producers[0].(calls := 0));
    assert [7, 8][1..] == [8];
    GoSends(taken, 0, false);
    hide Go;
  }

  /** An upload of two bytes that is answered OK after its first: it is completed, its producer is pumping, and
      its pending call sends the second byte. */
  lemma CompletedExample()
    ensures var acts := [DoStart(1, true, false), DoReceive(BeginContent(0), false), DoReceive(Ok, false)];
            var r := Run(New(Upload, [7, 8], 1, 0), acts);
            && r.finished && |r.producers| == 1 && Active(r, 0)
            && Run(r, [DoGo(0, false)]).sent == r.sent + [Bytes([8])]
  {
    var r0 := New(Upload, [7, 8], 1, 0);
    var start, begin, ok := DoStart(1, true, false), DoReceive(BeginContent(0), false), DoReceive(Ok, false);
    RunThree(r0, start, begin, ok);
    hide Run, Apply;
    var r2 := OneBegin(Apply(r0, start));
    AnsweredOk(r2);
    var r := Apply(r2, ok);
    SecondByte(r);
    RunOne(r, DoGo(0, false));
  }
}
