/** Flow control across the connection: the transport pauses and resumes the handler, the handler its
    requests, an upload its byte producer (magicicadaprotocol/request.py, `addProducer` to
    `pauseProducing`, `Request.registerProducer`). */
module FlowControl {
  import opened Options
  import opened Requests
  import opened Multiplexer
  import opened ConnectionRuns

  /** The current producer could still send something. */
  predicate Writes(r: Req)
  {
    r.producers != [] && !r.cancelled && !r.producers[|r.producers| - 1].finished
  }

  ghost predicate ProducerObeys(r: Req, flag: bool)
  {
    Writes(r) ==> r.producers[|r.producers| - 1].producing == flag
  }

  /** A request follows the handler's flag, and so does its byte producer while it has work to do. */
  ghost predicate Obeys(r: Req, flag: bool)
  {
    r.producing == flag && ProducerObeys(r, flag)
  }

  ghost predicate Agrees(e: Handler)
  {
    forall h :: 0 <= h < |e.all| && e.all[h].started ==> Obeys(e.all[h], e.producing)
  }

  // One request

  lemma GoObeys(r: Req, k: nat, pause: bool, flag: bool)
    requires k < |r.producers| && ProducerObeys(r, flag)
    ensures ProducerObeys(Go(r, k, pause), if pause && Active(r, k) then false else flag)
    ensures Go(r, k, pause).producing == (if pause && Active(r, k) then false else r.producing)
    ensures |Go(r, k, pause).sent| > |r.sent| <==> Active(r, k)
  {
    GoSends(r, k, pause);
    hide Go, NextData;
    if Active(r, k) {
      GoWorks(r, k, pause);
      GoProducer(r, k, pause, |r.producers| - 1);
    }
  }

  lemma ResumeObeys(r: Req, pause: bool)
    requires r.started
    ensures |Apply(r, DoResume(pause)).sent| > |r.sent| <==> Writes(r)
    ensures !(pause && Writes(r)) ==> Obeys(Apply(r, DoResume(pause)), true)
  {
    hide Go;
    if r.producers != [] {
      var k := |r.producers| - 1;
      GoObeys(SetProducer(r, k, r.producers[k].(producing := true)), k, pause, true);
    }
  }

  /** A pause that hits a resumed request inside its write: the request goes on believing it is
      producing, while its producer stands still unless it has just finished. */
  lemma ResumeInterrupted(r: Req)
    requires r.started && Writes(r)
    ensures var r' := Apply(r, DoResume(true));
            r'.producing && (Obeys(r', true) <==> Next(r, |r.producers| - 1) == Eof)
            && (!Obeys(r', true) ==> Writes(r') && !r'.producers[|r'.producers| - 1].producing)
  {
    hide Read;
  }

  lemma ReplyKeeps(r: Req, b: Body, pause: bool)
    ensures var r' := Receive(r, b, pause);
            if r.kind.Upload? && b.BeginContent? then r' == Begin(r, b.offset, pause)
            else
              && r'.producing == r.producing && r'.producers == r.producers
              && r'.cancelled == r.cancelled && r'.sent == r.sent
  {
    hide Begin, Reject, Finish, ReceiveDownload, ReceiveLookup;
    assert !(r.kind.Upload? && b.BeginContent?) ==> KeepsPumps(r, Receive(r, b, pause));
  }

  lemma CancelObeys(r: Req, pause: bool, flag: bool)
    requires r.started && Obeys(r, flag)
    ensures Obeys(Cancel(r, pause), if pause && |Cancel(r, pause).sent| > |r.sent| then false else flag)
  {
  }

  lemma BeginObeys(r: Req, offset: nat, pause: bool, flag: bool)
    requires r.producing == flag
    ensures Obeys(Begin(r, offset, pause), if pause && |Begin(r, offset, pause).sent| > |r.sent| then false else flag)
  {
    hide Go;
    var registered := r.(producers := r.producers + [Producer(offset, false, false, 0)]);
    if r.producing {
      var k := |r.producers|;
      GoObeys(SetProducer(registered, k, registered.producers[k].(producing := true)), k, pause, true);
    }
  }

  lemma ActObeys(r: Req, a: Act, flag: bool)
    requires Requests.Inv(r) && r.started && Obeys(r, flag)
    requires a.DoReceive? || a.DoCancel? || a.DoGo?
    ensures var r' := Apply(r, a);
            r'.started ==> Obeys(r', if a.pause && |r'.sent| > |r.sent| then false else flag)
  {
    hide Go, Receive, Cancel;
    if Enabled(r, a) {
      match a
      case DoGo(k, pause) =>
        var taken := SetProducer(r, k, r.producers[k].(calls := r.producers[k].calls - 1));
        GoObeys(taken, k, pause, flag);
      case DoReceive(b, pause) =>
        ReplyKeeps(r, b, pause);
        if r.kind.Upload? && b.BeginContent? {
          BeginObeys(r, b.offset, pause, flag);
        }
      case DoCancel(pause) => CancelObeys(r, pause, flag);
    }
  }

  lemma StartObeys(r: Req, id: nat, flag: bool, pause: bool)
    requires Requests.Inv(r) && !r.started && !r.finished
    ensures var r' := Apply(r, DoStart(id, flag, pause));
            |r'.sent| > |r.sent| && (r'.started ==> Obeys(r', if pause then false else flag))
  {
  }

  lemma PauseObeys(r: Req)
    requires r.started
    ensures Obeys(Apply(r, DoPause), false)
  {
  }

  // The whole connection

  lemma PauseStarted(r: Req)
    ensures Apply(r, DoPause).started == r.started
  {
  }

  lemma PauseAllAgrees(e: Handler, skip: Option<nat>)
    requires Registry(e)
    requires skip.Some? && skip.value < |e.all| && e.all[skip.value].started ==> Obeys(e.all[skip.value], false)
    ensures Agrees(PauseAll(e, skip))
  {
    hide Obeys;
    var e' := PauseAll(e, skip);
    forall h | 0 <= h < |e'.all| && e'.all[h].started ensures Obeys(e'.all[h], false) {
      PauseStarted(e.all[h]);
      assert Registered(e, h);
      if skip != Some(h) {
        PauseObeys(e.all[h]);
      }
    }
  }

  /** What one call does to the agreement: it survives if the request obeys the flag it ends up under. */
  lemma MoveAgrees(e: Handler, h: nat, a: Act, pause: bool)
    requires Multiplexer.Inv(e) && Agrees(e) && h < |e.all| && !a.DoStart?
    requires var r := Apply(e.all[h], a);
             r.started ==> Obeys(r, if pause && |r.sent| > |e.all[h].sent| then false else e.producing)
    ensures Agrees(Move(e, h, a, pause))
  {
    hide Obeys, Apply, Requests.Inv, WireAgrees;
    var r := Apply(e.all[h], a);
    InvOf(e, h);
    ApplySuccessor(e.all[h], a);
    UpdateInv(e, h, r);
    if pause && |r.sent| > |e.all[h].sent| {
      PauseAllAgrees(Update(e, h, r), Some(h));
    } else if r.started {
      assert Registered(e, h);
    }
  }

  lemma InvRegistry(e: Handler)
    requires Multiplexer.Inv(e)
    ensures Registry(e)
  {
  }

  /** The registry right after a start, before the pause inside its write spreads. */
  lemma StartedRegistry(e: Handler, h: nat, pause: bool)
    requires Multiplexer.Inv(e) && h < |e.all| && !e.all[h].started && !e.all[h].finished
    ensures var added := Joining(e, h);
            Registry(Update(added, h, Apply(e.all[h], DoStart(e.counter, e.producing, pause))))
  {
    hide Multiplexer.Inv, Apply, Update;
    var r := e.all[h];
    var added := Joining(e, h);
    var r' := Apply(r, DoStart(e.counter, e.producing, pause));
    InvOf(e, h);
    StartShape(r, e.counter, e.producing, pause);
    if r.kind.OneWay? {
      var before := StartedOneWay(r, e.counter, e.producing, pause);
      OpenedInv(e, h, before);
      UpdateInv(Update(added, h, before), h, r');
      TwoUpdates(added, h, before, r');
      InvRegistry(Update(added, h, r'));
    } else {
      OpenedInv(e, h, r');
      InvRegistry(Update(added, h, r'));
    }
  }

  lemma StartAgrees(e: Handler, h: nat, pause: bool)
    requires Multiplexer.Inv(e) && Agrees(e) && h < |e.all|
    ensures Agrees(StartRequest(e, h, pause))
  {
    hide Obeys, Apply, Requests.Inv, PauseAll;
    var r := e.all[h];
    InvOf(e, h);
    if !r.started && !r.finished {
      var added := Joining(e, h);
      var r' := Apply(r, DoStart(e.counter, e.producing, pause));
      StartObeys(r, e.counter, e.producing, pause);
      if pause {
        StartedRegistry(e, h, pause);
        PauseAllAgrees(Update(added, h, r'), Some(h));
      }
    }
  }

  lemma DispatchAgrees(e: Handler, m: Message, pause: bool)
    requires Multiplexer.Inv(e) && Agrees(e)
    ensures Agrees(Dispatch(e, m, pause))
  {
    hide Obeys, Apply, PauseAll, Requests.Inv, WireAgrees;
    match Find(e.requests, m.id)
    case Some(i) =>
      var h := e.requests[i].handle;
      InvOf(e, h);
      ActObeys(e.all[h], DoReceive(m.body, pause), e.producing);
      MoveAgrees(e, h, DoReceive(m.body, pause), pause);
    case None =>
      PongInv(e, m);
      PauseAllAgrees(e.(wire := e.wire + [Message(m.id, Pong)]), None);
  }

  lemma StoppedStays(r: Req, a: Act)
    requires Requests.Inv(r) && !a.DoStart?
    ensures !r.started ==> !Apply(r, a).started
  {
    ApplyStatus(r, a);
  }

  /** Flow-control agreement: every call but a resume keeps it, even with the transport pausing the
      handler from inside a write. */
  lemma StepAgrees(e: Handler, ev: Event)
    requires Multiplexer.Inv(e) && Proper(ev) && Agrees(e) && !ev.Resumed?
    ensures Agrees(Step(e, ev))
  {
    hide Obeys, Apply, PauseAll, Move, StartRequest, Dispatch, LoseEach, Requests.Inv, WireAgrees;
    match ev
    case Created(kind, file, maxPayload, position) =>
    case Started(h, pause) => if h < |e.all| { StartAgrees(e, h, pause); }
    case Arrived(m, pause) => DispatchAgrees(e, m, pause);
    case Paused => PauseAllAgrees(e, None);
    case UserCancelled(h, pause) =>
      if h < |e.all| {
        InvOf(e, h);
        StoppedStays(e.all[h], DoCancel(pause));
        if e.all[h].started { ActObeys(e.all[h], DoCancel(pause), e.producing); }
        MoveAgrees(e, h, DoCancel(pause), pause);
      }
    case GoDue(h, k, pause) =>
      if h < |e.all| {
        var act := DoGo(k, pause && e.all[h].started);
        InvOf(e, h);
        StoppedStays(e.all[h], act);
        if e.all[h].started { ActObeys(e.all[h], act, e.producing); }
        MoveAgrees(e, h, act, pause);
      }
    case Lost(pauses) => LostDrains(e, pauses);
  }

  // Resuming

  /** Resuming entry `i` writes, and the transport pauses the handler inside that write. */
  ghost predicate Interrupts(e: Handler, i: nat, pauses: set<nat>)
    requires i < |e.requests|
  {
    var h := e.requests[i].handle;
    h < |e.all| && h in pauses && Writes(e.all[h])
  }

  /** The first request has nothing left to send but EOF. */
  ghost predicate FirstFinishes(e: Handler)
  {
    && e.requests != [] && e.requests[0].handle < |e.all|
    && var r := e.all[e.requests[0].handle];
       r.producers != [] && Next(r, |r.producers| - 1) == Eof
  }

  /** No pause hits a resume, or only the one that lets the very first request send its EOF. */
  ghost predicate Harmless(e: Handler, pauses: set<nat>)
  {
    forall i :: 0 <= i < |e.requests| && Interrupts(e, i, pauses) ==>
      i == 0 && FirstFinishes(e)
  }

  /** Out of step with a handler that believes it is producing. */
  ghost predicate Stalled(r: Req)
  {
    !r.producing || (Writes(r) && !r.producers[|r.producers| - 1].producing)
  }

  lemma PauseStalls(r: Req)
    requires r.started
    ensures Stalled(Apply(r, DoPause)) && Writes(Apply(r, DoPause)) == Writes(r) && Apply(r, DoPause).started
  {
  }

  ghost predicate NotAmong(entries: seq<Entry>, g: nat)
  {
    forall i :: 0 <= i < |entries| ==> entries[i].handle != g
  }

  lemma ResumeKeepsRunning(r: Req, pause: bool)
    ensures Apply(r, DoResume(pause)).finished == r.finished
  {
  }

  /** One turn of the loop: the entry's request moves, the registry stays, and the others are paused
      exactly when the entry interrupts. */
  lemma OneResume(e: Handler, n: nat, pauses: set<nat>)
    requires Multiplexer.Inv(e) && n < |e.requests|
    ensures var h := e.requests[n].handle;
            var e' := Move(e, h, DoResume(h in pauses), h in pauses);
            && Multiplexer.Inv(e') && e'.requests == e.requests
            && e'.all[h] == Apply(e.all[h], DoResume(h in pauses)) && e.all[h].started
            && forall g :: 0 <= g < |e.all| && g != h ==>
                 e'.all[g] == if Interrupts(e, n, pauses) && Registered(e, g) then Apply(e.all[g], DoPause)
                              else e.all[g]
  {
    hide Requests.Inv, WireAgrees, Apply, Obeys, Fresh, Tagged, Without, Requesting, Ids;
    var h := e.requests[n].handle;
    InvOf(e, h);
    MoveInv(e, h, DoResume(h in pauses), h in pauses);
    ResumeKeepsRunning(e.all[h], h in pauses);
    ResumeObeys(e.all[h], h in pauses);
  }

  lemma Later(e: Handler, n: nat)
    requires n < |e.requests|
    ensures e.requests[n..][0] == e.requests[n] && e.requests[n..][1..] == e.requests[n + 1..]
  {
  }

  lemma InRange(e: Handler, n: nat)
    requires Multiplexer.Inv(e) && n < |e.requests|
    ensures e.requests[n].handle < |e.all|
  {
  }

  /** A turn of the loop that is not its own leaves a stalled request stalled. */
  lemma OtherTurn(e: Handler, n: nat, pauses: set<nat>, g: nat)
    requires Multiplexer.Inv(e) && n < |e.requests| && g < |e.all| && e.all[g].started && Stalled(e.all[g])
    requires e.requests[n].handle != g && e.requests[n].handle < |e.all|
    ensures var h := e.requests[n].handle;
            var r := Move(e, h, DoResume(h in pauses), h in pauses).all[g];
            Stalled(r) && r.started
  {
    OneResume(e, n, pauses);
    PauseStalls(e.all[g]);
    hide *;
  }

  /** The rest of the loop cannot wake a request that is not in it. */
  lemma {:induction false} StaysStalled(e: Handler, n: nat, pauses: set<nat>, g: nat)
    requires Multiplexer.Inv(e) && n <= |e.requests| && g < |e.all| && e.all[g].started
    requires NotAmong(e.requests[n..], g) && Stalled(e.all[g])
    ensures var e' := ResumeEach(e, e.requests[n..], pauses);
            g < |e'.all| && Stalled(e'.all[g]) && e'.all[g].started
    decreases |e.requests| - n
  {
    if n < |e.requests| {
      hide Multiplexer.Inv, Apply, Move, Stalled;
      var h := e.requests[n].handle;
      Later(e, n);
      InRange(e, n);
      OneResume(e, n, pauses);
      OtherTurn(e, n, pauses, g);
      StaysStalled(Move(e, h, DoResume(h in pauses), h in pauses), n + 1, pauses, g);
    }
  }

  lemma StartedRegistered(e: Handler, g: nat)
    requires Multiplexer.Inv(e) && g < |e.all| && e.all[g].started
    ensures Registered(e, g)
  {
  }

  /** Whether a later entry will interrupt does not depend on the turns before it. */
  lemma StillInterrupts(e: Handler, n: nat, i: nat, pauses: set<nat>)
    requires Multiplexer.Inv(e) && n < i < |e.requests|
    ensures var h := e.requests[n].handle;
            var moved := Move(e, h, DoResume(h in pauses), h in pauses);
            i < |moved.requests| && Interrupts(moved, i, pauses) == Interrupts(e, i, pauses)
            && (!Interrupts(e, n, pauses) ==> moved.all[e.requests[i].handle] == e.all[e.requests[i].handle])
  {
    hide Multiplexer.Inv, Apply, Move, Writes;
    var g := e.requests[i].handle;
    OneResume(e, n, pauses);
    OneResume(e, i, pauses);
    HandlesDiffer(e, n, i);
    InRange(e, n);
    InRange(e, i);
    PauseStalls(e.all[g]);
  }

  /** An interrupted turn leaves every request before it stalled for good. */
  lemma {:induction false} InterruptStallsEarlier(e: Handler, n: nat, i: nat, pauses: set<nat>, g: nat)
    requires Multiplexer.Inv(e) && n <= i < |e.requests| && Interrupts(e, i, pauses)
    requires g < |e.all| && e.all[g].started && NotAmong(e.requests[n..], g)
    ensures var e' := ResumeEach(e, e.requests[n..], pauses);
            g < |e'.all| && Stalled(e'.all[g]) && e'.all[g].started
    decreases i - n
  {
    hide Multiplexer.Inv, Apply, Move, Stalled, Writes;
    var h := e.requests[n].handle;
    Later(e, n);
    InRange(e, n);
    OneResume(e, n, pauses);
    PauseStalls(e.all[g]);
    assert h != g;
    StartedRegistered(e, g);
    var moved := Move(e, h, DoResume(h in pauses), h in pauses);
    if n == i {
      StaysStalled(moved, n + 1, pauses, g);
    } else {
      StillInterrupts(e, n, i, pauses);
      InterruptStallsEarlier(moved, n + 1, i, pauses, g);
    }
  }

  lemma LaterNotAmong(entries: seq<Entry>, g: nat)
    requires entries != [] && NotAmong(entries, g)
    ensures entries[0].handle != g && NotAmong(entries[1..], g)
  {
  }

  /** Without interruptions the loop leaves exactly the requests in it producing. */
  lemma {:induction false} CleanResume(e: Handler, n: nat, pauses: set<nat>)
    requires Multiplexer.Inv(e) && n <= |e.requests|
    requires forall i :: n <= i < |e.requests| ==> !Interrupts(e, i, pauses)
    ensures var e' := ResumeEach(e, e.requests[n..], pauses);
            && e'.requests == e.requests && |e'.all| == |e.all|
            && (forall i :: n <= i < |e.requests| ==>
                  e.requests[i].handle < |e.all| && Obeys(e'.all[e.requests[i].handle], true))
            && (forall g :: 0 <= g < |e.all| && NotAmong(e.requests[n..], g) ==> e'.all[g] == e.all[g])
    decreases |e.requests| - n
  {
    hide Multiplexer.Inv, Apply, Move, Writes, Obeys;
    if n < |e.requests| {
      var h := e.requests[n].handle;
      Later(e, n);
      InRange(e, n);
      var moved := Move(e, h, DoResume(h in pauses), h in pauses);
      OneResume(e, n, pauses);
      ResumeObeys(e.all[h], h in pauses);
      forall i | n + 1 <= i < |e.requests| ensures !Interrupts(moved, i, pauses) && e.requests[i].handle != h {
        StillInterrupts(e, n, i, pauses);
        HandlesDiffer(e, n, i);
      }
      CleanResume(moved, n + 1, pauses);
      assert NotAmong(e.requests[n + 1..], h);
      forall g | 0 <= g < |e.all| && NotAmong(e.requests[n..], g)
        ensures g != h && NotAmong(e.requests[n + 1..], g)
      {
        LaterNotAmong(e.requests[n..], g);
      }
    }
  }

  lemma AgreesAfterResume(e: Handler, e': Handler)
    requires Multiplexer.Inv(e') && e'.requests == e.requests && |e'.all| == |e.all|
    requires forall i :: 0 <= i < |e.requests| ==>
               e.requests[i].handle < |e.all| && Obeys(e'.all[e.requests[i].handle], true)
    ensures Agrees(e'.(producing := true))
  {
    hide Obeys, Requests.Inv, WireAgrees;
    forall h | 0 <= h < |e'.all| && e'.all[h].started ensures Obeys(e'.all[h], true) {
      var i :| 0 <= i < |e'.requests| && e'.requests[i].handle == h;
    }
  }

  lemma StalledDisobeys(r: Req)
    requires Stalled(r)
    ensures !Obeys(r, true)
  {
  }

  lemma FirstNotLater(e: Handler)
    requires Multiplexer.Inv(e) && e.requests != []
    ensures NotAmong(e.requests[1..], e.requests[0].handle)
  {
    forall i | 0 <= i < |e.requests[1..]| ensures e.requests[1..][i].handle != e.requests[0].handle {
      HandlesDiffer(e, 0, i + 1);
    }
  }

  lemma HarmlessResume(e: Handler, pauses: set<nat>)
    requires Multiplexer.Inv(e) && Harmless(e, pauses)
    ensures var e' := ResumeEach(e, e.requests, pauses);
            && e'.requests == e.requests && |e'.all| == |e.all|
            && forall i :: 0 <= i < |e.requests| ==>
                 e.requests[i].handle < |e.all| && Obeys(e'.all[e.requests[i].handle], true)
  {
    hide Multiplexer.Inv, Apply, Move, Obeys;
    if e.requests != [] {
      var h := e.requests[0].handle;
      InRange(e, 0);
      var moved := Move(e, h, DoResume(h in pauses), h in pauses);
      OneResume(e, 0, pauses);
      FirstNotLater(e);
      forall i | 1 <= i < |e.requests| ensures !Interrupts(moved, i, pauses) {
        StillInterrupts(e, 0, i, pauses);
      }
      if Interrupts(e, 0, pauses) {
        ResumeInterrupted(e.all[h]);
      } else {
        ResumeObeys(e.all[h], h in pauses);
      }
      CleanResume(moved, 1, pauses);
    }
  }

  lemma StillStarted(r: Req, pause: bool)
    ensures Apply(r, DoResume(pause)).started == r.started
  {
  }

  lemma StallsInterrupted(r: Req)
    requires r.started && Writes(r) && Next(r, |r.producers| - 1) != Eof
    ensures Stalled(Apply(r, DoResume(true)))
  {
    ResumeInterrupted(r);
    hide Apply;
  }

  lemma HarmfulResume(e: Handler, i: nat, pauses: set<nat>)
    requires Multiplexer.Inv(e) && i < |e.requests| && Interrupts(e, i, pauses)
    requires i == 0 ==> !FirstFinishes(e)
    ensures var e' := ResumeEach(e, e.requests, pauses);
            var h := e.requests[0].handle;
            h < |e'.all| && e'.all[h].started && Stalled(e'.all[h])
  {
    hide Multiplexer.Inv, Apply, Move, Obeys, Stalled;
    var h := e.requests[0].handle;
    InRange(e, 0);
    var moved := Move(e, h, DoResume(h in pauses), h in pauses);
    OneResume(e, 0, pauses);
    FirstNotLater(e);
    StillStarted(e.all[h], h in pauses);
    if i == 0 {
      ResumeInterrupted(e.all[h]);
      StallsInterrupted(e.all[h]);
      StaysStalled(moved, 1, pauses, h);
    } else {
      StillInterrupts(e, 0, i, pauses);
      InterruptStallsEarlier(moved, 1, i, pauses, h);
    }
  }

  /** Flow-control agreement after a resume, for every set of requests inside whose writes the transport
      pauses the handler: requests and handler agree if and only if no such pause hits, except one
      that the first request's EOF absorbs. Otherwise some request stays paused although the
      handler believes it is producing. */
  lemma ResumeAgreesIff(e: Handler, pauses: set<nat>)
    requires Multiplexer.Inv(e)
    ensures Agrees(Step(e, Resumed(pauses))) <==> Harmless(e, pauses)
  {
    hide Multiplexer.Inv, Apply, Move, Writes, Obeys;
    assert e.requests[0..] == e.requests;
    ResumeEachInv(e, e.requests, pauses);
    var end := ResumeEach(e, e.requests, pauses);
    if Harmless(e, pauses) {
      HarmlessResume(e, pauses);
      AgreesAfterResume(e, end);
    } else {
      var i :| 0 <= i < |e.requests| && Interrupts(e, i, pauses)
        && !(i == 0 && FirstFinishes(e));
      HarmfulResume(e, i, pauses);
      var h := e.requests[0].handle;
      StalledDisobeys(end.all[h]);
    }
  }

  /** Every resume of the run is harmless when it comes. */
  ghost predicate HarmlessRun(e: Handler, events: seq<Event>)
    decreases |events|
  {
    events != [] ==>
      && (events[0].Resumed? ==> Harmless(e, events[0].pauses))
      && HarmlessRun(Step(e, events[0]), events[1..])
  }

  /** Flow-control agreement over all runs of a connection with harmless resumes. */
  lemma {:induction false} RunAgrees(e: Handler, events: seq<Event>)
    requires Multiplexer.Inv(e) && Agrees(e) && HarmlessRun(e, events)
    requires forall i :: 0 <= i < |events| ==> Proper(events[i])
    ensures Agrees(Multiplexer.Run(e, events))
    decreases |events|
  {
    hide Multiplexer.Inv, Agrees, Step, Harmless;
    if events != [] {
      StepKeepsInv(e, events[0]);
      if events[0].Resumed? {
        ResumeAgreesIff(e, events[0].pauses);
      } else {
        StepAgrees(e, events[0]);
      }
      RunAgrees(Step(e, events[0]), events[1..]);
    }
  }

  // What the transport's calls are for

  /** A pause (or stop) of the handler switches off every running request and its current producer, and nothing else
      changes: nothing is written and requests that are not running are left alone. */
  lemma PausedStops(e: Handler)
    requires Multiplexer.Inv(e)
    ensures var e' := Step(e, Paused);
            && !e'.producing && e'.wire == e.wire && e'.requests == e.requests && |e'.all| == |e.all|
            && forall h :: 0 <= h < |e.all| ==>
                 var r, r' := e.all[h], e'.all[h];
                 if r.started then
                   && !r'.producing && SameExchange(r, r') && |r'.producers| == |r.producers|
                   && (r.producers != [] ==> !r'.producers[|r.producers| - 1].producing)
                 else r' == r
  {
    hide Requests.Inv, WireAgrees;
    var e' := Step(e, Paused);
    forall h | 0 <= h < |e.all| ensures Registered(e, h) <==> e.all[h].started {
      if Registered(e, h) {
        var i :| 0 <= i < |e.requests| && e.requests[i].handle == h;
      }
    }
  }

  /** A resume that is not interrupted switches all of them on again: every running request, and its current producer
      while it has work to do. */
  lemma ResumedStarts(e: Handler)
    requires Multiplexer.Inv(e)
    ensures var e' := Step(e, Resumed({}));
            && e'.producing
            && forall h :: 0 <= h < |e'.all| && e'.all[h].started ==>
                 var r' := e'.all[h];
                 && r'.producing
                 && (r'.producers != [] && !r'.cancelled && !r'.producers[|r'.producers| - 1].finished
                     ==> r'.producers[|r'.producers| - 1].producing)
  {
    ResumeAgreesIff(e, {});
    hide Multiplexer.Inv, ResumeEach;
  }

  // The failing side at an input that occurs

  const UPLOAD_PAUSED := [
    Created(Upload, [7, 8], 1, 0), Started(0, false), Arrived(Message(1, BeginContent(0)), false), Paused]

  lemma UploadStarted() returns (e: Handler)
    ensures e == Step(Step(CONNECTED, UPLOAD_PAUSED[0]), UPLOAD_PAUSED[1])
    ensures e.requests == [Entry(1, 0)] && !e.raised && e.all == [Start(New(Upload, [7, 8], 1, 0), 1, true, false)]
  {
    var e1 := Step(CONNECTED, UPLOAD_PAUSED[0]);
    assert e1.all == [New(Upload, [7, 8], 1, 0)] && e1.requests == [] && e1.counter == 1 && e1.producing;
    e := Step(e1, UPLOAD_PAUSED[1]);
    hide Start;
    assert [] + [Entry(1, 0)] == [Entry(1, 0)];
    assert e1.all[0 := Start(e1.all[0], 1, true, false)] == [Start(e1.all[0], 1, true, false)];
  }

  lemma BegunUpload(r: Req)
    requires r == Start(New(Upload, [7, 8], 1, 0), 1, true, false)
    ensures r.started && !r.finished && r.kind == Upload
    ensures var r' := Begin(r, 0, false);
            && r'.producers == [Producer(0, true, false, 1)] && !r'.cancelled && r'.started && !r'.finished
            && r'.file == [7, 8] && r'.maxPayload == 1 && r'.position == 1
  {
    var on := r.(producers := [Producer(0, true, false, 0)]);
    assert [Producer(0, false, false, 0)][0 := Producer(0, true, false, 0)] == [Producer(0, true, false, 0)];
    assert r.producers + [Producer(0, false, false, 0)] == [Producer(0, false, false, 0)];
    assert [7, 8][0..1] == [7];
    GoWorks(on, 0, false);
    hide Go;
    assert Begin(r, 0, false) == Go(on, 0, false);
  }

  lemma UploadBegun(e2: Handler) returns (e: Handler)
    requires e2.requests == [Entry(1, 0)] && !e2.raised && e2.all == [Start(New(Upload, [7, 8], 1, 0), 1, true, false)]
    ensures e == Step(e2, UPLOAD_PAUSED[2])
    ensures e.requests == [Entry(1, 0)] && |e.all| == 1 && e.all[0].started
    ensures e.all[0].producers == [Producer(0, true, false, 1)] && !e.all[0].cancelled
            && e.all[0].file == [7, 8] && e.all[0].maxPayload == 1 && e.all[0].position == 1
  {
    var r := e2.all[0];
    BegunUpload(r);
    hide Start, Begin, Tagged;
    assert Find(e2.requests, 1) == Some(0);
    e := Step(e2, UPLOAD_PAUSED[2]);
    assert e.all == [Begin(r, 0, false)];
  }

  lemma PausedAfter(e: Handler)
    requires e.requests == [Entry(1, 0)] && |e.all| == 1 && e.all[0].started
    requires e.all[0].producers == [Producer(0, true, false, 1)]
    ensures var e' := Step(e, Paused);
            && e'.requests == e.requests && |e'.all| == 1 && e'.all[0].producers == [Producer(0, false, false, 1)]
            && e'.all[0].cancelled == e.all[0].cancelled && e'.all[0].file == e.all[0].file
            && e'.all[0].maxPayload == e.all[0].maxPayload && e'.all[0].position == e.all[0].position
  {
    assert e.requests[0].handle == 0;
    assert Registered(e, 0);
  }

  lemma RunCons(e: Handler, ev: Event, rest: seq<Event>)
    ensures Multiplexer.Run(e, [ev] + rest) == Multiplexer.Run(Step(e, ev), rest)
    ensures Multiplexer.Run(Step(e, ev), []) == Step(e, ev)
  {
    hide Step;
    assert ([ev] + rest)[1..] == rest;
  }

  lemma RunFour(e: Handler, a: Event, b: Event, c: Event, d: Event)
    ensures Multiplexer.Run(e, [a, b, c, d]) == Step(Step(Step(Step(e, a), b), c), d)
  {
    RunCons(e, a, [b, c, d]);
    RunCons(Step(e, a), b, [c, d]);
    RunCons(Step(Step(e, a), b), c, [d]);
    RunCons(Step(Step(Step(e, a), b), c), d, []);
    hide Multiplexer.Run, Step;
    assert [a] + [b, c, d] == [a, b, c, d] && [b] + [c, d] == [b, c, d] && [c] + [d] == [c, d] && [d] + [] == [d];
  }

  /** An upload that has sent the first byte of two and is paused. */
  lemma PausedUpload()
    ensures var e := Multiplexer.Run(CONNECTED, UPLOAD_PAUSED);
            && Multiplexer.Inv(e) && e.requests == [Entry(1, 0)] && |e.all| == 1
            && e.all[0].producers == [Producer(0, false, false, 1)] && !e.all[0].cancelled
            && e.all[0].file == [7, 8] && e.all[0].maxPayload == 1 && e.all[0].position == 1
  {
    ConnectedInv();
    RunKeepsInv(CONNECTED, UPLOAD_PAUSED);
    RunFour(CONNECTED, UPLOAD_PAUSED[0], UPLOAD_PAUSED[1], UPLOAD_PAUSED[2], UPLOAD_PAUSED[3]);
    var e2 := UploadStarted();
    var e3 := UploadBegun(e2);
    PausedAfter(e3);
    hide *;
  }

  /** Resumed, the upload sends its second byte, and a pause from inside that write leaves it believing that it
      is producing while its producer stands still. */
  lemma StalledExample()
    ensures !Agrees(Step(Multiplexer.Run(CONNECTED, UPLOAD_PAUSED), Resumed({0})))
  {
    var e := Multiplexer.Run(CONNECTED, UPLOAD_PAUSED);
    PausedUpload();
    assert Interrupts(e, 0, {0});
    assert [7, 8][1..] == [8];
    assert Next(e.all[0], 0) == Bytes([8]);
    hide Multiplexer.Run, Step, Agrees;
    ResumeAgreesIff(e, {0});
  }
}
