/** What a whole run of the connection means for each of its requests: its part of the run is a run of
    that request alone, and losing the connection completes them all (magicicadaprotocol/request.py,
    `processMessage` and `connectionLost`). */
module ConnectionRuns {
  import opened ByteStrings
  import opened Options
  import opened Requests
  import opened Multiplexer
  import opened Uploads

  // Projection on one request

  /** `r'` is where some run of the request leads from `r`. */
  ghost predicate Reaches(r: Req, r': Req)
  {
    exists acts :: Requests.Run(r, acts) == r'
  }

  lemma ReachesSelf(r: Req)
    ensures Reaches(r, r)
  {
    assert Requests.Run(r, []) == r;
  }

  lemma ReachesOne(r: Req, a: Act)
    ensures Reaches(r, Apply(r, a))
  {
    assert [a][1..] == [];
    assert Requests.Run(r, [a]) == Requests.Run(Apply(r, a), []);
  }

  lemma ReachesTrans(r: Req, s: Req, t: Req)
    requires Reaches(r, s) && Reaches(s, t)
    ensures Reaches(r, t)
  {
    var front :| Requests.Run(r, front) == s;
    var back :| Requests.Run(s, back) == t;
    RunAppend(r, front, back);
  }

  lemma PauseAllReaches(e: Handler, skip: Option<nat>, h: nat)
    requires h < |e.all|
    ensures Reaches(e.all[h], PauseAll(e, skip).all[h])
  {
    ReachesSelf(e.all[h]);
    ReachesOne(e.all[h], DoPause);
  }

  lemma MoveReaches(e: Handler, g: nat, a: Act, pause: bool, h: nat)
    requires g < |e.all| && h < |e.all|
    ensures Reaches(e.all[h], Move(e, g, a, pause).all[h])
  {
    hide PauseAll, Apply, Reaches;
    var r := Apply(e.all[g], a);
    var moved := Update(e, g, r);
    ReachesSelf(e.all[h]);
    ReachesOne(e.all[g], a);
    PauseAllReaches(moved, Some(g), h);
    ReachesTrans(e.all[h], moved.all[h], PauseAll(moved, Some(g)).all[h]);
  }

  lemma {:induction false} ResumeEachReaches(e: Handler, entries: seq<Entry>, pauses: set<nat>, h: nat)
    requires h < |e.all|
    ensures h < |ResumeEach(e, entries, pauses).all| && Reaches(e.all[h], ResumeEach(e, entries, pauses).all[h])
    decreases |entries|
  {
    hide Move, Reaches;
    ReachesSelf(e.all[h]);
    if entries != [] {
      var g := entries[0].handle;
      var moved := if g < |e.all| then Move(e, g, DoResume(g in pauses), g in pauses) else e;
      if g < |e.all| { MoveReaches(e, g, DoResume(g in pauses), g in pauses, h); }
      ResumeEachReaches(moved, entries[1..], pauses, h);
      ReachesTrans(e.all[h], moved.all[h], ResumeEach(moved, entries[1..], pauses).all[h]);
    }
  }

  lemma {:induction false} LoseEachReaches(e: Handler, entries: seq<Entry>, pauses: set<nat>, h: nat)
    requires h < |e.all|
    ensures h < |LoseEach(e, entries, pauses).all| && Reaches(e.all[h], LoseEach(e, entries, pauses).all[h])
    decreases |entries|
  {
    hide Move, Reaches;
    ReachesSelf(e.all[h]);
    if entries != [] {
      var g := entries[0].handle;
      var moved := if g < |e.all| then Move(e, g, DoLose(g in pauses), g in pauses) else e;
      if g < |e.all| { MoveReaches(e, g, DoLose(g in pauses), g in pauses, h); }
      LoseEachReaches(moved, entries[1..], pauses, h);
      ReachesTrans(e.all[h], moved.all[h], LoseEach(moved, entries[1..], pauses).all[h]);
    }
  }

  lemma StepReaches(e: Handler, ev: Event, h: nat)
    requires h < |e.all|
    ensures h < |Step(e, ev).all| && Reaches(e.all[h], Step(e, ev).all[h])
  {
    hide Move, Reaches, ResumeEach, LoseEach, PauseAll;
    ReachesSelf(e.all[h]);
    match ev
    case Created(kind, file, maxPayload, position) =>
    case Started(g, pause) =>
      if g < |e.all| && !e.all[g].started && !e.all[g].finished {
        var added := Joining(e, g);
        MoveReaches(added, g, DoStart(e.counter, e.producing, pause), pause, h);
      }
    case Arrived(m, pause) =>
      match Find(e.requests, m.id) {
        case Some(i) =>
          var g := e.requests[i].handle;
          if g < |e.all| { MoveReaches(e, g, DoReceive(m.body, pause), pause, h); }
        case None => PauseAllReaches(e.(wire := e.wire + [Message(m.id, Pong)]), None, h);
      }
    case Resumed(pauses) => ResumeEachReaches(e, e.requests, pauses, h);
    case Paused => PauseAllReaches(e, None, h);
    case UserCancelled(g, pause) => if g < |e.all| { MoveReaches(e, g, DoCancel(pause), pause, h); }
    case GoDue(g, k, pause) => if g < |e.all| { MoveReaches(e, g, DoGo(k, pause && e.all[g].started), pause, h); }
    case Lost(pauses) => LoseEachReaches(e, e.requests, pauses, h);
  }

  /** Whatever happens on the connection, each request goes through a run of its own, so what is
      proved about every run of a request holds for it on any connection. */
  lemma {:induction false} RunReaches(e: Handler, events: seq<Event>, h: nat)
    requires h < |e.all|
    ensures h < |Multiplexer.Run(e, events).all| && Reaches(e.all[h], Multiplexer.Run(e, events).all[h])
    decreases |events|
  {
    hide Step, Reaches;
    ReachesSelf(e.all[h]);
    if events != [] {
      StepReaches(e, events[0], h);
      RunReaches(Step(e, events[0]), events[1..], h);
      ReachesTrans(e.all[h], Step(e, events[0]).all[h], Multiplexer.Run(e, events).all[h]);
    }
  }

  lemma StartedStep(r: Req, a: Act)
    requires Requests.Inv(r) && (r.started || r.finished)
    ensures var r' := Apply(r, a); r'.id == r.id && (r'.started || r'.finished)
  {
    if !a.DoStart? {
      hide Apply;
      ApplyStatus(r, a);
    }
  }

  lemma {:induction false} StartedIdKept(r: Req, acts: seq<Act>)
    requires Requests.Inv(r) && (r.started || r.finished)
    ensures Requests.Run(r, acts).id == r.id
    decreases |acts|
  {
    hide Requests.Inv;
    if acts != [] {
      StepInv(r, acts[0]);
      StartedStep(r, acts[0]);
      hide Apply;
      StartedIdKept(Apply(r, acts[0]), acts[1..]);
    }
  }

  lemma IdKept(r: Req, a: Act, acts: seq<Act>)
    requires Requests.Inv(r) && r.started && !a.DoStart?
    ensures Requests.Run(Apply(r, a), acts).id == r.id
  {
    StepInv(r, a);
    ApplyStatus(r, a);
    StartedIdKept(Apply(r, a), acts);
  }

  /** A message under a live request's id reaches that request. */
  lemma DeliverToOwner(e: Handler, h: nat, b: Body, pause: bool)
    requires Multiplexer.Inv(e) && h < |e.all| && e.all[h].started && !e.raised
    ensures e.all[h].id.Some?
    ensures Dispatch(e, Message(e.all[h].id.value, b), pause) == Move(e, h, DoReceive(b, pause), pause)
    ensures Step(e, Arrived(Message(e.all[h].id.value, b), pause)).all[h] == Apply(e.all[h], DoReceive(b, pause))
  {
    hide Apply, Requests.Inv, WireAgrees, Requesting;
    var i :| 0 <= i < |e.requests| && e.requests[i].handle == h;
    var found := Find(e.requests, e.all[h].id.value);
    assert found.Some?;
    assert e.requests[found.value].id == e.requests[i].id;
    assert found.value == i;
  }

  /** Upload safety on the wire: in every run of the connection, an upload that got one BEGIN_CONTENT has
      put on the wire under its id a prefix of the canonical upload of the requested suffix, and at
      most one CANCEL_REQUEST, as its last message. */
  lemma UploadOnTheWire(e: Handler, h: nat, offset: nat, pause: bool, events: seq<Event>)
    requires Multiplexer.Inv(e) && h < |e.all| && e.all[h].kind.Upload? && e.all[h].started && !e.raised
    requires e.all[h].producers == [] && e.all[h].maxPayload > 0
    requires forall i :: 0 <= i < |events| ==> Proper(events[i])
    requires var begun := Step(e, Arrived(Message(e.all[h].id.value, BeginContent(offset)), pause));
             var end := Multiplexer.Run(begun, events);
             h < |end.all| && |end.all[h].producers| == 1
    ensures var r := e.all[h];
            var end := Multiplexer.Run(Step(e, Arrived(Message(r.id.value, BeginContent(offset)), pause)), events);
            var mine := OfRequest(end.wire, r.id.value);
            && Content(mine) <= Canonical(Suffix(r.file, if offset != 0 then offset else r.position), r.maxPayload)
            && CancelIsLast(mine)
  {
    hide Canonical, Content, Multiplexer.Run, Requests.Run, Apply;
    var r := e.all[h];
    var m := Message(r.id.value, BeginContent(offset));
    var begin := DoReceive(BeginContent(offset), pause);
    var begun := Step(e, Arrived(m, pause));
    InvOf(e, h);
    DeliverToOwner(e, h, BeginContent(offset), pause);
    StepKeepsInv(e, Arrived(m, pause));
    RunReaches(begun, events, h);
    RunKeepsInv(begun, events);
    var end := Multiplexer.Run(begun, events);
    var acts :| Requests.Run(begun.all[h], acts) == end.all[h];
    UploadSafety(r, offset, pause, acts);
    InvOf(end, h);
    IdKept(r, begin, acts);
    assert OfRequest(end.wire, r.id.value) == end.all[h].sent;
  }

  /** The reactor makes `n` of the calls that the only producer of request `h` has scheduled. */
  function GoDues(h: nat, n: nat): (events: seq<Event>)
    ensures |events| == n && forall i :: 0 <= i < n ==> events[i] == GoDue(h, 0, false)
  {
    seq(n, i => GoDue(h, 0, false))
  }

  lemma OneGoDue(e: Handler, h: nat)
    requires h < |e.all|
    ensures var e' := Step(e, GoDue(h, 0, false)); h < |e'.all| && e'.all[h] == Apply(e.all[h], DoGo(0, false))
  {
    hide Apply;
  }

  lemma {:induction false} GoDuesAre(e: Handler, h: nat, n: nat)
    requires h < |e.all|
    ensures var end := Multiplexer.Run(e, GoDues(h, n));
            h < |end.all| && end.all[h] == Requests.Run(e.all[h], GoCalls(n))
    decreases n
  {
    hide Step, Apply;
    if n > 0 {
      assert GoDues(h, n)[1..] == GoDues(h, n - 1) && GoCalls(n)[1..] == GoCalls(n - 1);
      OneGoDue(e, h);
      GoDuesAre(Step(e, GoDue(h, 0, false)), h, n - 1);
    }
  }

  /** Progress on the connection: from any state in which an upload is producing, as many of its own calls as it
      has messages left put the rest on the wire, and under its id the wire carries the whole canonical upload. */
  lemma UploadReachesEof(e: Handler, h: nat, base: seq<byte>)
    requires Multiplexer.Inv(e) && h < |e.all| && e.all[h].id.Some?
    requires OnTrack(e.all[h], base) && Active(e.all[h], 0)
    ensures var r := e.all[h];
            var end := Multiplexer.Run(e, GoDues(h, |ToSend(r)|));
            Content(OfRequest(end.wire, r.id.value)) == Canonical(base, r.maxPayload)
  {
    hide Canonical, Content, Multiplexer.Run, Requests.Run, ToSend;
    var r := e.all[h];
    var n := |ToSend(r)|;
    InvOf(e, h);
    ReachesEof(r, base);
    GoDuesAre(e, h, n);
    RunKeepsInv(e, GoDues(h, n));
    assert r.started || r.finished;
    StartedIdKept(r, GoCalls(n));
    var end := Multiplexer.Run(e, GoDues(h, n));
    assert OfRequest(end.wire, r.id.value) == end.all[h].sent;
  }

  // Losing the connection

  lemma {:induction false} WithoutFirst(requests: seq<Entry>, h: nat)
    requires forall i :: 0 <= i < |requests| ==> requests[i].handle != h
    ensures Without(requests, h) == requests
  {
    if requests != [] {
      WithoutFirst(requests[1..], h);
    }
  }

  lemma HandlesDiffer(e: Handler, i: nat, j: nat)
    requires Multiplexer.Inv(e) && i < j < |e.requests|
    ensures e.requests[i].handle != e.requests[j].handle
  {
    hide Requests.Inv, WireAgrees;
    assert e.requests[i].id < e.requests[j].id;
  }

  /** What losing the connection makes of a registered request. */
  ghost predicate Drained(r: Req, r': Req)
  {
    r'.finished && r'.cancelled && r'.fired == [Failed(ConnectionLost)] && r.sent <= r'.sent
  }

  lemma LoseDrains(r: Req, pause: bool)
    requires Requests.Inv(r) && r.started
    ensures Drained(r, Apply(r, DoLose(pause)))
  {
  }

  lemma PausedStarted(r: Req)
    ensures Apply(r, DoPause).started == r.started
  {
  }

  /** What a pause leaves to be drained is what there was before it. */
  lemma PausedDrains(r: Req, s: Req, r': Req)
    requires s == r || s == Apply(r, DoPause)
    requires Drained(s, r')
    ensures Drained(r, r')
  {
  }

  /** Only started requests are still registered once a request has moved. */
  lemma OthersStarted(e: Handler, h: nat, r: Req)
    requires Multiplexer.Inv(e) && h < |e.all|
    ensures forall g :: 0 <= g < |e.all| && Registered(Update(e, h, r), g) ==> e.all[g].started
  {
    hide Requests.Inv, WireAgrees;
    var e' := Update(e, h, r);
    forall g | 0 <= g < |e.all| && Registered(e', g) ensures e.all[g].started {
      var i :| 0 <= i < |e'.requests| && e'.requests[i].handle == g;
      assert e'.requests[i] in e.requests;
    }
  }

  /** What a move of request `h` does to the others: a pause inside its write reaches the started ones. */
  lemma OthersOfMove(e: Handler, h: nat, r: Req, pause: bool)
    requires Multiplexer.Inv(e) && h < |e.all|
    ensures var moved := Moved(e, h, r, pause);
            moved.all[h] == r
            && forall g :: 0 <= g < |e.all| && g != h ==>
                 moved.all[g] == e.all[g] || (e.all[g].started && moved.all[g] == Apply(e.all[g], DoPause))
  {
    OthersStarted(e, h, r);
    hide Multiplexer.Inv, Apply, Registered, Without, Fresh, Tagged;
  }

  /** The entry goes with its request. */
  lemma EntryGoes(e: Handler, h: nat, r: Req, pause: bool)
    requires Multiplexer.Inv(e) && e.requests != [] && e.requests[0].handle == h && h < |e.all|
    requires r.finished && !e.all[h].finished
    ensures Moved(e, h, r, pause).requests == e.requests[1..]
  {
    forall i | 1 <= i < |e.requests| ensures e.requests[i].handle != h {
      HandlesDiffer(e, 0, i);
    }
    WithoutFirst(e.requests[1..], h);
    hide Multiplexer.Inv, Apply, Registered, Fresh, Tagged;
  }

  /** The first turn of the loop: its request fails, and the others are at most paused. */
  lemma LoseFirst(e: Handler, pauses: set<nat>)
    requires Multiplexer.Inv(e) && e.requests != []
    ensures var h := e.requests[0].handle;
            h < |e.all| && e.all[h].started
            && var moved := Move(e, h, DoLose(h in pauses), h in pauses);
               && Multiplexer.Inv(moved) && moved.requests == e.requests[1..]
               && !moved.all[h].started && Drained(e.all[h], moved.all[h])
               && forall g :: 0 <= g < |e.all| && g != h ==>
                    moved.all[g] == e.all[g] || (e.all[g].started && moved.all[g] == Apply(e.all[g], DoPause))
  {
    var h := e.requests[0].handle;
    var lose := DoLose(h in pauses);
    InvOf(e, h);
    MoveInv(e, h, lose, h in pauses);
    LoseDrains(e.all[h], h in pauses);
    ApplySuccessor(e.all[h], lose);
    OthersOfMove(e, h, Apply(e.all[h], lose), h in pauses);
    EntryGoes(e, h, Apply(e.all[h], lose), h in pauses);
    hide Apply, Moved, Requests.Inv;
  }

  lemma {:induction false} LoseEachDrains(e: Handler, pauses: set<nat>)
    requires Multiplexer.Inv(e)
    ensures var e' := LoseEach(e, e.requests, pauses);
            && e'.requests == [] && !e'.attached && |e'.all| == |e.all|
            && forall h :: 0 <= h < |e.all| ==>
                 if e.all[h].started then Drained(e.all[h], e'.all[h]) else e'.all[h] == e.all[h]
    decreases |e.requests|
  {
    if e.requests == [] {
      forall h | 0 <= h < |e.all| ensures !e.all[h].started {
        assert e.all[h].started ==> Registered(e, h);
      }
    } else {
      hide Multiplexer.Inv, Move, Drained, Apply;
      var h := e.requests[0].handle;
      var moved := Move(e, h, DoLose(h in pauses), h in pauses);
      LoseFirst(e, pauses);
      LoseEachDrains(moved, pauses);
      var e' := LoseEach(moved, moved.requests, pauses);
      forall g | 0 <= g < |e.all| && g != h && e.all[g].started ensures Drained(e.all[g], e'.all[g]) {
        PausedStarted(e.all[g]);
        PausedDrains(e.all[g], moved.all[g], e'.all[g]);
      }
    }
  }

  /** Connection loss drains everything, wherever inside the loop's writes the handler is paused: the
      registry is empty, the handler is nobody's producer, and every outstanding request is cancelled
      and has failed exactly once with the reason; requests already completed or never started are
      not touched. */
  lemma LostDrains(e: Handler, pauses: set<nat>)
    requires Multiplexer.Inv(e)
    ensures var e' := Step(e, Lost(pauses));
            && e'.requests == [] && !e'.attached && |e'.all| == |e.all|
            && (forall h :: 0 <= h < |e'.all| && h < |e.all| ==>
                  if e.all[h].started then Drained(e.all[h], e'.all[h]) else e'.all[h] == e.all[h])
            && (forall h :: 0 <= h < |e'.all| ==> !e'.all[h].started)
  {
    LoseEachDrains(e, pauses);
    LoseEachInv(e, e.requests, pauses);
    var e' := Step(e, Lost(pauses));
    forall h | 0 <= h < |e'.all| ensures !e'.all[h].started {
      assert e'.all[h].started ==> Registered(e', h);
    }
  }

  /** After the loss, no `go` call still pending in the reactor makes an outstanding upload send again. */
  lemma NothingSentAfterLoss(e: Handler, pauses: set<nat>, h: nat, events: seq<Event>)
    requires Multiplexer.Inv(e) && h < |e.all| && e.all[h].started
    ensures var e' := Step(e, Lost(pauses));
            && h < |e'.all| && h < |Multiplexer.Run(e', events).all|
            && Multiplexer.Run(e', events).all[h].sent == e'.all[h].sent
  {
    hide Multiplexer.Run, Requests.Run, Step;
    LostDrains(e, pauses);
    StepKeepsInv(e, Lost(pauses));
    var e' := Step(e, Lost(pauses));
    InvOf(e', h);
    RunReaches(e', events, h);
    var acts :| Requests.Run(e'.all[h], acts) == Multiplexer.Run(e', events).all[h];
    CancelledSendsNothing(e'.all[h], acts);
  }
}
