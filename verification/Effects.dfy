/** How the effects of one call on the connection add up: a call changes a request, writes at most once, and the
    transport or the write throttle may pause the whole handler inside that write
    (magicicadaprotocol/request.py, `sendMessage` and `pauseProducing`). What the parts of the call do one
    after the other is one `Moved`. */
module Effects {
  import opened ByteStrings
  import opened Options
  import opened Requests
  import opened Multiplexer

  /** Request `h` alone has changed, and nothing has been written. */
  function Put(e: Handler, h: nat, r: Req): (e': Handler)
    requires h < |e.all|
    ensures |e'.all| == |e.all| && e'.all[h] == r
  {
    e.(all := e.all[h := r])
  }

  /** A write, inside which the transport may pause the handler. */
  function Write(e: Handler, m: Message, pause: bool): (e': Handler)
    ensures |e'.all| == |e.all|
  {
    var written := e.(wire := e.wire + [m]);
    if pause then PauseAll(written, None) else written
  }

  /** `sendMessage` of request `h`. */
  function Emit(e: Handler, h: nat, b: Body, pause: bool): (e': Handler)
    requires h < |e.all| && e.all[h].id.Some?
    ensures |e'.all| == |e.all|
  {
    Write(Put(e, h, Send(e.all[h], b)), Message(e.all[h].id.value, b), pause)
  }

  /** The end of a `go` call of producer `k`. */
  function Settle(e: Handler, h: nat, k: nat, data: seq<byte>): Handler
    requires h < |e.all|
  {
    if k < |e.all[h].producers| then Put(e, h, Settled(e.all[h], k, data)) else e
  }

  /** Whether a pause inside a write reaches request `h` itself. */
  predicate Own(e: Handler, h: nat, pause: bool)
  {
    pause && Registered(e, h)
  }

  /** The handler only knows started requests. */
  ghost predicate KnowsStarted(e: Handler)
  {
    forall h :: 0 <= h < |e.all| && Registered(e, h) ==> e.all[h].started
  }

  /** What a call may do to a request before and after its write. */
  ghost predicate SameStatus(r: Req, r': Req)
  {
    r'.id == r.id && r'.started == r.started && r'.finished == r.finished && r'.sent == r.sent
  }

  lemma PutPut(e: Handler, h: nat, r: Req, r': Req)
    requires h < |e.all|
    ensures Put(Put(e, h, r), h, r') == Put(e, h, r')
  {
    assert e.all[h := r][h := r'] == e.all[h := r'];
  }

  lemma NothingFresh(r: Req, r': Req)
    requires r'.sent == r.sent
    ensures Fresh(r, r') == [] && forall id :: Tagged(id, []) == []
  {
  }

  /** A change without a write and without a completion is a move. */
  lemma PutIsMoved(e: Handler, h: nat, r: Req, pause: bool)
    requires h < |e.all| && r.sent == e.all[h].sent && (r.finished ==> e.all[h].finished)
    ensures Moved(e, h, r, pause) == Put(e, h, r)
  {
    NothingFresh(e.all[h], r);
    assert e.wire + [] == e.wire;
    hide Fresh, Tagged;
  }

  lemma PutSame(e: Handler, h: nat)
    requires h < |e.all|
    ensures Put(e, h, e.all[h]) == e
  {
    assert e.all[h := e.all[h]] == e.all;
  }

  /** What request `h` is like right after its write. */
  lemma EmitOwn(e: Handler, h: nat, b: Body, pause: bool)
    requires h < |e.all| && e.all[h].id.Some? && KnowsStarted(e)
    ensures Emit(e, h, b, pause).all[h] == Interrupted(Send(e.all[h], b), Own(e, h, pause))
  {
    hide Pause;
    assert Registered(e.(all := e.all[h := Send(e.all[h], b)], wire := e.wire + [Message(e.all[h].id.value, b)]), h)
      <==> Registered(e, h);
  }

  lemma OneFresh(r: Req, r': Req, b: Body)
    requires r'.sent == r.sent + [b]
    ensures Fresh(r, r') == [b] && forall id :: Tagged(id, [b]) == [Message(id, b)]
  {
  }

  /** A change, a write and another change are one move. */
  lemma WriteIsMoved(e: Handler, h: nat, before: Req, b: Body, pause: bool, after: Req)
    requires h < |e.all| && before.id.Some? && before.sent == e.all[h].sent
    requires after.id == before.id && after.finished == e.all[h].finished && after.sent == before.sent + [b]
    ensures Put(Emit(Put(e, h, before), h, b, pause), h, after) == Moved(e, h, after, pause)
  {
    var m := Message(before.id.value, b);
    var left, right := Put(Emit(Put(e, h, before), h, b, pause), h, after), Moved(e, h, after, pause);
    OneFresh(e.all[h], after, b);
    assert left.wire == right.wire == e.wire + [m];
    hide Apply, Fresh, Tagged;
    assert left.all == right.all;
  }

  lemma MovedAt(e: Handler, h: nat, r: Req, pause: bool)
    requires h < |e.all|
    ensures Moved(e, h, r, pause).all[h] == r
  {
    hide Apply;
  }

  /** A change before a move. */
  lemma PutMoved(e: Handler, h: nat, r: Req, r': Req, pause: bool)
    requires h < |e.all| && r.sent == e.all[h].sent && r.finished == e.all[h].finished
    ensures Moved(Put(e, h, r), h, r', pause) == Moved(e, h, r', pause)
    ensures Own(Put(e, h, r), h, pause) == Own(e, h, pause)
  {
    hide Apply, Tagged, Without;
    assert e.all[h := r][h := r'] == e.all[h := r'];
    assert Moved(Put(e, h, r), h, r', pause).all == Moved(e, h, r', pause).all;
    assert Registered(Put(e, h, r), h) <==> Registered(e, h);
  }

  lemma UpdatePut(e: Handler, h: nat, r: Req, r': Req)
    requires h < |e.all| && SameStatus(r, r')
    ensures Put(Update(e, h, r), h, r') == Update(e, h, r')
  {
    hide Tagged, Without;
    assert e.all[h := r][h := r'] == e.all[h := r'];
  }

  lemma PausePut(e: Handler, h: nat, r: Req)
    requires h < |e.all|
    ensures Put(PauseAll(e, Some(h)), h, r) == PauseAll(Put(e, h, r), Some(h))
  {
    hide Apply;
    assert Put(PauseAll(e, Some(h)), h, r).all == PauseAll(Put(e, h, r), Some(h)).all;
  }

  /** A change after a move. */
  lemma MovedPut(e: Handler, h: nat, r: Req, r': Req, pause: bool)
    requires h < |e.all| && SameStatus(r, r')
    ensures Put(Moved(e, h, r, pause), h, r') == Moved(e, h, r', pause)
  {
    hide Apply, Tagged, Without;
    UpdatePut(e, h, r, r');
    PausePut(Update(e, h, r), h, r');
    hide Update, PauseAll;
  }

  lemma WithoutRegistered(e: Handler, h: nat, g: nat)
    requires g != h
    ensures Registered(e.(requests := Without(e.requests, h)), g) <==> Registered(e, g)
  {
    var rest := Without(e.requests, h);
    if Registered(e, g) {
      StillRegistered(e, h, g);
    }
    if j :| 0 <= j < |rest| && rest[j].handle == g {
      assert rest[j] in e.requests;
    }
  }

  lemma UpdateFinished(e: Handler, h: nat, r: Req, r': Req)
    requires h < |e.all| && r'.id == r.id && r'.sent == r.sent && e.all[h].sent <= r.sent
    requires !e.all[h].finished && !r.finished && r'.finished
    ensures Update(Update(e, h, r), h, r') == Update(e, h, r')
  {
    hide Without;
    NothingFresh(r, r');
    assert e.all[h := r][h := r'] == e.all[h := r'];
    var sent := if r.id.Some? then Tagged(r.id.value, Fresh(e.all[h], r)) else [];
    assert e.wire + sent + [] == e.wire + sent;
  }

  lemma RegisteredIs(e: Handler, e': Handler, g: nat)
    requires e.requests == e'.requests
    ensures Registered(e, g) <==> Registered(e', g)
  {
  }

  /** A completion makes no difference to what a pause before or after it does to the others. */
  lemma PauseFinished(e: Handler, h: nat, r: Req)
    requires h < |e.all| && r.finished && !e.all[h].finished && r.sent == e.all[h].sent
    ensures Update(PauseAll(e, Some(h)), h, r) == PauseAll(Update(e, h, r), Some(h))
  {
    hide Without, Apply, Fresh, Tagged;
    forall g | g != h ensures Registered(Update(e, h, r), g) <==> Registered(e, g) {
      WithoutRegistered(e, h, g);
      RegisteredIs(Update(e, h, r), e.(requests := Without(e.requests, h)), g);
    }
    assert PauseAll(e, Some(h)).all[h] == e.all[h];
    assert Update(PauseAll(e, Some(h)), h, r).all == PauseAll(Update(e, h, r), Some(h)).all;
  }

  /** A completion after a move that has not completed the request. */
  lemma MovedFinished(e: Handler, h: nat, r: Req, r': Req, pause: bool)
    requires h < |e.all| && r'.id == r.id && r'.sent == r.sent && e.all[h].sent <= r.sent
    requires !e.all[h].finished && !r.finished && r'.finished
    ensures Moved(Moved(e, h, r, pause), h, r', false) == Moved(e, h, r', pause)
  {
    UpdateFinished(e, h, r, r');
    PauseFinished(Update(e, h, r), h, r');
    hide Update, PauseAll;
  }

  lemma QuietMoved(e: Handler, h: nat, r: Req, pause: bool)
    requires h < |e.all| && r.sent == e.all[h].sent
    ensures Moved(e, h, r, pause) == Moved(e, h, r, false)
  {
  }

  lemma StillKnows(e: Handler, h: nat, r: Req)
    requires h < |e.all| && KnowsStarted(e) && r.started == e.all[h].started
    ensures KnowsStarted(Put(e, h, r))
  {
    forall g | 0 <= g < |e.all| && Registered(Put(e, h, r), g) ensures Put(e, h, r).all[g].started {
      assert Registered(e, g);
    }
  }

  /** `go`, from its first test to its last assignment. */
  lemma GoIsMoved(e: Handler, h: nat, k: nat, pause: bool)
    requires h < |e.all| && k < |e.all[h].producers| && Active(e.all[h], k) && e.all[h].id.Some? && KnowsStarted(e)
    ensures var r := e.all[h];
            var data := NextData(r, k);
            Settle(Emit(Put(e, h, Advanced(r, k, data)), h, Piece(data), pause), h, k, data)
            == Moved(e, h, Go(r, k, Own(e, h, pause)), pause)
  {
    var r := e.all[h];
    var data := NextData(r, k);
    var before := Advanced(r, k, data);
    StillKnows(e, h, before);
    EmitOwn(Put(e, h, before), h, Piece(data), pause);
    PutMoved(e, h, before, before, pause);
    hide Own, KnowsStarted, Interrupted, Moved, Emit, NextData, Registered;
    var after := Settled(Interrupted(Send(before, Piece(data)), Own(e, h, pause)), k, data);
    assert after == Go(r, k, Own(e, h, pause));
    WriteIsMoved(e, h, before, Piece(data), pause, after);
  }

  /** The first write of a request that has just got its id. */
  lemma OpeningIsMoved(e: Handler, h: nat, before: Req, b: Body, pause: bool)
    requires h < |e.all| && before.id.Some? && before.sent == e.all[h].sent && before.finished == e.all[h].finished
    requires KnowsStarted(Put(e, h, before))
    ensures Emit(Put(e, h, before), h, b, pause)
            == Moved(e, h, Interrupted(Send(before, b), Own(e, h, pause)), pause)
  {
    var after := Interrupted(Send(before, b), Own(e, h, pause));
    EmitOwn(Put(e, h, before), h, b, pause);
    PutMoved(e, h, before, before, pause);
    hide Own, KnowsStarted, Interrupted, Moved, Emit, Registered;
    WriteIsMoved(e, h, before, b, pause, after);
    PutSame(Emit(Put(e, h, before), h, b, pause), h);
  }

  /** A change and then a write. */
  lemma WrittenIsMoved(e: Handler, h: nat, before: Req, b: Body, pause: bool)
    requires h < |e.all| && before.id.Some? && KnowsStarted(e)
    requires before.sent == e.all[h].sent && before.finished == e.all[h].finished && before.started == e.all[h].started
    ensures Emit(Put(e, h, before), h, b, pause)
            == Moved(e, h, Interrupted(Send(before, b), Own(e, h, pause)), pause)
  {
    StillKnows(e, h, before);
    OpeningIsMoved(e, h, before, b, pause);
  }
}
