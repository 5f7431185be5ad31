/** How many bytes an enabled throttle lets through (magicicadaprotocol/client.py, `checkReadBandwidth` to
    `_resetWrittenThisSecond`). */
module ThrottleRate {
  import opened Options
  import opened Throttle

  /** A stretch between two resets of the byte counter in which bytes were let through, that is, came while the
      client was not paused: its number, when it started, when the first and last of these bytes came, and
      how many there were. */
  datatype Window = Window(number: nat, start: real, first: real, last: real, bytes: nat)

  /** The current stretch and all that were active so far. */
  datatype History = History(number: nat, start: real, active: seq<Window>)

  function Record(h: History, n: nat, now: real): History
  {
    if n == 0 then h
    else
      var k := |h.active|;
      if k > 0 && h.active[k - 1].number == h.number then
        var w := h.active[k - 1];
        h.(active := h.active[k - 1 := w.(last := now, bytes := w.bytes + n)])
      else h.(active := h.active + [Window(h.number, h.start, now, now, n)])
  }

  /** Bytes that come while an unthrottling timer is set are not let through, they come in spite of the pause. */
  function LetThrough(h: History, d: Direction, n: nat, now: real): History
  {
    if d.unthrottleID == None then Record(h, n, now) else h
  }

  function LetAllThrough(h: History, d: Direction, ns: seq<nat>, now: real): History
    requires ValidLimit(d.limit)
    decreases |ns|
  {
    if ns == [] then h
    else LetAllThrough(LetThrough(h, d, ns[0], now), Register(d, ns[0], true, true, now), ns[1..], now)
  }

  function Observe(h: History, f: Factory, way: Way, ev: Event): History
    requires Valid(f)
  {
    var d := Get(f, way);
    match ev
    case Registered(w, n) => if w == way then LetThrough(h, d, n, f.now) else h
    case UnthrottleFires(w, ns) =>
      if w == way && Due(d.unthrottleID, f.now) then
        LetAllThrough(h, Unthrottle(d, [], f.enabled, f.client, f.now), ns, f.now)
      else h
    case ResetFires(w) => if w == way && Due(d.resetID, f.now) then History(h.number + 1, f.now, h.active) else h
    case _ => h
  }

  /** Throttling stays enabled, the limit is constant, and bytes come only from a client. */
  ghost predicate Regular(f: Factory, way: Way, ev: Event)
  {
    match ev
    case Registered(w, n) => f.client
    case LimitSet(w, _) => w != way
    case Disabled(_, _) => false
    case Unregistered => false
    case _ => true
  }

  lemma UnthrottleThenRegister(d: Direction, ns: seq<nat>, enabled: bool, now: real)
    requires ValidLimit(d.limit)
    ensures Unthrottle(d, ns, enabled, true, now)
            == RegisterAll(Unthrottle(d, [], enabled, true, now), ns, enabled, true, now)
  {
  }

  /** The clock never runs past a due reset. */
  ghost predicate Punctual(f: Factory, way: Way, ev: Event)
  {
    match Get(f, way).resetID
    case None => true
    case Some(reset) => ev.TimePasses? ==> f.now + ev.dt <= reset.due
  }

  /** No bytes come at the very instant of a reset that is still to fire. */
  ghost predicate Untied(f: Factory, way: Way, ev: Event)
  {
    match Get(f, way).resetID
    case None => true
    case Some(reset) =>
      match ev
      case Registered(w, n) => w == way && n > 0 ==> f.now < reset.due
      case UnthrottleFires(w, ns) => w == way && ns != [] ==> f.now < reset.due
      case _ => true
  }

  datatype Run = Run(factory: Factory, history: History)

  function Next(r: Run, way: Way, ev: Event): Run
    requires Valid(r.factory)
  {
    Run(Step(r.factory, ev), Observe(r.history, r.factory, way, ev))
  }

  function Follow(r: Run, way: Way, events: seq<Event>): (r': Run)
    requires Valid(r.factory)
    decreases |events|
  {
    if events == [] then r
    else Follow(Next(r, way, events[0]), way, events[1..])
  }

  ghost predicate AllRegular(f: Factory, way: Way, events: seq<Event>)
    requires Valid(f)
    decreases |events|
  {
    events != [] ==> Regular(f, way, events[0]) && AllRegular(Step(f, events[0]), way, events[1..])
  }

  ghost predicate AllPunctual(f: Factory, way: Way, events: seq<Event>)
    requires Valid(f)
    decreases |events|
  {
    events != [] ==> Punctual(f, way, events[0]) && AllPunctual(Step(f, events[0]), way, events[1..])
  }

  ghost predicate AllUntied(f: Factory, way: Way, events: seq<Event>)
    requires Valid(f)
    decreases |events|
  {
    events != [] ==> Untied(f, way, events[0]) && AllUntied(Step(f, events[0]), way, events[1..])
  }

  // The invariant

  /** The instant until which a window's bytes keep the client paused. */
  ghost function PaidAt(w: Window, limit: real): real
    requires limit > 0.0
  {
    w.last + w.bytes as real / limit - 1.0
  }

  ghost predicate Follows(v: Window, w: Window, limit: real)
    requires limit > 0.0
  {
    v.number < w.number && v.last <= w.first && PaidAt(v, limit) <= w.first
  }

  ghost predicate Orderly(active: seq<Window>, limit: real)
    requires limit > 0.0
  {
    && (forall i :: 0 <= i < |active| ==> active[i].bytes > 0 && active[i].start <= active[i].first <= active[i].last)
    && (forall i :: 0 <= i < |active| - 1 ==> Follows(active[i], active[i + 1], limit))
  }

  /** What has been let through since the last reset has been counted. */
  ghost predicate Counted(d: Direction, h: History)
  {
    var k := |h.active|;
    && (k > 0 && h.active[k - 1].number == h.number ==> d.thisSecond >= h.active[k - 1].bytes)
    && (d.thisSecond > 0 || d.unthrottleID != None ==> k > 0)
  }

  /** The last active window is either still being paid for, or has been. */
  ghost predicate Paying(d: Direction, now: real, h: History, limit: real)
    requires limit > 0.0
  {
    h.active != [] ==>
      var w := h.active[|h.active| - 1];
      && w.last <= now && w.number <= h.number
      && match d.unthrottleID
         case None => PaidAt(w, limit) <= now
         case Some(call) => !call.cancelled && PaidAt(w, limit) <= call.due
  }

  ghost predicate Measured(d: Direction, h: History, now: real, limit: real)
  {
    && limit > 0.0 && d.limit == Some(limit)
    && d.resetID == Some(Call(h.start + 1.0, false)) && h.start <= now
    && Counted(d, h) && Orderly(h.active, limit) && Paying(d, now, h, limit)
  }

  ghost predicate Metered(r: Run, way: Way, limit: real)
  {
    && Valid(r.factory) && r.factory.enabled && (!r.factory.client ==> r.history.active == [])
    && Measured(Get(r.factory, way), r.history, r.factory.now, limit)
  }

  /** Windows start at whole seconds and end with the next one at the latest. */
  ghost predicate WholeSeconds(h: History, now: real, zero: real)
  {
    && h.start == zero + h.number as real && h.start <= now <= h.start + 1.0
    && forall i :: 0 <= i < |h.active| ==>
         var w := h.active[i];
         w.start == zero + w.number as real && w.start <= w.first <= w.last <= w.start + 1.0
  }

  ghost predicate OnTheSecond(r: Run, zero: real)
  {
    WholeSeconds(r.history, r.factory.now, zero)
  }

  /** No window got its first bytes at the instant of the reset that ended it. */
  ghost predicate NoneTied(active: seq<Window>)
  {
    forall i :: 0 <= i < |active| ==> active[i].first < active[i].start + 1.0
  }

  /** Enabling the throttle of a new factory starts the metering. */
  lemma EnabledIsMetered(f: Factory, way: Way, limit: real)
    requires Valid(f) && limit > 0.0 && Get(f, way) == New(Some(limit))
    ensures Metered(Run(Step(f, Enabled), History(0, f.now, [])), way, limit)
    ensures OnTheSecond(Run(Step(f, Enabled), History(0, f.now, [])), f.now)
  {
  }

  lemma RecordOrderly(d: Direction, h: History, n: nat, now: real, limit: real)
    requires limit > 0.0 && n > 0 && h.start <= now
    requires Counted(d, h) && Orderly(h.active, limit) && Paying(d, now, h, limit) && d.unthrottleID == None
    ensures var h' := Record(h, n, now);
            && Orderly(h'.active, limit) && h'.active != []
            && h'.active[|h'.active| - 1].last == now && h'.active[|h'.active| - 1].number == h.number
            && 0 < h'.active[|h'.active| - 1].bytes <= d.thisSecond + n
  {
    var h' := Record(h, n, now);
    var k := |h.active|;
    if k > 0 && h.active[k - 1].number == h.number {
      forall i | 0 <= i < |h'.active| - 1 ensures Follows(h'.active[i], h'.active[i + 1], limit) {
        assert Follows(h.active[i], h.active[i + 1], limit);
      }
    } else {
      forall i | 0 <= i < |h'.active| - 1 ensures Follows(h'.active[i], h'.active[i + 1], limit) {
        if i < k - 1 {
          assert Follows(h.active[i], h.active[i + 1], limit);
        }
      }
    }
  }

  lemma MulLe(x: real, y: real, z: real)
    requires x <= y && z >= 0.0
    ensures x * z <= y * z
  {
  }

  lemma MulLt(x: real, y: real, z: real)
    requires x < y && z > 0.0
    ensures x * z < y * z
  {
  }

  lemma Quotient(c: real, limit: real, y: real)
    requires limit > 0.0
    ensures c <= limit * y <==> c / limit <= y
  {
    var q := c / limit;
    assert q * limit == c;
    if q <= y {
      MulLe(q, y, limit);
    }
    if c <= limit * y && q > y {
      MulLt(y, q, limit);
      assert false;
    }
  }

  lemma QuotientMonotone(a: real, b: real, limit: real)
    requires a <= b && limit > 0.0
    ensures a / limit <= b / limit
  {
    Quotient(a, limit, b / limit);
    assert b / limit * limit == b;
  }

  /** The moment bytes are registered, what they cost is either nothing or on the timer. */
  lemma RegisterPays(d: Direction, n: nat, bytes: nat, now: real, limit: real)
    requires limit > 0.0 && d.limit == Some(limit) && d.unthrottleID == None && bytes <= d.thisSecond + n
    ensures var d' := Register(d, n, true, true, now);
            var paid := now + bytes as real / limit - 1.0;
            && d'.thisSecond == d.thisSecond + n
            && match d'.unthrottleID
               case None => paid <= now
               case Some(call) => !call.cancelled && paid <= call.due && d'.thisSecond > 0
  {
    var c := (d.thisSecond + n) as real;
    QuotientMonotone(bytes as real, c, limit);
    if c < limit {
      Quotient(c, limit, 1.0);
    }
  }

  /** Registering no bytes can at most prolong the pause. */
  lemma EmptyRegistration(d: Direction, now: real, h: History, limit: real)
    requires Measured(d, h, now, limit) && d.unthrottleID == None
    ensures Measured(Register(d, 0, true, true, now), h, now, limit)
  {
    RegisterPays(d, 0, d.thisSecond, now, limit);
    var c := d.thisSecond as real;
    if c >= limit {
      Quotient(c, limit, 1.0);
      QuotientMonotone(limit, c, limit);
      assert limit / limit == 1.0;
    }
    hide Orderly, PaidAt;
  }

  /** Registered bytes keep the measure, whether they are let through or come in spite of a pause. */
  lemma RegisteredMeasured(d: Direction, h: History, n: nat, now: real, limit: real)
    requires Measured(d, h, now, limit)
    ensures Measured(Register(d, n, true, true, now), LetThrough(h, d, n, now), now, limit)
  {
    if d.unthrottleID != None {
      hide Orderly, PaidAt;
    } else if n == 0 {
      EmptyRegistration(d, now, h, limit);
      hide Register;
    } else {
      var h' := Record(h, n, now);
      RecordOrderly(d, h, n, now, limit);
      RegisterPays(d, n, h'.active[|h'.active| - 1].bytes, now, limit);
      hide Register, Orderly;
    }
  }

  lemma {:induction false} AllRegisteredMeasured(d: Direction, h: History, ns: seq<nat>, now: real, limit: real)
    requires Measured(d, h, now, limit)
    ensures Measured(RegisterAll(d, ns, true, true, now), LetAllThrough(h, d, ns, now), now, limit)
    decreases |ns|
  {
    hide Counted, Orderly, Paying, Register, LetThrough;
    if ns != [] {
      RegisteredMeasured(d, h, ns[0], now, limit);
      AllRegisteredMeasured(Register(d, ns[0], true, true, now), LetThrough(h, d, ns[0], now), ns[1..], now, limit);
    }
  }

  lemma RecordKeepsWindows(h: History, n: nat, now: real)
    requires h.active != []
    ensures Record(h, n, now).active != []
  {
  }

  lemma RegisteredMetered(r: Run, way: Way, limit: real, n: nat)
    requires Metered(r, way, limit) && r.factory.client
    ensures Metered(Next(r, way, Registered(way, n)), way, limit)
  {
    hide Measured, Register, LetThrough;
    assert Measured(Get(r.factory, way), r.history, r.factory.now, limit);
    RegisteredMeasured(Get(r.factory, way), r.history, n, r.factory.now, limit);
  }

  lemma ClearedMeasured(d: Direction, h: History, now: real, limit: real)
    requires Measured(d, h, now, limit) && Due(d.unthrottleID, now)
    ensures Measured(Unthrottle(d, [], true, true, now), h, now, limit)
  {
    hide Orderly, PaidAt;
  }

  lemma UnthrottledMetered(r: Run, way: Way, limit: real, ns: seq<nat>)
    requires Metered(r, way, limit)
    ensures Metered(Next(r, way, UnthrottleFires(way, ns)), way, limit)
  {
    var d, now := Get(r.factory, way), r.factory.now;
    if Due(d.unthrottleID, now) {
      assert r.factory.client;
      ClearedMeasured(d, r.history, now, limit);
      AllRegisteredMeasured(Unthrottle(d, [], true, true, now), r.history, ns, now, limit);
      UnthrottleThenRegister(d, ns, true, now);
    }
    hide Measured, Unthrottle, RegisterAll, LetAllThrough;
  }

  lemma ResetMetered(r: Run, way: Way, limit: real)
    requires Metered(r, way, limit)
    ensures Metered(Next(r, way, ResetFires(way)), way, limit)
  {
    hide Orderly, PaidAt;
  }

  lemma OtherWayMetered(r: Run, way: Way, limit: real, ev: Event)
    requires Metered(r, way, limit) && Regular(r.factory, way, ev)
    requires match ev
             case Registered(w, n) => w != way
             case LimitSet(w, _) => w != way
             case UnthrottleFires(w, _) => w != way
             case ResetFires(w) => w != way
             case _ => false
    ensures Metered(Next(r, way, ev), way, limit)
  {
    hide Measured, Register, Unthrottle;
  }

  lemma PlainMetered(r: Run, way: Way, limit: real, ev: Event)
    requires Metered(r, way, limit) && (ev.Enabled? || ev.Connected? || ev.TimePasses?)
    ensures Metered(Next(r, way, ev), way, limit)
  {
    hide Orderly;
  }

  lemma StepMetered(r: Run, way: Way, limit: real, ev: Event)
    requires Metered(r, way, limit) && Regular(r.factory, way, ev)
    ensures Metered(Next(r, way, ev), way, limit)
  {
    hide Metered, Step, Observe;
    if (ev.Registered? || ev.LimitSet? || ev.UnthrottleFires? || ev.ResetFires?) && ev.way != way {
      OtherWayMetered(r, way, limit, ev);
    } else if ev.Registered? {
      RegisteredMetered(r, way, limit, ev.n);
    } else if ev.UnthrottleFires? {
      UnthrottledMetered(r, way, limit, ev.ns);
    } else if ev.ResetFires? {
      ResetMetered(r, way, limit);
    } else {
      PlainMetered(r, way, limit, ev);
    }
  }

  lemma {:induction false} FollowMetered(r: Run, way: Way, limit: real, events: seq<Event>)
    requires Metered(r, way, limit) && AllRegular(r.factory, way, events)
    ensures Metered(Follow(r, way, events), way, limit)
    decreases |events|
  {
    hide Step, Observe, Regular;
    if events != [] {
      StepMetered(r, way, limit, events[0]);
      FollowMetered(Next(r, way, events[0]), way, limit, events[1..]);
    }
  }

  /** Rate bound, however late the timers fire: between the last bytes of one active window and the first
      bytes of the next, enough time passes to pay for all but a second's worth of the window. */
  lemma WindowBound(r: Run, way: Way, limit: real, events: seq<Event>, i: nat)
    requires Metered(r, way, limit) && AllRegular(r.factory, way, events)
    requires i < |Follow(r, way, events).history.active| - 1
    ensures var active := Follow(r, way, events).history.active;
            active[i].bytes as real <= limit * (1.0 + active[i + 1].first - active[i].last)
  {
    hide Follow;
    FollowMetered(r, way, limit, events);
    var v, w := Follow(r, way, events).history.active[i], Follow(r, way, events).history.active[i + 1];
    assert Follows(v, w, limit);
    Quotient(v.bytes as real, limit, 1.0 + w.first - v.last);
  }

  // With a punctual clock

  lemma LetThroughOnTheSecond(h: History, d: Direction, n: nat, now: real, zero: real)
    requires WholeSeconds(h, now, zero) && (h.active != [] ==> h.active[|h.active| - 1].last <= now)
    ensures var h' := LetThrough(h, d, n, now);
            && WholeSeconds(h', now, zero) && h'.start == h.start
            && (h'.active != [] ==> h'.active[|h'.active| - 1].last <= now)
            && (NoneTied(h.active) && (n > 0 ==> now < h.start + 1.0) ==> NoneTied(h'.active))
  {
  }

  lemma {:induction false} AllOnTheSecond(h: History, d: Direction, ns: seq<nat>, now: real, zero: real)
    requires ValidLimit(d.limit)
    requires WholeSeconds(h, now, zero) && (h.active != [] ==> h.active[|h.active| - 1].last <= now)
    ensures var h' := LetAllThrough(h, d, ns, now);
            && WholeSeconds(h', now, zero)
            && (NoneTied(h.active) && (ns != [] ==> now < h.start + 1.0) ==> NoneTied(h'.active))
    decreases |ns|
  {
    hide WholeSeconds, NoneTied, Register, LetThrough;
    if ns != [] {
      LetThroughOnTheSecond(h, d, ns[0], now, zero);
      AllOnTheSecond(LetThrough(h, d, ns[0], now), Register(d, ns[0], true, true, now), ns[1..], now, zero);
    }
  }

  lemma StepOnTheSecond(r: Run, way: Way, limit: real, zero: real, ev: Event)
    requires Metered(r, way, limit) && OnTheSecond(r, zero)
    requires Regular(r.factory, way, ev) && Punctual(r.factory, way, ev)
    ensures OnTheSecond(Next(r, way, ev), zero)
    ensures Untied(r.factory, way, ev) && NoneTied(r.history.active) ==> NoneTied(Next(r, way, ev).history.active)
  {
    var f, d := r.factory, Get(r.factory, way);
    if ev.Registered? && ev.way == way {
      LetThroughOnTheSecond(r.history, d, ev.n, f.now, zero);
      hide LetThrough;
    } else if ev.UnthrottleFires? && ev.way == way && Due(d.unthrottleID, f.now) {
      AllOnTheSecond(r.history, Unthrottle(d, [], f.enabled, f.client, f.now), ev.ns, f.now, zero);
      hide LetAllThrough;
    }
    hide Register, Unthrottle, StopThrottling, StartLoop, Orderly, Counted;
  }

  lemma ValidOf(r: Run, way: Way, limit: real)
    requires Metered(r, way, limit)
    ensures Valid(r.factory)
  {
  }

  lemma {:induction false} FollowOnTheSecond(r: Run, way: Way, limit: real, zero: real, events: seq<Event>)
    requires Metered(r, way, limit) && OnTheSecond(r, zero)
    requires AllRegular(r.factory, way, events) && AllPunctual(r.factory, way, events)
    ensures OnTheSecond(Follow(r, way, events), zero)
    ensures AllUntied(r.factory, way, events) && NoneTied(r.history.active)
            ==> NoneTied(Follow(r, way, events).history.active)
    decreases |events|
  {
    hide Step, Observe, Regular, Punctual, Untied, Metered, OnTheSecond, NoneTied;
    if events != [] {
      ValidOf(r, way, limit);
      StepMetered(r, way, limit, events[0]);
      StepOnTheSecond(r, way, limit, zero, events[0]);
      FollowOnTheSecond(Next(r, way, events[0]), way, limit, zero, events[1..]);
    }
  }

  /** Bytes of the first `n` active windows. */
  function Total(active: seq<Window>, n: nat): nat
    requires n <= |active|
  {
    if n == 0 then 0 else Total(active, n - 1) + active[n - 1].bytes
  }

  /** What a limit lets through in a number of seconds. */
  ghost function Allowance(limit: real, seconds: int): real
  {
    limit * seconds as real
  }

  ghost predicate Below(a: real, b: real, strictly: bool)
  {
    if strictly then a < b else a <= b
  }

  ghost predicate Spaced(active: seq<Window>, limit: real, strictly: bool)
  {
    && (forall i :: 0 <= i < |active| - 1 ==>
          && active[i].number < active[i + 1].number
          && Below(active[i].bytes as real, Allowance(limit, active[i + 1].number - active[i].number + 2), strictly))
  }

  lemma PairOfWindows(r: Run, way: Way, limit: real, zero: real, i: nat)
    requires Metered(r, way, limit) && OnTheSecond(r, zero) && i < |r.history.active| - 1
    ensures var v, w := r.history.active[i], r.history.active[i + 1];
            && limit > 0.0 && v.number < w.number
            && v.start == zero + v.number as real && w.start == zero + w.number as real
            && v.start <= v.last && w.first <= w.start + 1.0
  {
    hide PaidAt, Counted, Paying;
    assert Follows(r.history.active[i], r.history.active[i + 1], limit);
  }

  lemma TimeBound(bytes: real, limit: real, time: real, gap: real)
    requires limit > 0.0 && bytes <= limit * time && time <= gap
    ensures bytes <= limit * gap && (time < gap ==> bytes < limit * gap)
  {
    MulLe(time, gap, limit);
    if time < gap {
      MulLt(time, gap, limit);
    }
  }

  lemma GapBound(v: Window, w: Window, limit: real, zero: real)
    requires limit > 0.0 && v.number < w.number
    requires v.start == zero + v.number as real && w.start == zero + w.number as real
    requires v.start <= v.last && w.first <= w.start + 1.0
    requires v.bytes as real <= limit * (1.0 + w.first - v.last)
    ensures Below(v.bytes as real, Allowance(limit, w.number - v.number + 2), w.first < w.start + 1.0)
  {
    var gap := w.number - v.number + 2;
    assert 1.0 + w.first - v.last <= gap as real;
    assert w.first < w.start + 1.0 ==> 1.0 + w.first - v.last < gap as real;
    TimeBound(v.bytes as real, limit, 1.0 + w.first - v.last, gap as real);
    assert Allowance(limit, gap) == limit * gap as real;
    hide Allowance;
  }

  /** Rate bound on the exact clock: a window with `gap` seconds to the next active one lets at most
      `gap + 2` seconds' worth of bytes through, and less if no bytes come at the instant of a reset
      that is still to fire. */
  lemma SpacedWindows(r: Run, way: Way, limit: real, zero: real, events: seq<Event>)
    requires Metered(r, way, limit) && OnTheSecond(r, zero)
    requires AllRegular(r.factory, way, events) && AllPunctual(r.factory, way, events)
    ensures Spaced(Follow(r, way, events).history.active, limit, false)
    ensures AllUntied(r.factory, way, events) && NoneTied(r.history.active)
            ==> Spaced(Follow(r, way, events).history.active, limit, true)
  {
    hide Follow, AllRegular, AllPunctual, AllUntied, Valid, Metered, OnTheSecond;
    ValidOf(r, way, limit);
    var end := Follow(r, way, events);
    var active := end.history.active;
    FollowMetered(r, way, limit, events);
    FollowOnTheSecond(r, way, limit, zero, events);
    forall i | 0 <= i < |active| - 1
      ensures active[i].number < active[i + 1].number
      ensures Below(active[i].bytes as real, Allowance(limit, active[i + 1].number - active[i].number + 2),
                    active[i + 1].first < active[i + 1].start + 1.0)
    {
      WindowBound(r, way, limit, events, i);
      PairOfWindows(end, way, limit, zero, i);
      GapBound(active[i], active[i + 1], limit, zero);
    }
  }

  lemma TotalStep(active: seq<Window>, n: nat)
    requires 0 < n <= |active|
    ensures Total(active, n) == Total(active, n - 1) + active[n - 1].bytes
  {
  }

  lemma TotalNone(active: seq<Window>)
    ensures Total(active, 0) == 0
  {
  }

  lemma TripleGap(limit: real, gap: int)
    requires limit > 0.0 && gap >= 1
    ensures Allowance(limit, gap + 2) <= Allowance(3.0 * limit, gap)
  {
    MulLe((gap + 2) as real, 3.0 * gap as real, limit);
    assert 3.0 * gap as real * limit == 3.0 * limit * gap as real;
  }

  lemma AllowanceAdd(limit: real, a: int, b: int)
    ensures Allowance(limit, a) + Allowance(limit, b) == Allowance(limit, a + b)
  {
  }

  lemma AddBelow(a: real, b: real, c: real, d: real, strictly: bool)
    requires Below(a, b, strictly) && Below(c, d, strictly)
    ensures Below(a + c, b + d, strictly)
  {
  }

  lemma BelowLe(a: real, b: real, c: real, strictly: bool)
    requires Below(a, b, strictly) && b <= c
    ensures Below(a, c, strictly)
  {
  }

  /** In all, the windows before the last active one let at most three times the limit through for each second
      since the first, and less if each of them stays below its own bound. */
  lemma {:induction false} TotalBound(active: seq<Window>, limit: real, n: nat, strictly: bool)
    requires limit > 0.0 && 0 < n < |active| && Spaced(active, limit, strictly)
    ensures active[0].number < active[n].number
    ensures Below(Total(active, n) as real, Allowance(3.0 * limit, active[n].number - active[0].number), strictly)
    decreases n
  {
    hide Total, Below, Allowance;
    TotalStep(active, n);
    var gap := active[n].number - active[n - 1].number;
    var last := active[n - 1].bytes as real;
    assert active[n - 1 + 1] == active[n];
    TripleGap(limit, gap);
    BelowLe(last, Allowance(limit, gap + 2), Allowance(3.0 * limit, gap), strictly);
    if n == 1 {
      TotalNone(active);
    } else {
      TotalBound(active, limit, n - 1, strictly);
      var before := active[n - 1].number - active[0].number;
      AddBelow(Total(active, n - 1) as real, Allowance(3.0 * limit, before),
               last, Allowance(3.0 * limit, gap), strictly);
      AllowanceAdd(3.0 * limit, before, gap);
    }
  }

  /** The whole bound, from the moment the throttle is enabled. */
  lemma RateBound(f: Factory, way: Way, limit: real, events: seq<Event>, n: nat)
    requires Valid(f) && limit > 0.0 && Get(f, way) == New(Some(limit))
    requires AllRegular(Step(f, Enabled), way, events) && AllPunctual(Step(f, Enabled), way, events)
    requires 0 < n < |Follow(Run(Step(f, Enabled), History(0, f.now, [])), way, events).history.active|
    ensures var active := Follow(Run(Step(f, Enabled), History(0, f.now, [])), way, events).history.active;
            var bound := 3.0 * limit * (active[n].number - active[0].number) as real;
            && Total(active, n) as real <= bound
            && (AllUntied(Step(f, Enabled), way, events) ==> Total(active, n) as real < bound)
  {
    hide Step, Follow, Spaced, Total, Metered, OnTheSecond, AllRegular, AllPunctual, AllUntied;
    var r := Run(Step(f, Enabled), History(0, f.now, []));
    EnabledIsMetered(f, way, limit);
    SpacedWindows(r, way, limit, f.now, events);
    TotalBound(Follow(r, way, events).history.active, limit, n, false);
    if AllUntied(Step(f, Enabled), way, events) {
      TotalBound(Follow(r, way, events).history.active, limit, n, true);
    }
  }

  /** The same from the constructor of an enabled factory, before any client has connected. */
  lemma RateBoundFromStart(readLimit: Option<real>, writeLimit: Option<real>, now: real, way: Way, limit: real,
                           events: seq<Event>, n: nat)
    requires ValidLimit(readLimit) && ValidLimit(writeLimit)
    requires limit > 0.0 && (if way == Reads then readLimit else writeLimit) == Some(limit)
    requires var f := Built(true, readLimit, writeLimit, now);
             AllRegular(f, way, events) && AllPunctual(f, way, events)
             && 0 < n < |Follow(Run(f, History(0, now, [])), way, events).history.active|
    ensures var f := Built(true, readLimit, writeLimit, now);
            var active := Follow(Run(f, History(0, now, [])), way, events).history.active;
            var bound := 3.0 * limit * (active[n].number - active[0].number) as real;
            && Total(active, n) as real <= bound
            && (AllUntied(f, way, events) ==> Total(active, n) as real < bound)
  {
    hide Step, Follow, AllRegular, AllPunctual, AllUntied, Total;
    RateBound(Factory(true, false, now, New(readLimit), New(writeLimit)), way, limit, events, n);
  }

  // At inputs that occur

  /** One event of a regular run on a punctual clock. */
  ghost predicate Leads(r: Run, way: Way, ev: Event, r': Run)
  {
    Valid(r.factory) && Next(r, way, ev) == r' && Regular(r.factory, way, ev) && Punctual(r.factory, way, ev)
  }

  /** Such a run. */
  ghost predicate LeadsTo(r: Run, way: Way, events: seq<Event>, r': Run)
  {
    && Valid(r.factory) && Follow(r, way, events) == r'
    && AllRegular(r.factory, way, events) && AllPunctual(r.factory, way, events)
  }

  lemma LeadsNowhere(r: Run, way: Way)
    requires Valid(r.factory)
    ensures LeadsTo(r, way, [], r)
  {
  }

  lemma LeadsOn(r: Run, way: Way, ev: Event, next: Run, rest: seq<Event>, r': Run)
    requires Leads(r, way, ev, next) && LeadsTo(next, way, rest, r')
    ensures LeadsTo(r, way, [ev] + rest, r')
  {
    hide Step, Observe, Regular, Punctual;
    assert ([ev] + rest)[1..] == rest;
  }

  /** A factory with a write limit of one byte a second, and its writes. */
  function Writing(client: bool, now: real, d: Direction, h: History): Run
  {
    Run(Factory(true, client, now, Direction(None, false, 0, None, Some(Call(1.0, false)), []), d), h)
  }

  /** The writes as they are in the beginning, and paused after three bytes. */
  const FREE := Direction(Some(1.0), false, 0, None, Some(Call(1.0, false)), [])
  const PAUSED := Direction(Some(1.0), true, 3, Some(Call(2.0, false)), Some(Call(1.0, false)), [Pause])

  const THREE := Window(0, 0.0, 0.0, 0.0, 3)

  lemma ThreeBytes()
    ensures Run(Built(true, None, Some(1.0), 0.0), History(0, 0.0, []))
            == Writing(false, 0.0, FREE, History(0, 0.0, []))
    ensures Leads(Writing(false, 0.0, FREE, History(0, 0.0, [])), Writes, Connected,
                  Writing(true, 0.0, FREE, History(0, 0.0, [])))
    ensures Leads(Writing(true, 0.0, FREE, History(0, 0.0, [])), Writes, Registered(Writes, 3),
                  Writing(true, 0.0, PAUSED, History(0, 0.0, [THREE])))
  {
    assert [] + [Pause] == [Pause] && [] + [THREE] == [THREE];
  }

  lemma TwoSeconds()
    ensures var reset := PAUSED.(thisSecond := 0, resetID := Some(Call(2.0, false)));
            && Leads(Writing(true, 0.0, PAUSED, History(0, 0.0, [THREE])), Writes, TimePasses(1.0),
                     Writing(true, 1.0, PAUSED, History(0, 0.0, [THREE])))
            && Leads(Writing(true, 1.0, PAUSED, History(0, 0.0, [THREE])), Writes, ResetFires(Writes),
                     Writing(true, 1.0, reset, History(1, 1.0, [THREE])))
            && Leads(Writing(true, 1.0, reset, History(1, 1.0, [THREE])), Writes, TimePasses(1.0),
                     Writing(true, 2.0, reset, History(1, 1.0, [THREE])))
  {
  }

  lemma OneMoreByte() returns (r: Run)
    ensures var reset := PAUSED.(thisSecond := 0, resetID := Some(Call(2.0, false)));
            var freed := Writing(true, 2.0, FREE.(resetID := reset.resetID, told := [Pause, Unpause]),
                                 History(1, 1.0, [THREE]));
            && Leads(Writing(true, 2.0, reset, History(1, 1.0, [THREE])), Writes, UnthrottleFires(Writes, []), freed)
            && Leads(freed, Writes, Registered(Writes, 1), r) && Valid(r.factory)
    ensures r.history == History(1, 1.0, [THREE, Window(1, 1.0, 2.0, 2.0, 1)])
  {
    var freed := FREE.(resetID := Some(Call(2.0, false)), told := [Pause, Unpause]);
    r := Next(Writing(true, 2.0, freed, History(1, 1.0, [THREE])), Writes, Registered(Writes, 1));
    assert [Pause] + [Unpause] == [Pause, Unpause];
  }

  const TIED := [
    Connected, Registered(Writes, 3), TimePasses(1.0), ResetFires(Writes), TimePasses(1.0),
    UnthrottleFires(Writes, []), Registered(Writes, 1)]

  lemma TiedRun() returns (r: Run)
    ensures LeadsTo(Run(Built(true, None, Some(1.0), 0.0), History(0, 0.0, [])), Writes, TIED, r)
    ensures r.history == History(1, 1.0, [THREE, Window(1, 1.0, 2.0, 2.0, 1)])
  {
    ThreeBytes();
    TwoSeconds();
    r := OneMoreByte();
    hide Leads, LeadsTo;
    var reset := PAUSED.(thisSecond := 0, resetID := Some(Call(2.0, false)));
    var h0, h1, h2 := History(0, 0.0, []), History(0, 0.0, [THREE]), History(1, 1.0, [THREE]);
    var r4, r5 := Writing(true, 1.0, reset, h2), Writing(true, 2.0, reset, h2);
    var r6 := Writing(true, 2.0, FREE.(resetID := reset.resetID, told := [Pause, Unpause]), h2);
    LeadsNowhere(r, Writes);
    LeadsOn(r6, Writes, TIED[6], r, [], r);
    LeadsOn(r5, Writes, TIED[5], r6, [TIED[6]] + [], r);
    LeadsOn(r4, Writes, TIED[4], r5, [TIED[5]] + ([TIED[6]] + []), r);
    var rest := [TIED[4]] + ([TIED[5]] + ([TIED[6]] + []));
    assert rest == TIED[4..];
    LeadsOn(Writing(true, 1.0, PAUSED, h1), Writes, TIED[3], r4, rest, r);
    LeadsOn(Writing(true, 0.0, PAUSED, h1), Writes, TIED[2], Writing(true, 1.0, PAUSED, h1), [TIED[3]] + rest, r);
    var more := [TIED[2]] + ([TIED[3]] + rest);
    LeadsOn(Writing(true, 0.0, FREE, h0), Writes, TIED[1], Writing(true, 0.0, PAUSED, h1), more, r);
    LeadsOn(Writing(false, 0.0, FREE, h0), Writes, TIED[0], Writing(true, 0.0, FREE, h0), [TIED[1]] + more, r);
    assert [TIED[0]] + ([TIED[1]] + more) == TIED;
  }

  /** The bound is reached: the unthrottling fires before the reset of the same instant, and the byte that is
      written then still counts for the second that is over. */
  lemma TiedExample()
    ensures var f := Built(true, None, Some(1.0), 0.0);
            var active := Follow(Run(f, History(0, 0.0, [])), Writes, TIED).history.active;
            && AllRegular(f, Writes, TIED) && AllPunctual(f, Writes, TIED)
            && |active| == 2 && active[0].number == 0 && active[1].number == 1
            && Total(active, 1) as real == 3.0 * 1.0 * (active[1].number - active[0].number) as real
  {
    var r := TiedRun();
    hide Follow, AllRegular, AllPunctual, Total;
    TotalNone(r.history.active);
    TotalStep(r.history.active, 1);
  }

  /** What a pause does not do: bytes that come in spite of it are counted, and nothing holds them back. */
  lemma OverrunExample(n: nat)
    ensures var r0 := Run(Built(true, None, Some(1.0), 0.0), History(0, 0.0, []));
            var r := Follow(r0, Writes, [Connected, Registered(Writes, 3), Registered(Writes, n)]);
            r.factory.outgoing.thisSecond == 3 + n && r.history.active == [THREE]
  {
    ThreeBytes();
    var h0, h1 := History(0, 0.0, []), History(0, 0.0, [THREE]);
    var a, b, c := Connected, Registered(Writes, 3), Registered(Writes, n);
    var r2 := Writing(true, 0.0, PAUSED, h1);
    var r3 := Next(r2, Writes, c);
    LeadsNowhere(r3, Writes);
    LeadsOn(r2, Writes, c, r3, [], r3);
    LeadsOn(Writing(true, 0.0, FREE, h0), Writes, b, r2, [c] + [], r3);
    LeadsOn(Writing(false, 0.0, FREE, h0), Writes, a, Writing(true, 0.0, FREE, h0), [b] + ([c] + []), r3);
    assert [a] + ([b] + ([c] + [])) == [a, b, c];
  }
}
