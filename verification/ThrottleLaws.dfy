/** When the throttle acts: the promises of magicicadaprotocol/client.py (`registerRead` to `disable_throttling`)
    about one direction, in terms of what has been registered, the limit and the clock. */
module ThrottleLaws {
  import opened Options
  import opened Throttle

  // The byte counter

  function Sum(ns: seq<nat>): nat
  {
    if ns == [] then 0 else ns[0] + Sum(ns[1..])
  }

  /** The timer is running, and its time has come. */
  predicate Ripe(c: Option<Call>, now: real)
  {
    match c
    case None => false
    case Some(call) => !call.cancelled && now >= call.due
  }

  /** The bytes since the last reset, when there were `count` before the event. */
  function Tally(f: Factory, way: Way, ev: Event, count: nat): nat
  {
    var d := if way == Reads then f.incoming else f.outgoing;
    match ev
    case Registered(w, n) => if w == way && f.enabled then count + n else count
    case ResetFires(w) => if w == way && Ripe(d.resetID, f.now) then 0 else count
    case Enabled => if d.resetID == None then 0 else count
    case UnthrottleFires(w, ns) =>
      if w == way && Ripe(d.unthrottleID, f.now) && f.client && f.enabled then count + Sum(ns) else count
    case Disabled(rs, ws) =>
      if d.throttling && f.client && f.enabled then count + Sum(if way == Reads then rs else ws) else count
    case _ => count
  }

  function BytesSince(f: Factory, way: Way, events: seq<Event>, count: nat): nat
    requires Valid(f)
    decreases |events|
  {
    if events == [] then count
    else BytesSince(Step(f, events[0]), way, events[1..], Tally(f, way, events[0], count))
  }

  lemma {:induction false} RegisterAllCounts(d: Direction, ns: seq<nat>, enabled: bool, client: bool, now: real)
    requires ValidLimit(d.limit)
    ensures RegisterAll(d, ns, enabled, client, now).thisSecond == d.thisSecond + if enabled then Sum(ns) else 0
    decreases |ns|
  {
    if ns != [] {
      RegisterAllCounts(Register(d, ns[0], enabled, client, now), ns[1..], enabled, client, now);
    }
  }

  lemma UnthrottleCounts(d: Direction, ns: seq<nat>, enabled: bool, client: bool, now: real)
    requires ValidLimit(d.limit)
    ensures Unthrottle(d, ns, enabled, client, now).thisSecond
            == d.thisSecond + if client && enabled then Sum(ns) else 0
  {
    var unpaused := d.(unthrottleID := None, throttling := false, told := d.told + [Unpause]);
    RegisterAllCounts(unpaused, ns, enabled, client, now);
  }

  lemma StepTallies(f: Factory, way: Way, ev: Event)
    requires Valid(f)
    ensures Get(Step(f, ev), way).thisSecond == Tally(f, way, ev, Get(f, way).thisSecond)
  {
    hide Unthrottle;
    var d := Get(f, way);
    if ev.UnthrottleFires? {
      UnthrottleCounts(d, ev.ns, f.enabled, f.client, f.now);
    } else if ev.Disabled? {
      UnthrottleCounts(CancelCalls(d), if way == Reads then ev.rs else ev.ws, f.enabled, f.client, f.now);
    }
  }

  /** In every run the byte counter holds the bytes registered since the last reset. */
  lemma {:induction false} CounterTallies(f: Factory, way: Way, events: seq<Event>)
    requires Valid(f)
    ensures Get(Run(f, events), way).thisSecond == BytesSince(f, way, events, Get(f, way).thisSecond)
    decreases |events|
  {
    hide Step, Tally;
    if events != [] {
      StepTallies(f, way, events[0]);
      CounterTallies(Step(f, events[0]), way, events[1..]);
    }
  }

  // Pausing

  ghost predicate Reaches(f: Factory, d: Direction, bytes: nat)
  {
    f.enabled && d.limit.Some? && bytes as real >= d.limit.value
  }

  /** The other direction and the factory are not touched. */
  ghost predicate OnlyWay(f: Factory, f': Factory, way: Way)
  {
    && f'.enabled == f.enabled && f'.client == f.client && f'.now == f.now
    && if way == Reads then f'.outgoing == f.outgoing else f'.incoming == f.incoming
  }

  /** The running timer is due when these bytes, at the limit, take up the time since a second ago. */
  ghost predicate PaidOff(d: Direction, bytes: nat, now: real)
  {
    && d.limit.Some? && d.unthrottleID.Some? && !d.unthrottleID.value.cancelled
    && (d.unthrottleID.value.due - now + 1.0) * d.limit.value == bytes as real
  }

  lemma Share(total: real, limit: real)
    requires limit > 0.0
    ensures (total / limit - 1.0 + 1.0) * limit == total
  {
  }

  /** A registration of the client tells it to pause if and only if throttling is enabled, no pause is running, and the
      bytes of this second reach the limit. The pause is then due to end when those bytes, at the limit, take up the
      time since a second ago. */
  lemma PausesIff(f: Factory, way: Way, n: nat)
    requires Valid(f) && f.client
    ensures var f', d := Step(f, Registered(way, n)), Get(f, way);
            var d', bytes := Get(f', way), d.thisSecond + n;
            var pauses := d.unthrottleID == None && Reaches(f, d, bytes);
            && OnlyWay(f, f', way) && d'.limit == d.limit && d'.resetID == d.resetID
            && d'.thisSecond == (if f.enabled then bytes else d.thisSecond)
            && d'.told == d.told + (if pauses then [Pause] else [])
            && d'.throttling == (d.throttling || pauses)
            && (!pauses ==> d'.unthrottleID == d.unthrottleID)
            && (pauses ==> PaidOff(d', bytes, f.now))
  {
    var d := Get(f, way);
    if d.limit.Some? {
      Share((d.thisSecond + n) as real, d.limit.value);
    }
    assert d.told + [] == d.told;
  }

  /** The same after any run, with the bytes counted over the run. */
  lemma PausesInRun(f: Factory, way: Way, events: seq<Event>, n: nat)
    requires Valid(f) && f.client && Get(Run(f, events), way).unthrottleID == None
    ensures var g := Run(f, events);
            var d, d' := Get(g, way), Get(Step(g, Registered(way, n)), way);
            var bytes := BytesSince(f, way, events, Get(f, way).thisSecond) + n;
            && d'.told == d.told + (if Reaches(g, d, bytes) then [Pause] else [])
            && (Reaches(g, d, bytes) ==> PaidOff(d', bytes, g.now))
  {
    CounterTallies(f, way, events);
    PausesIff(Run(f, events), way, n);
    hide *;
  }

  /** No registration of the run reaches the limit. */
  ghost predicate StaysBelow(f: Factory, way: Way, events: seq<Event>)
    requires Valid(f)
    decreases |events|
  {
    events != [] ==>
      && (events[0].Registered? && events[0].way == way ==>
            !Reaches(f, Get(f, way), Get(f, way).thisSecond + events[0].n))
      && StaysBelow(Step(f, events[0]), way, events[1..])
  }

  ghost predicate Free(d: Direction)
  {
    d.unthrottleID == None && !d.throttling
  }

  lemma StepBelow(f: Factory, way: Way, ev: Event)
    requires Valid(f) && Free(Get(f, way))
    requires ev.Registered? && ev.way == way ==> !Reaches(f, Get(f, way), Get(f, way).thisSecond + ev.n)
    ensures Free(Get(Step(f, ev), way)) && Get(Step(f, ev), way).told == Get(f, way).told
  {
    hide Unthrottle;
  }

  /** Below the limit the client is left alone: in a run in which no registration reaches it, whatever else happens,
      it is never told anything. */
  lemma {:induction false} LeftAlone(f: Factory, way: Way, events: seq<Event>)
    requires Valid(f) && Free(Get(f, way)) && StaysBelow(f, way, events)
    ensures Free(Get(Run(f, events), way)) && Get(Run(f, events), way).told == Get(f, way).told
    decreases |events|
  {
    hide Step, Free, Reaches;
    if events != [] {
      StepBelow(f, way, events[0]);
      LeftAlone(Step(f, events[0]), way, events[1..]);
    }
  }

  // Going on

  /** The client is told to go on when the time has come and not before, and only if the timer is still running. */
  lemma PauseEnds(f: Factory, way: Way)
    requires Valid(f) && f.client
    ensures var f', d := Step(f, UnthrottleFires(way, [])), Get(f, way);
            var d' := Get(f', way);
            && OnlyWay(f, f', way)
            && if Ripe(d.unthrottleID, f.now) then
                 d' == d.(unthrottleID := None, throttling := false, told := d.told + [Unpause])
               else d' == d
  {
  }

  /** The counter starts again from nothing once a second, and only when the time has come. */
  lemma ResetsIff(f: Factory, way: Way)
    requires Valid(f)
    ensures var f', d := Step(f, ResetFires(way)), Get(f, way);
            var d' := Get(f', way);
            && OnlyWay(f, f', way)
            && if Ripe(d.resetID, f.now) then
                 d' == d.(thisSecond := 0, resetID := Some(Call(f.now + 1.0, false)))
               else d' == d
  {
  }

  /** Disabling lets a paused client go on and stops every timer. */
  lemma DisableStops(f: Factory, way: Way)
    requires Valid(f) && f.client
    ensures var f', d := Step(f, Disabled([], [])), Get(f, way);
            var d' := Get(f', way);
            && !f'.enabled && !d'.throttling && d'.limit == d.limit && d'.thisSecond == d.thisSecond
            && d'.told == d.told + (if d.throttling then [Unpause] else [])
            && (d'.unthrottleID.Some? ==> d'.unthrottleID.value.cancelled)
            && (d'.resetID.Some? ==> d'.resetID.value.cancelled)
  {
    assert Get(f, way).told + [] == Get(f, way).told;
  }

  /** Enabling sets the flag and starts the loops that have never run; it tells nobody anything. */
  lemma EnableStarts(f: Factory, way: Way)
    requires Valid(f)
    ensures var f', d := Step(f, Enabled), Get(f, way);
            && f'.enabled && f'.client == f.client && f'.now == f.now
            && Get(f', way) == if d.resetID == None then d.(thisSecond := 0, resetID := Some(Call(f.now + 1.0, false)))
                               else d
  {
  }

  // Limits

  /** A limit that is positive, or none at all, replaces the old one; any other changes nothing. */
  lemma LimitReplaces(f: Factory, way: Way, limit: Option<real>)
    requires Valid(f)
    ensures var f', d := Step(f, LimitSet(way, limit)), Get(f, way);
            && OnlyWay(f, f', way)
            && Get(f', way) == if limit.None? || limit.value > 0.0 then d.(limit := limit) else d
  {
  }

  /** So the new limit governs the very next registration. */
  lemma NewLimitGoverns(f: Factory, way: Way, limit: real, n: nat)
    requires Valid(f) && f.client && f.enabled && limit > 0.0 && Get(f, way).unthrottleID == None
    ensures var d, d' := Get(f, way), Get(Step(Step(f, LimitSet(way, Some(limit))), Registered(way, n)), way);
            d'.told == d.told + if (d.thisSecond + n) as real >= limit then [Pause] else []
  {
    LimitReplaces(f, way, Some(limit));
    PausesIff(Step(f, LimitSet(way, Some(limit))), way, n);
    hide Step;
  }
}
