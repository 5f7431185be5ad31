/** The bandwidth throttle: `ThrottlingStorageClientFactory` (magicicadaprotocol/client.py). Time and limits
    are real numbers; a timer fires at its due time or later. */
module Throttle {
  import opened Options

  /** A `DelayedCall` that has not fired; one that has is never kept. */
  datatype Call = Call(due: real, cancelled: bool)

  /** What the client is told. */
  datatype Signal = Pause | Unpause

  /** The factory's attributes for one direction: the limit, the `_throttling_` flag, the byte counter, the
      two timer ids, and what the client has been told so far. */
  datatype Direction = Direction(
    limit: Option<real>, throttling: bool, thisSecond: nat,
    unthrottleID: Option<Call>, resetID: Option<Call>, told: seq<Signal>)

  datatype Way = Reads | Writes

  datatype Factory = Factory(enabled: bool, client: bool, now: real, incoming: Direction, outgoing: Direction)

  predicate ValidLimit(limit: Option<real>)
  {
    limit.None? || limit.value > 0.0
  }

  function New(limit: Option<real>): Direction
  {
    Direction(limit, false, 0, None, None, [])
  }

  // One direction

  function ThrottleTime(bytes: nat, limit: real): real
    requires limit > 0.0
  {
    bytes as real / limit - 1.0
  }

  /** `throttleReads` and `throttleWrites` of the factory. */
  function TellPause(d: Direction, client: bool): Direction
  {
    if client then d.(throttling := true, told := d.told + [Pause]) else d
  }

  /** `checkReadBandwidth` and `checkWriteBandwidth`. */
  function Check(d: Direction, enabled: bool, client: bool, now: real): Direction
    requires ValidLimit(d.limit)
  {
    if enabled && d.limit.Some? && d.thisSecond as real >= d.limit.value && d.unthrottleID == None then
      TellPause(d, client).(unthrottleID := Some(Call(now + ThrottleTime(d.thisSecond, d.limit.value), false)))
    else d
  }

  /** `registerRead` and `registerWritten`. */
  function Register(d: Direction, n: nat, enabled: bool, client: bool, now: real): (d': Direction)
    requires ValidLimit(d.limit)
    ensures d'.limit == d.limit && d'.resetID == d.resetID
  {
    if enabled then Check(d.(thisSecond := d.thisSecond + n), enabled, client, now) else d
  }

  function RegisterAll(d: Direction, ns: seq<nat>, enabled: bool, client: bool, now: real): (d': Direction)
    requires ValidLimit(d.limit)
    ensures d'.limit == d.limit && d'.resetID == d.resetID
    decreases |ns|
  {
    if ns == [] then d else RegisterAll(Register(d, ns[0], enabled, client, now), ns[1..], enabled, client, now)
  }

  /** `unthrottleReads` and `unthrottleWrites`; `ns` are the sizes the client registers while being told. */
  function Unthrottle(d: Direction, ns: seq<nat>, enabled: bool, client: bool, now: real): (d': Direction)
    requires ValidLimit(d.limit)
    ensures d'.limit == d.limit && d'.resetID == d.resetID
  {
    var cleared := d.(unthrottleID := None);
    if client then
      RegisterAll(cleared.(throttling := false, told := d.told + [Unpause]), ns, enabled, client, now)
    else cleared
  }

  /** `_resetReadThisSecond` and `_resetWrittenThisSecond`. */
  function Reset(d: Direction, now: real): Direction
  {
    d.(thisSecond := 0, resetID := Some(Call(now + 1.0, false)))
  }

  function CancelCall(c: Option<Call>): Option<Call>
  {
    if c.Some? then Some(c.value.(cancelled := true)) else None
  }

  function CancelCalls(d: Direction): Direction
  {
    d.(unthrottleID := CancelCall(d.unthrottleID), resetID := CancelCall(d.resetID))
  }

  predicate Due(c: Option<Call>, now: real)
  {
    c.Some? && !c.value.cancelled && c.value.due <= now
  }

  function StartLoop(d: Direction, now: real): Direction
  {
    if d.resetID == None && ValidLimit(d.limit) then Reset(d, now) else d
  }

  function StopThrottling(d: Direction, ns: seq<nat>, enabled: bool, client: bool, now: real): Direction
    requires ValidLimit(d.limit)
  {
    var cancelled := CancelCalls(d);
    if d.throttling then Unthrottle(cancelled, ns, enabled, client, now) else cancelled
  }

  // The factory

  datatype Event =
    | Registered(way: Way, n: nat)
    | LimitSet(way: Way, limit: Option<real>)
    | UnthrottleFires(way: Way, ns: seq<nat>)
    | ResetFires(way: Way)
    | Enabled
    | Disabled(rs: seq<nat>, ws: seq<nat>)
    | Connected
    | Unregistered
    | TimePasses(dt: real)

  ghost predicate Valid(f: Factory)
  {
    ValidLimit(f.incoming.limit) && ValidLimit(f.outgoing.limit)
  }

  function Get(f: Factory, way: Way): Direction
  {
    if way == Reads then f.incoming else f.outgoing
  }

  function Put(f: Factory, way: Way, d: Direction): Factory
  {
    if way == Reads then f.(incoming := d) else f.(outgoing := d)
  }

  /** A timer that is not due does not fire, an invalid limit raises `ValueError`, time does not go back. */
  function Step(f: Factory, ev: Event): (f': Factory)
    requires Valid(f)
    ensures Valid(f') && (f.client ==> f'.client)
  {
    match ev
    case Registered(way, n) => Put(f, way, Register(Get(f, way), n, f.enabled, f.client, f.now))
    case LimitSet(way, limit) => if ValidLimit(limit) then Put(f, way, Get(f, way).(limit := limit)) else f
    case UnthrottleFires(way, ns) =>
      if Due(Get(f, way).unthrottleID, f.now) then
        Put(f, way, Unthrottle(Get(f, way), ns, f.enabled, f.client, f.now))
      else f
    case ResetFires(way) =>
      if Due(Get(f, way).resetID, f.now) then Put(f, way, Reset(Get(f, way), f.now)) else f
    case Enabled =>
      f.(enabled := true, incoming := StartLoop(f.incoming, f.now), outgoing := StartLoop(f.outgoing, f.now))
    case Disabled(rs, ws) =>
      f.(enabled := false,
         incoming := StopThrottling(f.incoming, rs, f.enabled, f.client, f.now),
         outgoing := StopThrottling(f.outgoing, ws, f.enabled, f.client, f.now))
    case Connected => f.(client := true)
    case Unregistered => f.(incoming := CancelCalls(f.incoming), outgoing := CancelCalls(f.outgoing))
    case TimePasses(dt) => if dt >= 0.0 then f.(now := f.now + dt) else f
  }

  function Run(f: Factory, events: seq<Event>): (f': Factory)
    requires Valid(f)
    ensures Valid(f') && (f.client ==> f'.client)
    decreases |events|
  {
    if events == [] then f else Run(Step(f, events[0]), events[1..])
  }

  /** A factory as its constructor leaves it. */
  function Built(enabled: bool, readLimit: Option<real>, writeLimit: Option<real>, now: real): (f: Factory)
    requires ValidLimit(readLimit) && ValidLimit(writeLimit)
    ensures Valid(f) && !f.client
  {
    Step(Factory(enabled, false, now, New(readLimit), New(writeLimit)), if enabled then Enabled else Disabled([], []))
  }

  /** Runs up to the loss of the connection, in which only a connected client registers bytes. */
  ghost predicate ByClient(f: Factory, events: seq<Event>)
    requires Valid(f)
    decreases |events|
  {
    events != [] ==>
      && (events[0].Registered? ==> f.client)
      && !events[0].Unregistered?
      && ByClient(Step(f, events[0]), events[1..])
  }

  // Pairing

  ghost predicate Alternates(told: seq<Signal>)
  {
    forall i :: 0 <= i < |told| ==> told[i] == if i % 2 == 0 then Pause else Unpause
  }

  /** The client is paused exactly when an unthrottling timer is running, and has been told pause and
      unpause in strict alternation. */
  ghost predicate Paired(d: Direction)
  {
    && (d.throttling <==> d.unthrottleID.Some?)
    && (d.unthrottleID.Some? ==> !d.unthrottleID.value.cancelled)
    && Alternates(d.told)
    && (d.throttling <==> |d.told| % 2 == 1)
  }

  lemma RegisterPaired(d: Direction, n: nat, enabled: bool, now: real)
    requires Paired(d) && ValidLimit(d.limit)
    ensures Paired(Register(d, n, enabled, true, now))
  {
  }

  lemma {:induction false} RegisterAllPaired(d: Direction, ns: seq<nat>, enabled: bool, now: real)
    requires Paired(d) && ValidLimit(d.limit)
    ensures Paired(RegisterAll(d, ns, enabled, true, now))
    decreases |ns|
  {
    hide Paired, Register;
    if ns != [] {
      RegisterPaired(d, ns[0], enabled, now);
      RegisterAllPaired(Register(d, ns[0], enabled, true, now), ns[1..], enabled, now);
    }
  }

  lemma UnthrottlePaired(d: Direction, ns: seq<nat>, enabled: bool, now: real)
    requires d.throttling && Paired(d.(unthrottleID := Some(Call(now, false)))) && ValidLimit(d.limit)
    ensures Paired(Unthrottle(d, ns, enabled, true, now))
  {
    RegisterAllPaired(d.(unthrottleID := None, throttling := false, told := d.told + [Unpause]), ns, enabled, now);
  }

  lemma StopPaired(d: Direction, ns: seq<nat>, enabled: bool, now: real)
    requires Paired(d) && ValidLimit(d.limit)
    ensures Paired(StopThrottling(d, ns, enabled, true, now))
  {
    if d.throttling {
      UnthrottlePaired(CancelCalls(d), ns, enabled, now);
    }
  }

  /** One direction is paired, and not paused before there is a client. */
  ghost predicate PairedWay(f: Factory, way: Way)
  {
    Paired(Get(f, way)) && (!f.client ==> !Get(f, way).throttling)
  }

  /** No event but a lost connection breaks the pairing of a direction, whatever the other direction is like. */
  lemma WayPaired(f: Factory, way: Way, ev: Event)
    requires Valid(f) && PairedWay(f, way) && !ev.Unregistered? && (ev.Registered? ==> f.client)
    ensures PairedWay(Step(f, ev), way)
  {
    hide Register, Unthrottle;
    match ev
    case Registered(w, n) =>
      if w == way { RegisterPaired(Get(f, way), n, f.enabled, f.now); }
    case UnthrottleFires(w, ns) =>
      if w == way && Due(Get(f, way).unthrottleID, f.now) { UnthrottlePaired(Get(f, way), ns, f.enabled, f.now); }
    case Disabled(rs, ws) =>
      if f.client { StopPaired(Get(f, way), if way == Reads then rs else ws, f.enabled, f.now); }
    case _ =>
  }

  ghost predicate AllPaired(f: Factory)
  {
    PairedWay(f, Reads) && PairedWay(f, Writes)
  }

  /** Throttle pairing, over all runs: across the client's arrival, registrations, limit changes, timers,
      enabling and disabling, and bytes registered from inside an unthrottling. */
  lemma {:induction false} RunPaired(f: Factory, events: seq<Event>)
    requires Valid(f) && AllPaired(f) && ByClient(f, events)
    ensures AllPaired(Run(f, events))
    decreases |events|
  {
    hide PairedWay, Step;
    if events != [] {
      WayPaired(f, Reads, events[0]);
      WayPaired(f, Writes, events[0]);
      RunPaired(Step(f, events[0]), events[1..]);
    }
  }

  /** The same from the constructor on, whether it enables or disables. */
  lemma PairedFromStart(enabled: bool, readLimit: Option<real>, writeLimit: Option<real>, now: real, events: seq<Event>)
    requires ValidLimit(readLimit) && ValidLimit(writeLimit)
    requires ByClient(Built(enabled, readLimit, writeLimit, now), events)
    ensures AllPaired(Run(Built(enabled, readLimit, writeLimit, now), events))
  {
    RunPaired(Built(enabled, readLimit, writeLimit, now), events);
  }

  // Losing the connection

  /** A direction that counts as throttled although no timer will ever end that. */
  ghost predicate Stuck(d: Direction)
  {
    d.throttling && d.unthrottleID.Some? && d.unthrottleID.value.cancelled
  }

  lemma StuckStep(f: Factory, way: Way, ev: Event)
    requires Valid(f) && Stuck(Get(f, way)) && !ev.Disabled?
    ensures Stuck(Get(Step(f, ev), way)) && Get(Step(f, ev), way).told == Get(f, way).told
  {
    hide Unthrottle;
  }

  lemma {:induction false} StaysStuck(f: Factory, way: Way, events: seq<Event>)
    requires Valid(f) && Stuck(Get(f, way))
    requires forall i :: 0 <= i < |events| ==> !events[i].Disabled?
    ensures Stuck(Get(Run(f, events), way)) && Get(Run(f, events), way).told == Get(f, way).told
    decreases |events|
  {
    if events != [] {
      StuckStep(f, way, events[0]);
      hide Step;
      StaysStuck(Step(f, events[0]), way, events[1..]);
    }
  }

  lemma {:induction false} StaysPaired(f: Factory, way: Way, events: seq<Event>)
    requires Valid(f) && f.client && Paired(Get(f, way))
    requires forall i :: 0 <= i < |events| ==> !events[i].Unregistered?
    ensures Paired(Get(Run(f, events), way))
    decreases |events|
  {
    if events != [] {
      WayPaired(f, way, events[0]);
      hide Step;
      StaysPaired(Step(f, events[0]), way, events[1..]);
    }
  }

  /** Losing the connection, for one direction, whatever the other is like. If the client was paused, the
      direction is stuck, and in every run without a disable it stays stuck and nobody is told anything.
      If it was not, the direction stays paired in every run up to the next loss, also when the
      cancellations of the loss itself make the client pause. */
  lemma LostWhilePaused(f: Factory, way: Way, events: seq<Event>)
    requires Valid(f) && f.client && Paired(Get(f, way))
    ensures var lost := Step(f, Unregistered);
            var d := Get(Run(lost, events), way);
            if Get(f, way).throttling then
              && !Paired(Get(lost, way))
              && ((forall i :: 0 <= i < |events| ==> !events[i].Disabled?) ==> Stuck(d) && d.told == Get(f, way).told)
            else (forall i :: 0 <= i < |events| ==> !events[i].Unregistered?) ==> Paired(d)
  {
    var lost := Step(f, Unregistered);
    if Get(f, way).throttling {
      if forall i :: 0 <= i < |events| ==> !events[i].Disabled? {
        StaysStuck(lost, way, events);
      }
    } else if forall i :: 0 <= i < |events| ==> !events[i].Unregistered? {
      StaysPaired(lost, way, events);
    }
  }

  lemma {:induction false} RegisterAllTells(d: Direction, ns: seq<nat>, enabled: bool, now: real)
    requires ValidLimit(d.limit)
    ensures d.told <= RegisterAll(d, ns, enabled, true, now).told
    decreases |ns|
  {
    if ns != [] {
      RegisterAllTells(Register(d, ns[0], enabled, true, now), ns[1..], enabled, now);
    }
  }

  lemma UnthrottleTells(d: Direction, ns: seq<nat>, enabled: bool, now: real)
    requires ValidLimit(d.limit)
    ensures d.told + [Unpause] <= Unthrottle(d, ns, enabled, true, now).told
  {
    RegisterAllTells(d.(unthrottleID := None, throttling := false, told := d.told + [Unpause]), ns, enabled, now);
  }

  /** A disable ends it: the stuck direction is told to go on and is paired again. */
  lemma DisableFrees(f: Factory, way: Way, rs: seq<nat>, ws: seq<nat>)
    requires Valid(f) && f.client && Stuck(Get(f, way))
    requires Alternates(Get(f, way).told) && |Get(f, way).told| % 2 == 1
    ensures Paired(Get(Step(f, Disabled(rs, ws)), way))
    ensures Get(f, way).told + [Unpause] <= Get(Step(f, Disabled(rs, ws)), way).told
  {
    hide Unthrottle;
    var ns := if way == Reads then rs else ws;
    UnthrottlePaired(CancelCalls(Get(f, way)), ns, f.enabled, f.now);
    UnthrottleTells(CancelCalls(Get(f, way)), ns, f.enabled, f.now);
  }

  // The reset loop

  /** The byte counter is reset once a second. */
  ghost predicate Looping(d: Direction)
  {
    d.resetID.Some? && !d.resetID.value.cancelled
  }

  /** Enabling after a disable or a lost connection gets the loop running exactly if it had never been
      started before that. */
  lemma RestartsIff(f: Factory, way: Way, stop: Event)
    requires Valid(f) && (stop.Disabled? || stop.Unregistered?)
    ensures Looping(Get(Step(Step(f, stop), Enabled), way)) <==> Get(f, way).resetID == None
  {
    hide Unthrottle;
  }

  lemma LoopStep(f: Factory, way: Way, ev: Event)
    requires Valid(f) && Looping(Get(f, way)) && !ev.Disabled? && !ev.Unregistered?
    ensures Looping(Get(Step(f, ev), way))
  {
    hide Unthrottle, Register;
  }

  /** Once started, the loop runs on in every run without a disable or a lost connection. */
  lemma {:induction false} LoopRunsOn(f: Factory, way: Way, events: seq<Event>)
    requires Valid(f) && Looping(Get(f, way))
    requires forall i :: 0 <= i < |events| ==> !events[i].Disabled? && !events[i].Unregistered?
    ensures Looping(Get(Run(f, events), way))
    decreases |events|
  {
    if events != [] {
      LoopStep(f, way, events[0]);
      hide Step, Looping;
      LoopRunsOn(Step(f, events[0]), way, events[1..]);
    }
  }

  lemma StopCancels(f: Factory, way: Way, stop: Event)
    requires Valid(f) && (stop.Disabled? || stop.Unregistered?)
    ensures Get(Step(f, stop), way).resetID == CancelCall(Get(f, way).resetID)
  {
    hide Unthrottle;
  }

  lemma {:induction false} RegisterAllGrows(d: Direction, ns: seq<nat>, enabled: bool, client: bool, now: real)
    requires ValidLimit(d.limit)
    ensures RegisterAll(d, ns, enabled, client, now).thisSecond >= d.thisSecond
    decreases |ns|
  {
    if ns != [] {
      RegisterAllGrows(Register(d, ns[0], enabled, client, now), ns[1..], enabled, client, now);
    }
  }

  lemma UnthrottleGrows(d: Direction, ns: seq<nat>, enabled: bool, client: bool, now: real)
    requires ValidLimit(d.limit)
    ensures Unthrottle(d, ns, enabled, client, now).thisSecond >= d.thisSecond
  {
    var unpaused := d.(unthrottleID := None, throttling := false, told := d.told + [Unpause]);
    RegisterAllGrows(unpaused, ns, enabled, client, now);
  }

  lemma DeadLoopStep(f: Factory, way: Way, ev: Event)
    requires Valid(f) && Get(f, way).resetID.Some? && Get(f, way).resetID.value.cancelled
    ensures var d := Get(Step(f, ev), way);
            d.resetID == Get(f, way).resetID && d.thisSecond >= Get(f, way).thisSecond
  {
    hide Unthrottle;
    if ev.UnthrottleFires? {
      UnthrottleGrows(Get(f, way), ev.ns, f.enabled, f.client, f.now);
    } else if ev.Disabled? {
      UnthrottleGrows(CancelCalls(f.incoming), ev.rs, f.enabled, f.client, f.now);
      UnthrottleGrows(CancelCalls(f.outgoing), ev.ws, f.enabled, f.client, f.now);
    }
  }

  lemma {:induction false} ResetLoopStaysDead(f: Factory, way: Way, events: seq<Event>)
    requires Valid(f) && Get(f, way).resetID.Some? && Get(f, way).resetID.value.cancelled
    ensures var d := Get(Run(f, events), way);
            d.resetID == Get(f, way).resetID && d.thisSecond >= Get(f, way).thisSecond
    decreases |events|
  {
    if events != [] {
      DeadLoopStep(f, way, events[0]);
      hide Step;
      ResetLoopStaysDead(Step(f, events[0]), way, events[1..]);
    }
  }

  /** After a disable or a lost connection has stopped a started loop, no run whatever, with any number of
      enables, starts it again: the counter never goes down. */
  lemma StoppedForGood(f: Factory, way: Way, stop: Event, events: seq<Event>)
    requires Valid(f) && (stop.Disabled? || stop.Unregistered?) && Get(f, way).resetID.Some?
    ensures var d, stopped := Get(Run(Step(f, stop), events), way), Get(Step(f, stop), way);
            !Looping(d) && d.thisSecond >= stopped.thisSecond
  {
    StopCancels(f, way, stop);
    hide Step, Run;
    ResetLoopStaysDead(Step(f, stop), way, events);
  }

  // Both at inputs that occur

  lemma RunCons(f: Factory, ev: Event, rest: seq<Event>)
    requires Valid(f)
    ensures Run(f, [ev] + rest) == Run(Step(f, ev), rest) && Run(Step(f, ev), []) == Step(f, ev)
  {
    hide Step;
    assert ([ev] + rest)[1..] == rest;
  }

  lemma RunThree(f: Factory, a: Event, b: Event, c: Event)
    requires Valid(f)
    ensures Run(f, [a, b, c]) == Step(Step(Step(f, a), b), c)
  {
    RunCons(f, a, [b, c]);
    RunCons(Step(f, a), b, [c]);
    RunCons(Step(Step(f, a), b), c, []);
    hide Run, Step;
    assert [a] + [b, c] == [a, b, c] && [b] + [c] == [b, c] && [c] + [] == [c];
  }

  /** A factory built enabled with a limit of one byte a second, a client that reads five bytes and loses
      its connection: the reads are stuck. */
  lemma StuckExample(now: real)
    ensures var f := Built(true, Some(1.0), None, now);
            var lost := Run(f, [Connected, Registered(Reads, 5), Unregistered]);
            Stuck(lost.incoming) && lost.incoming.told == [Pause] && !Paired(lost.incoming)
  {
    var f := Built(true, Some(1.0), None, now);
    RunThree(f, Connected, Registered(Reads, 5), Unregistered);
    assert [] + [Pause] == [Pause];
  }

  /** A factory built enabled, disabled and enabled again: no loop. Built disabled it starts like a new one. */
  lemma RestartExample(limit: real, now: real)
    requires limit > 0.0
    ensures !Looping(Step(Step(Built(true, Some(limit), None, now), Disabled([], [])), Enabled).incoming)
    ensures Looping(Step(Built(false, Some(limit), None, now), Enabled).incoming)
  {
  }
}
