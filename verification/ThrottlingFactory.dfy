/** The factory object itself: the methods of `ThrottlingStorageClientFactory` (magicicadaprotocol/client.py)
    over its attributes, each proved to take the step of the `Throttle` module. */
module ThrottlingFactory {
  import opened Options
  import opened Throttle

  class Factory {
    var readLimit: Option<real>
    var writeLimit: Option<real>
    var throttlingReads: bool
    var throttlingWrites: bool
    var throttlingEnabled: bool
    var readThisSecond: nat
    var writtenThisSecond: nat
    var unthrottleReadsID: Option<Call>
    var resetReadThisSecondID: Option<Call>
    var unthrottleWritesID: Option<Call>
    var resetWriteThisSecondID: Option<Call>
    /** Whether `client` is set, and what it has been told. */
    var client: bool
    var readSignals: seq<Signal>
    var writeSignals: seq<Signal>
    /** The reactor's clock. */
    var now: real

    ghost function Incoming(): Direction
      reads this
    {
      Direction(readLimit, throttlingReads, readThisSecond, unthrottleReadsID, resetReadThisSecondID, readSignals)
    }

    ghost function Outgoing(): Direction
      reads this
    {
      Direction(writeLimit, throttlingWrites, writtenThisSecond, unthrottleWritesID, resetWriteThisSecondID,
                writeSignals)
    }

    ghost function View(): Throttle.Factory
      reads this
    {
      Throttle.Factory(throttlingEnabled, client, now, Incoming(), Outgoing())
    }

    ghost predicate Valid()
      reads this
    {
      Throttle.Valid(View())
    }

    method ResetReadThisSecond()
      modifies `readThisSecond, `resetReadThisSecondID
      ensures View() == old(View()).(incoming := Reset(old(Incoming()), now))
    {
      readThisSecond := 0;
      resetReadThisSecondID := Some(Call(now + 1.0, false));
    }

    method ResetWrittenThisSecond()
      modifies `writtenThisSecond, `resetWriteThisSecondID
      ensures View() == old(View()).(outgoing := Reset(old(Outgoing()), now))
    {
      writtenThisSecond := 0;
      resetWriteThisSecondID := Some(Call(now + 1.0, false));
    }

    method EnableThrottling()
      requires Valid()
      modifies this
      ensures Valid() && View() == Step(old(View()), Enabled)
    {
      if resetReadThisSecondID == None && ValidLimit(readLimit) {
        ResetReadThisSecond();
      }
      if resetWriteThisSecondID == None && ValidLimit(writeLimit) {
        ResetWrittenThisSecond();
      }
      throttlingEnabled := true;
    }

    method ThrottleReads()
      modifies `throttlingReads, `readSignals
      ensures View() == old(View()).(incoming := TellPause(old(Incoming()), client))
    {
      if client {
        throttlingReads := true;
        readSignals := readSignals + [Pause];
      }
    }

    method CheckReadBandwidth()
      requires Valid()
      modifies this
      ensures View() == old(View()).(incoming := Check(old(Incoming()), throttlingEnabled, client, now))
    {
      if throttlingEnabled && readLimit.Some? && readThisSecond as real >= readLimit.value
         && unthrottleReadsID == None
      {
        ThrottleReads();
        unthrottleReadsID := Some(Call(now + ThrottleTime(readThisSecond, readLimit.value), false));
      }
    }

    method RegisterRead(length: nat)
      requires Valid()
      modifies this
      ensures Valid() && View() == Step(old(View()), Registered(Reads, length))
    {
      if throttlingEnabled {
        readThisSecond := readThisSecond + length;
        CheckReadBandwidth();
      }
    }

    /** `arriving` are the sizes the client reports before `unthrottleReads` returns. */
    method UnthrottleReads(arriving: seq<nat>)
      requires Valid()
      modifies this
      ensures Valid()
      ensures View() == old(View()).(incoming := Unthrottle(old(Incoming()), arriving, throttlingEnabled, client, now))
    {
      unthrottleReadsID := None;
      if client {
        throttlingReads := false;
        readSignals := readSignals + [Unpause];
        ghost var cleared := View();
        for i := 0 to |arriving|
          invariant Valid()
          invariant RegisterAll(Incoming(), arriving[i..], throttlingEnabled, client, now)
                    == RegisterAll(cleared.incoming, arriving, cleared.enabled, cleared.client, cleared.now)
          invariant View() == cleared.(incoming := Incoming())
        {
          assert arriving[i..][1..] == arriving[i + 1..];
          RegisterRead(arriving[i]);
        }
      }
    }

    method ThrottleWrites()
      modifies `throttlingWrites, `writeSignals
      ensures View() == old(View()).(outgoing := TellPause(old(Outgoing()), client))
    {
      if client {
        throttlingWrites := true;
        writeSignals := writeSignals + [Pause];
      }
    }

    method CheckWriteBandwidth()
      requires Valid()
      modifies this
      ensures View() == old(View()).(outgoing := Check(old(Outgoing()), throttlingEnabled, client, now))
    {
      if throttlingEnabled && writeLimit.Some? && writtenThisSecond as real >= writeLimit.value
         && unthrottleWritesID == None
      {
        ThrottleWrites();
        unthrottleWritesID := Some(Call(now + ThrottleTime(writtenThisSecond, writeLimit.value), false));
      }
    }

    method RegisterWritten(length: nat)
      requires Valid()
      modifies this
      ensures Valid() && View() == Step(old(View()), Registered(Writes, length))
    {
      if throttlingEnabled {
        writtenThisSecond := writtenThisSecond + length;
        CheckWriteBandwidth();
      }
    }

    /** `leaving` are the sizes the client writes while it is being resumed. */
    method UnthrottleWrites(leaving: seq<nat>)
      requires Valid()
      modifies this
      ensures Valid()
      ensures View() == old(View()).(outgoing := Unthrottle(old(Outgoing()), leaving, throttlingEnabled, client, now))
    {
      unthrottleWritesID := None;
      if client {
        throttlingWrites := false;
        writeSignals := writeSignals + [Unpause];
        ghost var cleared := View();
        for i := 0 to |leaving|
          invariant Valid()
          invariant RegisterAll(Outgoing(), leaving[i..], throttlingEnabled, client, now)
                    == RegisterAll(cleared.outgoing, leaving, cleared.enabled, cleared.client, cleared.now)
          invariant View() == cleared.(outgoing := Outgoing())
        {
          assert leaving[i..][1..] == leaving[i + 1..];
          RegisterWritten(leaving[i]);
        }
      }
    }

    /** `_cancel_delayed_call` for each of the four timers. */
    method CancelTimers()
      requires Valid()
      modifies `unthrottleReadsID, `unthrottleWritesID, `resetReadThisSecondID, `resetWriteThisSecondID
      ensures Valid()
      ensures View() == old(View()).(incoming := CancelCalls(old(Incoming())), outgoing := CancelCalls(old(Outgoing())))
    {
      unthrottleReadsID := CancelCall(unthrottleReadsID);
      unthrottleWritesID := CancelCall(unthrottleWritesID);
      resetReadThisSecondID := CancelCall(resetReadThisSecondID);
      resetWriteThisSecondID := CancelCall(resetWriteThisSecondID);
    }

    method DisableThrottling(arriving: seq<nat>, leaving: seq<nat>)
      requires Valid()
      modifies this
      ensures Valid() && View() == Step(old(View()), Disabled(arriving, leaving))
    {
      hide Unthrottle;
      CancelTimers();
      if throttlingReads {
        UnthrottleReads(arriving);
      }
      if throttlingWrites {
        UnthrottleWrites(leaving);
      }
      throttlingEnabled := false;
    }

    constructor (enabled: bool, reads': Option<real>, writes': Option<real>, now: real)
      requires ValidLimit(reads') && ValidLimit(writes')
      ensures Valid() && !client
      ensures View() == Built(enabled, reads', writes', now)
    {
      this.now := now;
      client := false;
      readSignals, writeSignals := [], [];
      readLimit, writeLimit := reads', writes';
      throttlingReads, throttlingWrites := false, false;
      throttlingEnabled := enabled;
      readThisSecond, writtenThisSecond := 0, 0;
      unthrottleReadsID, resetReadThisSecondID := None, None;
      unthrottleWritesID, resetWriteThisSecondID := None, None;
      new;
      if enabled {
        EnableThrottling();
      } else {
        DisableThrottling([], []);
      }
    }

    /** `connectionMade` of the client: the first one to connect is the one that is throttled. */
    method ConnectionMade()
      requires Valid()
      modifies `client
      ensures Valid() && View() == Step(old(View()), Connected)
    {
      if !client {
        client := true;
      }
    }

    /** `_set_read_limit`; false is the `ValueError`. */
    method SetReadLimit(limit: Option<real>) returns (ok: bool)
      requires Valid()
      modifies `readLimit
      ensures Valid() && View() == Step(old(View()), LimitSet(Reads, limit)) && ok == ValidLimit(limit)
    {
      ok := ValidLimit(limit);
      if ok {
        readLimit := limit;
      }
    }

    method SetWriteLimit(limit: Option<real>) returns (ok: bool)
      requires Valid()
      modifies `writeLimit
      ensures Valid() && View() == Step(old(View()), LimitSet(Writes, limit)) && ok == ValidLimit(limit)
    {
      ok := ValidLimit(limit);
      if ok {
        writeLimit := limit;
      }
    }

    /** `unregisterProtocol`, when the connection is lost. */
    method UnregisterProtocol()
      requires Valid()
      modifies this
      ensures Valid() && View() == Step(old(View()), Unregistered)
    {
      CancelTimers();
    }
  }

  /** Constructing a factory with any limits at all; null is the `ValueError`. */
  method NewFactory(enabled: bool, readLimit: Option<real>, writeLimit: Option<real>, now: real)
    returns (factory: Factory?)
    ensures factory != null <==> ValidLimit(readLimit) && ValidLimit(writeLimit)
    ensures factory != null ==> fresh(factory) && factory.View() == Built(enabled, readLimit, writeLimit, now)
  {
    if !ValidLimit(readLimit) || !ValidLimit(writeLimit) {
      return null;
    }
    factory := new Factory(enabled, readLimit, writeLimit, now);
  }
}
