/**
 The register-polling daemon (`Daemon`): it reads every configured register,
 keeps the last value seen per register, and on a change runs the matching
 triggers unless the register's last event is within the debounce interval.
 SPI reads are an oracle (`Some(byte)` or `None` for a failed read) and the
 current time is a parameter in milliseconds.
 */
module Daemon {
  import opened Types
  import opened Configuration

  /** `matches_trigger`: masked comparison when a mask is configured, plain
      equality otherwise. */
  predicate MatchesTrigger(value: bv8, trigger: ValueTrigger)
    ensures trigger.mask == Some(0xFF) ==> (MatchesTrigger(value, trigger) <==> value == trigger.value)
    ensures trigger.mask.Some? && trigger.value & !trigger.mask.value != 0 ==> !MatchesTrigger(value, trigger)
    ensures trigger.mask.None? ==> (MatchesTrigger(value, trigger) <==> value == trigger.value)
  {
    match trigger.mask
    case Some(mask) => value & mask == trigger.value
    case None => value == trigger.value
  }

  /** With mask 0x01 and value 0x01, both 0x01 and 0x03 match. */
  lemma MaskExample()
    ensures MatchesTrigger(0x01, ValueTrigger(0x01, Some(0x01), "test", None))
    ensures MatchesTrigger(0x03, ValueTrigger(0x01, Some(0x01), "test", None))
    ensures !MatchesTrigger(0x02, ValueTrigger(0x01, Some(0x01), "test", None))
  {
  }

  /** The triggers that match `value`, in configuration order. */
  function MatchingTriggers(triggers: seq<ValueTrigger>, value: bv8): seq<ValueTrigger>
  {
    if triggers == [] then []
    else
      var head := if MatchesTrigger(value, triggers[0]) then [triggers[0]] else [];
      head + MatchingTriggers(triggers[1..], value)
  }

  /** Every matching trigger runs, and only matching ones. */
  lemma {:induction false} MatchingTriggersExactly(triggers: seq<ValueTrigger>, value: bv8, t: ValueTrigger)
    ensures t in MatchingTriggers(triggers, value) <==> t in triggers && MatchesTrigger(value, t)
  {
    if triggers != [] {
      MatchingTriggersExactly(triggers[1..], value, t);
      assert triggers == [triggers[0]] + triggers[1..];
    }
  }

  /** Selection keeps configuration order: it distributes over concatenation. */
  lemma {:induction false} MatchingTriggersAppend(a: seq<ValueTrigger>, b: seq<ValueTrigger>, value: bv8)
    ensures MatchingTriggers(a + b, value) == MatchingTriggers(a, value) + MatchingTriggers(b, value)
  {
    if a != [] {
      assert (a + b)[1..] == a[1..] + b;
      MatchingTriggersAppend(a[1..], b, value);
    } else {
      assert a + b == b;
    }
  }

  /** `process_triggers`: runs the command of every trigger that matches
      `value`, in order; the triggers whose commands ran are returned. */
  method ProcessTriggers(register: RegisterMapping, value: bv8) returns (run: seq<ValueTrigger>)
    ensures run == MatchingTriggers(register.valueTriggers, value)
  {
    run := [];
    var triggers := register.valueTriggers;
    for i := 0 to |triggers|
      invariant run == MatchingTriggers(triggers[..i], value)
    {
      assert triggers[..i + 1] == triggers[..i] + [triggers[i]];
      MatchingTriggersAppend(triggers[..i], [triggers[i]], value);
      if MatchesTrigger(value, triggers[i]) {
        run := run + [triggers[i]];
      }
    }
    assert triggers[..|triggers|] == triggers;
  }

  /** Time since `last`, saturating at 0 as `Instant::elapsed` does. */
  function Elapsed(last: nat, now: nat): nat {
    if now >= last then now - last else 0
  }

  /** `should_trigger_event`: no event recorded for `register`, or at least
      `debounceMs` since the last one. */
  predicate ShouldTriggerEvent(lastEventTimes: map<u8, nat>, register: u8, now: nat, debounceMs: nat)
    ensures register !in lastEventTimes ==> ShouldTriggerEvent(lastEventTimes, register, now, debounceMs)
    ensures register in lastEventTimes && lastEventTimes[register] <= now < lastEventTimes[register] + debounceMs
      ==> !ShouldTriggerEvent(lastEventTimes, register, now, debounceMs)
    ensures register in lastEventTimes && lastEventTimes[register] + debounceMs <= now
      ==> ShouldTriggerEvent(lastEventTimes, register, now, debounceMs)
  {
    register in lastEventTimes ==> Elapsed(lastEventTimes[register], now) >= debounceMs
  }

  /** The daemon's two maps. */
  datatype DaemonState = DaemonState(registerStates: map<u8, bv8>, lastEventTimes: map<u8, nat>)

  /** The value last stored for `address`, 0 when none is. */
  function Previous(s: DaemonState, address: u8): bv8 {
    if address in s.registerStates then s.registerStates[address] else 0
  }

  /** The state after one register's turn in `poll`, and the triggers run. */
  datatype StepResult = StepResult(state: DaemonState, run: seq<ValueTrigger>)

  /** The clock as one register's turn sees it: `check` is read by the
      debounce test, `record` after the matching commands have run and is
      stored as the event time. */
  datatype Clock = Clock(check: nat, record: nat)

  /** A register's turn raises an event: a successful read that differs
      from the stored value, outside the debounce interval at `check`. */
  predicate Fired(s: DaemonState, register: RegisterMapping, read: Option<bv8>, clock: Clock, debounceMs: nat) {
    && read.Some?
    && read.value != Previous(s, register.registerAddress)
    && ShouldTriggerEvent(s.lastEventTimes, register.registerAddress, clock.check, debounceMs)
  }

  /** One register's turn in `poll`: a failed read or an unchanged value
      leaves both maps alone and runs nothing; a changed value is stored
      even when debounced; only an event that is not debounced runs its
      matching triggers and records `clock.record` as the register's event
      time. */
  function PollRegister(s: DaemonState, register: RegisterMapping, read: Option<bv8>, clock: Clock, debounceMs: nat): (r: StepResult)
    ensures read.None? ==> r == StepResult(s, [])
    ensures read.Some? && read.value == Previous(s, register.registerAddress) ==> r == StepResult(s, [])
    ensures read.Some? && read.value != Previous(s, register.registerAddress) ==>
      r.state.registerStates == s.registerStates[register.registerAddress := read.value]
    ensures read.Some? ==> Previous(r.state, register.registerAddress) == read.value
    ensures forall a :: a != register.registerAddress ==> Previous(r.state, a) == Previous(s, a)
    ensures Fired(s, register, read, clock, debounceMs) ==>
      && r.state.lastEventTimes == s.lastEventTimes[register.registerAddress := clock.record]
      && r.run == MatchingTriggers(register.valueTriggers, read.value)
    ensures !Fired(s, register, read, clock, debounceMs) ==>
      r.state.lastEventTimes == s.lastEventTimes && r.run == []
  {
    match read
    case None => StepResult(s, [])
    case Some(current) =>
      var address := register.registerAddress;
      if current == Previous(s, address) then StepResult(s, [])
      else
        var states := s.registerStates[address := current];
        if ShouldTriggerEvent(s.lastEventTimes, address, clock.check, debounceMs) then
          StepResult(DaemonState(states, s.lastEventTimes[address := clock.record]),
                     MatchingTriggers(register.valueTriggers, current))
        else
          StepResult(DaemonState(states, s.lastEventTimes), [])
  }

  /** The debounce interval runs from the time recorded after the commands
      ran: a change seen before it has elapsed raises no event. */
  lemma DebouncedAfterEvent(s: DaemonState, register: RegisterMapping, first: Option<bv8>, c1: Clock,
                            second: Option<bv8>, c2: Clock, debounceMs: nat)
    requires Fired(s, register, first, c1, debounceMs)
    requires c1.record <= c2.check < c1.record + debounceMs
    ensures !Fired(PollRegister(s, register, first, c1, debounceMs).state, register, second, c2, debounceMs)
  {
  }

  /** `poll` over the registers in order: `readings[i]` is the outcome of
      reading `registers[i]` and `clocks[i]` the clock its turn reads; the
      triggers run are concatenated in order. */
  function PollSpec(s: DaemonState, registers: seq<RegisterMapping>, readings: seq<Option<bv8>>, clocks: seq<Clock>, debounceMs: nat): StepResult
    requires |readings| == |registers| == |clocks|
  {
    if registers == [] then StepResult(s, [])
    else
      var n := |registers| - 1;
      var before := PollSpec(s, registers[..n], readings[..n], clocks[..n], debounceMs);
      var last := PollRegister(before.state, registers[n], readings[n], clocks[n], debounceMs);
      StepResult(last.state, before.run + last.run)
  }

  /** When every read fails, `poll` changes nothing and runs nothing. */
  lemma {:induction false} PollAllFailed(s: DaemonState, registers: seq<RegisterMapping>, readings: seq<Option<bv8>>, clocks: seq<Clock>, debounceMs: nat)
    requires |readings| == |registers| == |clocks|
    requires forall i :: 0 <= i < |readings| ==> readings[i].None?
    ensures PollSpec(s, registers, readings, clocks, debounceMs) == StepResult(s, [])
  {
    if registers != [] {
      var n := |registers| - 1;
      PollAllFailed(s, registers[..n], readings[..n], clocks[..n], debounceMs);
    }
  }

  /** The set of configured register addresses. */
  function Addresses(registers: seq<RegisterMapping>): set<u8> {
    set i | 0 <= i < |registers| :: registers[i].registerAddress
  }

  /** `poll` keeps the maps within the configured addresses: the stored
      states cover exactly them and event times only them. */
  lemma {:induction false} PollKeepsAddresses(s: DaemonState, registers: seq<RegisterMapping>, readings: seq<Option<bv8>>, clocks: seq<Clock>, debounceMs: nat, addresses: set<u8>)
    requires |readings| == |registers| == |clocks|
    requires Addresses(registers) <= addresses
    requires s.registerStates.Keys == addresses && s.lastEventTimes.Keys <= addresses
    ensures PollSpec(s, registers, readings, clocks, debounceMs).state.registerStates.Keys == addresses
    ensures PollSpec(s, registers, readings, clocks, debounceMs).state.lastEventTimes.Keys <= addresses
  {
    if registers != [] {
      var n := |registers| - 1;
      assert Addresses(registers[..n]) <= Addresses(registers) by {
        forall a | a in Addresses(registers[..n]) ensures a in Addresses(registers) {
          var i :| 0 <= i < n && registers[..n][i].registerAddress == a;
          assert registers[i].registerAddress == a;
        }
      }
      assert registers[n].registerAddress in Addresses(registers);
      PollKeepsAddresses(s, registers[..n], readings[..n], clocks[..n], debounceMs, addresses);
    }
  }

  /** After `poll`, the value stored for a register is the one read at its
      last successful read in that poll. */
  lemma {:induction false} PollRecordsLastRead(s: DaemonState, registers: seq<RegisterMapping>, readings: seq<Option<bv8>>, clocks: seq<Clock>, debounceMs: nat, i: nat)
    requires |readings| == |registers| == |clocks| && i < |registers| && readings[i].Some?
    requires forall j :: i < j < |registers| && registers[j].registerAddress == registers[i].registerAddress ==> readings[j].None?
    ensures Previous(PollSpec(s, registers, readings, clocks, debounceMs).state, registers[i].registerAddress) == readings[i].value
  {
    var n := |registers| - 1;
    if i < n {
      PollRecordsLastRead(s, registers[..n], readings[..n], clocks[..n], debounceMs, i);
    }
  }

  /** `new` and `reload_config`: every configured address maps to 0. */
  method InitialRegisterStates(registers: seq<RegisterMapping>) returns (states: map<u8, bv8>)
    ensures states.Keys == Addresses(registers)
    ensures forall a :: a in states ==> states[a] == 0
  {
    states := map[];
    for i := 0 to |registers|
      invariant states.Keys == Addresses(registers[..i])
      invariant forall a :: a in states ==> states[a] == 0
    {
      assert Addresses(registers[..i + 1]) == Addresses(registers[..i]) + {registers[i].registerAddress} by {
        assert registers[..i + 1] == registers[..i] + [registers[i]];
      }
      states := states[registers[i].registerAddress := 0];
    }
    assert registers[..|registers|] == registers;
  }

  class Daemon {
    var config: Config
    var registerStates: map<u8, bv8>
    var lastEventTimes: map<u8, nat>

    /** Stored states cover exactly the configured registers; event times
        are recorded only for them. */
    ghost predicate Valid()
      reads this
    {
      && registerStates.Keys == Addresses(config.registers)
      && lastEventTimes.Keys <= Addresses(config.registers)
    }

    function State(): DaemonState
      reads this
    {
      DaemonState(registerStates, lastEventTimes)
    }

    /** `new`: the configured registers start at 0 and no event has happened. */
    constructor (config: Config)
      ensures Valid() && this.config == config
      ensures registerStates.Keys == Addresses(config.registers)
      ensures forall a :: a in registerStates ==> registerStates[a] == 0
      ensures lastEventTimes == map[]
    {
      this.config := config;
      var states := InitialRegisterStates(config.registers);
      registerStates := states;
      lastEventTimes := map[];
    }

    /** `poll`: one pass over the configured registers, `readings[i]` being the
        outcome of reading register `i` and `clocks[i]` the milliseconds its
        turn reads from the clock, at the debounce test and after the
        commands have run. */
    method Poll(readings: seq<Option<bv8>>, clocks: seq<Clock>) returns (run: seq<ValueTrigger>)
      requires Valid() && |readings| == |config.registers| == |clocks|
      modifies this
      ensures Valid() && config == old(config)
      ensures StepResult(State(), run) == PollSpec(old(State()), config.registers, readings, clocks, config.polling.debounceMs)
    {
      run := [];
      var registers := config.registers;
      var debounceMs := config.polling.debounceMs;
      ghost var start := State();
      for i := 0 to |registers|
        invariant config == old(config)
        invariant StepResult(State(), run) == PollSpec(start, registers[..i], readings[..i], clocks[..i], debounceMs)
      {
        assert registers[..i + 1][..i] == registers[..i];
        assert readings[..i + 1][..i] == readings[..i];
        assert clocks[..i + 1][..i] == clocks[..i];
        var register := registers[i];
        var address := register.registerAddress;
        match readings[i] {
          case Some(current) =>
            var previous := if address in registerStates then registerStates[address] else 0;
            if current != previous {
              registerStates := registerStates[address := current];
              if ShouldTriggerEvent(lastEventTimes, address, clocks[i].check, debounceMs) {
                var fired := ProcessTriggers(register, current);
                run := run + fired;
                lastEventTimes := lastEventTimes[address := clocks[i].record];
              }
            }
          case None =>
        }
      }
      assert registers[..|registers|] == registers && readings[..|readings|] == readings && clocks[..|clocks|] == clocks;
      PollKeepsAddresses(start, registers, readings, clocks, debounceMs, Addresses(registers));
    }

    /** `reload_config`: installs `newConfig` and starts over as `new` does. */
    method ReloadConfig(newConfig: Config) returns (r: Outcome)
      modifies this
      ensures r == Ok && Valid() && config == newConfig
      ensures registerStates.Keys == Addresses(newConfig.registers)
      ensures forall a :: a in registerStates ==> registerStates[a] == 0
      ensures lastEventTimes == map[]
    {
      config := newConfig;
      registerStates := map[];
      lastEventTimes := map[];
      var states := InitialRegisterStates(config.registers);
      registerStates := states;
      r := Ok;
    }
  }
}
