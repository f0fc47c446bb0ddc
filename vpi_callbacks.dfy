/**
 * The callbacks the logic simulator makes into the bridge (VpiCallbacks.cpp):
 * value changes on input ports arm one zero-delay resynchronisation, the
 * time-step callback runs the publish / redo / drain sequence and schedules
 * its next wake-up at the SPICE step-end hint, start of simulation registers
 * the ports of the configured instances and starts ngspice, and end of
 * simulation shuts the barrier.
 *
 * The calls into the simulator and into ngspice are returned as traces of
 * `HostCall`s; what the simulator answers (port scans, handles, signal
 * readings, ngspice status codes) comes in as parameters.
 */
module VpiCallbacks {
  import opened Options
  import opened Ticks
  import opened Vpi
  import opened Ports
  import opened TimeBarrier
  import Config
  import Bridge

  // ---------------------------------------------------------------------------
  // Arming (vpi_port_change_cb)

  /** The two statics: `add_ngspice_timestep` and `next_time_cb_handle`. */
  datatype Arming = Arming(armed: bool, pendingTimestep: Option<Handle>)

  /** One port-change callback: the new statics and the calls it makes. */
  function PortChange(s: Arming): (Arming, seq<HostCall>) {
    var removal := if s.pendingTimestep.Some? then [RemoveCallback(s.pendingTimestep.value)] else [];
    var registration := if !s.armed then [RegisterTimestep(ZeroDelay)] else [];
    (Arming(true, None), removal + registration)
  }

  /** `n` port-change callbacks in a row, with no time-step callback between them. */
  function Burst(s: Arming, n: nat): (Arming, seq<HostCall>)
    decreases n
  {
    if n == 0 then (s, [])
    else
      var (mid, first) := Burst(s, n - 1);
      var (last, calls) := PortChange(mid);
      (last, first + calls)
  }

  /**
   * However many inputs change before the next time step, exactly one
   * zero-delay time step is registered (none if one is already armed), the
   * pending wake-up is cancelled once if there was one, and nothing else is
   * called.
   */
  lemma {:induction false} BurstArmsOnce(s: Arming, n: nat)
    requires n >= 1
    ensures Burst(s, n).0 == Arming(true, None)
    ensures multiset(Burst(s, n).1)[RegisterTimestep(ZeroDelay)] == if s.armed then 0 else 1
    ensures s.pendingTimestep.Some? ==> multiset(Burst(s, n).1)[RemoveCallback(s.pendingTimestep.value)] == 1
    ensures forall c :: c in Burst(s, n).1 ==> c == RegisterTimestep(ZeroDelay) || (s.pendingTimestep.Some? && c == RemoveCallback(s.pendingTimestep.value))
    decreases n
  {
    if n > 1 {
      BurstArmsOnce(s, n - 1);
      var (mid, first) := Burst(s, n - 1);
      assert PortChange(mid).1 == [];
      assert Burst(s, n).1 == first;
    }
  }

  // ---------------------------------------------------------------------------
  // Wake-up delay (vpi_timestep_cb)

  /**
   * The delay to the next time-step callback, `time_low`: the hint minus the
   * current time in unsigned 64 bits, replaced by 1 only when that is 0.  A
   * hint in the past wraps around to a delay of nearly 2^64 ticks.
   */
  function TimestepDelay(next: U64, current: U64): (d: U64)
    ensures d >= 1
    ensures next > current ==> d == next - current
    ensures next < current ==> d == next - current + TWO_TO_64
    ensures next == current ==> d == 1
    ensures next != current ==> AddU64(current, d) == next
  {
    var low := SubU64(next, current);
    if low < 1 then 1 else low
  }

  /**
   * The wake-up time as the callback writes it: `high` set to 0 and the
   * 64-bit delay assigned to the 32-bit `low` word (IEEE 1364 declares both
   * words of `s_vpi_time` as `PLI_UINT32`), which keeps the delay modulo 2^32.
   */
  function WrittenDelay(d: U64): (t: SimTime)
    ensures t.high == 0 && t.low < TWO_TO_32
    ensures d < TWO_TO_32 ==> SimTicks(t) == d
    ensures d >= TWO_TO_32 ==> SimTicks(t) < d
  {
    SimTime(0, d % TWO_TO_32)
  }

  /**
   * As written, a hint exactly 2^32 ticks ahead is registered as a delay of
   * 0: the callback comes back at the current time, although the guard on
   * `time_low` is there to rule out a zero delay.
   */
  lemma WrittenDelayMissesHint()
    ensures TimestepDelay(TWO_TO_32, 0) == TWO_TO_32
    ensures SimTicks(WrittenDelay(TimestepDelay(TWO_TO_32, 0))) == 0
  {
  }

  /** As written, the registered delay is 0 exactly when `time_low` is a multiple of 2^32. */
  lemma WrittenDelayZero(next: U64, current: U64)
    ensures SimTicks(WrittenDelay(TimestepDelay(next, current))) == 0 <==> TimestepDelay(next, current) % TWO_TO_32 == 0
  {
  }

  /** The delay split over both words of the `s_vpi_time`, high word first. */
  function DelayTime(d: U64): (t: SimTime)
    ensures t.high < TWO_TO_32 && t.low < TWO_TO_32
    ensures SimTicks(t) == d
  {
    HighWordBound(d);
    SimTime(d / TWO_TO_32, d % TWO_TO_32)
  }

  lemma HighWordBound(d: U64)
    ensures d / TWO_TO_32 < TWO_TO_32
  {
    assert TWO_TO_32 * TWO_TO_32 == TWO_TO_64;
  }

  /**
   * With both words written, the registered delay is never 0 and the
   * wake-up lands on the hint whenever the hint differs from the current
   * time (in unsigned 64 bits).
   */
  lemma WakeUpLandsOnHint(next: U64, current: U64)
    ensures SimTicks(DelayTime(TimestepDelay(next, current))) >= 1
    ensures next != current ==> AddU64(current, SimTicks(DelayTime(TimestepDelay(next, current)))) == next
  {
  }

  // ---------------------------------------------------------------------------
  // Port scan (vpi_start_of_sim_cb)

  /** What `vpi_iterate(vpiPort, inst)` yields for each instance name; None: not found. */
  type InstanceLookup = string -> Option<seq<PortQuery>>

  /** One scanned port: inout ports are reported and skipped, all others go to `add_port`. */
  function ScanPort(t: Tables, fullPathDiscovery: bool, q: PortQuery): Tables {
    if q.direction == VpiInout then t else AddPort(t, fullPathDiscovery, q)
  }

  function ScanPorts(t: Tables, fullPathDiscovery: bool, ports: seq<PortQuery>): Tables
    decreases |ports|
  {
    if ports == [] then t
    else ScanPort(ScanPorts(t, fullPathDiscovery, ports[..|ports| - 1]), fullPathDiscovery, ports[|ports| - 1])
  }

  /** The value-change callbacks the scan registers: one per input port, on its net. */
  function ValueChangeCalls(ports: seq<PortQuery>): (calls: seq<HostCall>)
    decreases |ports|
  {
    if ports == [] then []
    else
      var q := ports[|ports| - 1];
      ValueChangeCalls(ports[..|ports| - 1]) + (if q.direction == VpiInput then [RegisterValueChange(q.net)] else [])
  }

  /** The instances in order; an instance that cannot be found contributes nothing. */
  function ScanInstances(t: Tables, fullPathDiscovery: bool, names: seq<string>, lookup: InstanceLookup): Tables
    decreases |names|
  {
    if names == [] then t
    else
      var before := ScanInstances(t, fullPathDiscovery, names[..|names| - 1], lookup);
      match lookup(names[|names| - 1])
      case None => before
      case Some(ports) => ScanPorts(before, fullPathDiscovery, ports)
  }

  function InstanceCalls(names: seq<string>, lookup: InstanceLookup): seq<HostCall>
    decreases |names|
  {
    if names == [] then []
    else
      var before := InstanceCalls(names[..|names| - 1], lookup);
      match lookup(names[|names| - 1])
      case None => before
      case Some(ports) => before + ValueChangeCalls(ports)
  }

  /** Scanning one more port of the list is one more `ScanPort`, and one more value-change call for an input. */
  lemma ScanPortsStep(t: Tables, fullPathDiscovery: bool, ports: seq<PortQuery>, j: int)
    requires 0 <= j < |ports|
    ensures ScanPorts(t, fullPathDiscovery, ports[..j + 1]) == ScanPort(ScanPorts(t, fullPathDiscovery, ports[..j]), fullPathDiscovery, ports[j])
    ensures ValueChangeCalls(ports[..j + 1]) == ValueChangeCalls(ports[..j]) + (if ports[j].direction == VpiInput then [RegisterValueChange(ports[j].net)] else [])
  {
    assert ports[..j + 1][..j] == ports[..j];
  }

  /** Processing one more instance name is one more lookup and, when it is found, one more port scan. */
  lemma ScanInstancesStep(t: Tables, fullPathDiscovery: bool, names: seq<string>, i: int, lookup: InstanceLookup)
    requires 0 <= i < |names|
    ensures ScanInstances(t, fullPathDiscovery, names[..i + 1], lookup)
      == match lookup(names[i])
         case None => ScanInstances(t, fullPathDiscovery, names[..i], lookup)
         case Some(ports) => ScanPorts(ScanInstances(t, fullPathDiscovery, names[..i], lookup), fullPathDiscovery, ports)
    ensures InstanceCalls(names[..i + 1], lookup)
      == match lookup(names[i])
         case None => InstanceCalls(names[..i], lookup)
         case Some(ports) => InstanceCalls(names[..i], lookup) + ValueChangeCalls(ports)
  {
    assert names[..i + 1][..i] == names[..i];
  }

  /** Skipping inout ports explicitly changes nothing: `add_port` files them nowhere. */
  lemma {:induction false} InoutSkipAgreesWithAddPort(t: Tables, fullPathDiscovery: bool, ports: seq<PortQuery>)
    ensures ScanPorts(t, fullPathDiscovery, ports) == AddAll(t, fullPathDiscovery, ports)
    decreases |ports|
  {
    if ports != [] {
      InoutSkipAgreesWithAddPort(t, fullPathDiscovery, ports[..|ports| - 1]);
      var q := ports[|ports| - 1];
      if q.direction == VpiInout {
        AddPortRejects(ScanPorts(t, fullPathDiscovery, ports[..|ports| - 1]), fullPathDiscovery, q);
      }
    }
  }

  /** Every port handed to `add_port`, inout ones included. */
  function AddAll(t: Tables, fullPathDiscovery: bool, ports: seq<PortQuery>): Tables
    decreases |ports|
  {
    if ports == [] then t
    else AddPort(AddAll(t, fullPathDiscovery, ports[..|ports| - 1]), fullPathDiscovery, ports[|ports| - 1])
  }

  /** Only input ports get a value-change callback, each exactly once, on its own net. */
  lemma {:induction false} OnlyInputsWatched(ports: seq<PortQuery>)
    ensures |ValueChangeCalls(ports)| == |InputPorts(ports)|
    ensures forall i :: 0 <= i < |ValueChangeCalls(ports)| ==>
      ValueChangeCalls(ports)[i] == RegisterValueChange(InputPorts(ports)[i].net)
    decreases |ports|
  {
    if ports != [] {
      OnlyInputsWatched(ports[..|ports| - 1]);
    }
  }

  /** The input ports of a scan, in order. */
  function InputPorts(ports: seq<PortQuery>): (r: seq<PortQuery>)
    ensures forall q :: q in r ==> q in ports && q.direction == VpiInput
    decreases |ports|
  {
    if ports == [] then []
    else
      var q := ports[|ports| - 1];
      InputPorts(ports[..|ports| - 1]) + (if q.direction == VpiInput then [q] else [])
  }

  lemma {:induction false} ScanInstancesAppend(t: Tables, fullPathDiscovery: bool, a: seq<string>, b: seq<string>, lookup: InstanceLookup)
    ensures ScanInstances(t, fullPathDiscovery, a + b, lookup)
         == ScanInstances(ScanInstances(t, fullPathDiscovery, a, lookup), fullPathDiscovery, b, lookup)
    decreases |b|
  {
    if b == [] {
      assert a + b == a;
    } else {
      ScanInstancesAppend(t, fullPathDiscovery, a, b[..|b| - 1], lookup);
      assert (a + b)[..|a + b| - 1] == a + b[..|b| - 1];
      assert (a + b)[|a + b| - 1] == b[|b| - 1];
    }
  }

  lemma {:induction false} InstanceCallsAppend(a: seq<string>, b: seq<string>, lookup: InstanceLookup)
    ensures InstanceCalls(a + b, lookup) == InstanceCalls(a, lookup) + InstanceCalls(b, lookup)
    decreases |b|
  {
    if b == [] {
      assert a + b == a;
    } else {
      InstanceCallsAppend(a, b[..|b| - 1], lookup);
      assert (a + b)[..|a + b| - 1] == a + b[..|b| - 1];
      assert (a + b)[|a + b| - 1] == b[|b| - 1];
    }
  }

  /** An instance that cannot be found is skipped and the scan goes on with the next one. */
  lemma MissingInstanceSkipped(t: Tables, fullPathDiscovery: bool, a: seq<string>, missing: string, b: seq<string>, lookup: InstanceLookup)
    requires lookup(missing).None?
    ensures ScanInstances(t, fullPathDiscovery, a + [missing] + b, lookup) == ScanInstances(t, fullPathDiscovery, a + b, lookup)
    ensures InstanceCalls(a + [missing] + b, lookup) == InstanceCalls(a + b, lookup)
  {
    ScanInstancesAppend(t, fullPathDiscovery, a + [missing], b, lookup);
    ScanInstancesAppend(t, fullPathDiscovery, a, b, lookup);
    InstanceCallsAppend(a + [missing], b, lookup);
    InstanceCallsAppend(a, b, lookup);
    assert (a + [missing])[..|a + [missing]| - 1] == a;
  }

  // ---------------------------------------------------------------------------
  // The callbacks

  /** What ngspice answers while it is started. */
  datatype NgSpiceStart = NgSpiceStart(
    initStatus: int,       // ngSpice_Init
    initSyncStatus: int,   // ngSpice_Init_Sync
    running: bool)         // ngSpice_running() after bg_run

  /** The calls the ngspice start-up makes, and whether it succeeded. */
  function StartNgSpice(netlistPath: string, ng: NgSpiceStart): (r: (bool, seq<HostCall>))
    ensures r.0 <==> ng.initStatus == 0 && ng.initSyncStatus == 0 && ng.running
    ensures r.0 ==> r.1 == [SpiceCommand(netlistPath), SpiceCommand("bg_run")]
    ensures !r.0 ==> |r.1| > 0 && r.1[|r.1| - 1] == Finish
  {
    if ng.initStatus != 0 then (false, [Finish])
    else if ng.initSyncStatus != 0 then (false, [SpiceCommand(netlistPath), Finish])
    else if !ng.running then (false, [SpiceCommand(netlistPath), SpiceCommand("bg_run"), Finish])
    else (true, [SpiceCommand(netlistPath), SpiceCommand("bg_run")])
  }

  /**
   * The logic-simulator side of the bridge: the globals `g_config`,
   * `g_interface` and `g_time_barrier` and the two statics.
   */
  class Simulator {
    const barrier: Barrier
    var bridge: Bridge.Interface
    var config: Config.Settings
    var addNgspiceTimestep: bool
    var nextTimeCbHandle: Option<Handle>

    ghost predicate Valid()
      reads this, barrier, bridge
    {
      barrier.Valid() && bridge.Valid()
    }

    constructor (barrier: Barrier, bridge: Bridge.Interface)
      requires barrier.Valid() && bridge.Valid()
      ensures Valid()
      ensures this.barrier == barrier && this.bridge == bridge && config == bridge.config
      ensures !addNgspiceTimestep && nextTimeCbHandle == None
    {
      this.barrier := barrier;
      this.bridge := bridge;
      config := bridge.config;
      addNgspiceTimestep := false;
      nextTimeCbHandle := None;
    }

    function Statics(): Arming
      reads this
    {
      Arming(addNgspiceTimestep, nextTimeCbHandle)
    }

    /** `vpi_port_change_cb`: cancels the pending wake-up and arms one zero-delay time step. */
    method PortChangeCb() returns (calls: seq<HostCall>)
      modifies this
      ensures (Statics(), calls) == PortChange(old(Statics()))
      ensures bridge == old(bridge) && config == old(config)
    {
      calls := [];
      if nextTimeCbHandle.Some? {
        calls := calls + [RemoveCallback(nextTimeCbHandle.value)];
        nextTimeCbHandle := None;
      }
      if !addNgspiceTimestep {
        calls := calls + [RegisterTimestep(ZeroDelay)];
        addNgspiceTimestep := true;
      }
      assert calls == PortChange(old(Statics())).1;
    }

    /**
     * `vpi_timestep_cb` up to its wait: when armed, sets the SPICE slot to
     * the current time without waiting and requests a redo; then publishes
     * `current + 1` (unsigned) as the HDL time.  `hdlWait` says where that
     * wait stands; SPICE callbacks run until it is released.
     */
    method TimestepPublish(currentTime: U64) returns (hdlWait: Wait)
      requires Valid()
      modifies barrier, barrier.times
      ensures Valid()
      ensures barrier.isShutdown == old(barrier.isShutdown)
      ensures barrier.nextSpiceStepTime == old(barrier.nextSpiceStepTime)
      ensures barrier.needsRedo == (old(barrier.needsRedo) || addNgspiceTimestep)
      ensures var spice := if addNgspiceTimestep then currentTime else old(barrier.times[SpiceEngineId]);
        var hdl := if barrier.isShutdown then old(barrier.times[HdlEngineId]) else AddU64(currentTime, 1);
        && barrier.times[..] == [hdl, spice]
        && hdlWait == if barrier.isShutdown then ShutDown
                      else if spice >= AddU64(currentTime, 1) then Synchronized else Blocked
    {
      if addNgspiceTimestep {
        var _ := barrier.UpdateNoWait(SpiceEngineId, currentTime);
        barrier.SetNeedsRedo(true);
      }
      var r := barrier.Update(HdlEngineId, AddU64(currentTime, 1));
      hdlWait := r.value;
    }

    /**
     * `vpi_timestep_cb` after its wait: when armed, polls every input
     * (`order` is the map's iteration order, `vpi` answers for each handle);
     * disarms; drains the changed outputs into `vpi_put_value` calls, one per
     * changed output in the order `written` lists their keys; and registers
     * itself again after `TimestepDelay(hint, current)`, written over both
     * words of the `s_vpi_time`, keeping `newHandle` as the pending wake-up.
     */
    method TimestepResume(currentTime: U64, order: seq<string>, vpi: Handle -> SignalReading, newHandle: Handle)
      returns (writes: seq<PutValue>, ghost written: seq<string>, delay: U64, calls: seq<HostCall>)
      requires Valid()
      requires IterationOrder(order, bridge.inputs.Keys)
      modifies this, bridge
      ensures Valid()
      ensures bridge == old(bridge) && config == old(config)
      ensures !addNgspiceTimestep && nextTimeCbHandle == Some(newHandle)
      ensures bridge.inputs == if old(addNgspiceTimestep)
        then UpdateAll(old(bridge.inputs), order, vpi, bridge.config.fullPathDiscovery, bridge.config.vccVoltage, bridge.config.minAnalogChangeThreshold)
        else old(bridge.inputs)
      ensures bridge.outputs == Drained(old(bridge.outputs))
      ensures DrainWrites(old(bridge.outputs), writes, written, bridge.config.logicThresholdLow, bridge.config.logicThresholdHigh)
      ensures |writes| == |ChangedKeys(old(bridge.outputs))|
      ensures delay == TimestepDelay(barrier.nextSpiceStepTime, currentTime) && delay >= 1
      ensures calls == [RegisterTimestep(DelayTime(delay))]
    {
      ghost var start := bridge.Snapshot();
      if addNgspiceTimestep {
        bridge.UpdateAllDigitalInputs(order, vpi);
      }
      addNgspiceTimestep := false;
      writes, written := bridge.SetDigitalOutput();
      DrainCount(old(bridge.outputs), writes, written, bridge.config.logicThresholdLow, bridge.config.logicThresholdHigh);
      ShapeKeepsOk(start, bridge.Snapshot());
      var next := barrier.GetNextSpiceStepTime();
      delay := TimestepDelay(next, currentTime);
      calls := [RegisterTimestep(DelayTime(delay))];
      nextTimeCbHandle := Some(newHandle);
    }

    /**
     * The instance loop of `vpi_start_of_sim_cb`: every instance that can be
     * found has its ports scanned, inout ports skipped, the others handed to
     * `add_port`, and each input port's net watched for value changes.
     */
    method RegisterInstances(lookup: InstanceLookup) returns (calls: seq<HostCall>)
      requires bridge.Valid()
      modifies bridge
      ensures bridge.Valid()
      ensures bridge.Snapshot() == ScanInstances(old(bridge.Snapshot()), bridge.config.fullPathDiscovery, config.hdlInstanceNames, lookup)
      ensures calls == InstanceCalls(config.hdlInstanceNames, lookup)
    {
      ghost var start := bridge.Snapshot();
      calls := [];
      var names := config.hdlInstanceNames;
      var i := 0;
      while i < |names|
        invariant 0 <= i <= |names|
        invariant bridge.Valid()
        invariant bridge.Snapshot() == ScanInstances(start, bridge.config.fullPathDiscovery, names[..i], lookup)
        invariant calls == InstanceCalls(names[..i], lookup)
      {
        ScanInstancesStep(start, bridge.config.fullPathDiscovery, names, i, lookup);
        var ports := lookup(names[i]);
        if ports.Some? {
          var portCalls := RegisterPorts(ports.value);
          calls := calls + portCalls;
        }
        i := i + 1;
      }
      assert names[..|names|] == names;
    }

    /** The loop over the ports of one found instance. */
    method RegisterPorts(ports: seq<PortQuery>) returns (calls: seq<HostCall>)
      requires bridge.Valid()
      modifies bridge
      ensures bridge.Valid()
      ensures bridge.Snapshot() == ScanPorts(old(bridge.Snapshot()), bridge.config.fullPathDiscovery, ports)
      ensures calls == ValueChangeCalls(ports)
    {
      ghost var before := bridge.Snapshot();
      calls := [];
      var j := 0;
      while j < |ports|
        invariant 0 <= j <= |ports|
        invariant bridge.Valid()
        invariant bridge.Snapshot() == ScanPorts(before, bridge.config.fullPathDiscovery, ports[..j])
        invariant calls == ValueChangeCalls(ports[..j])
      {
        ScanPortsStep(before, bridge.config.fullPathDiscovery, ports, j);
        var q := ports[j];
        if q.direction != VpiInout {
          bridge.AddPort(q);
          if q.direction == VpiInput {
            calls := calls + [RegisterValueChange(q.net)];
          }
        }
        j := j + 1;
      }
      assert ports[..|ports|] == ports;
    }

    /**
     * `vpi_start_of_sim_cb` once the configuration is loaded (`loaded`) and
     * the simulator's precision read (`timePrecision`): registers the ports,
     * starts ngspice, publishes HDL time 1 (`hdlWait` says where that wait
     * stands) and schedules the first time step.  A configuration that
     * failed to load returns 1 before anything else happens.  The interface
     * keeps a pointer to `g_config`, so it sees the settings with the
     * precision filled in; nothing it does reads the precision.
     */
    method StartOfSim(loaded: Config.LoadResult, timePrecision: nat, lookup: InstanceLookup,
                      ng: NgSpiceStart, firstHandle: Handle)
      returns (code: int, calls: seq<HostCall>, hdlWait: Option<Wait>)
      requires Valid()
      modifies this, barrier.times
      ensures Valid()
      ensures addNgspiceTimestep == old(addNgspiceTimestep)
      ensures !loaded.Loaded? ==>
        && code == 1 && calls == [] && hdlWait == None
        && bridge == old(bridge) && config == old(config)
        && nextTimeCbHandle == old(nextTimeCbHandle)
        && barrier.times[..] == old(barrier.times[..])
      ensures loaded.Loaded? ==>
        var s := loaded.settings;
        var t := ScanInstances(Tables(map[], map[]), s.fullPathDiscovery, s.hdlInstanceNames, lookup);
        var (started, startCalls) := StartNgSpice(s.spiceNetlistPath, ng);
        && fresh(bridge) && bridge.config == config && bridge.Snapshot() == t
        && config == s.(timePrecision := timePrecision)
        && calls == InstanceCalls(s.hdlInstanceNames, lookup) + startCalls
             + (if started then [RegisterTimestep(ZeroDelay)] else [])
        && code == (if started then 0 else 1)
        && (started ==>
             && nextTimeCbHandle == Some(firstHandle)
             && barrier.times[..] == (if barrier.isShutdown then old(barrier.times[..])
                                      else old(barrier.times[..])[HdlEngineId := 1])
             && hdlWait == Some(barrier.WaitState(HdlEngineId)))
        && (!started ==>
             && hdlWait == None
             && nextTimeCbHandle == old(nextTimeCbHandle)
             && barrier.times[..] == old(barrier.times[..]))
    {
      if !loaded.Loaded? {
        return 1, [], None;
      }
      config := loaded.settings.(timePrecision := timePrecision);
      bridge := new Bridge.Interface(config);
      calls := RegisterInstances(lookup);
      hdlWait := None;
      if ng.initStatus != 0 {
        return 1, calls + [Finish], None;
      }
      calls := calls + [SpiceCommand(config.spiceNetlistPath)];
      if ng.initSyncStatus != 0 {
        return 1, calls + [Finish], None;
      }
      calls := calls + [SpiceCommand("bg_run")];
      if !ng.running {
        return 1, calls + [Finish], None;
      }
      var r := barrier.Update(HdlEngineId, 1);
      hdlWait := Some(r.value);
      calls := calls + [RegisterTimestep(ZeroDelay)];
      nextTimeCbHandle := Some(firstHandle);
      code := 0;
    }

    /** `vpi_end_of_sim_cb`: shuts the barrier, halts ngspice and writes the raw file. */
    method EndOfSim() returns (calls: seq<HostCall>)
      requires Valid()
      modifies barrier
      ensures Valid()
      ensures barrier.isShutdown
      ensures barrier.times[..] == old(barrier.times[..])
      ensures barrier.needsRedo == old(barrier.needsRedo) && barrier.nextSpiceStepTime == old(barrier.nextSpiceStepTime)
      ensures calls == [SpiceCommand("bg_halt"), SpiceCommand("write dump.raw")]
    {
      barrier.Shutdown();
      calls := [SpiceCommand("bg_halt"), SpiceCommand("write dump.raw")];
    }
  }

  /** Draining writes one value per changed output. */
  lemma DrainCount(outputs: map<string, PortInfo>, writes: seq<PutValue>, written: seq<string>, low: real, high: real)
    requires DrainWrites(outputs, writes, written, low, high)
    ensures |writes| == |written| == |ChangedKeys(outputs)|
  {
    DistinctCardinality(written);
    assert (set i | 0 <= i < |written| :: written[i]) == ChangedKeys(outputs);
  }
}
