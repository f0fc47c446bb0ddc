/**
 * The two callbacks ngspice makes into the bridge (NgSpiceCallbacks.cpp).
 * `ng_sync` runs around every SPICE time step and decides whether the step
 * must be redone so that it ends exactly on the time the logic simulator
 * asked for; `ng_srcdata` publishes the SPICE time at the barrier and hands
 * ngspice the value of an external source.
 *
 * Times are in ticks (`Config.Settings.timePrecision` ticks per second).  The
 * conversion of ngspice's double-precision seconds into ticks (`llround`) is
 * not modelled: the callbacks take the tick values as inputs.
 */
module NgSpice {
  import opened Options
  import opened Ticks
  import opened TimeBarrier
  import opened Ports
  import Bridge

  /** The branch `ng_sync` takes. */
  datatype SyncAction =
    | SolverRedo              // ngspice is itself redoing the step
    | Ahead                   // the committed SPICE time lies beyond the end of this step
    | RedoSkipped             // a redo is pending but the step ends before the committed time
    | Redo(newDelta: int)     // shrink the step to `newDelta` and ask ngspice to redo it
    | EndStep(hint: U64)      // end of an accepted step: publish the hint, refresh the outputs
    | Continue                // nothing to do

  function Max(a: int, b: int): int {
    if a >= b then a else b
  }

  /**
   * The decision of `ng_sync` for a step at `time` of length `delta`, the
   * previous step having been `oldDelta` long; `committed` is the SPICE slot
   * of the barrier and `needsRedo` its redo flag.  The step end
   * `time + delta` is an unsigned 64-bit sum.
   */
  function Sync(time: U64, delta: U64, oldDelta: int, redostep: int, location: int, committed: U64, needsRedo: bool): (a: SyncAction)
    ensures redostep != 0 <==> a == SolverRedo
    ensures a == Ahead <==> redostep == 0 && committed > AddU64(time, delta)
    ensures a.Redo? <==>
      redostep == 0 && committed <= AddU64(time, delta) && location == 1 && needsRedo && committed <= time
    ensures a == RedoSkipped <==>
      redostep == 0 && committed <= AddU64(time, delta) && location == 1 && needsRedo && time < committed
    ensures a.EndStep? <==>
      redostep == 0 && committed <= AddU64(time, delta) && location == 0
    ensures a.EndStep? ==> a.hint == AddU64(time, delta)
    ensures a.Redo? ==> a.newDelta >= 1
  {
    if redostep != 0 then SolverRedo
    else if committed > AddU64(time, delta) then Ahead
    else if location == 1 && needsRedo then
      if time < committed then RedoSkipped
      else Redo(Max(oldDelta - (time - committed), 1))
    else if location == 0 then EndStep(AddU64(time, delta))
    else Continue
  }

  /** The value `ng_sync` returns: 1 asks ngspice to redo the step. */
  function ReturnCode(a: SyncAction): int {
    if a.Redo? then 1 else 0
  }

  /**
   * A redo lands the step on the committed time: the step started at
   * `time - oldDelta`, and the new length reaches `committed` from there,
   * unless that would be shorter than one tick.  It never lengthens a step.
   */
  lemma RedoLandsOnCommittedTime(time: U64, delta: U64, oldDelta: int, location: int, committed: U64)
    requires Sync(time, delta, oldDelta, 0, location, committed, true).Redo?
    ensures var d := Sync(time, delta, oldDelta, 0, location, committed, true).newDelta;
      && (oldDelta - (time - committed) >= 1 ==> (time - oldDelta) + d == committed)
      && (oldDelta - (time - committed) < 1 ==> d == 1)
      && (oldDelta >= 1 ==> d <= oldDelta)
  {
  }

  /** Only a pending redo can make `ng_sync` return 1. */
  lemma NoRedoWithoutRequest(time: U64, delta: U64, oldDelta: int, redostep: int, location: int, committed: U64)
    ensures ReturnCode(Sync(time, delta, oldDelta, redostep, location, committed, false)) == 0
  {
  }

  /**
   * The logic side committed SPICE time 100; a step ending at 150 after a
   * previous step of 80 ticks is redone with 30 ticks, landing on 100; after
   * a previous step of 40 ticks the redo is clamped to one tick.
   */
  lemma RedoScenario()
    ensures Sync(150, 20, 80, 0, 1, 100, true) == Redo(30)
    ensures Sync(150, 20, 40, 0, 1, 100, true) == Redo(1)
    ensures Sync(90, 20, 80, 0, 1, 100, true) == RedoSkipped
    ensures Sync(50, 20, 80, 0, 1, 100, true) == Ahead
  {
  }

  /**
   * `ng_sync` as a call: reads the barrier, and depending on the branch
   * clears the redo flag, or publishes the step-end hint and refreshes the
   * analog outputs from `vectors` (what `ngGet_Vec_Info` returns now).
   * `newDelta` is what is written through `delta_time`, if anything.
   */
  method NgSync(barrier: Barrier, bridge: Bridge.Interface, time: U64, delta: U64, oldDelta: int,
                redostep: int, location: int, vectors: map<string, seq<real>>)
    returns (code: int, newDelta: Option<int>)
    requires barrier.Valid()
    modifies barrier, bridge
    ensures barrier.Valid() && barrier.times[..] == old(barrier.times[..])
    ensures barrier.isShutdown == old(barrier.isShutdown)
    ensures var a := Sync(time, delta, oldDelta, redostep, location, old(barrier.times[SpiceEngineId]), old(barrier.needsRedo));
      && code == ReturnCode(a)
      && newDelta == (if a.Redo? then Some(a.newDelta) else None)
      && barrier.needsRedo == (old(barrier.needsRedo) && !a.Redo?)
      && barrier.nextSpiceStepTime == (if a.EndStep? then a.hint else old(barrier.nextSpiceStepTime))
      && bridge.inputs == old(bridge.inputs)
      && bridge.outputs == (if a.EndStep? then RefreshOutputs(old(bridge.outputs), vectors, bridge.config.minAnalogChangeThreshold)
                            else old(bridge.outputs))
  {
    newDelta := None;
    var committed := barrier.GetTime(SpiceEngineId);
    var spiceTime := committed.value;
    if redostep != 0 {
      return 0, None;
    }
    var stepEnd := AddU64(time, delta);
    if spiceTime > stepEnd {
      return 0, None;
    }
    var redo := barrier.NeedsRedo();
    if location == 1 && redo {
      if time < spiceTime {
        return 0, None;
      }
      newDelta := Some(Max(oldDelta - (time - spiceTime), 1));
      barrier.SetNeedsRedo(false);
      return 1, newDelta;
    }
    if location == 0 {
      barrier.SetNextSpiceStepTime(stepEnd);
      bridge.AnalogOutputsUpdate(vectors);
    }
    code := 0;
  }

  /** The port an external source stands for: its name without the first character. */
  function SourcePort(source: string): (r: Option<string>)
    ensures r.None? <==> source == []
    ensures r.Some? ==> [source[0]] + r.value == source
  {
    if |source| == 0 then None else Some(source[1..])
  }

  /** The source `v<port>` the netlist declares for a port leads back to that port. */
  lemma SourceOfPort(port: string)
    ensures SourcePort("v" + port) == Some(port)
  {
    assert ("v" + port)[1..] == port;
  }

  /**
   * The answer of `ng_srcdata`: the value written through `vp`, or the
   * `std::out_of_range` that `substr(1)` throws for an empty source name.
   */
  datatype SourceValue = Sourced(value: real) | EmptySourceName

  /**
   * `ng_srcdata` up to its wait: unless a redo is pending, publishes `time`
   * as the SPICE time; `wait` says where that wait stands.  While it is
   * `Blocked` the logic simulator runs its time step, which may poll the
   * digital inputs again before the answer is read.
   */
  method NgSrcDataPublish(barrier: Barrier, time: U64) returns (wait: Option<Wait>)
    requires barrier.Valid()
    modifies barrier.times
    ensures barrier.Valid()
    ensures old(barrier.needsRedo) ==> wait == None && barrier.times[..] == old(barrier.times[..])
    ensures !old(barrier.needsRedo) && old(barrier.isShutdown) ==>
      wait == Some(ShutDown) && barrier.times[..] == old(barrier.times[..])
    ensures !old(barrier.needsRedo) && !old(barrier.isShutdown) ==>
      && barrier.times[..] == old(barrier.times[..])[SpiceEngineId := time]
      && wait == Some(if old(barrier.times[HdlEngineId]) >= time then Synchronized else Blocked)
  {
    wait := None;
    var redo := barrier.NeedsRedo();
    if !redo {
      var r := barrier.Update(SpiceEngineId, time);
      wait := Some(r.value);
    }
  }

  /**
   * `ng_srcdata` after its wait: answers with the value the input the
   * source names holds now, or `prior` (the untouched `*vp`) when there is
   * none.
   */
  method NgSrcDataAnswer(bridge: Bridge.Interface, source: string, prior: real) returns (answer: SourceValue)
    ensures match SourcePort(source)
      case None => answer == EmptySourceName
      case Some(port) => answer == Sourced(if port in bridge.inputs then bridge.inputs[port].value else prior)
  {
    if |source| == 0 {
      return EmptySourceName;
    }
    var portName := source[1..];
    var value := bridge.SetAnalogInput(portName, prior);
    answer := Sourced(value);
  }
}
