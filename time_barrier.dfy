/**
 * The two-party virtual-time barrier (TimeBarrier.h).  The logic simulator
 * (HDL, engine 0) and ngspice (SPICE, engine 1) each publish their virtual
 * time into their own slot; `Update` then waits until the other slot has
 * caught up or the barrier is shut down.  Beside the slots the barrier holds
 * the one-way shutdown flag, the redo request and the hint of where the
 * next SPICE step ends.
 *
 * The waiting itself (mutex, condition variable, the two threads) is not
 * modelled: `Update` publishes and reports where the wait stands.
 */
module TimeBarrier {
  import opened Ticks

  const HdlEngineId: int := 0
  const SpiceEngineId: int := 1

  /** The condition `validate_engine_id` enforces. */
  predicate ValidEngineId(id: int) {
    id == HdlEngineId || id == SpiceEngineId
  }

  /** A barrier call's result, or the `std::invalid_argument` thrown for a bad engine id. */
  datatype Checked<T> = Value(value: T) | InvalidEngineId

  /**
   * Where the wait inside `update` stands: `Synchronized` — it returns true;
   * `ShutDown` — it returns false; `Blocked` — it is still waiting for the
   * other engine to publish a time at least as late, or for shutdown.
   */
  datatype Wait = Synchronized | ShutDown | Blocked

  class Barrier {
    /** `times_`: the last time each engine published, indexed by engine id. */
    const times: array<U64>
    var isShutdown: bool
    var needsRedo: bool
    var nextSpiceStepTime: U64

    ghost predicate Valid()
      reads this
    {
      times.Length == 2
    }

    /** Both slots at 0, not shut down, no redo, hint 0. */
    constructor ()
      ensures Valid() && fresh(times)
      ensures times[..] == [0, 0]
      ensures !isShutdown && !needsRedo && nextSpiceStepTime == 0
    {
      times := new U64[2](_ => 0);
      isShutdown := false;
      needsRedo := false;
      nextSpiceStepTime := 0;
    }

    /**
     * The state of the wait of engine `engineId` (the predicate of `cv_.wait`
     * and the value `update` returns once it holds).
     */
    function WaitState(engineId: int): (w: Wait)
      requires Valid() && ValidEngineId(engineId)
      reads this, times
      ensures w == ShutDown <==> isShutdown
      ensures w == Synchronized <==> !isShutdown && times[1 - engineId] >= times[engineId]
    {
      if isShutdown then ShutDown
      else if times[1 - engineId] >= times[engineId] then Synchronized
      else Blocked
    }

    /**
     * `update`: rejects a bad engine id before touching anything, returns
     * false at once on a shut-down barrier, otherwise writes this engine's
     * slot only and reports the wait.
     */
    method Update(engineId: int, currentTime: U64) returns (r: Checked<Wait>)
      requires Valid()
      modifies times
      ensures Valid()
      ensures !ValidEngineId(engineId) ==> r == InvalidEngineId && times[..] == old(times[..])
      ensures ValidEngineId(engineId) && old(isShutdown) ==>
        r == Value(ShutDown) && times[..] == old(times[..])
      ensures ValidEngineId(engineId) && !old(isShutdown) ==>
        && times[..] == old(times[..])[engineId := currentTime]
        && r == Value(if old(times[1 - engineId]) >= currentTime then Synchronized else Blocked)
        && r == Value(WaitState(engineId))
    {
      if !ValidEngineId(engineId) {
        return InvalidEngineId;
      }
      if isShutdown {
        return Value(ShutDown);
      }
      times[engineId] := currentTime;
      r := Value(WaitState(engineId));
    }

    /** `update_no_wait`: writes this engine's slot, even after shutdown. */
    method UpdateNoWait(engineId: int, currentTime: U64) returns (r: Checked<()>)
      requires Valid()
      modifies times
      ensures Valid()
      ensures !ValidEngineId(engineId) ==> r == InvalidEngineId && times[..] == old(times[..])
      ensures ValidEngineId(engineId) ==>
        r == Value(()) && times[..] == old(times[..])[engineId := currentTime]
    {
      if !ValidEngineId(engineId) {
        return InvalidEngineId;
      }
      times[engineId] := currentTime;
      r := Value(());
    }

    /** `get_time`. */
    method GetTime(engineId: int) returns (r: Checked<U64>)
      requires Valid()
      ensures ValidEngineId(engineId) <==> r.Value?
      ensures ValidEngineId(engineId) ==> r.value == times[engineId]
    {
      if !ValidEngineId(engineId) {
        return InvalidEngineId;
      }
      r := Value(times[engineId]);
    }

    /** `shutdown`: sets the flag, changes nothing else; calling it again changes nothing. */
    method Shutdown()
      requires Valid()
      modifies this
      ensures Valid()
      ensures isShutdown
      ensures needsRedo == old(needsRedo) && nextSpiceStepTime == old(nextSpiceStepTime)
    {
      isShutdown := true;
    }

    method IsShutdown() returns (b: bool)
      ensures b == isShutdown
    {
      b := isShutdown;
    }

    /** `set_needs_redo`: the flag only; shutdown is never cleared. */
    method SetNeedsRedo(value: bool)
      requires Valid()
      modifies this
      ensures Valid()
      ensures needsRedo == value
      ensures isShutdown == old(isShutdown) && nextSpiceStepTime == old(nextSpiceStepTime)
    {
      needsRedo := value;
    }

    method NeedsRedo() returns (b: bool)
      ensures b == needsRedo
    {
      b := needsRedo;
    }

    /** `set_next_spice_step_time`: the hint only; shutdown is never cleared. */
    method SetNextSpiceStepTime(time: U64)
      requires Valid()
      modifies this
      ensures Valid()
      ensures nextSpiceStepTime == time
      ensures isShutdown == old(isShutdown) && needsRedo == old(needsRedo)
    {
      nextSpiceStepTime := time;
    }

    method GetNextSpiceStepTime() returns (t: U64)
      ensures t == nextSpiceStepTime
    {
      t := nextSpiceStepTime;
    }
  }

  /**
   * Once shut down, the barrier releases both engines with `false`, whatever
   * times they publish, and neither publication reaches a slot.
   */
  method ShutdownReleasesBothEngines(hdlTime: U64, spiceTime: U64) returns (hdl: Checked<Wait>, spice: Checked<Wait>)
    ensures hdl == Value(ShutDown) && spice == Value(ShutDown)
  {
    var b := new Barrier();
    b.Shutdown();
    b.Shutdown();
    hdl := b.Update(HdlEngineId, hdlTime);
    spice := b.Update(SpiceEngineId, spiceTime);
    assert b.times[..] == [0, 0];
  }

  /**
   * The rendezvous: the engine that publishes the later time is blocked, and
   * the other engine's publication of a later time releases it; a bad engine
   * id is refused.
   */
  method RendezvousScenario() returns (hdl: Checked<Wait>, spice: Checked<Wait>, hdlAfter: Wait, bad: Checked<Wait>)
    ensures hdl == Value(Blocked) && spice == Value(Blocked)
    ensures hdlAfter == Synchronized && bad == InvalidEngineId
  {
    var b := new Barrier();
    hdl := b.Update(HdlEngineId, 10);
    spice := b.Update(SpiceEngineId, 12);
    hdlAfter := b.WaitState(HdlEngineId);
    bad := b.Update(2, 20);
  }
}
