/**
 * The parts of the Verilog Procedural Interface (IEEE 1364, vpi_user.h) the
 * bridge depends on: the integer codes it compares against, opaque object
 * handles, and the calls it makes into the simulators, recorded as traces.
 */
module Vpi {
  import opened Ticks
  import opened Options

  /** An opaque, non-null `vpiHandle`. */
  type Handle = nat

  // Port directions (vpiDirection)
  const VpiInput: int := 1
  const VpiOutput: int := 2
  const VpiInout: int := 3

  // Object types (vpiType)
  const VpiNet: int := 36
  const VpiNetBit: int := 37
  const VpiRealVar: int := 47
  const VpiReg: int := 48

  // Scalar logic values (vpiScalarVal)
  const Vpi0: int := 0
  const Vpi1: int := 1
  const VpiZ: int := 2
  const VpiX: int := 3

  const TWO_TO_32: int := 0x1_0000_0000

  /** An `s_vpi_time` of type `vpiSimTime`: two unsigned 32-bit words. */
  datatype SimTime = SimTime(high: nat, low: nat)

  /** The ticks an `s_vpi_time` stands for: `high * 2^32 + low`. */
  function SimTicks(t: SimTime): nat {
    t.high * TWO_TO_32 + t.low
  }

  /** The zero delay both callbacks use to schedule a time step at the current time. */
  const ZeroDelay: SimTime := SimTime(0, 0)

  /** One `vpi_put_value(handle, &val, nullptr, vpiNoDelay)`. */
  datatype PutValue =
    | PutReal(handle: Handle, realValue: real)
    | PutScalar(handle: Handle, scalar: int)

  /** A call the bridge makes into the logic simulator or into ngspice. */
  datatype HostCall =
    | RemoveCallback(callback: Handle)          // vpi_remove_cb
    | RegisterTimestep(delay: SimTime)          // vpi_register_cb(cbAfterDelay, vpi_timestep_cb)
    | RegisterValueChange(obj: Option<Handle>)  // vpi_register_cb(cbValueChange, vpi_port_change_cb)
    | Put(put: PutValue)                        // vpi_put_value
    | SpiceCommand(command: string)             // ngSpice_Command
    | Finish                                    // vpi_control(vpiFinish, 1)
}
