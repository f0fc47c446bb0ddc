/**
 * `AnalogDigitalInterface`: the port registry and value converter shared by
 * the VPI side and the ngspice side.  Each method is proved against the
 * function of module Ports that states its effect on the two maps.
 */
module Bridge {
  import opened Options
  import opened Vpi
  import opened Naming
  import opened Converter
  import opened Ports
  import Config

  class Interface {
    const config: Config.Settings
    var inputs: map<string, PortInfo>
    var outputs: map<string, PortInfo>

    ghost predicate Valid()
      reads this
    {
      TablesOk(Tables(inputs, outputs))
    }

    function Snapshot(): Tables
      reads this
    {
      Tables(inputs, outputs)
    }

    constructor (config: Config.Settings)
      ensures this.config == config
      ensures inputs == map[] && outputs == map[]
      ensures Valid()
    {
      this.config := config;
      inputs := map[];
      outputs := map[];
    }

    /** `emplace` into the bucket of the entry's direction. */
    method Emplace(info: PortInfo)
      modifies this
      ensures Snapshot() == File(old(Snapshot()), info)
    {
      if info.direction == VpiInput {
        if info.name !in inputs {
          inputs := inputs[info.name := info];
        }
      } else if info.direction == VpiOutput {
        if info.name !in outputs {
          outputs := outputs[info.name := info];
        }
      }
    }

    /** `add_port`: registers one port, one entry per bit of a vector. */
    method AddPort(q: PortQuery)
      requires Valid()
      modifies this
      ensures Valid()
      ensures Snapshot() == Ports.AddPort(old(Snapshot()), config.fullPathDiscovery, q)
    {
      ghost var start := Snapshot();
      AddPortKeepsOk(start, config.fullPathDiscovery, q);
      if q.modulePath.None? {
        return;
      }
      var modulePath := q.modulePath.value;
      if q.net.None? {
        return;
      }
      var pname := if config.fullPathDiscovery then modulePath + "." + q.name else q.name;
      pname := Lower(pname);
      assert pname == PortKey(config.fullPathDiscovery, modulePath, q.name);
      if !SupportedNetType(q.netType) {
        return;
      }
      if q.size > 1 {
        var i := 0;
        while i < q.size
          invariant 0 <= i <= q.size
          invariant Snapshot() == FileBits(start, pname, q, i)
        {
          var bit := BitHandle(q, i);
          if bit.Some? {
            Emplace(BitEntry(pname, q, i, bit.value));
          }
          i := i + 1;
        }
      } else {
        Emplace(ScalarEntry(pname, q, q.net.value));
      }
    }

    /** `set_analog_input`: the stored value of the input, or `prior` untouched when there is no such input. */
    method SetAnalogInput(name: string, prior: real) returns (value: real)
      ensures name in inputs ==> value == inputs[name].value
      ensures name !in inputs ==> value == prior
    {
      if name in inputs {
        value := inputs[name].value;
      } else {
        value := prior;
      }
    }

    /** `analog_outputs_update`: debounces each output against the last sample of its `v(name)` vector. */
    method AnalogOutputsUpdate(vectors: map<string, seq<real>>)
      modifies this
      ensures inputs == old(inputs)
      ensures outputs == RefreshOutputs(old(outputs), vectors, config.minAnalogChangeThreshold)
    {
      ghost var before := outputs;
      var threshold := config.minAnalogChangeThreshold;
      var todo := outputs.Keys;
      while todo != {}
        invariant todo <= before.Keys && outputs.Keys == before.Keys
        invariant forall k :: k in before && k in todo ==> outputs[k] == before[k]
        invariant forall k :: k in before && k !in todo ==>
          outputs[k] == Refresh(before[k], LatestSample(vectors, k), threshold)
        invariant inputs == old(inputs)
        decreases todo
      {
        var name :| name in todo;
        var sample := LatestSample(vectors, name);
        if sample.Some? {
          var newValue := sample.value;
          var oldValue := outputs[name].value;
          if Abs(oldValue - newValue) > threshold {
            outputs := outputs[name := outputs[name].(value := newValue, changed := true)];
          }
        }
        todo := todo - {name};
      }
      assert outputs == RefreshOutputs(before, vectors, threshold);
    }

    /**
     * `set_digital_output`: writes every changed output exactly once, as a
     * real for a real variable and as a logic level otherwise, and clears
     * the flags.
     */
    method SetDigitalOutput() returns (writes: seq<PutValue>, ghost written: seq<string>)
      modifies this
      ensures inputs == old(inputs)
      ensures outputs == Drained(old(outputs))
      ensures |writes| == |written|
      ensures forall i :: 0 <= i < |written| ==> written[i] in old(outputs) && old(outputs)[written[i]].changed
      ensures forall i :: 0 <= i < |written| ==>
        writes[i] == OutputWrite(old(outputs)[written[i]], config.logicThresholdLow, config.logicThresholdHigh)
      ensures forall k :: k in old(outputs) && old(outputs)[k].changed ==> k in written
      ensures forall i, j :: 0 <= i < j < |written| ==> written[i] != written[j]
      ensures DrainWrites(old(outputs), writes, written, config.logicThresholdLow, config.logicThresholdHigh)
    {
      ghost var before := outputs;
      writes, written := [], [];
      var todo := outputs.Keys;
      while todo != {}
        invariant todo <= before.Keys && outputs.Keys == before.Keys
        invariant forall k :: k in before && k in todo ==> outputs[k] == before[k]
        invariant forall k :: k in before && k !in todo ==> outputs[k] == before[k].(changed := false)
        invariant |writes| == |written|
        invariant forall i :: 0 <= i < |written| ==>
          && written[i] in before && written[i] !in todo && before[written[i]].changed
          && writes[i] == OutputWrite(before[written[i]], config.logicThresholdLow, config.logicThresholdHigh)
        invariant forall k :: k in before && k !in todo && before[k].changed ==> k in written
        invariant forall i, j :: 0 <= i < j < |written| ==> written[i] != written[j]
        invariant inputs == old(inputs)
        decreases todo
      {
        var name :| name in todo;
        var info := outputs[name];
        if info.changed {
          outputs := outputs[name := info.(changed := false)];
          var put;
          if info.netType == VpiRealVar {
            put := PutReal(info.handle, info.value);
          } else {
            put := PutScalar(info.handle, AnalogToDigital(config.logicThresholdLow, config.logicThresholdHigh, info.value));
          }
          writes, written := writes + [put], written + [name];
        }
        todo := todo - {name};
      }
      assert outputs == Drained(before);
    }

    /** The debounce step of `digital_input_update` for the input under `key`, if there is one. */
    method DebounceInput(key: string, sample: real)
      modifies this
      ensures outputs == old(outputs)
      ensures inputs == DebounceAt(old(inputs), key, sample, config.minAnalogChangeThreshold)
    {
      if key in inputs {
        var oldValue := inputs[key].value;
        if Abs(oldValue - sample) > config.minAnalogChangeThreshold {
          inputs := inputs[key := inputs[key].(value := sample, changed := true)];
        }
      }
    }

    /** `digital_input_update`: pulls one logic-side signal into the inputs through the debounce rule. */
    method DigitalInputUpdate(sig: SignalReading)
      modifies this
      ensures outputs == old(outputs)
      ensures inputs == DigitalInput(old(inputs), sig, config.fullPathDiscovery, config.vccVoltage, config.minAnalogChangeThreshold)
    {
      var name := SignalKey(config.fullPathDiscovery, sig);
      if sig.netType == VpiRealVar {
        DebounceInput(name, sig.realValue);
      } else if sig.netType == VpiNetBit {
        DebounceInput(name, DigitalToAnalog(config.vccVoltage, sig.intValue));
      } else {
        UpdateInputBits(sig, name);
      }
    }

    /** The loop of `digital_input_update` over the bits of a signal that is neither a real nor a net bit. */
    method UpdateInputBits(sig: SignalReading, name: string)
      modifies this
      ensures outputs == old(outputs)
      ensures inputs == UpdateBits(old(inputs), sig, name, config.vccVoltage, config.minAnalogChangeThreshold,
                                   if sig.size > 0 then sig.size else 0)
    {
      ghost var before := inputs;
      var i := 0;
      while i < sig.size
        invariant 0 <= i <= if sig.size > 0 then sig.size else 0
        invariant outputs == old(outputs)
        invariant inputs == UpdateBits(before, sig, name, config.vccVoltage, config.minAnalogChangeThreshold, i)
      {
        DebounceBit(sig, name, i);
        i := i + 1;
      }
      assert i == if sig.size > 0 then sig.size else 0;
    }

    /** One pass of that loop: bit `i`, when VPI has it, through the debounce rule. */
    method DebounceBit(sig: SignalReading, name: string, i: int)
      modifies this
      ensures outputs == old(outputs)
      ensures inputs == BitStep(old(inputs), sig, name, config.vccVoltage, config.minAnalogChangeThreshold, i)
    {
      var bit := BitOf(sig, i);
      if bit.Some? {
        var indexedName := name;
        if sig.size > 1 {
          indexedName := IndexedName(name, bit.value.index);
        }
        assert indexedName == BitKey(name, sig.size, bit.value);
        DebounceInput(indexedName, DigitalToAnalog(config.vccVoltage, bit.value.level));
      }
    }

    /**
     * `update_all_digital_inputs`: polls the signal behind every input.
     * `order` is the iteration order of the map; `vpi` answers for each handle.
     */
    method UpdateAllDigitalInputs(order: seq<string>, vpi: Handle -> SignalReading)
      requires IterationOrder(order, inputs.Keys)
      modifies this
      ensures outputs == old(outputs)
      ensures inputs == UpdateAll(old(inputs), order, vpi, config.fullPathDiscovery, config.vccVoltage, config.minAnalogChangeThreshold)
    {
      ghost var before := inputs;
      var i := 0;
      while i < |order|
        invariant 0 <= i <= |order|
        invariant outputs == old(outputs)
        invariant inputs == UpdateAll(before, order[..i], vpi, config.fullPathDiscovery, config.vccVoltage, config.minAnalogChangeThreshold)
      {
        PollInput(order[i], vpi);
        UpdateAllStep(before, order, i, vpi, config.fullPathDiscovery, config.vccVoltage, config.minAnalogChangeThreshold);
        i := i + 1;
      }
      assert order[..|order|] == order;
    }

    /** One visit of `update_all_digital_inputs`: the signal behind the input under `name` is pulled in. */
    method PollInput(name: string, vpi: Handle -> SignalReading)
      modifies this
      ensures outputs == old(outputs)
      ensures inputs == PollStep(old(inputs), name, vpi, config.fullPathDiscovery, config.vccVoltage, config.minAnalogChangeThreshold)
    {
      if name in inputs {
        DigitalInputUpdate(vpi(inputs[name].handle));
      }
    }

    /** `get_analog_input_names`: every input key once, in map order. */
    method GetAnalogInputNames() returns (names: seq<string>)
      ensures forall k :: k in names <==> k in inputs
      ensures |names| == |inputs|
      ensures forall i, j :: 0 <= i < j < |names| ==> names[i] != names[j]
    {
      names := [];
      var todo := inputs.Keys;
      while todo != {}
        invariant todo <= inputs.Keys
        invariant forall k :: k in names <==> k in inputs && k !in todo
        invariant |names| + |todo| == |inputs|
        invariant forall i, j :: 0 <= i < j < |names| ==> names[i] != names[j]
        decreases todo
      {
        var name :| name in todo;
        names := names + [name];
        todo := todo - {name};
      }
    }
  }
}
