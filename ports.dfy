/**
 * The port table of the bridge (AnalogDigitalInterface): the entry record,
 * what VPI reports about a port and a signal, and the state changes of
 * registration, debouncing and draining stated as functions of the two
 * maps.  The class in module Bridge performs them step by step.
 */
module Ports {
  import opened Options
  import opened Vpi
  import opened Naming
  import opened Converter

  /** `PortInfo`: one scalar endpoint. `bitIndex` is -1 for a scalar port. */
  datatype PortInfo = PortInfo(
    name: string,
    baseName: string,
    handle: Handle,
    direction: int,
    netType: int,
    size: int,
    isVector: bool,
    bitIndex: int,
    value: real,
    changed: bool)

  /** The two buckets: `analog_inputs_` (driven by the logic side) and `analog_outputs_` (driven by ngspice). */
  datatype Tables = Tables(inputs: map<string, PortInfo>, outputs: map<string, PortInfo>)

  /** What VPI answers when `add_port` asks about a port. */
  datatype PortQuery = PortQuery(
    name: string,                  // vpi_get_str(vpiName, port)
    modulePath: Option<string>,    // vpiFullName of vpi_handle(vpiParent, port); None: no parent
    net: Option<Handle>,           // vpi_handle_by_name(name, module); None: not found
    direction: int,                // vpi_get(vpiDirection, port)
    size: int,                     // vpi_get(vpiSize, port)
    netType: int,                  // vpi_get(vpiType, net)
    bits: seq<Option<Handle>>)     // vpi_handle_by_index(net, i); nullptr past the end

  function BitHandle(q: PortQuery, i: int): Option<Handle> {
    if 0 <= i < |q.bits| then q.bits[i] else None
  }

  predicate SupportedNetType(netType: int) {
    netType == VpiNet || netType == VpiReg || netType == VpiRealVar
  }

  // ---------------------------------------------------------------------------
  // Registration (add_port)

  /** The entry of a scalar port: value 0.0, changed, bit index -1, size 1. */
  function ScalarEntry(key: string, q: PortQuery, net: Handle): PortInfo {
    PortInfo(key, key, net, q.direction, q.netType, 1, false, -1, 0.0, true)
  }

  /** The entry of bit `i` of a vector port: keyed `key[i]`, value 0.0, changed. */
  function BitEntry(key: string, q: PortQuery, i: int, bit: Handle): PortInfo {
    PortInfo(IndexedName(key, i), key, bit, q.direction, q.netType, q.size, true, i, 0.0, true)
  }

  /** `emplace` into the bucket the direction selects; a key already present keeps its entry. */
  function File(t: Tables, info: PortInfo): (r: Tables)
    ensures Extends(t, r)
    ensures r.inputs.Keys == t.inputs.Keys + (if info.direction == VpiInput then {info.name} else {})
    ensures r.outputs.Keys == t.outputs.Keys + (if info.direction == VpiOutput then {info.name} else {})
    ensures info.direction != VpiInput ==> r.inputs == t.inputs
    ensures info.direction != VpiOutput ==> r.outputs == t.outputs
    ensures forall k :: k in r.inputs && k !in t.inputs ==> r.inputs[k] == info
    ensures forall k :: k in r.outputs && k !in t.outputs ==> r.outputs[k] == info
  {
    if info.direction == VpiInput then
      (if info.name in t.inputs then t else t.(inputs := t.inputs[info.name := info]))
    else if info.direction == VpiOutput then
      (if info.name in t.outputs then t else t.(outputs := t.outputs[info.name := info]))
    else t
  }

  /** Bits 0 .. n-1 of a vector port filed in order; a bit VPI has no handle for is skipped. */
  function FileBits(t: Tables, key: string, q: PortQuery, n: nat): Tables
    decreases n
  {
    if n == 0 then t
    else
      var before := FileBits(t, key, q, n - 1);
      match BitHandle(q, n - 1)
      case None => before
      case Some(bit) => File(before, BitEntry(key, q, n - 1, bit))
  }

  /** The tables after `add_port`. */
  function AddPort(t: Tables, fullPathDiscovery: bool, q: PortQuery): Tables {
    if q.modulePath.None? || q.net.None? then t
    else if !SupportedNetType(q.netType) then t
    else
      var key := PortKey(fullPathDiscovery, q.modulePath.value, q.name);
      if q.size > 1 then FileBits(t, key, q, q.size)
      else File(t, ScalarEntry(key, q, q.net.value))
  }

  /** `b` holds every entry of `a` unchanged. */
  ghost predicate Extends(a: Tables, b: Tables) {
    && (forall k :: k in a.inputs ==> k in b.inputs && b.inputs[k] == a.inputs[k])
    && (forall k :: k in a.outputs ==> k in b.outputs && b.outputs[k] == a.outputs[k])
  }

  /** The shape every registered entry has: keyed by its own name, in the bucket of its direction. */
  ghost predicate EntryOk(key: string, e: PortInfo, direction: int) {
    && e.name == key
    && e.direction == direction
    && SupportedNetType(e.netType)
    && (if e.isVector
        then 0 <= e.bitIndex < e.size && key == IndexedName(e.baseName, e.bitIndex)
        else e.bitIndex == -1 && e.size == 1 && e.baseName == key)
  }

  ghost predicate TablesOk(t: Tables) {
    && (forall k :: k in t.inputs ==> EntryOk(k, t.inputs[k], VpiInput))
    && (forall k :: k in t.outputs ==> EntryOk(k, t.outputs[k], VpiOutput))
  }

  /** The entry `add_port` files for query `q` under port key `key`, as the source fills `PortInfo`. */
  ghost predicate FreshEntry(k: string, e: PortInfo, key: string, q: PortQuery) {
    && e.value == 0.0 && e.changed
    && e.name == k
    && e.direction == q.direction && e.netType == q.netType
    && (if q.size > 1
        then e.isVector && e.size == q.size && e.baseName == key
             && 0 <= e.bitIndex < q.size && k == IndexedName(key, e.bitIndex)
             && BitHandle(q, e.bitIndex) == Some(e.handle)
        else !e.isVector && e.size == 1 && e.bitIndex == -1 && k == key && q.net == Some(e.handle))
  }

  /** Filing bits keeps every existing entry, and touches only the bucket of the port's direction. */
  lemma {:induction false} FileBitsExtends(t: Tables, key: string, q: PortQuery, n: nat)
    ensures var r := FileBits(t, key, q, n);
      && Extends(t, r)
      && (q.direction != VpiInput ==> r.inputs == t.inputs)
      && (q.direction != VpiOutput ==> r.outputs == t.outputs)
    decreases n
  {
    if n > 0 {
      FileBitsExtends(t, key, q, n - 1);
      var before := FileBits(t, key, q, n - 1);
      match BitHandle(q, n - 1)
      case None =>
      case Some(bit) =>
        var r := File(before, BitEntry(key, q, n - 1, bit));
        ExtendsTrans(t, before, r);
    }
  }

  lemma ExtendsTrans(a: Tables, b: Tables, c: Tables)
    requires Extends(a, b) && Extends(b, c)
    ensures Extends(a, c)
  {
  }

  /** Every entry filing bits adds describes one of bits 0 .. n-1 of the port, as `add_port` fills it. */
  lemma {:induction false} FileBitsFresh(t: Tables, key: string, q: PortQuery, n: nat)
    requires q.size > 1 && n <= q.size
    ensures var r := FileBits(t, key, q, n);
      && (forall k :: k in r.inputs && k !in t.inputs ==> FreshEntry(k, r.inputs[k], key, q) && r.inputs[k].bitIndex < n)
      && (forall k :: k in r.outputs && k !in t.outputs ==> FreshEntry(k, r.outputs[k], key, q) && r.outputs[k].bitIndex < n)
    decreases n
  {
    if n > 0 {
      FileBitsFresh(t, key, q, n - 1);
      match BitHandle(q, n - 1)
      case None =>
      case Some(bit) =>
        var info := BitEntry(key, q, n - 1, bit);
        assert FreshEntry(info.name, info, key, q);
    }
  }

  /**
   * `add_port` never overwrites: every existing entry survives unchanged, an
   * entry lands only in the bucket of its direction, and each new entry is
   * filled as the source fills it (value 0.0, changed set, scalar or bit
   * metadata).
   */
  lemma AddPortFacts(t: Tables, fullPathDiscovery: bool, q: PortQuery)
    ensures var r := AddPort(t, fullPathDiscovery, q);
      && Extends(t, r)
      && (q.direction != VpiInput ==> r.inputs == t.inputs)
      && (q.direction != VpiOutput ==> r.outputs == t.outputs)
      && (q.modulePath.Some? ==>
            var key := PortKey(fullPathDiscovery, q.modulePath.value, q.name);
            && (forall k :: k in r.inputs && k !in t.inputs ==> FreshEntry(k, r.inputs[k], key, q))
            && (forall k :: k in r.outputs && k !in t.outputs ==> FreshEntry(k, r.outputs[k], key, q)))
  {
    if q.modulePath.Some? && q.net.Some? && SupportedNetType(q.netType) && q.size > 1 {
      var key := PortKey(fullPathDiscovery, q.modulePath.value, q.name);
      FileBitsExtends(t, key, q, q.size);
      FileBitsFresh(t, key, q, q.size);
    }
  }

  /** Nothing is registered for a port without parent or net, of an unsupported type, or of another direction. */
  lemma AddPortRejects(t: Tables, fullPathDiscovery: bool, q: PortQuery)
    requires || q.modulePath.None? || q.net.None? || !SupportedNetType(q.netType)
             || (q.direction != VpiInput && q.direction != VpiOutput)
    ensures AddPort(t, fullPathDiscovery, q) == t
  {
    if q.modulePath.Some? && q.net.Some? && SupportedNetType(q.netType) && q.size > 1 {
      FileBitsExtends(t, PortKey(fullPathDiscovery, q.modulePath.value, q.name), q, q.size);
    }
  }

  lemma {:induction false} FileBitsKeepsOk(t: Tables, key: string, q: PortQuery, n: nat)
    requires TablesOk(t) && q.size > 1 && n <= q.size && SupportedNetType(q.netType) && IsLower(key)
    ensures TablesOk(FileBits(t, key, q, n))
    decreases n
  {
    if n > 0 {
      FileBitsKeepsOk(t, key, q, n - 1);
    }
  }

  /** Registration keeps every entry well formed. */
  lemma AddPortKeepsOk(t: Tables, fullPathDiscovery: bool, q: PortQuery)
    requires TablesOk(t)
    ensures TablesOk(AddPort(t, fullPathDiscovery, q))
  {
    if q.modulePath.Some? && q.net.Some? && SupportedNetType(q.netType) && q.size > 1 {
      FileBitsKeepsOk(t, PortKey(fullPathDiscovery, q.modulePath.value, q.name), q, q.size);
    }
  }

  /** The keys `key[0]` .. `key[n-1]`. */
  function BitKeys(key: string, n: nat): set<string>
    decreases n
  {
    if n == 0 then {} else BitKeys(key, n - 1) + {IndexedName(key, n - 1)}
  }

  /** A later bit's key is none of the earlier ones. */
  lemma {:induction false} BitKeysExclude(key: string, n: nat, j: int)
    requires j >= n
    ensures IndexedName(key, j) !in BitKeys(key, n)
    decreases n
  {
    if n > 0 {
      BitKeysExclude(key, n - 1, j);
      if IndexedName(key, n - 1) == IndexedName(key, j) {
        IndexedNameInjective(key, n - 1, j);
      }
    }
  }

  /** There are exactly n of them: bit names of one base never collide. */
  lemma {:induction false} BitKeysCount(key: string, n: nat)
    ensures |BitKeys(key, n)| == n
    decreases n
  {
    if n > 0 {
      BitKeysCount(key, n - 1);
      BitKeysExclude(key, n - 1, n - 1);
    }
  }

  lemma {:induction false} FileBitsInputKeys(t: Tables, key: string, q: PortQuery, n: nat)
    requires q.size > 1 && n <= q.size && q.direction == VpiInput
    requires forall i :: 0 <= i < q.size ==> BitHandle(q, i).Some?
    ensures FileBits(t, key, q, n).inputs.Keys == t.inputs.Keys + BitKeys(key, n)
    decreases n
  {
    if n > 0 {
      FileBitsInputKeys(t, key, q, n - 1);
      var before := FileBits(t, key, q, n - 1);
      var bit := BitHandle(q, n - 1).value;
      var info := BitEntry(key, q, n - 1, bit);
      assert FileBits(t, key, q, n) == File(before, info);
      var name := IndexedName(key, n - 1);
      assert File(before, info).inputs.Keys == before.inputs.Keys + {name};
      UnionStep(t.inputs.Keys, BitKeys(key, n - 1), BitKeys(key, n), before.inputs.Keys, name);
    }
  }

  lemma UnionStep<T>(a: set<T>, b: set<T>, c: set<T>, d: set<T>, x: T)
    requires d == a + b && c == b + {x}
    ensures d + {x} == a + c
  {
  }

  /**
   * An input vector of width N whose bits VPI all resolves yields exactly the
   * N bit keys `key[0]` .. `key[N-1]`, each a new entry when none was there
   * before.
   */
  lemma VectorInputRegistersEveryBit(t: Tables, fullPathDiscovery: bool, q: PortQuery)
    requires q.modulePath.Some? && q.net.Some? && SupportedNetType(q.netType)
    requires q.direction == VpiInput && q.size > 1
    requires forall i :: 0 <= i < q.size ==> BitHandle(q, i).Some?
    ensures var key := PortKey(fullPathDiscovery, q.modulePath.value, q.name);
      && AddPort(t, fullPathDiscovery, q).inputs.Keys == t.inputs.Keys + BitKeys(key, q.size)
      && |BitKeys(key, q.size)| == q.size
      && (t.inputs.Keys !! BitKeys(key, q.size) ==>
            |AddPort(t, fullPathDiscovery, q).inputs| == |t.inputs| + q.size)
  {
    var key := PortKey(fullPathDiscovery, q.modulePath.value, q.name);
    FileBitsInputKeys(t, key, q, q.size);
    BitKeysCount(key, q.size);
    var r := AddPort(t, fullPathDiscovery, q);
    if t.inputs.Keys !! BitKeys(key, q.size) {
      assert |r.inputs.Keys| == |t.inputs.Keys| + |BitKeys(key, q.size)|;
    }
  }

  // ---------------------------------------------------------------------------
  // Debounce (analog_outputs_update, digital_input_update)

  function Abs(x: real): real {
    if x < 0.0 then -x else x
  }

  /** The entry with its value and changed flag ignored. */
  function Meta(p: PortInfo): PortInfo {
    p.(value := 0.0, changed := false)
  }

  /**
   * The debounce rule: a sample moves the stored value only when it differs
   * from it by more than the threshold, and then also sets the changed flag.
   */
  function Debounce(p: PortInfo, sample: real, threshold: real): (r: PortInfo)
    ensures Meta(r) == Meta(p)
    ensures Abs(p.value - sample) > threshold ==> r.value == sample && r.changed
    ensures Abs(p.value - sample) <= threshold ==> r == p
    ensures p.changed ==> r.changed
    ensures r.value == sample || Abs(r.value - sample) <= threshold
  {
    if Abs(p.value - sample) > threshold then p.(value := sample, changed := true) else p
  }

  /** Feeding the same sample twice is the same as feeding it once. */
  lemma DebounceIdempotent(p: PortInfo, sample: real, threshold: real)
    ensures Debounce(Debounce(p, sample, threshold), sample, threshold) == Debounce(p, sample, threshold)
  {
  }

  /** Two maps with the same keys whose entries differ at most in value and changed flag. */
  ghost predicate SameShape(a: map<string, PortInfo>, b: map<string, PortInfo>) {
    && a.Keys == b.Keys
    && (forall k :: k in a ==> Meta(b[k]) == Meta(a[k]))
  }

  /** No changed flag of `a` is cleared in `b`. */
  ghost predicate FlagsKept(a: map<string, PortInfo>, b: map<string, PortInfo>)
    requires a.Keys <= b.Keys
  {
    forall k :: k in a && a[k].changed ==> b[k].changed
  }

  lemma SameShapeKeepsOk(a: map<string, PortInfo>, b: map<string, PortInfo>, direction: int)
    requires SameShape(a, b)
    requires forall k :: k in a ==> EntryOk(k, a[k], direction)
    ensures forall k :: k in b ==> EntryOk(k, b[k], direction)
  {
    forall k | k in b ensures EntryOk(k, b[k], direction) {
      assert Meta(b[k]) == Meta(a[k]);
    }
  }

  /** Changing values and flags only keeps the tables well formed. */
  lemma ShapeKeepsOk(a: Tables, b: Tables)
    requires TablesOk(a) && SameShape(a.inputs, b.inputs) && SameShape(a.outputs, b.outputs)
    ensures TablesOk(b)
  {
    SameShapeKeepsOk(a.inputs, b.inputs, VpiInput);
    SameShapeKeepsOk(a.outputs, b.outputs, VpiOutput);
  }

  /** `Debounce` of the entry under `key`, when there is one; a missing key changes nothing. */
  function DebounceAt(m: map<string, PortInfo>, key: string, sample: real, threshold: real): (r: map<string, PortInfo>)
    ensures SameShape(m, r) && FlagsKept(m, r)
    ensures forall k :: k in m && k != key ==> r[k] == m[k]
    ensures key in m ==> r[key] == Debounce(m[key], sample, threshold)
  {
    if key in m then m[key := Debounce(m[key], sample, threshold)] else m
  }

  /** `ngGet_Vec_Info("v(name)")`: the last sample of the vector, None when it is missing or empty. */
  function LatestSample(vectors: map<string, seq<real>>, name: string): Option<real> {
    var vector := "v(" + name + ")";
    if vector in vectors && |vectors[vector]| > 0 then Some(vectors[vector][|vectors[vector]| - 1]) else None
  }

  /** One output after `analog_outputs_update`: a missing or empty vector leaves it alone. */
  function Refresh(p: PortInfo, sample: Option<real>, threshold: real): PortInfo {
    match sample
    case None => p
    case Some(v) => Debounce(p, v, threshold)
  }

  /** The outputs after `analog_outputs_update`. */
  function RefreshOutputs(outputs: map<string, PortInfo>, vectors: map<string, seq<real>>, threshold: real): (r: map<string, PortInfo>)
    ensures SameShape(outputs, r) && FlagsKept(outputs, r)
    ensures forall k :: k in outputs && LatestSample(vectors, k).None? ==> r[k] == outputs[k]
    ensures forall k :: k in outputs && LatestSample(vectors, k).Some? ==>
      r[k] == Debounce(outputs[k], LatestSample(vectors, k).value, threshold)
  {
    map k | k in outputs :: Refresh(outputs[k], LatestSample(vectors, k), threshold)
  }

  // ---------------------------------------------------------------------------
  // Drain (set_digital_output)

  /** The write `set_digital_output` makes for a changed output. */
  function OutputWrite(p: PortInfo, low: real, high: real): PutValue {
    if p.netType == VpiRealVar then PutReal(p.handle, p.value)
    else PutScalar(p.handle, AnalogToDigital(low, high, p.value))
  }

  /** The outputs after `set_digital_output`: every changed flag cleared, nothing else touched. */
  function Drained(outputs: map<string, PortInfo>): (r: map<string, PortInfo>)
    ensures SameShape(outputs, r)
    ensures forall k :: k in r ==> !r[k].changed && r[k].value == outputs[k].value
  {
    map k | k in outputs :: outputs[k].(changed := false)
  }

  /** The keys whose flag is set: exactly those `set_digital_output` writes. */
  function ChangedKeys(outputs: map<string, PortInfo>): set<string> {
    set k | k in outputs && outputs[k].changed
  }

  /**
   * `writes` are the `vpi_put_value` calls of one drain of `outputs`: one
   * per changed output, in the order `written` lists their keys, each key
   * once, each write the output's value in its net's form.
   */
  ghost predicate DrainWrites(outputs: map<string, PortInfo>, writes: seq<PutValue>, written: seq<string>, low: real, high: real) {
    && |writes| == |written|
    && (forall i :: 0 <= i < |written| ==> written[i] in outputs && outputs[written[i]].changed)
    && (forall i :: 0 <= i < |written| ==> writes[i] == OutputWrite(outputs[written[i]], low, high))
    && (forall k :: k in outputs && outputs[k].changed ==> k in written)
    && (forall i, j :: 0 <= i < j < |written| ==> written[i] != written[j])
  }

  /** Draining twice writes nothing the second time. */
  lemma DrainIsOneShot(outputs: map<string, PortInfo>)
    ensures ChangedKeys(Drained(outputs)) == {}
    ensures Drained(Drained(outputs)) == Drained(outputs)
  {
  }

  // ---------------------------------------------------------------------------
  // Logic-side inputs (digital_input_update)

  /** One bit of a signal: `vpi_get(vpiIndex, bit)` and its `vpiIntVal`. */
  datatype BitReading = BitReading(index: int, level: int)

  /** What VPI answers when `digital_input_update` asks about a handle. */
  datatype SignalReading = SignalReading(
    name: string,                   // vpi_get_str(vpiName, handle)
    fullName: string,               // vpi_get_str(vpiFullName, handle)
    size: int,                      // vpi_get(vpiSize, handle)
    netType: int,                   // vpi_get(vpiType, handle)
    realValue: real,                // vpiRealVal
    intValue: int,                  // vpiIntVal
    bits: seq<Option<BitReading>>)  // vpi_handle_by_index(handle, i); nullptr past the end

  function BitOf(sig: SignalReading, i: int): Option<BitReading> {
    if 0 <= i < |sig.bits| then sig.bits[i] else None
  }

  function SignalKey(fullPathDiscovery: bool, sig: SignalReading): string {
    Lower(if fullPathDiscovery then sig.fullName else sig.name)
  }

  /** The key bit `b` of a signal of this size updates. */
  function BitKey(key: string, size: int, b: BitReading): string {
    if size > 1 then IndexedName(key, b.index) else key
  }

  /** Bit i through the debounce rule; a bit VPI has no handle for changes nothing. */
  function BitStep(m: map<string, PortInfo>, sig: SignalReading, key: string, vcc: real, threshold: real, i: int): map<string, PortInfo> {
    match BitOf(sig, i)
    case None => m
    case Some(b) => DebounceAt(m, BitKey(key, sig.size, b), DigitalToAnalog(vcc, b.level), threshold)
  }

  /** Bits 0 .. n-1 applied in order, each through the debounce rule. */
  function UpdateBits(m: map<string, PortInfo>, sig: SignalReading, key: string, vcc: real, threshold: real, n: nat): (r: map<string, PortInfo>)
    ensures SameShape(m, r) && FlagsKept(m, r)
    decreases n
  {
    if n == 0 then m
    else BitStep(UpdateBits(m, sig, key, vcc, threshold, n - 1), sig, key, vcc, threshold, n - 1)
  }

  /** The keys bits 0 .. n-1 of a signal address. */
  function AddressedKeys(sig: SignalReading, key: string, n: nat): set<string> {
    set i | 0 <= i < n && BitOf(sig, i).Some? :: BitKey(key, sig.size, BitOf(sig, i).value)
  }

  /** A bit update touches only the entries its bits address. */
  lemma {:induction false} UpdateBitsUntouched(m: map<string, PortInfo>, sig: SignalReading, key: string, vcc: real, threshold: real, n: nat)
    ensures forall k :: k in m && k !in AddressedKeys(sig, key, n) ==> UpdateBits(m, sig, key, vcc, threshold, n)[k] == m[k]
    decreases n
  {
    if n > 0 {
      UpdateBitsUntouched(m, sig, key, vcc, threshold, n - 1);
      assert AddressedKeys(sig, key, n - 1) <= AddressedKeys(sig, key, n);
      match BitOf(sig, n - 1)
      case None =>
      case Some(b) =>
        assert BitKey(key, sig.size, b) in AddressedKeys(sig, key, n);
    }
  }

  /**
   * The inputs after `digital_input_update`: a real variable takes its real
   * value, a net bit its converted level, anything else each of its bits.
   */
  function DigitalInput(m: map<string, PortInfo>, sig: SignalReading, fullPathDiscovery: bool, vcc: real, threshold: real): map<string, PortInfo> {
    var key := SignalKey(fullPathDiscovery, sig);
    if sig.netType == VpiRealVar then DebounceAt(m, key, sig.realValue, threshold)
    else if sig.netType == VpiNetBit then DebounceAt(m, key, DigitalToAnalog(vcc, sig.intValue), threshold)
    else UpdateBits(m, sig, key, vcc, threshold, if sig.size > 0 then sig.size else 0)
  }

  /**
   * A logic-side update keeps the keys and every entry's metadata, never
   * clears a changed flag, and leaves alone every entry it does not address.
   */
  lemma DigitalInputFacts(m: map<string, PortInfo>, sig: SignalReading, fullPathDiscovery: bool, vcc: real, threshold: real)
    ensures var r := DigitalInput(m, sig, fullPathDiscovery, vcc, threshold);
      && SameShape(m, r) && FlagsKept(m, r)
      && (sig.netType == VpiRealVar || sig.netType == VpiNetBit ==>
            forall k :: k in m && k != SignalKey(fullPathDiscovery, sig) ==> r[k] == m[k])
      && (sig.netType != VpiRealVar && sig.netType != VpiNetBit ==>
            forall k :: k in m && k !in AddressedKeys(sig, SignalKey(fullPathDiscovery, sig), if sig.size > 0 then sig.size else 0) ==> r[k] == m[k])
      && (sig.size <= 0 && sig.netType != VpiRealVar && sig.netType != VpiNetBit ==> r == m)
  {
    UpdateBitsUntouched(m, sig, SignalKey(fullPathDiscovery, sig), vcc, threshold, if sig.size > 0 then sig.size else 0);
  }

  /** `order` lists every key of the map once: an iteration order of the `unordered_map`. */
  ghost predicate IterationOrder(order: seq<string>, keys: set<string>) {
    && |order| == |keys|
    && (forall i :: 0 <= i < |order| ==> order[i] in keys)
    && (forall i, j :: 0 <= i < j < |order| ==> order[i] != order[j])
  }

  /** An iteration order visits every key of the map, and nothing else. */
  lemma IterationOrderCovers(order: seq<string>, keys: set<string>)
    requires IterationOrder(order, keys)
    ensures forall k :: k in keys <==> k in order
  {
    var visited := set i | 0 <= i < |order| :: order[i];
    DistinctCardinality(order);
    SubsetOfSameSize(visited, keys);
    forall k ensures k in keys <==> k in order {
      if k in order {
        var i :| 0 <= i < |order| && order[i] == k;
        assert k in visited;
      }
    }
  }

  /** The elements of a duplicate-free sequence are as many as its length. */
  lemma {:induction false} DistinctCardinality<T>(s: seq<T>)
    requires forall i, j :: 0 <= i < j < |s| ==> s[i] != s[j]
    ensures |set i | 0 <= i < |s| :: s[i]| == |s|
    decreases |s|
  {
    if s != [] {
      var init := s[..|s| - 1];
      DistinctCardinality(init);
      assert (set i | 0 <= i < |s| :: s[i]) == (set i | 0 <= i < |init| :: init[i]) + {s[|s| - 1]};
    }
  }

  /** A subset as large as its superset is the whole set. */
  lemma SubsetOfSameSize<T>(a: set<T>, b: set<T>)
    requires a <= b && |a| == |b|
    ensures a == b
  {
    DifferenceCard(a, b);
    assert b - a == {};
  }

  lemma DifferenceCard<T>(a: set<T>, b: set<T>)
    requires a <= b
    ensures |b - a| == |b| - |a|
  {
    assert b == a + (b - a);
    assert a * (b - a) == {};
  }

  /** One visit of `update_all_digital_inputs`: the signal behind the entry under `key` is pulled in. */
  function PollStep(m: map<string, PortInfo>, key: string, vpi: Handle -> SignalReading, fullPathDiscovery: bool, vcc: real, threshold: real): map<string, PortInfo> {
    if key in m then DigitalInput(m, vpi(m[key].handle), fullPathDiscovery, vcc, threshold) else m
  }

  /** The inputs after `update_all_digital_inputs`, visiting the keys in `order`. */
  function UpdateAll(m: map<string, PortInfo>, order: seq<string>, vpi: Handle -> SignalReading, fullPathDiscovery: bool, vcc: real, threshold: real): (r: map<string, PortInfo>)
    ensures SameShape(m, r) && FlagsKept(m, r)
    decreases |order|
  {
    if order == [] then m
    else PollStep(UpdateAll(m, order[..|order| - 1], vpi, fullPathDiscovery, vcc, threshold), order[|order| - 1], vpi, fullPathDiscovery, vcc, threshold)
  }

  /** Visiting one more key of `order` is one more `PollStep`. */
  lemma UpdateAllStep(m: map<string, PortInfo>, order: seq<string>, i: int, vpi: Handle -> SignalReading, fullPathDiscovery: bool, vcc: real, threshold: real)
    requires 0 <= i < |order|
    ensures UpdateAll(m, order[..i + 1], vpi, fullPathDiscovery, vcc, threshold)
      == PollStep(UpdateAll(m, order[..i], vpi, fullPathDiscovery, vcc, threshold), order[i], vpi, fullPathDiscovery, vcc, threshold)
  {
    assert order[..i + 1][..i] == order[..i];
  }
}
