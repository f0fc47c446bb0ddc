/**
 * Configuration of the multi-instance bridge (Config.h, Config.cpp): the
 * settings record with its defaults, the validation guard chain, the
 * splitting of the HDL_INSTANCE list, and the derivation of the settings
 * from already-read environment values.
 */
module Config {
  import opened Options

  datatype Settings = Settings(
    spiceNetlistPath: string,
    hdlInstanceNames: seq<string>,
    fullPathDiscovery: bool,          // the HDL_INSTANCE list contained a comma
    vccVoltage: real,
    logicThresholdLow: real,
    logicThresholdHigh: real,
    minAnalogChangeThreshold: real,   // the debounce threshold of the bridge
    timePrecision: nat)               // ticks per second

  /** The member initialisers of `Config::Settings`. */
  function DefaultSettings(): (s: Settings)
    ensures s.minAnalogChangeThreshold > 0.0
    ensures Validate(s) == Rejected(EmptyNetlistPath)
  {
    Settings("", [], false, 1.0, 0.3, 0.7, 0.000000001, 1000000000000)
  }

  /** The `std::invalid_argument` messages of `Config::validate`, one per check. */
  datatype ConfigError =
    | EmptyNetlistPath      // "SPICE netlist path cannot be empty"
    | EmptyInstanceList     // "HDL instance names cannot be empty"
    | EmptyInstanceName     // "HDL instance name cannot be empty"
    | NonPositiveVcc        // "VCC voltage must be positive"
    | ThresholdOrder        // "Logic threshold low must be less than high"
    | ThresholdRange        // "Logic thresholds must be within [0, VCC] range"

  datatype Verdict = Accepted | Rejected(error: ConfigError)

  /**
   * What a usable configuration is, stated independently of the order of the
   * checks: a netlist, at least one instance, no empty instance name, a
   * positive supply and thresholds with 0 <= low < high <= VCC.
   */
  ghost predicate WellFormed(s: Settings) {
    && s.spiceNetlistPath != ""
    && |s.hdlInstanceNames| > 0
    && (forall i :: 0 <= i < |s.hdlInstanceNames| ==> s.hdlInstanceNames[i] != "")
    && 0.0 < s.vccVoltage
    && 0.0 <= s.logicThresholdLow < s.logicThresholdHigh <= s.vccVoltage
  }

  /** `Config::validate`: the checks in source order; the first that fails is reported. */
  function Validate(s: Settings): (v: Verdict)
    ensures v == Accepted <==> WellFormed(s)
  {
    if s.spiceNetlistPath == "" then Rejected(EmptyNetlistPath)
    else if s.hdlInstanceNames == [] then Rejected(EmptyInstanceList)
    else if "" in s.hdlInstanceNames then Rejected(EmptyInstanceName)
    else if s.vccVoltage <= 0.0 then Rejected(NonPositiveVcc)
    else if s.logicThresholdLow >= s.logicThresholdHigh then Rejected(ThresholdOrder)
    else if s.logicThresholdLow < 0.0 || s.logicThresholdHigh > s.vccVoltage then Rejected(ThresholdRange)
    else Accepted
  }

  /** Each check rejects on its own, whatever the later fields hold. */
  lemma ValidateRejections(s: Settings)
    ensures s.spiceNetlistPath == "" ==> Validate(s) == Rejected(EmptyNetlistPath)
    ensures s.spiceNetlistPath != "" && s.hdlInstanceNames == [] ==> Validate(s) == Rejected(EmptyInstanceList)
    ensures (exists i :: 0 <= i < |s.hdlInstanceNames| && s.hdlInstanceNames[i] == "") ==> Validate(s).Rejected?
    ensures s.vccVoltage <= 0.0 ==> Validate(s).Rejected?
    ensures s.logicThresholdLow >= s.logicThresholdHigh ==> Validate(s).Rejected?
    ensures s.logicThresholdLow < 0.0 || s.logicThresholdHigh > s.vccVoltage ==> Validate(s).Rejected?
  {
  }

  /** The default thresholds, 30% and 70% of VCC, pass the threshold checks for every positive VCC. */
  lemma DefaultThresholdsInRange(vcc: real)
    requires vcc > 0.0
    ensures 0.0 <= 0.3 * vcc < 0.7 * vcc <= vcc
  {
  }

  // ---------------------------------------------------------------------------
  // Config::parse_instance_names

  /** The characters `find_first_not_of(" \t\r\n")` skips. */
  predicate IsTrimSpace(c: char) {
    c == ' ' || c == '\t' || c == '\r' || c == '\n'
  }

  predicate AllTrimSpace(s: string) {
    forall i :: 0 <= i < |s| ==> IsTrimSpace(s[i])
  }

  /** `s.find_first_not_of(" \t\r\n")`, with `npos` as None. */
  function FirstNotSpace(s: string): (r: Option<nat>)
    ensures r.Some? ==> r.value < |s|
    decreases |s|
  {
    if s == [] then None
    else if !IsTrimSpace(s[0]) then Some(0)
    else match FirstNotSpace(s[1..])
      case None => None
      case Some(k) => Some(k + 1)
  }

  /** `s.find_last_not_of(" \t\r\n")`, with `npos` as None. */
  function LastNotSpace(s: string): (r: Option<nat>)
    ensures r.Some? ==> r.value < |s|
    decreases |s|
  {
    if s == [] then None
    else if !IsTrimSpace(s[|s| - 1]) then Some(|s| - 1)
    else LastNotSpace(s[..|s| - 1])
  }

  /** `find_first_not_of` finds nothing exactly in a blank string, and otherwise the first non-blank. */
  lemma {:induction false} FirstNotSpaceSpec(s: string)
    ensures FirstNotSpace(s).None? <==> AllTrimSpace(s)
    ensures FirstNotSpace(s).Some? ==>
      !IsTrimSpace(s[FirstNotSpace(s).value]) && AllTrimSpace(s[..FirstNotSpace(s).value])
    decreases |s|
  {
    if s != [] && IsTrimSpace(s[0]) {
      var t := s[1..];
      FirstNotSpaceSpec(t);
      assert forall i :: 0 < i < |s| ==> s[i] == t[i - 1];
      if FirstNotSpace(t).Some? {
        var k := FirstNotSpace(t).value;
        var prefix, rest := s[..k + 1], t[..k];
        forall i | 0 <= i < |prefix| ensures IsTrimSpace(prefix[i]) {
          if i > 0 {
            assert prefix[i] == rest[i - 1];
          }
        }
      }
    }
  }

  /** `find_last_not_of` finds nothing exactly in a blank string, and otherwise the last non-blank. */
  lemma {:induction false} LastNotSpaceSpec(s: string)
    ensures LastNotSpace(s).None? <==> AllTrimSpace(s)
    ensures LastNotSpace(s).Some? ==>
      !IsTrimSpace(s[LastNotSpace(s).value]) && AllTrimSpace(s[LastNotSpace(s).value + 1..])
    decreases |s|
  {
    if s != [] && IsTrimSpace(s[|s| - 1]) {
      var t := s[..|s| - 1];
      LastNotSpaceSpec(t);
      assert forall i :: 0 <= i < |t| ==> s[i] == t[i];
      if LastNotSpace(t).Some? {
        var k := LastNotSpace(t).value;
        assert forall i :: k + 1 <= i < |s| ==> s[k + 1..][i - k - 1] == s[i];
      }
    }
  }

  /** In a string with a non-blank character, the first non-blank does not come after the last. */
  lemma FirstBeforeLast(s: string)
    requires FirstNotSpace(s).Some? && LastNotSpace(s).Some?
    ensures FirstNotSpace(s).value <= LastNotSpace(s).value
  {
    FirstNotSpaceSpec(s);
    LastNotSpaceSpec(s);
  }

  /**
   * The names one `getline` token contributes: its trimmed form when it holds
   * a non-blank character, the token itself when it is blank but not empty,
   * nothing when it is empty.
   */
  function PieceNames(piece: string): (r: seq<string>)
    ensures |r| <= 1
  {
    match (FirstNotSpace(piece), LastNotSpace(piece))
    case (Some(a), Some(b)) =>
      FirstBeforeLast(piece);
      [piece[a..b + 1]]
    case _ => if piece != "" then [piece] else []
  }

  /** Index of the first comma of `s`, or `|s|` when there is none. */
  function FindComma(s: string): (i: nat)
    ensures i <= |s|
    ensures forall j :: 0 <= j < i ==> s[j] != ','
    ensures i < |s| ==> s[i] == ','
    decreases |s|
  {
    if s == [] then 0 else if s[0] == ',' then 0 else FindComma(s[1..]) + 1
  }

  /**
   * The names collected from the tokens `std::getline(stream, instance, ',')`
   * extracts from `s`, in order.  A trailing comma yields no final token.
   */
  function CollectNames(s: string): seq<string>
    decreases |s|
  {
    if s == [] then []
    else
      var i := FindComma(s);
      PieceNames(s[..i]) + (if i < |s| then CollectNames(s[i + 1..]) else [])
  }

  /** The list `parse_instance_names` leaves in `instance_names`. */
  function InstanceNames(envValue: string): seq<string> {
    var names := CollectNames(envValue);
    if ',' in envValue && names != [] && names[|names| - 1] == "" then names[..|names| - 1]
    else names
  }

  /**
   * `Config::parse_instance_names`: clears the outputs, sets the flag when the
   * value holds a comma, collects the names of the `getline` tokens, and drops
   * a trailing empty name when the flag is set.
   */
  method ParseInstanceNames(envValue: string) returns (instanceNames: seq<string>, fullPathDiscovery: bool)
    ensures instanceNames == InstanceNames(envValue)
    ensures fullPathDiscovery <==> ',' in envValue
  {
    instanceNames := [];
    fullPathDiscovery := false;
    if envValue == "" {
      return;
    }
    fullPathDiscovery := ',' in envValue;
    instanceNames := ReadTokens(envValue);
    if fullPathDiscovery && instanceNames != [] && instanceNames[|instanceNames| - 1] == "" {
      instanceNames := instanceNames[..|instanceNames| - 1];
    }
  }

  /** The `std::getline(stream, instance, ',')` loop: the names of every token, in order. */
  method ReadTokens(envValue: string) returns (names: seq<string>)
    ensures names == CollectNames(envValue)
  {
    names := [];
    var rest := envValue;
    while rest != ""
      invariant names + CollectNames(rest) == CollectNames(envValue)
      decreases |rest|
    {
      var i := FindComma(rest);
      var piece := PieceNames(rest[..i]);
      var next := if i < |rest| then rest[i + 1..] else "";
      CollectNamesStep(rest);
      assert names + CollectNames(rest) == (names + piece) + CollectNames(next);
      names := names + piece;
      rest := next;
    }
  }

  /** One `getline` step: the first token's names, then those of the text after its comma. */
  lemma CollectNamesStep(rest: string)
    requires rest != ""
    ensures var i := FindComma(rest);
      CollectNames(rest) == PieceNames(rest[..i]) + CollectNames(if i < |rest| then rest[i + 1..] else "")
  {
  }

  /** An empty value yields no names and leaves full-path discovery off. */
  lemma EmptyValueParses()
    ensures InstanceNames("") == [] && ',' !in ""
  {
  }

  /** A name as the parser leaves it: non-empty, comma-free, and either trimmed at both ends or entirely blank. */
  predicate GoodName(n: string) {
    && n != ""
    && ',' !in n
    && (AllTrimSpace(n) || (!IsTrimSpace(n[0]) && !IsTrimSpace(n[|n| - 1])))
  }

  /** Every collected name is a good name. */
  lemma {:induction false} CollectedNamesShape(s: string)
    ensures forall k :: 0 <= k < |CollectNames(s)| ==> GoodName(CollectNames(s)[k])
    decreases |s|
  {
    if s != [] {
      var i := FindComma(s);
      var piece := PieceNames(s[..i]);
      var rest := if i < |s| then CollectNames(s[i + 1..]) else [];
      assert CollectNames(s) == piece + rest;
      assert ',' !in s[..i] by {
        forall j | 0 <= j < i ensures s[..i][j] != ',' { }
      }
      PieceNamesShape(s[..i]);
      if i < |s| {
        CollectedNamesShape(s[i + 1..]);
      }
      GoodNamesConcat(piece, rest);
    }
  }

  lemma GoodNamesConcat(a: seq<string>, b: seq<string>)
    requires forall k :: 0 <= k < |a| ==> GoodName(a[k])
    requires forall k :: 0 <= k < |b| ==> GoodName(b[k])
    ensures forall k :: 0 <= k < |a + b| ==> GoodName((a + b)[k])
  {
    forall k | 0 <= k < |a + b| ensures GoodName((a + b)[k]) {
      if k < |a| {
        assert (a + b)[k] == a[k];
      } else {
        assert (a + b)[k] == b[k - |a|];
      }
    }
  }

  lemma PieceNamesShape(piece: string)
    requires ',' !in piece
    ensures forall k :: 0 <= k < |PieceNames(piece)| ==> GoodName(PieceNames(piece)[k])
  {
    FirstNotSpaceSpec(piece);
    LastNotSpaceSpec(piece);
    match (FirstNotSpace(piece), LastNotSpace(piece))
    case (Some(a), Some(b)) =>
      FirstBeforeLast(piece);
      var n := piece[a..b + 1];
      assert n[0] == piece[a] && n[|n| - 1] == piece[b];
      assert forall c :: c in n ==> c in piece;
    case _ =>
  }

  /** Hence the trailing-comma `pop_back` never fires: the result is exactly the collected names. */
  lemma NoTrailingEmptyName(s: string)
    ensures InstanceNames(s) == CollectNames(s)
    ensures forall k :: 0 <= k < |InstanceNames(s)| ==> InstanceNames(s)[k] != ""
  {
    CollectedNamesShape(s);
  }

  /** Tokens are handled in input order: the first piece's names come first. */
  lemma {:induction false} CollectNamesSplit(a: string, b: string)
    requires ',' !in a
    ensures CollectNames(a + "," + b) == PieceNames(a) + CollectNames(b)
  {
    var s := a + "," + b;
    FindCommaAt(a, b);
    assert s[..|a|] == a;
    if b == "" {
      assert s[|a| + 1..] == b;
    } else {
      assert s[|a| + 1..] == b;
    }
  }

  lemma FindCommaAt(a: string, b: string)
    requires ',' !in a
    ensures FindComma(a + "," + b) == |a|
  {
    var s := a + "," + b;
    assert s[|a|] == ',';
    assert forall j :: 0 <= j < |a| ==> s[j] == a[j];
  }

  /** A value without a comma is a single token. */
  lemma SingleToken(s: string)
    requires ',' !in s
    ensures CollectNames(s) == (if s == "" then [] else PieceNames(s))
  {
    if s != "" {
      assert s[..FindComma(s)] == s;
    }
  }

  /** A token with no blank at either end is kept as it is. */
  lemma TrimmedPiece(s: string)
    requires s != "" && !IsTrimSpace(s[0]) && !IsTrimSpace(s[|s| - 1])
    ensures PieceNames(s) == [s]
  {
    assert s[0..|s|] == s;
  }

  /**
   * Two comma-free names without blanks at their ends, joined by one comma
   * (as in `tb.inv0,tb.inv1`), give exactly those two names, in order, with
   * full-path discovery on.
   */
  lemma TwoInstances(a: string, b: string)
    requires ',' !in a && ',' !in b
    requires a != "" && !IsTrimSpace(a[0]) && !IsTrimSpace(a[|a| - 1])
    requires b != "" && !IsTrimSpace(b[0]) && !IsTrimSpace(b[|b| - 1])
    ensures InstanceNames(a + "," + b) == [a, b]
    ensures ',' in a + "," + b
  {
    var s := a + "," + b;
    CollectNamesSplit(a, b);
    TrimmedPiece(a);
    SingleToken(b);
    TrimmedPiece(b);
    NoTrailingEmptyName(s);
    assert s[|a|] == ',';
  }

  // ---------------------------------------------------------------------------
  // Config::load_from_environment, with the environment already read

  /**
   * The environment variables as `getenv` and `std::stod` deliver them: None
   * when a variable is not set.
   */
  datatype Environment = Environment(
    spiceNetlist: Option<string>,
    hdlInstance: Option<string>,
    vcc: Option<real>,
    logicThresholdLow: Option<real>,
    logicThresholdHigh: Option<real>)

  datatype LoadResult =
    | Loaded(settings: Settings)
    | MissingVariable(name: string)        // std::runtime_error of get_required_env_var
    | Invalid(error: ConfigError)          // std::invalid_argument of validate

  function GetOr(o: Option<real>, default: real): real {
    match o case Some(v) => v case None => default
  }

  /**
   * When both required variables are set, what makes loading succeed, read
   * off the environment: a netlist path, an instance list that names
   * something once split, a positive supply, and thresholds (given, or 30%
   * and 70% of the supply) with 0 <= low < high <= VCC.
   */
  ghost predicate Usable(env: Environment)
    requires env.spiceNetlist.Some? && env.hdlInstance.Some?
  {
    var vcc := GetOr(env.vcc, 1.0);
    var low := GetOr(env.logicThresholdLow, 0.3 * vcc);
    var high := GetOr(env.logicThresholdHigh, 0.7 * vcc);
    && env.spiceNetlist.value != ""
    && InstanceNames(env.hdlInstance.value) != []
    && 0.0 < vcc
    && 0.0 <= low < high <= vcc
  }

  /**
   * `Config::load_from_environment`: the two required variables, VCC
   * defaulting to 1.0 and the thresholds to 30% and 70% of VCC, then
   * `validate`.
   */
  function LoadFromEnvironment(env: Environment): (r: LoadResult)
    ensures env.spiceNetlist.None? ==> r == MissingVariable("SPICE_NETLIST")
    ensures env.spiceNetlist.Some? && env.hdlInstance.None? ==> r == MissingVariable("HDL_INSTANCE")
    ensures env.spiceNetlist.Some? && env.hdlInstance.Some? ==>
      && (r.Loaded? || r.Invalid?)
      && (r.Loaded? <==> Usable(env))
    ensures r.Loaded? ==> WellFormed(r.settings)
    ensures r.Loaded? ==>
      var vcc := GetOr(env.vcc, 1.0);
      && env.spiceNetlist.Some? && env.hdlInstance.Some?
      && r.settings.spiceNetlistPath == env.spiceNetlist.value
      && r.settings.hdlInstanceNames == InstanceNames(env.hdlInstance.value)
      && r.settings.fullPathDiscovery == (',' in env.hdlInstance.value)
      && r.settings.vccVoltage == vcc
      && r.settings.logicThresholdLow == GetOr(env.logicThresholdLow, 0.3 * vcc)
      && r.settings.logicThresholdHigh == GetOr(env.logicThresholdHigh, 0.7 * vcc)
      && r.settings.minAnalogChangeThreshold == DefaultSettings().minAnalogChangeThreshold
      && r.settings.timePrecision == DefaultSettings().timePrecision
  {
    if env.spiceNetlist.None? then MissingVariable("SPICE_NETLIST")
    else if env.hdlInstance.None? then MissingVariable("HDL_INSTANCE")
    else
      var h := env.hdlInstance.value;
      NoTrailingEmptyName(h);
      var vcc := GetOr(env.vcc, 1.0);
      var s := DefaultSettings().(
        spiceNetlistPath := env.spiceNetlist.value,
        hdlInstanceNames := InstanceNames(h),
        fullPathDiscovery := ',' in h,
        vccVoltage := vcc,
        logicThresholdLow := GetOr(env.logicThresholdLow, 0.3 * vcc),
        logicThresholdHigh := GetOr(env.logicThresholdHigh, 0.7 * vcc));
      match Validate(s)
      case Accepted => Loaded(s)
      case Rejected(e) => Invalid(e)
  }

  /**
   * With a netlist, an instance list naming something, a positive (or
   * default) VCC and no thresholds set, loading succeeds with the default
   * thresholds.
   */
  lemma DefaultsLoad(env: Environment)
    requires env.spiceNetlist.Some? && env.spiceNetlist.value != ""
    requires env.hdlInstance.Some? && CollectNames(env.hdlInstance.value) != []
    requires env.vcc.None? || env.vcc.value > 0.0
    requires env.logicThresholdLow.None? && env.logicThresholdHigh.None?
    ensures var vcc := GetOr(env.vcc, 1.0);
      && LoadFromEnvironment(env).Loaded?
      && LoadFromEnvironment(env).settings.logicThresholdLow == 0.3 * vcc
      && LoadFromEnvironment(env).settings.logicThresholdHigh == 0.7 * vcc
      && LoadFromEnvironment(env).settings.fullPathDiscovery == (',' in env.hdlInstance.value)
  {
    NoTrailingEmptyName(env.hdlInstance.value);
  }
}
