/**
 * Configuration of the single-instance variant of the bridge
 * (SpiceVpiConfig.cpp): one HDL instance name instead of a list.  The
 * settings record holds the fields that file reads and writes; its header,
 * SpiceVpiConfig.h, is not part of this model.
 */
module SingleConfig {
  import Config

  datatype Settings = Settings(
    spiceNetlistPath: string,
    hdlInstanceName: string,
    vccVoltage: real,
    logicThresholdLow: real,
    logicThresholdHigh: real)

  /** A usable single-instance configuration, independent of the order of the checks. */
  ghost predicate WellFormed(s: Settings) {
    && s.spiceNetlistPath != ""
    && s.hdlInstanceName != ""
    && 0.0 < s.vccVoltage
    && 0.0 <= s.logicThresholdLow < s.logicThresholdHigh <= s.vccVoltage
  }

  /** `Config::validate` of the single-instance variant: four checks in source order. */
  function Validate(s: Settings): (v: Config.Verdict)
    ensures v == Config.Accepted <==> WellFormed(s)
    ensures v != Config.Rejected(Config.EmptyInstanceList)
  {
    if s.spiceNetlistPath == "" then Config.Rejected(Config.EmptyNetlistPath)
    else if s.hdlInstanceName == "" then Config.Rejected(Config.EmptyInstanceName)
    else if s.vccVoltage <= 0.0 then Config.Rejected(Config.NonPositiveVcc)
    else if s.logicThresholdLow >= s.logicThresholdHigh then Config.Rejected(Config.ThresholdOrder)
    else if s.logicThresholdLow < 0.0 || s.logicThresholdHigh > s.vccVoltage then Config.Rejected(Config.ThresholdRange)
    else Config.Accepted
  }

  /** Each of the four checks rejects on its own. */
  lemma ValidateRejections(s: Settings)
    ensures s.spiceNetlistPath == "" ==> Validate(s) == Config.Rejected(Config.EmptyNetlistPath)
    ensures s.spiceNetlistPath != "" && s.hdlInstanceName == "" ==> Validate(s) == Config.Rejected(Config.EmptyInstanceName)
    ensures s.vccVoltage <= 0.0 ==> Validate(s).Rejected?
    ensures s.logicThresholdLow >= s.logicThresholdHigh ==> Validate(s).Rejected?
    ensures s.logicThresholdLow < 0.0 || s.logicThresholdHigh > s.vccVoltage ==> Validate(s).Rejected?
  {
  }

  /** The settings of the multi-instance variant that name just this one instance. */
  function AsMultiInstance(s: Settings): Config.Settings {
    Config.DefaultSettings().(
      spiceNetlistPath := s.spiceNetlistPath,
      hdlInstanceNames := [s.hdlInstanceName],
      vccVoltage := s.vccVoltage,
      logicThresholdLow := s.logicThresholdLow,
      logicThresholdHigh := s.logicThresholdHigh)
  }

  /** The two variants of `validate` give the same verdict on a one-instance configuration. */
  lemma AgreesWithMultiInstance(s: Settings)
    ensures Validate(s) == Config.Validate(AsMultiInstance(s))
  {
    var m := AsMultiInstance(s);
    assert ("" in m.hdlInstanceNames) <==> s.hdlInstanceName == "";
  }

  datatype LoadResult =
    | Loaded(settings: Settings)
    | MissingVariable(name: string)        // std::runtime_error of get_required_env_var
    | Invalid(error: Config.ConfigError)   // std::invalid_argument of validate

  /**
   * `Config::load_from_environment` of this variant, with the environment
   * already read: HDL_INSTANCE is taken whole, the thresholds default to
   * 30% and 70% of VCC.
   */
  function LoadFromEnvironment(env: Config.Environment): (r: LoadResult)
    ensures env.spiceNetlist.None? ==> r == MissingVariable("SPICE_NETLIST")
    ensures env.spiceNetlist.Some? && env.hdlInstance.None? ==> r == MissingVariable("HDL_INSTANCE")
    ensures env.spiceNetlist.Some? && env.hdlInstance.Some? ==>
      var vcc := Config.GetOr(env.vcc, 1.0);
      var low := Config.GetOr(env.logicThresholdLow, 0.3 * vcc);
      var high := Config.GetOr(env.logicThresholdHigh, 0.7 * vcc);
      && (r.Loaded? || r.Invalid?)
      && (r.Loaded? <==>
           env.spiceNetlist.value != "" && env.hdlInstance.value != "" && 0.0 < vcc && 0.0 <= low < high <= vcc)
    ensures r.Loaded? ==> WellFormed(r.settings)
    ensures r.Loaded? ==>
      var vcc := Config.GetOr(env.vcc, 1.0);
      && env.spiceNetlist.Some? && env.hdlInstance.Some?
      && r.settings.spiceNetlistPath == env.spiceNetlist.value
      && r.settings.hdlInstanceName == env.hdlInstance.value
      && r.settings.vccVoltage == vcc
      && r.settings.logicThresholdLow == Config.GetOr(env.logicThresholdLow, 0.3 * vcc)
      && r.settings.logicThresholdHigh == Config.GetOr(env.logicThresholdHigh, 0.7 * vcc)
  {
    if env.spiceNetlist.None? then MissingVariable("SPICE_NETLIST")
    else if env.hdlInstance.None? then MissingVariable("HDL_INSTANCE")
    else
      var vcc := Config.GetOr(env.vcc, 1.0);
      var s := Settings(
        env.spiceNetlist.value, env.hdlInstance.value, vcc,
        Config.GetOr(env.logicThresholdLow, 0.3 * vcc),
        Config.GetOr(env.logicThresholdHigh, 0.7 * vcc));
      match Validate(s)
      case Accepted => Loaded(s)
      case Rejected(e) => Invalid(e)
  }

  /** With the default thresholds, a netlist, a name and a positive (or default) VCC load. */
  lemma DefaultThresholdsLoad(env: Config.Environment)
    requires env.spiceNetlist.Some? && env.spiceNetlist.value != ""
    requires env.hdlInstance.Some? && env.hdlInstance.value != ""
    requires env.vcc.None? || env.vcc.value > 0.0
    requires env.logicThresholdLow.None? && env.logicThresholdHigh.None?
    ensures LoadFromEnvironment(env).Loaded?
    ensures LoadFromEnvironment(env).settings.logicThresholdLow == 0.3 * Config.GetOr(env.vcc, 1.0)
    ensures LoadFromEnvironment(env).settings.logicThresholdHigh == 0.7 * Config.GetOr(env.vcc, 1.0)
  {
  }
}
