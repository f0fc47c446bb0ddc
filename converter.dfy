/**
 * The value converter of the bridge (`digital_to_analog` and
 * `analog_to_digital`): a logic level becomes a voltage and a voltage a
 * logic level, with the supply and the two thresholds taken from the
 * configuration.
 */
module Converter {
  import opened Vpi

  /** `digital_to_analog`: logic 0 is 0 V, logic 1 is VCC, anything else VCC/2. */
  function DigitalToAnalog(vcc: real, level: int): (v: real)
    ensures level == Vpi0 ==> v == 0.0
    ensures level == Vpi1 ==> v == vcc
    ensures level != Vpi0 && level != Vpi1 ==> v == vcc / 2.0
  {
    if level == Vpi0 then 0.0
    else if level == Vpi1 then vcc
    else 0.5 * vcc
  }

  /** `analog_to_digital`: below `low` is 0, above `high` is 1, the band between X. */
  function AnalogToDigital(low: real, high: real, v: real): (d: int)
    ensures d == Vpi0 || d == Vpi1 || d == VpiX
    ensures d == Vpi0 <==> v < low
    ensures d == Vpi1 <==> low <= v && high < v
    ensures d == VpiX <==> low <= v <= high
  {
    if v < low then Vpi0
    else if v > high then Vpi1
    else VpiX
  }

  /** Orders the three levels the converter produces: 0 below X below 1. */
  function LevelRank(d: int): nat {
    if d == Vpi0 then 0 else if d == VpiX then 1 else 2
  }

  /** A higher voltage never gives a lower logic level, whatever the thresholds. */
  lemma AnalogToDigitalMonotone(low: real, high: real, v: real, w: real)
    requires v <= w
    ensures LevelRank(AnalogToDigital(low, high, v)) <= LevelRank(AnalogToDigital(low, high, w))
  {
  }

  /**
   * Converting a level to a voltage and back gives the level again exactly
   * when that voltage falls in the level's own band: 0 V must lie below `low`,
   * VCC above `high`, and VCC/2 between the two.
   */
  lemma DigitalToAnalogRoundTrip(vcc: real, low: real, high: real)
    ensures AnalogToDigital(low, high, DigitalToAnalog(vcc, Vpi0)) == Vpi0 <==> 0.0 < low
    ensures AnalogToDigital(low, high, DigitalToAnalog(vcc, Vpi1)) == Vpi1 <==> low <= vcc && high < vcc
    ensures AnalogToDigital(low, high, DigitalToAnalog(vcc, VpiX)) == VpiX <==> low <= vcc / 2.0 <= high
  {
  }

  /** Under the default thresholds (30% and 70% of VCC) every level survives the round trip. */
  lemma DefaultThresholdsRoundTrip(vcc: real, level: int)
    requires vcc > 0.0
    requires level == Vpi0 || level == Vpi1 || level == VpiX
    ensures AnalogToDigital(0.3 * vcc, 0.7 * vcc, DigitalToAnalog(vcc, level)) == level
  {
  }

  /** VCC = 1.0, thresholds 0.3 and 0.7: 0.25 V reads 0, 0.75 V reads 1, 0.5 V reads X. */
  lemma ConversionScenario()
    ensures AnalogToDigital(0.3, 0.7, 0.25) == Vpi0
    ensures AnalogToDigital(0.3, 0.7, 0.75) == Vpi1
    ensures AnalogToDigital(0.3, 0.7, 0.5) == VpiX
  {
  }
}
