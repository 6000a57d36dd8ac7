/** The closed vocabulary of capability kinds, and the names they travel under. */
module Capability {
  datatype Kind =
    | OnOff | Brightness | Color | Temperature | Position | Media
    | Lock | Fan | Vacuum | Sensor | Remote | Display

  function KindName(k: Kind): (s: string)
    ensures ':' !in s && |s| > 0
  {
    match k
    case OnOff => "onoff"
    case Brightness => "brightness"
    case Color => "color"
    case Temperature => "temperature"
    case Position => "position"
    case Media => "media"
    case Lock => "lock"
    case Fan => "fan"
    case Vacuum => "vacuum"
    case Sensor => "sensor"
    case Remote => "remote"
    case Display => "display"
  }

  lemma KindNameInjective(a: Kind, b: Kind)
    requires KindName(a) == KindName(b)
    ensures a == b
  {
    var s := KindName(a);
    assert |s| > 3 || s[0] == 'f';
    assert s[0] == KindName(b)[0];
  }
}
