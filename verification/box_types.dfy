/** The box-type and zone enumerations shared by generator, verifier and UI. */
module Boxes {
  import opened Wrappers

  /** Number of box types, and of per-type box lists. */
  const TypeCount: nat := 4

  datatype Types = Blue | Green | Yellow | Red

  /** A shelf zone: the catch-all mixed zone or the zone of one box type. */
  datatype Zones = Mixed | BlueZone | GreenZone | YellowZone | RedZone

  /** The integer value behind a `Types` enum member. */
  function TypeValue(t: Types): (v: nat)
    ensures v < TypeCount
  {
    match t
    case Blue => 0
    case Green => 1
    case Yellow => 2
    case Red => 3
  }

  /** The enum member an integer names, if any. */
  function TypeOfValue(v: int): (t: Option<Types>)
    ensures t.Some? <==> 0 <= v < TypeCount
    ensures t.Some? ==> TypeValue(t.value) == v
  {
    if v == 0 then Some(Blue)
    else if v == 1 then Some(Green)
    else if v == 2 then Some(Yellow)
    else if v == 3 then Some(Red)
    else None
  }

  /** The integer value behind a `Zones` enum member. */
  function ZoneValue(z: Zones): (v: nat)
    ensures v <= TypeCount
    ensures v == 0 <==> z == Mixed
  {
    match z
    case Mixed => 0
    case BlueZone => 1
    case GreenZone => 2
    case YellowZone => 3
    case RedZone => 4
  }

  /** The zone that holds boxes of type `t`. */
  function ZoneOfType(t: Types): (z: Zones)
    ensures z != Mixed
    ensures ZoneValue(z) == TypeValue(t) + 1
  {
    match t
    case Blue => BlueZone
    case Green => GreenZone
    case Yellow => YellowZone
    case Red => RedZone
  }

  /** The generator's `colors[indY] switch`: colours 0..4 name Mixed, Blue,
      Green, Yellow and Red; any other value matches no arm. */
  function ZoneOfValue(v: int): (z: Option<Zones>)
    ensures z.Some? <==> 0 <= v <= TypeCount
    ensures z.Some? ==> ZoneValue(z.value) == v
  {
    if v == 0 then Some(Mixed)
    else if v == 1 then Some(BlueZone)
    else if v == 2 then Some(GreenZone)
    else if v == 3 then Some(YellowZone)
    else if v == 4 then Some(RedZone)
    else None
  }

  /** `Helpers.TypeName` over the enum's underlying value: a value outside
      0..3 throws `ArgumentOutOfRangeException`, modelled as `None`. */
  function TypeName(v: int): (name: Option<string>)
    ensures name.Some? <==> 0 <= v < TypeCount
  {
    if v == 0 then Some("Blue")
    else if v == 1 then Some("Green")
    else if v == 2 then Some("Yellow")
    else if v == 3 then Some("Red")
    else None
  }

  /** `TypeValue` and `TypeOfValue` are inverse: the four members are exactly
      the values 0..TypeCount-1, each named once. */
  lemma TypeValuesAreTheTypeRange()
    ensures forall t: Types :: TypeOfValue(TypeValue(t)) == Some(t)
    ensures forall t: Types, u: Types :: TypeValue(t) == TypeValue(u) ==> t == u
  {
  }

  /** The mixed zone is value 0 and every other zone is the zone of exactly
      the type whose value is one less. */
  lemma ZoneValuesOffsetTypes(z: Zones)
    ensures z == Mixed <==> ZoneValue(z) == 0
    ensures z != Mixed ==>
              TypeOfValue(ZoneValue(z) - 1).Some? && ZoneOfType(TypeOfValue(ZoneValue(z) - 1).value) == z
  {
  }

  /** Different in-range values get different names. */
  lemma TypeNameInjective(v: int, w: int)
    requires TypeName(v).Some? && TypeName(w).Some?
    requires TypeName(v) == TypeName(w)
    ensures v == w
  {
  }
}
