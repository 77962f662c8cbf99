/**
 How the borders read their thickness and colours from the configuration
 registry. The registry itself is foreign: each key's lookup arrives as an
 input telling whether the key is missing, present but not a number, or a
 number.
 */
module BorderConfig {
  import opened RustTypes

  /** One registry lookup: `None` when the key is missing, `Some(None)` when its value is not numeric. */
  type Lookup = Option<Option<real>>

  /** A colour, identified with the packed 32-bit value it is converted from. */
  datatype Color = Color(packed: u32)

  /** The three keys the borders read: `border_size`, `border_color` and `active_border_color`. */
  datatype Registry = Registry(borderSize: Lookup, borderColor: Lookup, activeBorderColor: Lookup)

  /**
   The lookup pipeline every key goes through: a missing key is an error,
   a value that is not a number reads as 0, and a number goes through the
   `<= 0.0` guard and the cast to `u32`.
   */
  function Resolve(lookup: Lookup): (r: Option<u32>)
    ensures r.None? <==> lookup.None?
    ensures lookup == Some(None) ==> r == Some(0)
    ensures lookup.Some? && lookup.value.Some? ==> r == Some(F64ToU32(lookup.value.value))
  {
    match lookup
    case None => None
    case Some(data) =>
      match data
      case None => Some(0)
      case Some(num) => Some(if num <= 0.0 then 0 else F64ToU32(num))
  }

  /** True when the lookup found a number of at least one, the only values that survive truncation. */
  predicate AtLeastOne(lookup: Lookup) {
    lookup.Some? && lookup.value.Some? && lookup.value.value >= 1.0
  }

  /** `Borders::thickness`: the configured border size, 0 whenever it is missing or unusable. */
  function Thickness(reg: Registry): (t: u32)
    ensures t == 0 <==> !AtLeastOne(reg.borderSize)
    ensures reg.borderSize.None? || reg.borderSize == Some(None) ==> t == 0
    ensures AtLeastOne(reg.borderSize) && reg.borderSize.value.value < TWO_POW_32 as real ==>
              t as real <= reg.borderSize.value.value < t as real + 1.0
    ensures AtLeastOne(reg.borderSize) && reg.borderSize.value.value >= TWO_POW_32 as real ==> t == U32_MAX
  {
    Resolve(reg.borderSize).UnwrapOr(0)
  }

  /** `Borders::default_color`: the configured colour, or packed 0 when missing or unusable. */
  function DefaultColor(reg: Registry): (c: Color)
    ensures reg.borderColor.None? ==> c == Color(0)
    ensures reg.borderColor == Some(None) ==> c == Color(0)
    ensures c.packed != 0 ==> AtLeastOne(reg.borderColor)
    ensures reg.borderColor.Some? && reg.borderColor.value.Some? ==>
      c == Color(F64ToU32(reg.borderColor.value.value))
  {
    Color(Resolve(reg.borderColor).UnwrapOr(0))
  }

  /**
   `Borders::active_color`: no override only when the key is missing; a
   value that is not a number still gives the colour with packed value 0.
   */
  function ActiveColor(reg: Registry): (c: Option<Color>)
    ensures c.None? <==> reg.activeBorderColor.None?
    ensures reg.activeBorderColor == Some(None) ==> c == Some(Color(0))
    ensures c.Some? && c.value.packed != 0 ==> AtLeastOne(reg.activeBorderColor)
    ensures reg.activeBorderColor.Some? && reg.activeBorderColor.value.Some? ==>
      c == Some(Color(F64ToU32(reg.activeBorderColor.value.value)))
  {
    match Resolve(reg.activeBorderColor)
    case None => None
    case Some(v) => Some(Color(v))
  }

  /** The active and the default colour resolve the same value the same way. */
  lemma ActiveAgreesWithDefault(reg: Registry)
    requires reg.activeBorderColor == reg.borderColor
    ensures ActiveColor(reg).Some? ==> ActiveColor(reg).value == DefaultColor(reg)
  {
  }
}
