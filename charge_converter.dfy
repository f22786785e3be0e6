/**
 ChargeConverter::Convert: normalise the input value to coulombs with the
 input unit's factor, then scale the coulomb value to the output unit.
 */
module ChargeConverter {
  import opened ChargeUnits

  /** The first switch: the input value expressed in coulombs. COULOMB passes
      the value through; every other unit divides by its factor. */
  function ToCoulomb(u: Unit, v: real): (c: real)
    ensures c * Factor(u) == v
  {
    match u
    case COULOMB => v
    case _ => v / Factor(u)
  }

  /** The second switch: a coulomb value expressed in unit `u`. COULOMB passes
      the value through; every other unit multiplies by its factor. It undoes
      the first switch. */
  function FromCoulomb(c: real, u: Unit): (r: real)
    ensures ToCoulomb(u, r) == c
  {
    match u
    case COULOMB => c
    case _ => c * Factor(u)
  }

  /** Converts `v` of unit `inUnit` to `outUnit`: the result denotes the same
      charge, i.e. the same number of coulombs. */
  function Convert(inUnit: Unit, v: real, outUnit: Unit): (r: real)
    ensures ToCoulomb(outUnit, r) == ToCoulomb(inUnit, v)
  {
    FromCoulomb(ToCoulomb(inUnit, v), outUnit)
  }

  /** Convert applied to raw enumeration values. UNITS has no fixed underlying
      type, so a well-defined program can pass only 0..15; 12..15 match no
      enumerator and fall to the `default:` branch of their switch, which leaves
      the accumulator at its initial 0.0. The model extends this 0.0 to every
      integer outside 0..11. */
  function ConvertOrd(inOrd: int, v: real, outOrd: int): (r: real)
    ensures !(0 <= inOrd < UnitCount) ==> r == 0.0
    ensures !(0 <= outOrd < UnitCount) ==> r == 0.0
    ensures forall a, b :: inOrd == Ordinal(a) && outOrd == Ordinal(b) ==> r == Convert(a, v, b)
  {
    var coulomb :=
      match FromOrdinal(inOrd)
      case Some(a) => ToCoulomb(a, v)
      case None => 0.0;
    match FromOrdinal(outOrd)
    case Some(b) => FromCoulomb(coulomb, b)
    case None => 0.0
  }
}
