/**
 Laws of ChargeConverter::Convert over exact reals. Each switch is a linear
 map, the second undoes the first, and Convert is their composition; from this
 follow identity, round trip, composition through an intermediate unit and
 linearity of the whole conversion.
 */
module ChargeLaws {
  import opened ChargeUnits
  import opened ChargeConverter

  // ---- the two switches -------------------------------------------------

  /** Normalising and then scaling back with the same unit returns the value. */
  lemma FromToCoulomb(u: Unit, v: real)
    ensures FromCoulomb(ToCoulomb(u, v), u) == v
  {
    var c := ToCoulomb(u, v);
    assert ToCoulomb(u, FromCoulomb(c, u)) == c;
    ToCoulombInjective(u, FromCoulomb(c, u), v);
  }

  /** Distinct values of one unit denote distinct charges. */
  lemma ToCoulombInjective(u: Unit, x: real, y: real)
    ensures ToCoulomb(u, x) == ToCoulomb(u, y) <==> x == y
  {
  }

  /** The first switch commutes with scaling. */
  lemma ToCoulombHomogeneous(u: Unit, k: real, v: real)
    ensures ToCoulomb(u, k * v) == k * ToCoulomb(u, v)
  {
    if u != COULOMB {
      var f := Factor(u);
      assert ToCoulomb(u, k * v) == (k * v) / f;
      assert ToCoulomb(u, v) == v / f;
      DivisionIsLinear(f, k, v, v);
    }
  }

  /** The first switch commutes with sums. */
  lemma ToCoulombAdditive(u: Unit, v: real, w: real)
    ensures ToCoulomb(u, v + w) == ToCoulomb(u, v) + ToCoulomb(u, w)
  {
    if u != COULOMB {
      var f := Factor(u);
      assert ToCoulomb(u, v + w) == (v + w) / f;
      assert ToCoulomb(u, v) == v / f;
      assert ToCoulomb(u, w) == w / f;
      DivisionIsLinear(f, 1.0, v, w);
    }
  }

  /** The second switch commutes with scaling and sums. */
  lemma FromCoulombLinear(u: Unit, k: real, c: real, d: real)
    ensures FromCoulomb(k * c, u) == k * FromCoulomb(c, u)
    ensures FromCoulomb(c + d, u) == FromCoulomb(c, u) + FromCoulomb(d, u)
  {
  }

  /** Dividing by a fixed non-zero number commutes with scaling and sums. */
  lemma DivisionIsLinear(f: real, k: real, v: real, w: real)
    requires f != 0.0
    ensures (k * v) / f == k * (v / f)
    ensures (v + w) / f == v / f + w / f
  {
  }

  // ---- Convert ------------------------------------------------------------

  /** Converting to the same unit returns the value unchanged. */
  lemma ConvertIdentity(u: Unit, v: real)
    ensures Convert(u, v, u) == v
  {
    FromToCoulomb(u, v);
  }

  /** Converting through an intermediate unit equals converting directly. */
  lemma ConvertComposition(a: Unit, b: Unit, c: Unit, v: real)
    ensures Convert(b, Convert(a, v, b), c) == Convert(a, v, c)
  {
    var coulomb := ToCoulomb(a, v);
    assert ToCoulomb(b, FromCoulomb(coulomb, b)) == coulomb;
  }

  /** Converting there and back returns the original value. */
  lemma ConvertRoundTrip(a: Unit, b: Unit, v: real)
    ensures Convert(b, Convert(a, v, b), a) == v
  {
    ConvertComposition(a, b, a, v);
    ConvertIdentity(a, v);
  }

  /** Convert commutes with scaling: Convert(a, k*v, b) == k * Convert(a, v, b). */
  lemma ConvertHomogeneous(a: Unit, b: Unit, k: real, v: real)
    ensures Convert(a, k * v, b) == k * Convert(a, v, b)
  {
    NormaliseScaled(a, b, k, v);
    ScaleScaled(a, b, k, v);
  }

  // Step 1 of ConvertHomogeneous: scale the value before normalising.
  lemma NormaliseScaled(a: Unit, b: Unit, k: real, v: real)
    ensures Convert(a, k * v, b) == FromCoulomb(k * ToCoulomb(a, v), b)
  {
    ToCoulombHomogeneous(a, k, v);
  }

  // Step 2 of ConvertHomogeneous: scale the coulomb value before the second switch.
  lemma ScaleScaled(a: Unit, b: Unit, k: real, v: real)
    ensures FromCoulomb(k * ToCoulomb(a, v), b) == k * Convert(a, v, b)
  {
    FromCoulombLinear(b, k, ToCoulomb(a, v), 0.0);
  }

  /** Convert commutes with sums, and maps zero to zero. */
  lemma ConvertAdditive(a: Unit, b: Unit, v: real, w: real)
    ensures Convert(a, v + w, b) == Convert(a, v, b) + Convert(a, w, b)
    ensures Convert(a, 0.0, b) == 0.0
  {
    NormaliseSum(a, b, v, w);
    ScaleSum(a, b, v, w);
    ConvertHomogeneous(a, b, 0.0, v);
  }

  // Step 1 of ConvertAdditive: split the sum before normalising.
  lemma NormaliseSum(a: Unit, b: Unit, v: real, w: real)
    ensures Convert(a, v + w, b) == FromCoulomb(ToCoulomb(a, v) + ToCoulomb(a, w), b)
  {
    ToCoulombAdditive(a, v, w);
  }

  // Step 2 of ConvertAdditive: split the sum of coulomb values before the second switch.
  lemma ScaleSum(a: Unit, b: Unit, v: real, w: real)
    ensures FromCoulomb(ToCoulomb(a, v) + ToCoulomb(a, w), b) == Convert(a, v, b) + Convert(a, w, b)
  {
    FromCoulombLinear(b, 1.0, ToCoulomb(a, v), ToCoulomb(a, w));
  }

  /** Convert multiplies by the ratio of the output factor to the input factor. */
  lemma ConvertScales(a: Unit, v: real, b: Unit)
    ensures Convert(a, v, b) == v * (Factor(b) / Factor(a))
  {
  }

  /** All factors being positive, Convert keeps order and sign. */
  lemma ConvertMonotone(a: Unit, b: Unit, v: real, w: real)
    ensures v <= w <==> Convert(a, v, b) <= Convert(a, w, b)
    ensures v > 0.0 <==> Convert(a, v, b) > 0.0
  {
  }

  /** The coulomb cases are pass-throughs: from coulombs the result is the value
      times the output factor, into coulombs the value over the input factor. */
  lemma CoulombPassThrough(u: Unit, v: real)
    ensures Convert(COULOMB, v, u) == v * Factor(u)
    ensures Convert(u, v, COULOMB) == v / Factor(u)
  {
  }

  /** A non-zero value is left unchanged exactly when both units are the same. */
  lemma ConvertFixesValueIff(a: Unit, b: Unit, v: real)
    requires v != 0.0
    ensures Convert(a, v, b) == v <==> a == b
  {
  }

  /** Reference values of the table. */
  lemma ConcreteConversions()
    ensures Convert(COULOMB, 1.0, MILLICOULOMB) == 1000.0
    ensures Convert(COULOMB, 1.0, NANOCOULOMB) == 1000000000.0
    ensures Convert(AMPERE_HOURS, 1.0, COULOMB) == 1.0 / 0.00027778
    ensures Convert(KILOCOULOMB, 1.0, COULOMB) == 10000.0
    ensures Convert(MICROCOULOMB, 1000.0, MILLICOULOMB) == 1.0
  {
  }
}
