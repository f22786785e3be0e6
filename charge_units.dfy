/**
 The electric-charge unit table of ElectricConv's ChargeConverter: the twelve
 supported units in their declared order, and for each unit its conversion
 factor, "how many of this unit make one coulomb". Double-precision factors
 are modelled as exact reals with the values written in the header.
 */
module ChargeUnits {

  datatype Option<+T> = None | Some(value: T)

  /** The supported charge units, in the order of the UNITS enumeration. */
  datatype Unit =
    | COULOMB
    | NANOCOULOMB
    | MICROCOULOMB
    | MILLICOULOMB
    | KILOCOULOMB
    | MEGACOULOMB
    | ABCOULOMB
    | MILLIAMPERE_HOURS
    | AMPERE_HOURS
    | FARADAY
    | STATCOULOMB
    | ELEMENTARY_CHARGE

  /** Number of members of the enumeration. */
  const UnitCount: nat := 12

  /** The members of the enumeration, listed in declaration order. */
  const AllUnits: seq<Unit> := [
    COULOMB, NANOCOULOMB, MICROCOULOMB, MILLICOULOMB, KILOCOULOMB, MEGACOULOMB,
    ABCOULOMB, MILLIAMPERE_HOURS, AMPERE_HOURS, FARADAY, STATCOULOMB, ELEMENTARY_CHARGE
  ]

  /** The factor constant of a unit: how many of `u` equal one coulomb.
      Each case is one of the header's `const double` members, value as written. */
  function Factor(u: Unit): (f: real)
    ensures f > 0.0
  {
    match u
    case COULOMB => 1.0                   // C
    case NANOCOULOMB => 1000000000.0      // nC
    case MICROCOULOMB => 1000000.0        // uC
    case MILLICOULOMB => 1000.0           // mC
    case KILOCOULOMB => 0.0001            // kC
    case MEGACOULOMB => 0.000001          // MC
    case ABCOULOMB => 0.1                 // abC
    case MILLIAMPERE_HOURS => 0.27777778  // mAh
    case AMPERE_HOURS => 0.00027778       // Ah
    case FARADAY => 0.00001036            // F
    case STATCOULOMB => 2997924580.0      // statC
    case ELEMENTARY_CHARGE => 6.24150947e18  // e
  }

  /** The ordinal the C++ compiler gives each enumerator (implicit numbering from 0). */
  function Ordinal(u: Unit): (n: nat)
    ensures n < UnitCount
    ensures AllUnits[n] == u
  {
    match u
    case COULOMB => 0
    case NANOCOULOMB => 1
    case MICROCOULOMB => 2
    case MILLICOULOMB => 3
    case KILOCOULOMB => 4
    case MEGACOULOMB => 5
    case ABCOULOMB => 6
    case MILLIAMPERE_HOURS => 7
    case AMPERE_HOURS => 8
    case FARADAY => 9
    case STATCOULOMB => 10
    case ELEMENTARY_CHARGE => 11
  }

  /** The enumerator with the given integer value, if there is one; a value
      outside 0..11 matches no `case` label of a switch over UNITS. */
  function FromOrdinal(i: int): (o: Option<Unit>)
    ensures o.Some? <==> 0 <= i < UnitCount
    ensures o.Some? ==> Ordinal(o.value) == i
  {
    if 0 <= i < UnitCount then Some(AllUnits[i]) else None
  }

  /** The enumeration has exactly twelve distinct members, every unit is one
      of them, and their ordinals are 0..11 in declared order. */
  lemma EnumerationIsExact()
    ensures |AllUnits| == UnitCount == 12
    ensures forall u: Unit :: u in AllUnits
    ensures forall i :: 0 <= i < UnitCount ==> Ordinal(AllUnits[i]) == i
    ensures forall i, j :: 0 <= i < j < UnitCount ==> AllUnits[i] != AllUnits[j]
  {
    forall u: Unit ensures u in AllUnits {
      assert AllUnits[Ordinal(u)] == u;
    }
    forall i, j | 0 <= i < j < UnitCount ensures AllUnits[i] != AllUnits[j] {
      assert Ordinal(AllUnits[i]) == i;
    }
  }

  /** Reading a unit's ordinal back as an enumeration value gives the unit;
      with FromOrdinal's own contract, ordinals 0..11 and units correspond one to one. */
  lemma OrdinalRoundTrip(u: Unit)
    ensures FromOrdinal(Ordinal(u)) == Some(u)
  {
  }

  /** The reference unit has factor exactly 1. */
  lemma ReferenceFactorIsOne()
    ensures Factor(COULOMB) == 1.0
    ensures forall u :: Factor(u) == 1.0 <==> u == COULOMB
  {
  }

  /** No two units share a factor, so the table is a one-to-one mapping. */
  lemma FactorInjective(a: Unit, b: Unit)
    ensures Factor(a) == Factor(b) <==> a == b
  {
  }

  /** The metric sub-units step by powers of one thousand. */
  lemma SubUnitsArePowersOfTen()
    ensures Factor(NANOCOULOMB) == 1000.0 * Factor(MICROCOULOMB)
    ensures Factor(MICROCOULOMB) == 1000.0 * Factor(MILLICOULOMB)
    ensures Factor(MILLICOULOMB) == 1000.0 * Factor(COULOMB)
  {
  }

  /** The large units have factors below one and in size order. The kilocoulomb
      factor is 0.0001 as written: by this table a kilocoulomb is 10000 coulombs
      and a megacoulomb only 100 kilocoulombs, where SI has 1000 for both. */
  lemma LargeUnitsAsWritten()
    ensures Factor(MEGACOULOMB) < Factor(KILOCOULOMB) < Factor(COULOMB)
    ensures Factor(KILOCOULOMB) == 100.0 * Factor(MEGACOULOMB)
    ensures Factor(KILOCOULOMB) * 10000.0 == Factor(COULOMB)
  {
  }
}
