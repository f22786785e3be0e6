# ElectricConv charge converter in Dafny

This project models `ElectricConv::ChargeConverter`, the electric-charge converter of the ElectricConv library. The converter has two parts:

- **The unit table.** Twelve charge units are declared in the `UNITS` enumeration. Each unit has one `const double` factor meaning "how many of this unit make one coulomb". The coulomb's own factor is 1.
- **`Convert(inUnit, inVal, outUnit)`.** A first `switch` normalises the value to coulombs by dividing by the input unit's factor. A second `switch` scales the coulomb value by multiplying by the output unit's factor. In both switches COULOMB passes the value through unchanged. A unit value that matches no `case` reaches the `default:` branch, which leaves the accumulator at its initial `0.0`.

The model has three modules:

- `ChargeUnits` (`charge_units.dfy`): the `Unit` datatype in declaration order and `Factor`, with the header's values written exactly. It also holds the enumerator ordinals (`Ordinal`, `FromOrdinal`) and lemmas about the table.
- `ChargeConverter` (`charge_converter.dfy`): the two switches as `ToCoulomb` and `FromCoulomb`, and `Convert` as their composition. `ConvertOrd` is `Convert` on raw integer enumeration values, with the silent `0.0` fallback for values outside 0..11.
- `ChargeLaws` (`charge_laws.dfy`): laws of the conversion over exact reals. These are identity, round trip, composition through an intermediate unit, linearity, monotonicity, the coulomb pass-throughs, and the reference values of the table.

`Convert` is modelled as a pure function of its three arguments. The C++ member function reads only the constant factors and changes nothing, so there is no state to model.

Two behaviours of the code are kept as written:

- **Unrecognised unit values.** The code has no invalid-unit error: a unit value that names no enumerator yields `0.0` silently (`src/ElectricConv.cpp:7-8`, `:60-61`, `:114-115`); `ConvertOrd` models this.
- **The kilocoulomb factor.** It is `0.0001` as written (`include/ElectricConv.h:36`), not the SI value `0.001`. `LargeUnitsAsWritten` records what follows from it: by this table one kilocoulomb is 10000 coulombs, and one megacoulomb is 100 kilocoulombs.

## Model

| member | source | states |
|---|---|---|
| `ChargeUnits.Factor` | include/ElectricConv.h:23-57 | every unit's factor is strictly positive, so every division in `Convert` is defined |
| `ChargeUnits.Ordinal` | include/ElectricConv.h:62-88 | each enumerator's value is below 12 and equals its position in the declaration |
| `ChargeUnits.FromOrdinal` | include/ElectricConv.h:62-88 | an integer names an enumerator exactly when it lies in 0..11, and then it names the one whose ordinal it is |
| `ChargeUnits.EnumerationIsExact` | include/ElectricConv.h:62-88 | `UNITS` has exactly twelve distinct members; every unit is one of them, with ordinals COULOMB=0 through ELEMENTARY_CHARGE=11 in declared order |
| `ChargeUnits.OrdinalRoundTrip` | include/ElectricConv.h:62-88 | taking a unit's ordinal and reading it back as an enumeration value gives the same unit |
| `ChargeUnits.ReferenceFactorIsOne` | include/ElectricConv.h:23-57 | the coulomb factor is exactly 1, and no other unit has factor 1 |
| `ChargeUnits.FactorInjective` | include/ElectricConv.h:23-57 | no two units share a factor (the unit-to-factor table is one to one) |
| `ChargeUnits.SubUnitsArePowersOfTen` | include/ElectricConv.h:23-33 | nC = 1000·uC, uC = 1000·mC, mC = 1000·C |
| `ChargeUnits.LargeUnitsAsWritten` | include/ElectricConv.h:23-39 | MC < kC < C; kC is 100·MC and 1/10000 of C, as written |
| `ChargeConverter.ToCoulomb` | src/ElectricConv.cpp:10-62 | the first switch's result, in coulombs, times the input unit's factor gives back the input value |
| `ChargeConverter.FromCoulomb` | src/ElectricConv.cpp:64-116 | the second switch is undone by the first: normalising its result with the same unit gives back the coulomb value |
| `ChargeConverter.Convert` | src/ElectricConv.cpp:3-119 | the result in the output unit denotes the same number of coulombs as the input in the input unit |
| `ChargeConverter.ConvertOrd` | src/ElectricConv.cpp:3-119 | an input or an output value outside 0..11 yields 0.0; values that name enumerators give `Convert` of those units |
| `ChargeLaws.FromToCoulomb` | src/ElectricConv.cpp:10-116 | normalising and scaling back with the same unit returns the value |
| `ChargeLaws.ToCoulombInjective` | src/ElectricConv.cpp:10-62 | two values of one unit have the same coulomb value exactly when they are equal |
| `ChargeLaws.ToCoulombHomogeneous` | src/ElectricConv.cpp:10-62 | the first switch commutes with scaling |
| `ChargeLaws.ToCoulombAdditive` | src/ElectricConv.cpp:10-62 | the first switch commutes with sums |
| `ChargeLaws.FromCoulombLinear` | src/ElectricConv.cpp:64-116 | the second switch commutes with scaling and with sums |
| `ChargeLaws.ConvertIdentity` | src/ElectricConv.cpp:10-116 | `Convert(u, v, u) == v` for every unit and value |
| `ChargeLaws.ConvertComposition` | src/ElectricConv.cpp:10-116 | converting through an intermediate unit equals converting directly |
| `ChargeLaws.ConvertRoundTrip` | src/ElectricConv.cpp:10-116 | `Convert(b, Convert(a, v, b), a) == v` for all units |
| `ChargeLaws.ConvertHomogeneous` | src/ElectricConv.cpp:13-111 | `Convert(a, k*v, b) == k * Convert(a, v, b)` |
| `ChargeLaws.ConvertAdditive` | src/ElectricConv.cpp:13-111 | `Convert` of a sum is the sum of the conversions, and 0 converts to 0 |
| `ChargeLaws.ConvertScales` | src/ElectricConv.cpp:10-116 | the conversion multiplies the value by the output factor over the input factor |
| `ChargeLaws.ConvertMonotone` | src/ElectricConv.cpp:10-116 | the conversion preserves order and sign of the value, in both directions |
| `ChargeLaws.CoulombPassThrough` | src/ElectricConv.cpp:12-67 | from COULOMB the result is the value times the output factor; into COULOMB it is the value over the input factor |
| `ChargeLaws.ConvertFixesValueIff` | src/ElectricConv.cpp:10-116 | a non-zero value comes out unchanged exactly when input and output units are the same |
| `ChargeLaws.ConcreteConversions` | src/ElectricConv.cpp:10-79 | 1 C is 1000 mC and 10^9 nC; 1 Ah is 1/0.00027778 C exactly; 1 kC is 10000 C as written; 1000 uC is 1 mC |

## Left out

- IEEE-754 double arithmetic: values and factors are exact reals. Rounding, NaN and infinity propagation are not modelled. Identity and round trip therefore hold exactly rather than within a tolerance, and 1 Ah converts to the exact quotient 1/0.00027778 rather than to a rounded double.
- Physical correctness of the constants: they are encoded as written and not corrected. This includes kC = 0.0001 and the Faraday, statcoulomb and elementary-charge values.
- `CapacityConverter` (include/ElectricConv.h:10-13): it is an empty placeholder with no behaviour.
- C++ packaging: the header guard, the namespace, and the non-static `const` members that need an instance. None of them carries behaviour.
- Other quantities (capacitance, current, resistance and so on): no code for them is part of this model.
- An explicit "invalid unit" error: the code has none. It returns `0.0`, which `ConvertOrd` models.
