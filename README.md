# Position calculator: net and boxed positions

This project models and proves properties of the two calculations of the
`PositionCalculator` class. Both take a batch of trade positions (trader,
broker, symbol, signed quantity, price).

- **Net positions** group the positions by (trader, symbol) and sum the signed
  quantities. There is one record per pair, and a pair that nets to zero is
  still reported.
- **Boxed positions** first net the quantities per (trader, broker, symbol).
  Brokers that net to exactly zero are dropped. The positive broker nets are
  summed into a long pool and the negative ones into a short pool, both keyed
  by (trader, symbol). Every key found in both pools gets one record of
  `min(long, |short|)`. Because of the broker-level step, buying and selling
  at the same broker never creates a box on its own.

Modules:

- `Domain` (`domain.dfy`): the three immutable records `Position`,
  `NetPosition` and `BoxedPosition`. A C# `decimal` is modelled as an exact
  `real`. The datatype constructors are the C# constructors, and the
  destructors are the getters.
- `Equality` (`equality.dfy`): the C# `Equals(object)` and `GetHashCode()` of
  the two output records. It works over a small object model: a reference is
  null or has an identity and an object of some runtime type. This is needed
  because `Equals` tests null, reference identity and runtime type before it
  compares fields.
- `Aggregation` (`aggregation.dfy`): what the calculations compute, defined
  without loops:
  - per-key sums over the input (`SumQtyBy`, `KeysBy`);
  - the broker-level nets (`BrokerNets`);
  - the long and short pools, as sums over sets of broker keys (`SumOver`,
    `LongBrokers`, `ShortBrokers`, `LongTotal`, `ShortTotal`);
  - the expected output sets (`ExpectedNetPositions`, `ExpectedBoxedPositions`);
  - the lemmas about all of these.
- `PositionCalculator` (`calculator.dfy`): the two C# methods, one Dafny method
  per source loop. Each `Dictionary` is a local `map` that the loop reassigns.
  A `foreach` over a dictionary becomes a loop that picks any key not yet
  visited, because dictionary order is undefined. Each method is proved
  against the `Aggregation` definitions.
- `TestVectors` (`test_vectors.dfy`): the unit-test facts and the scenarios in
  the comment above `calculateBoxedPositions`, stated as lemmas about the
  expected outputs.

Outputs are compared as collections, not ordered lists, because the source
leaves their order undefined. Each calculation method ensures two things:
- no two records share a (trader, symbol);
- a record is in the output exactly when it is in the expected set.

Those two facts determine the output as a multiset.

## Model

| member | source | states |
|---|---|---|
| `PositionCalculator.NetByTraderAndSymbol` | PositionCalculator/PositionCalculator.cs:12-28 | the map holds exactly the (trader, symbol) keys of the input, each with the sum of the quantities of its positions |
| `PositionCalculator.EmitNetPositions` | PositionCalculator/PositionCalculator.cs:30-42 | one NetPosition per map entry, with that entry's value and no filtering of zeros; no key twice; as many records as entries |
| `PositionCalculator.CalculateNetPositions` | PositionCalculator/PositionCalculator.cs:9-45 | one record per distinct (trader, symbol) of the input, with the sum of its quantities over all brokers, and nothing else |
| `PositionCalculator.NetByTraderAndBroker` | PositionCalculator/PositionCalculator.cs:91-109 | the map holds every (trader, broker, symbol) of the input with the sum of its quantities |
| `PositionCalculator.SeparateLongShort` | PositionCalculator/PositionCalculator.cs:114-153 | a key is in the long pool iff it has a strictly positive broker net, and its value is the sum of those nets, which is > 0; the same holds for the short pool with negative nets, where the sum is < 0; flat brokers are in neither |
| `PositionCalculator.PoolsStep` | PositionCalculator/PositionCalculator.cs:119-152 | visiting one broker key adds it to its own pool of its (trader, symbol) only, and adds its net to that pool's sum; a flat key changes nothing |
| `PositionCalculator.EmitBoxedPositions` | PositionCalculator/PositionCalculator.cs:155-174 | a record for (trader, symbol) iff the key is in both pools, with qty min(long, abs(short)); at most one per key |
| `PositionCalculator.CalculateBoxedPositions` | PositionCalculator/PositionCalculator.cs:79-177 | exactly the expected boxed records, at most one per (trader, symbol), each with a strictly positive quantity |
| `PositionCalculator.NetPositionsIgnoreOrder` | PositionCalculator/PositionCalculator.cs:15-42 | any two outputs with distinct keys holding exactly the expected net records of two permuted inputs are equal as multisets |
| `PositionCalculator.BoxedPositionsIgnoreOrder` | PositionCalculator/PositionCalculator.cs:96-174 | any two outputs with distinct keys holding exactly the expected boxed records of two permuted inputs are equal as multisets |
| `Aggregation.Min` | PositionCalculator/PositionCalculator.cs:168 | `Math.Min`: the result is at most both arguments and equals one of them |
| `Aggregation.Abs` | PositionCalculator/PositionCalculator.cs:168 | `Math.Abs`: the result is non-negative and is the argument or its negation |
| `Aggregation.SumQtyByAbsent` | PositionCalculator/PositionCalculator.cs:24-27 | a key that does not occur sums to 0, so the first position of a key is stored with its own quantity |
| `Aggregation.SumQtyBySnoc` | PositionCalculator/PositionCalculator.cs:19-27 | one more position adds its quantity to its own key only, and adds that key to the key set |
| `Aggregation.SumQtyByConcat` | PositionCalculator/PositionCalculator.cs:15-28 | the per-key sum of a concatenated input is the sum over the two parts |
| `Aggregation.SumQtyByRemoveAt` | PositionCalculator/PositionCalculator.cs:15-28 | removing any one position removes exactly its contribution from its key |
| `Aggregation.SumQtyByPermutation` | PositionCalculator/PositionCalculator.cs:15-28 | the per-key sums depend only on the multiset of positions, whatever their order |
| `Aggregation.KeysByPermutation` | PositionCalculator/PositionCalculator.cs:96-109 | the set of keys seen depends only on the multiset of positions |
| `Aggregation.SumOverRemove` | PositionCalculator/PositionCalculator.cs:128-152 | a pool sum over a set of broker keys can start from any of its keys, so the dictionary's visiting order does not matter |
| `Aggregation.SumOverInsert` | PositionCalculator/PositionCalculator.cs:131-137 | adding a broker key to a pool adds its net to the pool total |
| `Aggregation.SumOverPositive` | PositionCalculator/PositionCalculator.cs:128-139 | a non-empty sum of strictly positive nets is strictly positive |
| `Aggregation.SumOverNegative` | PositionCalculator/PositionCalculator.cs:140-152 | a non-empty sum of strictly negative nets is strictly negative |
| `Aggregation.SumOverAgree` | PositionCalculator/PositionCalculator.cs:117-153 | a pool sum reads only the nets of its own broker keys |
| `Aggregation.PoolSigns` | PositionCalculator/PositionCalculator.cs:117-153 | pool invariant: every long-pool total is > 0 and every short-pool total is < 0 |
| `Aggregation.ExpectedNetMembership` | PositionCalculator/PositionCalculator.cs:35-42 | a NetPosition is expected iff its key occurs in the input and its qty is that key's sum; a zero sum is still expected |
| `Aggregation.ExpectedNetOnePerKey` | PositionCalculator/PositionCalculator.cs:12-42 | exactly one expected NetPosition per distinct (trader, symbol); the number of records is the number of distinct keys |
| `Aggregation.BoxedMembership` | PositionCalculator/PositionCalculator.cs:159-174 | a boxed record is expected iff its key has both a strictly long and a strictly short broker net, with qty min(long total, abs(short total)) |
| `Aggregation.BoxedBounds` | PositionCalculator/PositionCalculator.cs:168 | a boxed qty is > 0, at most the long total, at most the absolute short total, and equal to one of them |
| `Aggregation.BoxedOnePerKey` | PositionCalculator/PositionCalculator.cs:160-173 | pools are summed, not matched pair by pair, so there is at most one boxed record per (trader, symbol) |
| `Aggregation.FlatBrokerIgnored` | PositionCalculator/PositionCalculator.cs:119-121 | a broker that nets to exactly zero can be dropped without changing any boxed record |
| `Aggregation.SingleBrokerNeverBoxed` | PositionCalculator/PositionCalculator.cs:47-69 | up-and-down at one broker is flattened first: a (trader, symbol) traded at a single broker is never boxed |
| `Aggregation.OneSignNeverBoxed` | PositionCalculator/PositionCalculator.cs:60-68 | if all broker nets of a (trader, symbol) have one sign, it is never boxed, even when single fills have the other sign |
| `Aggregation.ExpectedOrderIndependent` | PositionCalculator/PositionCalculator.cs:15-174 | the broker nets and both expected outputs depend only on the multiset of input positions |
| `Aggregation.ExpectedOfEmpty` | PositionCalculator/PositionCalculator.cs:15-28 | empty input gives no net positions, no broker nets and no boxed positions |
| `TestVectors.NetAcrossBrokers` | PositionCalculator.Tests/PositionCalculatorTests.cs:20-35 | Mike AAPL.N 100 at MS and 200 at ML give exactly {Mike, AAPL.N, 300} |
| `TestVectors.NetZeroReported` | PositionCalculator/PositionCalculator.cs:35-42 | +100 and -100 at two brokers give exactly {Mike, AAPL.N, 0}: zero nets are not filtered |
| `TestVectors.SimpleBox` | PositionCalculator.Tests/PositionCalculatorTests.cs:37-53 | +100 at MS and -70 at ML give exactly {Mike, AAPL.N, 70} |
| `TestVectors.BoxWithUpAndDownAtSameBroker` | PositionCalculator.Tests/PositionCalculatorTests.cs:62-80 | -30 and +70 at MS with -20 at DB give exactly {Mike, IBM.N, 20} |
| `TestVectors.NoBoxAtOneBroker` | PositionCalculator.Tests/PositionCalculatorTests.cs:82-97 | +100 and -70 at MS give no boxed record |
| `TestVectors.NoBoxWhenBrokersNetLong` | PositionCalculator.Tests/PositionCalculatorTests.cs:99-121 | -30 and +70 at MS with +50 at DB give no boxed record |
| `TestVectors.BoxAggregatedNotPairwise` | PositionCalculator/PositionCalculator.cs:70-77 | -30 and +70 at MS with -30 at DB give exactly {Mike, IBM.N, 30}, not 60 |
| `TestVectors.BoxedOfOneKey` | PositionCalculator/PositionCalculator.cs:159-174 | if every broker key belongs to one (trader, symbol), the boxed output is that key's single record when it is both long and short, and empty otherwise |
| `Domain.PositionGetters` | PositionCalculator/domain/Position.cs:7-49 | each of the five getters returns its constructor argument unchanged (qty keeps its sign), and the fields rebuild the record |
| `Domain.NetPositionGetters` | PositionCalculator/domain/NetPosition.cs:6-32 | the getters return the constructor's trader, symbol and qty |
| `Domain.BoxedPositionGetters` | PositionCalculator/domain/BoxedPosition.cs:6-33 | the getters return the constructor's trader, symbol and qty |
| `Equality.GetType` | PositionCalculator/domain/NetPosition.cs:38 | `GetType()` gives each of NetPosition, BoxedPosition and Position a runtime type of its own, and every other class a type apart from those |
| `Equality.NetPositionEquals` | PositionCalculator/domain/NetPosition.cs:34-45 | `NetPosition.Equals(obj)` holds iff `obj` is non-null and is either the same reference or a NetPosition with the same trader, symbol and qty; the `NetPositionEquals*` lemmas below state the null, identity, type and field cases one by one |
| `Equality.BoxedPositionEquals` | PositionCalculator/domain/BoxedPosition.cs:35-46 | `BoxedPosition.Equals(obj)` holds iff `obj` is non-null and is either the same reference or a BoxedPosition with the same trader, symbol and qty; the `BoxedPositionEquals*` lemmas below state the cases one by one |
| `Equality.Equals` | PositionCalculator/domain/NetPosition.cs:34-45 | the virtual `Equals`: value equality for the two overriding records, the reference equality of `object.Equals` for Position and the other modelled classes, which are classes that do not override `Equals` |
| `Equality.NetPositionHashCode` | PositionCalculator/domain/NetPosition.cs:47-50 | `GetHashCode` depends on trader, symbol and qty only; its property, that equal records hash equally, is `NetPositionHashConsistent` |
| `Equality.BoxedPositionHashCode` | PositionCalculator/domain/BoxedPosition.cs:48-51 | `GetHashCode` depends on trader, symbol and qty only; its property, that equal records hash equally, is `BoxedPositionHashConsistent` |
| `Equality.NetPositionEqualsNull` | PositionCalculator/domain/NetPosition.cs:36 | `Equals(null)` is false |
| `Equality.NetPositionEqualsReflexive` | PositionCalculator/domain/NetPosition.cs:37 | a NetPosition equals itself |
| `Equality.NetPositionEqualsOtherType` | PositionCalculator/domain/NetPosition.cs:38 | a NetPosition never equals an object of another runtime type |
| `Equality.NetPositionEqualsFieldWise` | PositionCalculator/domain/NetPosition.cs:34-45 | against another NetPosition, `Equals` holds iff trader, symbol and qty are all equal, i.e. iff the records are equal |
| `Equality.NetPositionEqualsSymmetric` | PositionCalculator/domain/NetPosition.cs:34-45 | `Equals` between NetPositions is symmetric |
| `Equality.NetPositionHashConsistent` | PositionCalculator/domain/NetPosition.cs:47-50 | equal NetPositions have equal hash codes, for any hash of the three fields |
| `Equality.BoxedPositionEqualsNull` | PositionCalculator/domain/BoxedPosition.cs:37 | `Equals(null)` is false |
| `Equality.BoxedPositionEqualsReflexive` | PositionCalculator/domain/BoxedPosition.cs:38 | a BoxedPosition equals itself |
| `Equality.BoxedPositionEqualsOtherType` | PositionCalculator/domain/BoxedPosition.cs:39 | a BoxedPosition never equals an object of another runtime type |
| `Equality.BoxedPositionEqualsFieldWise` | PositionCalculator/domain/BoxedPosition.cs:35-46 | against another BoxedPosition, `Equals` holds iff trader, symbol and qty are all equal |
| `Equality.BoxedPositionEqualsSymmetric` | PositionCalculator/domain/BoxedPosition.cs:35-46 | `Equals` between BoxedPositions is symmetric |
| `Equality.BoxedPositionHashConsistent` | PositionCalculator/domain/BoxedPosition.cs:48-51 | equal BoxedPositions have equal hash codes, for any hash of the three fields |
| `Equality.EqualsSymmetric` | PositionCalculator/domain/NetPosition.cs:34-45 | the virtual `Equals` is symmetric between the two records and classes keeping `object.Equals`; a NetPosition never equals a BoxedPosition |

## Left out

- The console client, which handles argument checks, file reading, CSV splitting, decimal parsing and printing. It is I/O around the core. PositionCalculator.ClientApp/PositionCalculatorClientApp.cs is not part of this model.
- The file-driven theory test and its CSV helpers in PositionCalculator.Tests/PositionCalculatorTests.cs, which are file I/O. The fact tests appear as the `TestVectors` lemmas.
- The limits of C# `decimal`: 28–29 significant digits, and `OverflowException` on addition. Quantities are unbounded exact reals, so overflow is not modelled. Decimal scale (`1.0m` vs `1.00m`) is not modelled either; `decimal.Equals` compares numeric values, so this does not affect equality.
- The concrete hash behind `new { Trader, Symbol, Qty }.GetHashCode()`, a library function. It is the parameter `fieldHash` of `NetPositionHashCode` and `BoxedPositionHashCode`.
- The enumeration order of `Dictionary`. Loops over a dictionary pick any key not yet visited, and outputs are compared as multisets.
- Reference identity beyond the `ReferenceEquals(this, obj)` shortcut. `SameHeap` only says that one identity reaches one object; aliasing is not modelled further. The model keeps object identity only so that `Equals` keeps its null, identity and type tests.
- `IEnumerable`/`List` as input and output types. The input is a Dafny `seq` and each output is a `seq` built by appending, which matches `List.Add`.
- Equality.Equals: classes that override `Equals` themselves (string, `Tuple`, boxed `decimal`, anonymous types, user classes) are not modelled; `OtherObject` stands only for classes that keep `object.Equals`. Such an override could be asymmetric, so `Equality.EqualsSymmetric` is stated only for the modelled classes. The records reject every other runtime type before comparing (NetPosition.cs:38, BoxedPosition.cs:39), so this does not affect them.
- Null references: null strings, null list elements and a null input. Dafny strings, records and sequences cannot be null, so the model never throws where the C# code throws `NullReferenceException`: in `Equals` when this record's trader is null (NetPosition.cs:42, BoxedPosition.cs:43), on a null element of `positions` (PositionCalculator.cs:18, :99) and on a null `positions` (PositionCalculator.cs:15, :96). Every caller (the client app, which builds each field with `Split`, and the unit tests, which use string literals) passes non-null strings.
- Position.cs declares the record immutable by having no setters. The model gets this for free from Dafny datatypes and states no lemma for it.
