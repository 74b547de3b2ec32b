/** The worked examples of the calculator: the unit tests of
    PositionCalculator.Tests and the scenarios of the comment above
    `calculateBoxedPositions`, stated about the expected outputs. */
module TestVectors {
  import opened Domain
  import opened Aggregation

  const mikeAapl := TraderSymbol("Mike", "AAPL.N")
  const mikeIbm := TraderSymbol("Mike", "IBM.N")

  /** When every broker key belongs to one (trader, symbol), the boxed output is
      that key's record if it is long somewhere and short somewhere, else nothing. */
  lemma BoxedOfOneKey(nets: map<TraderBrokerSymbol, Decimal>, ts: TraderSymbol)
    requires forall k :: k in nets ==> Project(k) == ts
    ensures BoxedOfNets(nets) ==
      if LongBrokers(nets, ts) != {} && ShortBrokers(nets, ts) != {}
      then {BoxedPosition(ts.trader, ts.symbol, Min(LongTotal(nets, ts), Abs(ShortTotal(nets, ts))))}
      else {}
  {
  }

  lemma KeysOfTwo<K>(a: Position, b: Position, key: Position -> K)
    ensures KeysBy([a, b], key) == {key(a), key(b)}
  {
  }

  lemma KeysOfThree<K>(a: Position, b: Position, c: Position, key: Position -> K)
    ensures KeysBy([a, b, c], key) == {key(a), key(b), key(c)}
  {
  }

  lemma SumOfTwo<K>(a: Position, b: Position, key: Position -> K, k: K)
    ensures SumQtyBy([a, b], key, k) == Contribution(a, key, k) + Contribution(b, key, k)
  {
    assert [a, b][..1] == [a] && [a][..0] == [];
    assert SumQtyBy([a], key, k) == Contribution(a, key, k);
  }

  lemma SumOfThree<K>(a: Position, b: Position, c: Position, key: Position -> K, k: K)
    ensures SumQtyBy([a, b, c], key, k) == Contribution(a, key, k) + Contribution(b, key, k) + Contribution(c, key, k)
  {
    assert [a, b, c][..2] == [a, b];
    SumOfTwo(a, b, key, k);
  }

  lemma SumOverSingleton(nets: map<TraderBrokerSymbol, Decimal>, k: TraderBrokerSymbol)
    requires k in nets
    ensures SumOver(nets, {k}) == nets[k]
  {
  }

  /** TestNetPosition: Mike AAPL.N 100 at MS and 200 at ML net to 300. */
  lemma NetAcrossBrokers()
    ensures ExpectedNetPositions([Position("Mike", "MS", "AAPL.N", 100.0, 20.0),
                                  Position("Mike", "ML", "AAPL.N", 200.0, 20.0)])
         == {NetPosition("Mike", "AAPL.N", 300.0)}
  {
    var ps := [Position("Mike", "MS", "AAPL.N", 100.0, 20.0), Position("Mike", "ML", "AAPL.N", 200.0, 20.0)];
    KeysOfTwo(ps[0], ps[1], NetKey);
    SumOfTwo(ps[0], ps[1], NetKey, mikeAapl);
  }

  /** A (trader, symbol) that nets to zero is still reported, with quantity 0. */
  lemma NetZeroReported()
    ensures ExpectedNetPositions([Position("Mike", "MS", "AAPL.N", 100.0, 20.0),
                                  Position("Mike", "ML", "AAPL.N", -100.0, 20.0)])
         == {NetPosition("Mike", "AAPL.N", 0.0)}
  {
    var ps := [Position("Mike", "MS", "AAPL.N", 100.0, 20.0), Position("Mike", "ML", "AAPL.N", -100.0, 20.0)];
    KeysOfTwo(ps[0], ps[1], NetKey);
    SumOfTwo(ps[0], ps[1], NetKey, mikeAapl);
  }

  /** TestBoxedPosition_Boxed: long 100 at MS, short 70 at ML box 70. */
  lemma SimpleBox()
    ensures ExpectedBoxedPositions([Position("Mike", "MS", "AAPL.N", 100.0, 20.0),
                                    Position("Mike", "ML", "AAPL.N", -70.0, 20.0)])
         == {BoxedPosition("Mike", "AAPL.N", 70.0)}
  {
    var ps := [Position("Mike", "MS", "AAPL.N", 100.0, 20.0), Position("Mike", "ML", "AAPL.N", -70.0, 20.0)];
    var ms, ml := BrokerKey(ps[0]), BrokerKey(ps[1]);
    assert ms != ml by { assert ms.broker[1] != ml.broker[1]; }
    KeysOfTwo(ps[0], ps[1], BrokerKey);
    SumOfTwo(ps[0], ps[1], BrokerKey, ms);
    SumOfTwo(ps[0], ps[1], BrokerKey, ml);
    var nets := BrokerNets(ps);
    assert nets[ms] == 100.0 && nets[ml] == -70.0;
    assert LongBrokers(nets, mikeAapl) == {ms};
    assert ShortBrokers(nets, mikeAapl) == {ml};
    SumOverSingleton(nets, ms);
    SumOverSingleton(nets, ml);
    BoxedOfOneKey(nets, mikeAapl);
  }

  /** TestBoxedPosition_BoxedWithUpAndDownAtSameBroker: -30 and +70 at MS flatten
      to +40, against -20 at DB this boxes 20. */
  lemma BoxWithUpAndDownAtSameBroker()
    ensures ExpectedBoxedPositions([Position("Mike", "MS", "IBM.N", -30.0, 20.0),
                                    Position("Mike", "MS", "IBM.N", 70.0, 20.0),
                                    Position("Mike", "DB", "IBM.N", -20.0, 20.0)])
         == {BoxedPosition("Mike", "IBM.N", 20.0)}
  {
    var ps := [Position("Mike", "MS", "IBM.N", -30.0, 20.0), Position("Mike", "MS", "IBM.N", 70.0, 20.0),
               Position("Mike", "DB", "IBM.N", -20.0, 20.0)];
    var ms, db := BrokerKey(ps[0]), BrokerKey(ps[2]);
    assert ms != db by { assert ms.broker[0] != db.broker[0]; }
    KeysOfThree(ps[0], ps[1], ps[2], BrokerKey);
    SumOfThree(ps[0], ps[1], ps[2], BrokerKey, ms);
    SumOfThree(ps[0], ps[1], ps[2], BrokerKey, db);
    var nets := BrokerNets(ps);
    assert nets[ms] == 40.0 && nets[db] == -20.0;
    assert LongBrokers(nets, mikeIbm) == {ms};
    assert ShortBrokers(nets, mikeIbm) == {db};
    SumOverSingleton(nets, ms);
    SumOverSingleton(nets, db);
    BoxedOfOneKey(nets, mikeIbm);
  }

  /** TestBoxedPosition_NoBoxed: +100 and -70 at the same broker never box. */
  lemma NoBoxAtOneBroker()
    ensures ExpectedBoxedPositions([Position("Mike", "MS", "AAPL.N", 100.0, 20.0),
                                    Position("Mike", "MS", "AAPL.N", -70.0, 20.0)])
         == {}
  {
  }

  /** TestBoxedPosition_NoBoxedWithUpAndDownAtSameBroker: net +40 at MS and +50 at
      DB are both long, so the -30 fill at MS boxes nothing. */
  lemma NoBoxWhenBrokersNetLong()
    ensures ExpectedBoxedPositions([Position("Mike", "MS", "IBM.N", -30.0, 20.0),
                                    Position("Mike", "MS", "IBM.N", 70.0, 20.0),
                                    Position("Mike", "DB", "IBM.N", 50.0, 20.0)])
         == {}
  {
    var ps := [Position("Mike", "MS", "IBM.N", -30.0, 20.0), Position("Mike", "MS", "IBM.N", 70.0, 20.0),
               Position("Mike", "DB", "IBM.N", 50.0, 20.0)];
    var ms, db := BrokerKey(ps[0]), BrokerKey(ps[2]);
    assert ms != db by { assert ms.broker[0] != db.broker[0]; }
    KeysOfThree(ps[0], ps[1], ps[2], BrokerKey);
    SumOfThree(ps[0], ps[1], ps[2], BrokerKey, ms);
    SumOfThree(ps[0], ps[1], ps[2], BrokerKey, db);
    var nets := BrokerNets(ps);
    assert nets[ms] == 40.0 && nets[db] == 50.0;
    assert ShortBrokers(nets, mikeIbm) == {};
    BoxedOfOneKey(nets, mikeIbm);
  }

  /** The comment's aggregated case: MS nets +40 against -30 at DB; the box is 30,
      one record, not 60 from matching the -30 and +70 fills pair by pair. */
  lemma BoxAggregatedNotPairwise()
    ensures ExpectedBoxedPositions([Position("Mike", "MS", "IBM.N", -30.0, 20.0),
                                    Position("Mike", "MS", "IBM.N", 70.0, 20.0),
                                    Position("Mike", "DB", "IBM.N", -30.0, 20.0)])
         == {BoxedPosition("Mike", "IBM.N", 30.0)}
  {
    var ps := [Position("Mike", "MS", "IBM.N", -30.0, 20.0), Position("Mike", "MS", "IBM.N", 70.0, 20.0),
               Position("Mike", "DB", "IBM.N", -30.0, 20.0)];
    var ms, db := BrokerKey(ps[0]), BrokerKey(ps[2]);
    assert ms != db by { assert ms.broker[0] != db.broker[0]; }
    KeysOfThree(ps[0], ps[1], ps[2], BrokerKey);
    SumOfThree(ps[0], ps[1], ps[2], BrokerKey, ms);
    SumOfThree(ps[0], ps[1], ps[2], BrokerKey, db);
    var nets := BrokerNets(ps);
    assert nets[ms] == 40.0 && nets[db] == -30.0;
    assert LongBrokers(nets, mikeIbm) == {ms};
    assert ShortBrokers(nets, mikeIbm) == {db};
    SumOverSingleton(nets, ms);
    SumOverSingleton(nets, db);
    BoxedOfOneKey(nets, mikeIbm);
  }
}
