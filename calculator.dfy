/** The two calculations of `PositionCalculator`, loop for loop. Each
    `Dictionary` accumulator is a local `map` that the loop reassigns; a
    `foreach` over a dictionary visits its keys in an order of its own
    choosing, so those loops pick any key not yet visited. */
module PositionCalculator {
  import opened Domain
  import opened Aggregation

  /** First loop of `calculateNetPositions`: sums the quantities per (trader, symbol). */
  method NetByTraderAndSymbol(positions: seq<Position>) returns (netQty: map<TraderSymbol, Decimal>)
    ensures netQty.Keys == KeysBy(positions, NetKey)
    ensures forall k :: k in netQty ==> netQty[k] == SumQtyBy(positions, NetKey, k)
  {
    netQty := map[];
    for i := 0 to |positions|
      invariant netQty.Keys == KeysBy(positions[..i], NetKey)
      invariant forall k :: k in netQty ==> netQty[k] == SumQtyBy(positions[..i], NetKey, k)
    {
      var position := positions[i];
      var traderSymbol := TraderSymbol(position.trader, position.symbol);
      assert positions[..i + 1] == positions[..i] + [position];
      forall k ensures SumQtyBy(positions[..i + 1], NetKey, k) ==
        SumQtyBy(positions[..i], NetKey, k) + Contribution(position, NetKey, k)
      {
        SumQtyBySnoc(positions[..i], position, NetKey, k);
      }
      SumQtyBySnoc(positions[..i], position, NetKey, traderSymbol);
      if traderSymbol in netQty {
        netQty := netQty[traderSymbol := netQty[traderSymbol] + position.qty];
      } else {
        SumQtyByAbsent(positions[..i], NetKey, traderSymbol);
        netQty := netQty[traderSymbol := position.qty];
      }
    }
    assert positions[..|positions|] == positions;
  }

  /** Second loop of `calculateNetPositions`: one NetPosition per map entry, zero nets included. */
  method EmitNetPositions(netQty: map<TraderSymbol, Decimal>) returns (netPositions: seq<NetPosition>)
    ensures |netPositions| == |netQty|
    ensures forall i, j :: 0 <= i < j < |netPositions| ==>
      NetPositionKey(netPositions[i]) != NetPositionKey(netPositions[j])
    ensures forall n :: n in netPositions <==>
      NetPositionKey(n) in netQty && n.qty == netQty[NetPositionKey(n)]
  {
    netPositions := [];
    var todo := netQty.Keys;
    ghost var done: set<TraderSymbol> := {};
    while todo != {}
      invariant todo + done == netQty.Keys && todo !! done
      invariant |netPositions| == |done|
      invariant forall i, j :: 0 <= i < j < |netPositions| ==>
        NetPositionKey(netPositions[i]) != NetPositionKey(netPositions[j])
      invariant forall n :: n in netPositions <==>
        NetPositionKey(n) in done && n.qty == netQty[NetPositionKey(n)]
      decreases todo
    {
      var key :| key in todo;
      var netPosition := NetPosition(key.trader, key.symbol, netQty[key]);
      assert forall n :: n in netPositions ==> NetPositionKey(n) != key;
      netPositions := netPositions + [netPosition];
      todo, done := todo - {key}, done + {key};
    }
    assert done == netQty.Keys;
  }

  /** `calculateNetPositions`: exactly one NetPosition per distinct (trader, symbol)
      of the input, carrying the sum of its quantities over all brokers. */
  method CalculateNetPositions(positions: seq<Position>) returns (netPositions: seq<NetPosition>)
    ensures |netPositions| == |KeysBy(positions, NetKey)|
    ensures forall i, j :: 0 <= i < j < |netPositions| ==>
      NetPositionKey(netPositions[i]) != NetPositionKey(netPositions[j])
    ensures forall n :: n in netPositions <==> n in ExpectedNetPositions(positions)
  {
    var netQty := NetByTraderAndSymbol(positions);
    netPositions := EmitNetPositions(netQty);
    forall n ensures n in netPositions <==> n in ExpectedNetPositions(positions) {
      ExpectedNetMembership(positions, n);
    }
  }

  /** First loop of `calculateBoxedPositions`: broker-level netting per (trader, broker, symbol). */
  method NetByTraderAndBroker(positions: seq<Position>) returns (brokerNets: map<TraderBrokerSymbol, Decimal>)
    ensures brokerNets.Keys == KeysBy(positions, BrokerKey)
    ensures forall k :: k in brokerNets ==> brokerNets[k] == SumQtyBy(positions, BrokerKey, k)
  {
    brokerNets := map[];
    for i := 0 to |positions|
      invariant brokerNets.Keys == KeysBy(positions[..i], BrokerKey)
      invariant forall k :: k in brokerNets ==> brokerNets[k] == SumQtyBy(positions[..i], BrokerKey, k)
    {
      var position := positions[i];
      var traderBrokerSymbol := TraderBrokerSymbol(position.trader, position.broker, position.symbol);
      assert positions[..i + 1] == positions[..i] + [position];
      forall k ensures SumQtyBy(positions[..i + 1], BrokerKey, k) ==
        SumQtyBy(positions[..i], BrokerKey, k) + Contribution(position, BrokerKey, k)
      {
        SumQtyBySnoc(positions[..i], position, BrokerKey, k);
      }
      SumQtyBySnoc(positions[..i], position, BrokerKey, traderBrokerSymbol);
      if traderBrokerSymbol in brokerNets {
        brokerNets := brokerNets[traderBrokerSymbol := brokerNets[traderBrokerSymbol] + position.qty];
      } else {
        SumQtyByAbsent(positions[..i], BrokerKey, traderBrokerSymbol);
        brokerNets := brokerNets[traderBrokerSymbol := position.qty];
      }
    }
    assert positions[..|positions|] == positions;
  }

  /** Second loop of `calculateBoxedPositions`: flat broker nets are skipped; the
      others are summed into a long pool or a short pool per (trader, symbol). */
  method SeparateLongShort(brokerNets: map<TraderBrokerSymbol, Decimal>)
    returns (longPositions: map<TraderSymbol, Decimal>, shortPositions: map<TraderSymbol, Decimal>)
    ensures forall ts :: ts in longPositions <==> LongBrokers(brokerNets, ts) != {}
    ensures forall ts :: ts in longPositions ==>
      longPositions[ts] == LongTotal(brokerNets, ts) && longPositions[ts] > 0.0
    ensures forall ts :: ts in shortPositions <==> ShortBrokers(brokerNets, ts) != {}
    ensures forall ts :: ts in shortPositions ==>
      shortPositions[ts] == ShortTotal(brokerNets, ts) && shortPositions[ts] < 0.0
  {
    longPositions, shortPositions := map[], map[];
    var todo := brokerNets.Keys;
    ghost var done: set<TraderBrokerSymbol> := {};
    while todo != {}
      invariant todo + done == brokerNets.Keys && todo !! done
      invariant forall ts :: ts in longPositions <==> LongBrokersIn(brokerNets, done, ts) != {}
      invariant forall ts :: ts in longPositions ==>
        longPositions[ts] == SumOver(brokerNets, LongBrokersIn(brokerNets, done, ts))
      invariant forall ts :: ts in shortPositions <==> ShortBrokersIn(brokerNets, done, ts) != {}
      invariant forall ts :: ts in shortPositions ==>
        shortPositions[ts] == SumOver(brokerNets, ShortBrokersIn(brokerNets, done, ts))
      decreases todo
    {
      var key :| key in todo;
      var qty := brokerNets[key];
      var traderSymbol := TraderSymbol(key.trader, key.symbol);
      PoolsStep(brokerNets, done, key);
      if qty > 0.0 {
        if traderSymbol in longPositions {
          longPositions := longPositions[traderSymbol := longPositions[traderSymbol] + qty];
        } else {
          longPositions := longPositions[traderSymbol := qty];
        }
      } else if qty < 0.0 {
        if traderSymbol in shortPositions {
          shortPositions := shortPositions[traderSymbol := shortPositions[traderSymbol] + qty];
        } else {
          shortPositions := shortPositions[traderSymbol := qty];
        }
      }
      todo, done := todo - {key}, done + {key};
    }
    assert done == brokerNets.Keys;
    forall ts ensures LongBrokers(brokerNets, ts) != {} ==> LongTotal(brokerNets, ts) > 0.0
      ensures ShortBrokers(brokerNets, ts) != {} ==> ShortTotal(brokerNets, ts) < 0.0
    {
      PoolSigns(brokerNets, ts);
    }
  }

  /** How visiting one more broker key changes the pools' key sets and sums. */
  lemma PoolsStep(nets: map<TraderBrokerSymbol, Decimal>, done: set<TraderBrokerSymbol>, key: TraderBrokerSymbol)
    requires done <= nets.Keys && key in nets && key !in done
    ensures forall ts :: ts != Project(key) || nets[key] <= 0.0 ==>
      LongBrokersIn(nets, done + {key}, ts) == LongBrokersIn(nets, done, ts)
    ensures forall ts :: ts != Project(key) || nets[key] >= 0.0 ==>
      ShortBrokersIn(nets, done + {key}, ts) == ShortBrokersIn(nets, done, ts)
    ensures nets[key] > 0.0 ==>
      LongBrokersIn(nets, done + {key}, Project(key)) == LongBrokersIn(nets, done, Project(key)) + {key}
      && SumOver(nets, LongBrokersIn(nets, done + {key}, Project(key)))
         == SumOver(nets, LongBrokersIn(nets, done, Project(key))) + nets[key]
    ensures nets[key] < 0.0 ==>
      ShortBrokersIn(nets, done + {key}, Project(key)) == ShortBrokersIn(nets, done, Project(key)) + {key}
      && SumOver(nets, ShortBrokersIn(nets, done + {key}, Project(key)))
         == SumOver(nets, ShortBrokersIn(nets, done, Project(key))) + nets[key]
  {
    var ts := Project(key);
    if nets[key] > 0.0 {
      assert LongBrokersIn(nets, done + {key}, ts) == LongBrokersIn(nets, done, ts) + {key};
      SumOverInsert(nets, LongBrokersIn(nets, done, ts), key);
    }
    if nets[key] < 0.0 {
      assert ShortBrokersIn(nets, done + {key}, ts) == ShortBrokersIn(nets, done, ts) + {key};
      SumOverInsert(nets, ShortBrokersIn(nets, done, ts), key);
    }
  }

  /** Third loop of `calculateBoxedPositions`: for every long key that is also
      short, one BoxedPosition of min(long, |short|). */
  method EmitBoxedPositions(longPositions: map<TraderSymbol, Decimal>, shortPositions: map<TraderSymbol, Decimal>)
    returns (boxedPositions: seq<BoxedPosition>)
    ensures forall i, j :: 0 <= i < j < |boxedPositions| ==>
      BoxedPositionKey(boxedPositions[i]) != BoxedPositionKey(boxedPositions[j])
    ensures forall b :: b in boxedPositions <==>
      && BoxedPositionKey(b) in longPositions && BoxedPositionKey(b) in shortPositions
      && b.qty == Min(longPositions[BoxedPositionKey(b)], Abs(shortPositions[BoxedPositionKey(b)]))
  {
    boxedPositions := [];
    var todo := longPositions.Keys;
    ghost var done: set<TraderSymbol> := {};
    while todo != {}
      invariant todo + done == longPositions.Keys && todo !! done
      invariant forall i, j :: 0 <= i < j < |boxedPositions| ==>
        BoxedPositionKey(boxedPositions[i]) != BoxedPositionKey(boxedPositions[j])
      invariant forall b :: b in boxedPositions <==>
        && BoxedPositionKey(b) in done && BoxedPositionKey(b) in shortPositions
        && b.qty == Min(longPositions[BoxedPositionKey(b)], Abs(shortPositions[BoxedPositionKey(b)]))
      decreases todo
    {
      var traderSymbol :| traderSymbol in todo;
      if traderSymbol in shortPositions {
        var netLong := longPositions[traderSymbol];
        var boxed := Min(netLong, Abs(shortPositions[traderSymbol]));
        assert forall b :: b in boxedPositions ==> BoxedPositionKey(b) != traderSymbol;
        boxedPositions := boxedPositions + [BoxedPosition(traderSymbol.trader, traderSymbol.symbol, boxed)];
      }
      todo, done := todo - {traderSymbol}, done + {traderSymbol};
    }
    assert done == longPositions.Keys;
  }

  /** `calculateBoxedPositions`: at most one BoxedPosition per (trader, symbol),
      exactly the expected ones, each strictly positive. */
  method CalculateBoxedPositions(positions: seq<Position>) returns (boxedPositions: seq<BoxedPosition>)
    ensures forall i, j :: 0 <= i < j < |boxedPositions| ==>
      BoxedPositionKey(boxedPositions[i]) != BoxedPositionKey(boxedPositions[j])
    ensures forall b :: b in boxedPositions <==> b in ExpectedBoxedPositions(positions)
    ensures forall b :: b in boxedPositions ==> b.qty > 0.0
  {
    var brokerNets := NetByTraderAndBroker(positions);
    assert brokerNets == BrokerNets(positions);
    var longPositions, shortPositions := SeparateLongShort(brokerNets);
    boxedPositions := EmitBoxedPositions(longPositions, shortPositions);
    forall b ensures b in boxedPositions <==> b in ExpectedBoxedPositions(positions) {
      BoxedMembership(brokerNets, b);
    }
    forall b | b in boxedPositions ensures b.qty > 0.0 {
      BoxedBounds(brokerNets, b);
    }
  }

  /** Reordering the input leaves the net positions the same multiset: any two
      outputs that `CalculateNetPositions` may return for permuted inputs (distinct
      keys, exactly the expected records) contain the same records equally often. */
  lemma NetPositionsIgnoreOrder(positions1: seq<Position>, positions2: seq<Position>,
                                netPositions1: seq<NetPosition>, netPositions2: seq<NetPosition>)
    requires multiset(positions1) == multiset(positions2)
    requires forall i, j :: 0 <= i < j < |netPositions1| ==>
      NetPositionKey(netPositions1[i]) != NetPositionKey(netPositions1[j])
    requires forall i, j :: 0 <= i < j < |netPositions2| ==>
      NetPositionKey(netPositions2[i]) != NetPositionKey(netPositions2[j])
    requires forall n :: n in netPositions1 <==> n in ExpectedNetPositions(positions1)
    requires forall n :: n in netPositions2 <==> n in ExpectedNetPositions(positions2)
    ensures multiset(netPositions1) == multiset(netPositions2)
  {
    ExpectedOrderIndependent(positions1, positions2);
    DistinctSameMultiset(netPositions1, netPositions2);
  }

  /** Reordering the input leaves the boxed positions the same multiset, for any
      two outputs that `CalculateBoxedPositions` may return. */
  lemma BoxedPositionsIgnoreOrder(positions1: seq<Position>, positions2: seq<Position>,
                                  boxedPositions1: seq<BoxedPosition>, boxedPositions2: seq<BoxedPosition>)
    requires multiset(positions1) == multiset(positions2)
    requires forall i, j :: 0 <= i < j < |boxedPositions1| ==>
      BoxedPositionKey(boxedPositions1[i]) != BoxedPositionKey(boxedPositions1[j])
    requires forall i, j :: 0 <= i < j < |boxedPositions2| ==>
      BoxedPositionKey(boxedPositions2[i]) != BoxedPositionKey(boxedPositions2[j])
    requires forall b :: b in boxedPositions1 <==> b in ExpectedBoxedPositions(positions1)
    requires forall b :: b in boxedPositions2 <==> b in ExpectedBoxedPositions(positions2)
    ensures multiset(boxedPositions1) == multiset(boxedPositions2)
  {
    ExpectedOrderIndependent(positions1, positions2);
    DistinctSameMultiset(boxedPositions1, boxedPositions2);
  }
}
