/** What the two calculations compute, stated independently of their loops:
    per-key sums over the input, broker-level nets, long and short pools as sums
    over sets of broker nets, and the expected output sets. */
module Aggregation {
  import opened Domain

  /** Composite key (trader, symbol). */
  datatype TraderSymbol = TraderSymbol(trader: string, symbol: string)

  /** Composite key (trader, broker, symbol). */
  datatype TraderBrokerSymbol = TraderBrokerSymbol(trader: string, broker: string, symbol: string)

  function NetKey(p: Position): TraderSymbol {
    TraderSymbol(p.trader, p.symbol)
  }

  function BrokerKey(p: Position): TraderBrokerSymbol {
    TraderBrokerSymbol(p.trader, p.broker, p.symbol)
  }

  /** The (trader, symbol) a broker-level key belongs to. */
  function Project(k: TraderBrokerSymbol): TraderSymbol {
    TraderSymbol(k.trader, k.symbol)
  }

  function NetPositionKey(n: NetPosition): TraderSymbol {
    TraderSymbol(n.trader, n.symbol)
  }

  function BoxedPositionKey(b: BoxedPosition): TraderSymbol {
    TraderSymbol(b.trader, b.symbol)
  }

  /** `Math.Min` on decimals. */
  function Min(a: Decimal, b: Decimal): (r: Decimal)
    ensures r <= a && r <= b && (r == a || r == b)
  {
    if a <= b then a else b
  }

  /** `Math.Abs` on decimals. */
  function Abs(a: Decimal): (r: Decimal)
    ensures r >= 0.0 && (r == a || r == -a)
  {
    if a < 0.0 then -a else a
  }

  // ---------------------------------------------------------------------------
  // Sums per key over the input sequence
  // ---------------------------------------------------------------------------

  /** The keys that occur in `ps`. */
  function KeysBy<K>(ps: seq<Position>, key: Position -> K): set<K> {
    set p | p in ps :: key(p)
  }

  /** The quantity a single position adds to key `k`. */
  function Contribution<K(==)>(p: Position, key: Position -> K, k: K): Decimal {
    if key(p) == k then p.qty else 0.0
  }

  /** The sum of the quantities of the positions of `ps` whose key is `k`. */
  function SumQtyBy<K(==)>(ps: seq<Position>, key: Position -> K, k: K): Decimal {
    if ps == [] then 0.0
    else
      SumQtyBy(ps[..|ps| - 1], key, k) + Contribution(ps[|ps| - 1], key, k)
  }

  /** The net of every (trader, symbol) of the input, across all brokers. */
  function ExpectedNetPositions(ps: seq<Position>): set<NetPosition> {
    set k | k in KeysBy(ps, NetKey) :: NetPosition(k.trader, k.symbol, SumQtyBy(ps, NetKey, k))
  }

  /** Broker-level netting: the sum of each (trader, broker, symbol) of the input. */
  function BrokerNets(ps: seq<Position>): map<TraderBrokerSymbol, Decimal> {
    map k | k in KeysBy(ps, BrokerKey) :: SumQtyBy(ps, BrokerKey, k)
  }

  // ---------------------------------------------------------------------------
  // Long and short pools over broker-level nets
  // ---------------------------------------------------------------------------

  /** The sum of the broker nets `nets[k]` over the keys `ks`. */
  ghost function SumOver(nets: map<TraderBrokerSymbol, Decimal>, ks: set<TraderBrokerSymbol>): Decimal
    requires ks <= nets.Keys
    decreases ks
  {
    if ks == {} then 0.0
    else
      var k :| k in ks;
      nets[k] + SumOver(nets, ks - {k})
  }

  /** The keys among `within` of strictly long broker nets of `ts`. */
  function LongBrokersIn(nets: map<TraderBrokerSymbol, Decimal>, within: set<TraderBrokerSymbol>, ts: TraderSymbol): set<TraderBrokerSymbol> {
    set k | k in within && k in nets && Project(k) == ts && nets[k] > 0.0
  }

  /** The keys among `within` of strictly short broker nets of `ts`. */
  function ShortBrokersIn(nets: map<TraderBrokerSymbol, Decimal>, within: set<TraderBrokerSymbol>, ts: TraderSymbol): set<TraderBrokerSymbol> {
    set k | k in within && k in nets && Project(k) == ts && nets[k] < 0.0
  }

  function LongBrokers(nets: map<TraderBrokerSymbol, Decimal>, ts: TraderSymbol): set<TraderBrokerSymbol> {
    LongBrokersIn(nets, nets.Keys, ts)
  }

  function ShortBrokers(nets: map<TraderBrokerSymbol, Decimal>, ts: TraderSymbol): set<TraderBrokerSymbol> {
    ShortBrokersIn(nets, nets.Keys, ts)
  }

  /** Long pool total of `ts`: the sum of its strictly positive broker nets. */
  ghost function LongTotal(nets: map<TraderBrokerSymbol, Decimal>, ts: TraderSymbol): Decimal {
    SumOver(nets, LongBrokers(nets, ts))
  }

  /** Short pool total of `ts`: the sum of its strictly negative broker nets. */
  ghost function ShortTotal(nets: map<TraderBrokerSymbol, Decimal>, ts: TraderSymbol): Decimal {
    SumOver(nets, ShortBrokers(nets, ts))
  }

  function Projections(nets: map<TraderBrokerSymbol, Decimal>): set<TraderSymbol> {
    set k | k in nets :: Project(k)
  }

  /** One boxed record per (trader, symbol) long at some broker and short at
      another: the smaller of the long total and the absolute short total. */
  ghost function BoxedOfNets(nets: map<TraderBrokerSymbol, Decimal>): set<BoxedPosition> {
    set ts | ts in Projections(nets) && LongBrokers(nets, ts) != {} && ShortBrokers(nets, ts) != {}
      :: BoxedPosition(ts.trader, ts.symbol, Min(LongTotal(nets, ts), Abs(ShortTotal(nets, ts))))
  }

  ghost function ExpectedBoxedPositions(ps: seq<Position>): set<BoxedPosition> {
    BoxedOfNets(BrokerNets(ps))
  }

  // ---------------------------------------------------------------------------
  // Lemmas: sums over the input
  // ---------------------------------------------------------------------------

  /** A key that does not occur contributes nothing. */
  lemma {:induction false} SumQtyByAbsent<K>(ps: seq<Position>, key: Position -> K, k: K)
    requires k !in KeysBy(ps, key)
    ensures SumQtyBy(ps, key, k) == 0.0
    decreases |ps|
  {
    if ps != [] {
      var init := ps[..|ps| - 1];
      assert forall p :: p in init ==> p in ps;
      SumQtyByAbsent(init, key, k);
    }
  }

  /** Extending the input by one position adds its quantity to its own key only. */
  lemma SumQtyBySnoc<K>(ps: seq<Position>, p: Position, key: Position -> K, k: K)
    ensures SumQtyBy(ps + [p], key, k) == SumQtyBy(ps, key, k) + Contribution(p, key, k)
    ensures KeysBy(ps + [p], key) == KeysBy(ps, key) + {key(p)}
  {
    assert (ps + [p])[..|ps|] == ps;
    assert forall q :: q in ps + [p] <==> q in ps || q == p;
  }

  lemma {:induction false} SumQtyByConcat<K>(a: seq<Position>, b: seq<Position>, key: Position -> K, k: K)
    ensures SumQtyBy(a + b, key, k) == SumQtyBy(a, key, k) + SumQtyBy(b, key, k)
    decreases |b|
  {
    if b == [] {
      assert a + b == a;
    } else {
      var init, last := b[..|b| - 1], b[|b| - 1];
      assert b == init + [last];
      assert a + b == (a + init) + [last];
      SumQtyBySnoc(a + init, last, key, k);
      SumQtyBySnoc(init, last, key, k);
      SumQtyByConcat(a, init, key, k);
    }
  }

  /** Taking one position out of the input removes its quantity from its own key only. */
  lemma SumQtyByRemoveAt<K>(ps: seq<Position>, j: nat, key: Position -> K, k: K)
    requires j < |ps|
    ensures SumQtyBy(ps, key, k) ==
      SumQtyBy(ps[..j] + ps[j + 1..], key, k) + Contribution(ps[j], key, k)
  {
    var before, x, after := ps[..j], ps[j], ps[j + 1..];
    var c := Contribution(x, key, k);
    SplitAt(ps, j);
    calc {
      SumQtyBy(ps, key, k);
      { SumQtyByConcat(before + [x], after, key, k); }
      SumQtyBy(before + [x], key, k) + SumQtyBy(after, key, k);
      { SumQtyBySnoc(before, x, key, k); }
      SumQtyBy(before, key, k) + c + SumQtyBy(after, key, k);
      { SumQtyByConcat(before, after, key, k); }
      SumQtyBy(before + after, key, k) + c;
    }
  }

  lemma SplitAt<T>(ps: seq<T>, j: nat)
    requires j < |ps|
    ensures ps == (ps[..j] + [ps[j]]) + ps[j + 1..]
  {
  }

  lemma MultisetRemoveAt<T>(ps: seq<T>, j: nat)
    requires j < |ps|
    ensures multiset(ps[..j] + ps[j + 1..]) == multiset(ps) - multiset{ps[j]}
  {
    assert ps == ps[..j] + [ps[j]] + ps[j + 1..];
  }

  /** The per-key sums depend only on the multiset of positions, not on their order. */
  lemma {:induction false} SumQtyByPermutation<K>(ps1: seq<Position>, ps2: seq<Position>, key: Position -> K, k: K)
    requires multiset(ps1) == multiset(ps2)
    ensures SumQtyBy(ps1, key, k) == SumQtyBy(ps2, key, k)
    decreases |ps1|
  {
    if ps1 == [] {
      assert |ps2| == |multiset(ps2)| == 0;
    } else {
      var rest1, x := ps1[..|ps1| - 1], ps1[|ps1| - 1];
      MultisetRemoveAt(ps1, |ps1| - 1);
      assert rest1 == ps1[..|ps1| - 1] + ps1[|ps1|..];
      assert x in multiset(ps2);
      var j :| 0 <= j < |ps2| && ps2[j] == x;
      var rest2 := ps2[..j] + ps2[j + 1..];
      MultisetRemoveAt(ps2, j);
      SumQtyByPermutation(rest1, rest2, key, k);
      SumQtyByRemoveAt(ps1, |ps1| - 1, key, k);
      SumQtyByRemoveAt(ps2, j, key, k);
    }
  }

  lemma KeysByPermutation<K>(ps1: seq<Position>, ps2: seq<Position>, key: Position -> K)
    requires multiset(ps1) == multiset(ps2)
    ensures KeysBy(ps1, key) == KeysBy(ps2, key)
  {
    assert forall p :: p in ps1 <==> p in multiset(ps1);
    assert forall p :: p in ps2 <==> p in multiset(ps2);
  }

  // ---------------------------------------------------------------------------
  // Lemmas: sums over sets of broker nets
  // ---------------------------------------------------------------------------

  /** Any key of the set may be taken out first. */
  lemma {:induction false} SumOverRemove(nets: map<TraderBrokerSymbol, Decimal>, ks: set<TraderBrokerSymbol>, k: TraderBrokerSymbol)
    requires ks <= nets.Keys && k in ks
    ensures SumOver(nets, ks) == nets[k] + SumOver(nets, ks - {k})
    decreases |ks|
  {
    var j :| j in ks && SumOver(nets, ks) == nets[j] + SumOver(nets, ks - {j});
    if j != k {
      SumOverRemove(nets, ks - {j}, k);
      SumOverRemove(nets, ks - {k}, j);
      assert ks - {j} - {k} == ks - {k} - {j};
    }
  }

  lemma SumOverInsert(nets: map<TraderBrokerSymbol, Decimal>, ks: set<TraderBrokerSymbol>, k: TraderBrokerSymbol)
    requires ks <= nets.Keys && k in nets && k !in ks
    ensures SumOver(nets, ks + {k}) == SumOver(nets, ks) + nets[k]
  {
    SumOverRemove(nets, ks + {k}, k);
    assert ks + {k} - {k} == ks;
  }

  /** A non-empty sum of strictly positive nets is strictly positive. */
  lemma {:induction false} SumOverPositive(nets: map<TraderBrokerSymbol, Decimal>, ks: set<TraderBrokerSymbol>)
    requires ks <= nets.Keys && ks != {}
    requires forall k :: k in ks ==> nets[k] > 0.0
    ensures SumOver(nets, ks) > 0.0
    decreases |ks|
  {
    var k :| k in ks;
    SumOverRemove(nets, ks, k);
    if ks - {k} != {} {
      SumOverPositive(nets, ks - {k});
    }
  }

  /** A non-empty sum of strictly negative nets is strictly negative. */
  lemma {:induction false} SumOverNegative(nets: map<TraderBrokerSymbol, Decimal>, ks: set<TraderBrokerSymbol>)
    requires ks <= nets.Keys && ks != {}
    requires forall k :: k in ks ==> nets[k] < 0.0
    ensures SumOver(nets, ks) < 0.0
    decreases |ks|
  {
    var k :| k in ks;
    SumOverRemove(nets, ks, k);
    if ks - {k} != {} {
      SumOverNegative(nets, ks - {k});
    }
  }

  /** The sum reads only the nets of its own keys. */
  lemma {:induction false} SumOverAgree(nets1: map<TraderBrokerSymbol, Decimal>, nets2: map<TraderBrokerSymbol, Decimal>, ks: set<TraderBrokerSymbol>)
    requires ks <= nets1.Keys && ks <= nets2.Keys
    requires forall k :: k in ks ==> nets1[k] == nets2[k]
    ensures SumOver(nets1, ks) == SumOver(nets2, ks)
    decreases |ks|
  {
    if ks != {} {
      var k :| k in ks;
      SumOverRemove(nets1, ks, k);
      SumOverRemove(nets2, ks, k);
      SumOverAgree(nets1, nets2, ks - {k});
    }
  }

  /** Pool invariant: a long pool total is strictly positive, a short pool total strictly negative. */
  lemma PoolSigns(nets: map<TraderBrokerSymbol, Decimal>, ts: TraderSymbol)
    ensures LongBrokers(nets, ts) != {} ==> LongTotal(nets, ts) > 0.0
    ensures ShortBrokers(nets, ts) != {} ==> ShortTotal(nets, ts) < 0.0
  {
    if LongBrokers(nets, ts) != {} {
      SumOverPositive(nets, LongBrokers(nets, ts));
    }
    if ShortBrokers(nets, ts) != {} {
      SumOverNegative(nets, ShortBrokers(nets, ts));
    }
  }

  // ---------------------------------------------------------------------------
  // Lemmas: the expected outputs
  // ---------------------------------------------------------------------------

  /** A NetPosition is expected iff its key occurs in the input and its quantity
      is the key's sum over all brokers; a key that nets to zero is still expected. */
  lemma ExpectedNetMembership(ps: seq<Position>, n: NetPosition)
    ensures n in ExpectedNetPositions(ps) <==>
      NetPositionKey(n) in KeysBy(ps, NetKey) && n.qty == SumQtyBy(ps, NetKey, NetPositionKey(n))
  {
  }

  /** Exactly one expected NetPosition per distinct (trader, symbol) of the input. */
  lemma ExpectedNetOnePerKey(ps: seq<Position>)
    ensures forall n1, n2 ::
      n1 in ExpectedNetPositions(ps) && n2 in ExpectedNetPositions(ps) && NetPositionKey(n1) == NetPositionKey(n2)
      ==> n1 == n2
    ensures forall ts :: ts in KeysBy(ps, NetKey) ==>
      NetPosition(ts.trader, ts.symbol, SumQtyBy(ps, NetKey, ts)) in ExpectedNetPositions(ps)
    ensures |ExpectedNetPositions(ps)| == |KeysBy(ps, NetKey)|
  {
    var keys := KeysBy(ps, NetKey);
    var expected := ExpectedNetPositions(ps);
    forall ts | ts in keys ensures ts in (set n | n in expected :: NetPositionKey(n)) {
      var n := NetPosition(ts.trader, ts.symbol, SumQtyBy(ps, NetKey, ts));
      assert n in expected && NetPositionKey(n) == ts;
    }
    assert (set n | n in expected :: NetPositionKey(n)) == keys;
    NetPositionKeyInjective(expected);
  }

  /** A set of NetPositions with pairwise distinct keys has as many keys as records. */
  lemma {:induction false} NetPositionKeyInjective(s: set<NetPosition>)
    requires forall n1, n2 :: n1 in s && n2 in s && NetPositionKey(n1) == NetPositionKey(n2) ==> n1 == n2
    ensures |set n | n in s :: NetPositionKey(n)| == |s|
    decreases |s|
  {
    if s != {} {
      var n :| n in s;
      var rest := s - {n};
      NetPositionKeyInjective(rest);
      assert (set m | m in s :: NetPositionKey(m)) == (set m | m in rest :: NetPositionKey(m)) + {NetPositionKey(n)};
      assert NetPositionKey(n) !in (set m | m in rest :: NetPositionKey(m));
    }
  }

  /** A BoxedPosition is expected iff its (trader, symbol) has both a strictly long
      and a strictly short broker net, and its quantity is the smaller of the long
      total and the absolute short total. */
  lemma BoxedMembership(nets: map<TraderBrokerSymbol, Decimal>, b: BoxedPosition)
    ensures var ts := BoxedPositionKey(b);
      b in BoxedOfNets(nets) <==>
        LongBrokers(nets, ts) != {} && ShortBrokers(nets, ts) != {}
        && b.qty == Min(LongTotal(nets, ts), Abs(ShortTotal(nets, ts)))
  {
  }

  /** A boxed quantity is strictly positive, at most the long total and at most the
      absolute short total, and equal to one of them. */
  lemma BoxedBounds(nets: map<TraderBrokerSymbol, Decimal>, b: BoxedPosition)
    requires b in BoxedOfNets(nets)
    ensures var ts := BoxedPositionKey(b);
      && 0.0 < b.qty
      && b.qty <= LongTotal(nets, ts) && b.qty <= -ShortTotal(nets, ts)
      && (b.qty == LongTotal(nets, ts) || b.qty == -ShortTotal(nets, ts))
  {
    var ts := BoxedPositionKey(b);
    BoxedMembership(nets, b);
    PoolSigns(nets, ts);
  }

  /** Pools are summed, not matched pair by pair: at most one boxed record per (trader, symbol). */
  lemma BoxedOnePerKey(nets: map<TraderBrokerSymbol, Decimal>, b1: BoxedPosition, b2: BoxedPosition)
    requires b1 in BoxedOfNets(nets) && b2 in BoxedOfNets(nets)
    requires BoxedPositionKey(b1) == BoxedPositionKey(b2)
    ensures b1 == b2
  {
  }

  /** A broker that is flat (nets to exactly zero) takes part in neither pool:
      dropping it changes no boxed record. */
  lemma FlatBrokerIgnored(nets: map<TraderBrokerSymbol, Decimal>, flat: TraderBrokerSymbol)
    requires flat in nets && nets[flat] == 0.0
    ensures BoxedOfNets(nets - {flat}) == BoxedOfNets(nets)
  {
    var rest := nets - {flat};
    forall ts
      ensures LongBrokers(rest, ts) == LongBrokers(nets, ts)
      ensures ShortBrokers(rest, ts) == ShortBrokers(nets, ts)
      ensures LongTotal(rest, ts) == LongTotal(nets, ts)
      ensures ShortTotal(rest, ts) == ShortTotal(nets, ts)
    {
      assert LongBrokers(rest, ts) == LongBrokers(nets, ts);
      assert ShortBrokers(rest, ts) == ShortBrokers(nets, ts);
      SumOverAgree(rest, nets, LongBrokers(nets, ts));
      SumOverAgree(rest, nets, ShortBrokers(nets, ts));
    }
    forall b | b in BoxedOfNets(nets) ensures b in BoxedOfNets(rest) {
      BoxedMembership(nets, b);
      BoxedMembership(rest, b);
    }
    forall b | b in BoxedOfNets(rest) ensures b in BoxedOfNets(nets) {
      BoxedMembership(nets, b);
      BoxedMembership(rest, b);
    }
  }

  /** Up-and-down at a single broker is flattened before long/short separation:
      a (trader, symbol) traded at one broker only is never boxed. */
  lemma SingleBrokerNeverBoxed(ps: seq<Position>, ts: TraderSymbol, broker: string)
    requires forall p :: p in ps && NetKey(p) == ts ==> p.broker == broker
    ensures forall b :: b in ExpectedBoxedPositions(ps) ==> BoxedPositionKey(b) != ts
  {
  }

  /** A (trader, symbol) whose broker nets are all of one sign (or flat) is never boxed. */
  lemma OneSignNeverBoxed(ps: seq<Position>, ts: TraderSymbol)
    requires (forall k :: k in BrokerNets(ps) && Project(k) == ts ==> BrokerNets(ps)[k] >= 0.0)
          || (forall k :: k in BrokerNets(ps) && Project(k) == ts ==> BrokerNets(ps)[k] <= 0.0)
    ensures forall b :: b in ExpectedBoxedPositions(ps) ==> BoxedPositionKey(b) != ts
  {
  }

  /** Both expected outputs depend only on the multiset of input positions. */
  lemma ExpectedOrderIndependent(ps1: seq<Position>, ps2: seq<Position>)
    requires multiset(ps1) == multiset(ps2)
    ensures ExpectedNetPositions(ps1) == ExpectedNetPositions(ps2)
    ensures BrokerNets(ps1) == BrokerNets(ps2)
    ensures ExpectedBoxedPositions(ps1) == ExpectedBoxedPositions(ps2)
  {
    KeysByPermutation(ps1, ps2, NetKey);
    KeysByPermutation(ps1, ps2, BrokerKey);
    forall k ensures SumQtyBy(ps1, NetKey, k) == SumQtyBy(ps2, NetKey, k) {
      SumQtyByPermutation(ps1, ps2, NetKey, k);
    }
    forall k ensures SumQtyBy(ps1, BrokerKey, k) == SumQtyBy(ps2, BrokerKey, k) {
      SumQtyByPermutation(ps1, ps2, BrokerKey, k);
    }
  }

  /** Empty input: nothing is expected from either calculation. */
  lemma ExpectedOfEmpty()
    ensures ExpectedNetPositions([]) == {}
    ensures BrokerNets([]) == map[]
    ensures ExpectedBoxedPositions([]) == {}
  {
  }

  /** Sequences without repeated elements and with the same members are permutations. */
  lemma {:induction false} DistinctSameMultiset<T>(a: seq<T>, b: seq<T>)
    requires forall i, j :: 0 <= i < j < |a| ==> a[i] != a[j]
    requires forall i, j :: 0 <= i < j < |b| ==> b[i] != b[j]
    requires forall x :: x in a <==> x in b
    ensures multiset(a) == multiset(b)
  {
    forall x ensures multiset(a)[x] == multiset(b)[x] {
      DistinctCount(a, x);
      DistinctCount(b, x);
    }
  }

  lemma {:induction false} DistinctCount<T>(a: seq<T>, x: T)
    requires forall i, j :: 0 <= i < j < |a| ==> a[i] != a[j]
    ensures multiset(a)[x] == if x in a then 1 else 0
    decreases |a|
  {
    if a != [] {
      var init := a[..|a| - 1];
      assert a == init + [a[|a| - 1]];
      DistinctCount(init, x);
    }
  }
}
