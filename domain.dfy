/** The three immutable value records of the position calculator.
    Each C# class assigns its private fields once in its constructor and exposes
    them through read-only getters; a Dafny datatype is exactly that: the
    constructor stores its arguments and the destructors are the getters. */
module Domain {

  /** C# `decimal`: an exact number. Modelled as an unbounded real, so the
      28-digit range of `decimal` and its overflow exception are not modelled. */
  type Decimal = real

  /** One input trade record: a signed quantity (positive long, negative short)
      of `symbol` held by `trader` at `broker`, and a price the calculator never reads. */
  datatype Position = Position(trader: string, broker: string, symbol: string, qty: Decimal, price: Decimal)

  /** Net quantity of `symbol` held by `trader` across all brokers. */
  datatype NetPosition = NetPosition(trader: string, symbol: string, qty: Decimal)

  /** Quantity of `symbol` that `trader` holds long at some brokers and short at others. */
  datatype BoxedPosition = BoxedPosition(trader: string, symbol: string, qty: Decimal)

  /** The getters of a freshly built Position return the constructor's arguments
      unchanged (the quantity keeps its sign), and a Position is rebuilt exactly
      from its getters. */
  lemma PositionGetters(trader: string, broker: string, symbol: string, qty: Decimal, price: Decimal, p: Position)
    requires p == Position(trader, broker, symbol, qty, price)
    ensures p.trader == trader && p.broker == broker && p.symbol == symbol
    ensures p.qty == qty && p.price == price
    ensures (qty < 0.0 <==> p.qty < 0.0) && (qty > 0.0 <==> p.qty > 0.0)
    ensures Position(p.trader, p.broker, p.symbol, p.qty, p.price) == p
  {
  }

  /** The getters of a freshly built NetPosition return the constructor's arguments. */
  lemma NetPositionGetters(trader: string, symbol: string, qty: Decimal, n: NetPosition)
    requires n == NetPosition(trader, symbol, qty)
    ensures n.trader == trader && n.symbol == symbol && n.qty == qty
    ensures NetPosition(n.trader, n.symbol, n.qty) == n
  {
  }

  /** The getters of a freshly built BoxedPosition return the constructor's arguments. */
  lemma BoxedPositionGetters(trader: string, symbol: string, qty: Decimal, b: BoxedPosition)
    requires b == BoxedPosition(trader, symbol, qty)
    ensures b.trader == trader && b.symbol == symbol && b.qty == qty
    ensures BoxedPosition(b.trader, b.symbol, b.qty) == b
  {
  }
}
