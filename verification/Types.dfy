/** The values that travel between traders and exchanges (src/common/type.hpp). */
module Types {
  datatype Option<+T> = None | Some(value: T)

  datatype Side = Buy | Sell

  function Flip(side: Side): Side {
    if side.Buy? then Sell else Buy
  }

  /** A resting declaration: what is left of an order, at the price it rests at. */
  datatype Record = Record(id: int, price: real, volume: int)

  /** `direction` is 1 (buy) or -1 (sell); `kind` is 0..5, or -1 once the trader cancelled the order. */
  datatype Order = Order(stock: int, id: int, direction: int, kind: int, price: real, volume: int)

  datatype Trade = Trade(stock: int, bid: int, ask: int, price: real, volume: int)

  /**
   * An order whose commit is defined: no live order has a negative volume, and one that rests as it
   * is (type 2) has something to rest.
   */
  predicate ValidOrder(o: Order) {
    0 <= o.kind <= 5 && (o.direction == 1 || o.direction == -1) ==> o.volume >= 0 && (o.kind == 2 ==> o.volume > 0)
  }
}
