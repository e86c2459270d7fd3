/** Value types shared by every subsystem: machine integers, sides, order kinds and the
    immutable client order. */
module Domain {

  const TWO_64: int := 0x1_0000_0000_0000_0000

  type u8 = x: int | 0 <= x < 0x100
  type u16 = x: int | 0 <= x < 0x1_0000
  type u32 = x: int | 0 <= x < 0x1_0000_0000
  type u64 = x: int | 0 <= x < 0x1_0000_0000_0000_0000
  type i64 = x: int | -0x8000_0000_0000_0000 <= x < 0x8000_0000_0000_0000

  /** Price in ticks. */
  type Price = i64

  datatype Option<+T> = None | Some(value: T)

  datatype Result<+T, +E> = Success(value: T) | Failure(error: E)

  /** Unsigned 64-bit wrap-around, the arithmetic of every `uint64_t` in the exchange. */
  function Wrap64(x: int): u64 {
    x % TWO_64
  }

  lemma WrapAdd(x: int, y: int)
    ensures Wrap64(Wrap64(x) + y) == Wrap64(x + y)
  {
  }

  lemma WrapSub(x: int, y: int)
    ensures Wrap64(Wrap64(x) - y) == Wrap64(x - y)
  {
  }

  function Min(x: int, y: int): int {
    if x <= y then x else y
  }

  datatype Side = Buy | Sell {
    function Opposite(): Side {
      if this == Buy then Sell else Buy
    }
  }

  datatype OrderType = Limit | Market | Stop

  /** The part of the client order that the book and the engine read. */
  datatype Order = Order(orderId: u64, price: Price, qty: u64, seqNum: u64,
                         symbolId: u32, side: Side, orderType: OrderType)
}
