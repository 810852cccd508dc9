/** Machine words and the option type shared by every model in this project. */
module Words {

  const TWO_63: int := 0x8000_0000_0000_0000
  const TWO_64: int := 0x1_0000_0000_0000_0000

  /** Go's `uint64` (and `hexutil.Uint64`). */
  type U64 = n: int | 0 <= n < TWO_64

  /** Go's `-` on `uint64`: wraps around below zero. */
  function Sub64(a: U64, b: U64): (r: U64)
    ensures b <= a ==> r == a - b
    ensures a < b ==> r == TWO_64 - (b - a)
  {
    if b <= a then a - b else a - b + TWO_64
  }

  /** Go's `+` on `uint64`: wraps around at 2^64. */
  function Add64(a: U64, b: U64): (r: U64)
    ensures a + b < TWO_64 ==> r == a + b
    ensures a + b >= TWO_64 ==> r < a && r < b
  {
    if a + b < TWO_64 then a + b else a + b - TWO_64
  }

  /** Go's conversion `int64(u)`: two's complement reinterpretation. */
  function ToInt64(u: U64): (r: int)
    ensures -TWO_63 <= r < TWO_63
    ensures r == u <==> u < TWO_63
  {
    if u < TWO_63 then u else u - TWO_64
  }

  datatype Option<+T> = None | Some(value: T)
}
