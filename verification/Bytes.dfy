/** Machine integers of the inspector: octets, `uint16_t` and a 64-bit `size_t`, all with explicit wrap-around. */
module Bytes {

  const TWO_16 := 0x1_0000
  const TWO_32 := 0x1_0000_0000
  const TWO_64 := 0x1_0000_0000_0000_0000

  type byte = x: int | 0 <= x < 0x100
  type uint16 = x: int | 0 <= x < TWO_16
  type uint64 = x: int | 0 <= x < TWO_64

  /** The value that is left in a `size_t` once `x` has been computed in it. */
  function Wrap64(x: int): (r: uint64)
    ensures 0 <= x < TWO_64 ==> r == x
  {
    x % TWO_64
  }

  /** `a - b` in a `size_t`. */
  function Sub64(a: uint64, b: uint64): uint64 {
    if a >= b then a - b else a - b + TWO_64
  }

  /** `a++` in a `size_t`, `n` times. */
  function CountUp(a: uint64, n: nat): uint64 {
    if n == 0 then a
    else
      var b := CountUp(a, n - 1);
      if b + 1 < TWO_64 then b + 1 else 0
  }

  lemma {:induction false} CountUpWraps(a: uint64, n: nat)
    ensures CountUp(a, n) == (a + n) % TWO_64
  {
    if n > 0 {
      CountUpWraps(a, n - 1);
    }
  }

  lemma {:induction false} CountUpMore(a: uint64, m: nat, n: nat)
    ensures CountUp(CountUp(a, m), n) == CountUp(a, m + n)
  {
    if n > 0 {
      CountUpMore(a, m, n - 1);
    }
  }

  /** `a += b` in a `uint16_t`. */
  function Add16(a: uint16, b: uint16): (r: uint16)
    ensures (r - a - b) % TWO_16 == 0
  {
    if a + b < TWO_16 then a + b else a + b - TWO_16
  }

  /** `a -= b` in a `uint8_t`. */
  function Sub8(a: byte, b: byte): (r: byte)
    ensures (a - b - r) % 0x100 == 0
  {
    if a >= b then a - b else a - b + 0x100
  }

  lemma TakeMore<T>(s: seq<T>, n: nat)
    requires n < |s|
    ensures s[..n + 1] == s[..n] + [s[n]]
  {
  }

  lemma AppendEmpty<T>(s: seq<T>)
    ensures s + [] == s
  {
  }

  lemma AppendAssoc<T>(a: seq<T>, b: seq<T>, c: seq<T>)
    ensures a + b + c == a + (b + c)
  {
  }

  lemma {:induction false} SetSizeBelow(s: set<byte>, n: nat)
    requires forall i | i in s :: i < n
    ensures |s| <= n
    decreases n
  {
    if n == 0 {
      assert s == {};
    } else {
      SetSizeBelow(s - {n - 1}, n - 1);
    }
  }

  datatype Option<+T> = None | Some(value: T)
}
