/**
 * Go's fixed-width integer behaviour where the generators depend on it:
 * `byte(x)` keeps the low eight bits, int64 addition wraps, and `%`
 * truncates toward zero, so its remainder takes the sign of the dividend.
 */
module Bytes {

  type Byte = x: int | 0 <= x < 256

  const MinInt64 := -0x8000_0000_0000_0000
  const MaxInt64 := 0x7FFF_FFFF_FFFF_FFFF

  /** Two's-complement wrap-around of an int64 result. */
  function Wrap64(x: int): (r: int)
    ensures MinInt64 <= r <= MaxInt64
    ensures (r - x) % 0x1_0000_0000_0000_0000 == 0
  {
    var m := x % 0x1_0000_0000_0000_0000;
    if m > MaxInt64 then m - 0x1_0000_0000_0000_0000 else m
  }

  /** Go's `a % b` for b > 0: truncated division, the remainder has a's sign. */
  function GoRem(a: int, b: int): (r: int)
    requires b > 0
    ensures -b < r < b
    ensures a >= 0 ==> r >= 0
    ensures a < 0 ==> r <= 0
  {
    if a >= 0 then a % b else -((-a) % b)
  }

  /** `byte(x)`: the low eight bits. */
  function ByteOf(x: int): (b: Byte)
    ensures (x - b) % 256 == 0
  {
    x % 256
  }

  /** Values that differ by a multiple of 256 have the same low byte. */
  lemma SameLowByte(x: int, y: int)
    requires (x - y) % 256 == 0
    ensures ByteOf(x) == ByteOf(y)
  {
    var q := (x - y) / 256;
    assert x == y + 256 * q;
    assert (y + 256 * q) % 256 == y % 256 by {
      ModMultiple(y, q);
    }
  }

  lemma {:induction false} ModMultiple(y: int, q: int)
    ensures (y + 256 * q) % 256 == y % 256
    decreases if q < 0 then -q else q
  {
    if q > 0 {
      ModMultiple(y, q - 1);
      assert y + 256 * q == (y + 256 * (q - 1)) + 256;
    } else if q < 0 {
      ModMultiple(y, q + 1);
      assert y + 256 * q == (y + 256 * (q + 1)) - 256;
    }
  }

  /** Multiples of 2^64 are multiples of 256. */
  lemma WideMultiple(d: int)
    requires d % 0x1_0000_0000_0000_0000 == 0
    ensures d % 256 == 0
  {
    var q := d / 0x1_0000_0000_0000_0000;
    assert d == 256 * (q * 0x100_0000_0000_0000);
    ModMultiple(0, q * 0x100_0000_0000_0000);
  }

  /**
   * `byte((t + int64(i)) % 256)` is the mathematical (t + i) mod 256 for any
   * int64 t, negative or overflowing sums included.
   */
  lemma LowByteOfWrappedRemainder(t: int, i: int)
    ensures ByteOf(GoRem(Wrap64(t + i), 256)) == (t + i) % 256
  {
    var w := Wrap64(t + i);
    var r := GoRem(w, 256);
    assert (w - r) % 256 == 0 by {
      if w < 0 {
        var q := (-w) / 256;
        assert -w == 256 * q + (-w) % 256;
        assert w - r == 256 * (-q);
        ModMultiple(0, -q);
      } else {
        assert w == 256 * (w / 256) + w % 256;
        ModMultiple(0, w / 256);
      }
    }
    WideMultiple(w - (t + i));
    assert ((r - (t + i)) % 256 == 0) by {
      var a := (w - r) / 256;
      var b := (w - (t + i)) / 256;
      assert r - (t + i) == 256 * (b - a);
      ModMultiple(0, b - a);
    }
    SameLowByte(r, t + i);
  }
}

/** `utils.GenerateOrderID`: the six-character code customers type in. */
module Generators {
  import opened Wrappers
  import opened Bytes
  import Text

  const OrderIDLength := 6

  const Charset: string := "ABCDEFGHIJKLMNOPQRSTUVWXYZ0123456789"

  predicate UpperAlnum(c: char) {
    'A' <= c <= 'Z' || '0' <= c <= '9'
  }

  /** The alphabet is the capitals and the digits. */
  lemma CharsetIsUpperAlnum(k: nat)
    requires k < |Charset|
    ensures UpperAlnum(Charset[k])
  {
  }

  /**
   * The charset index picked for position i: the byte drawn from crypto/rand,
   * or `i * 7 % 36` when the draw fails, reduced modulo the charset size.
   */
  function DrawIndex(draw: nat -> Option<Byte>, i: nat): (k: nat)
    ensures k < |Charset|
  {
    var b: int := match draw(i) case Some(x) => x case None => i * 7 % |Charset|;
    b % |Charset|
  }

  /** The code picked by a given sequence of draws. */
  function OrderIDFor(draw: nat -> Option<Byte>): (id: string)
    ensures |id| == OrderIDLength
  {
    seq(OrderIDLength, i requires 0 <= i < OrderIDLength => Charset[DrawIndex(draw, i)])
  }

  /** Every character of a code is a capital letter or a digit. */
  lemma OrderIDCharacters(draw: nat -> Option<Byte>)
    ensures forall i :: 0 <= i < OrderIDLength ==> UpperAlnum(OrderIDFor(draw)[i])
  {
    forall i | 0 <= i < OrderIDLength ensures UpperAlnum(OrderIDFor(draw)[i]) {
      CharsetIsUpperAlnum(DrawIndex(draw, i));
    }
  }

  /** Every charset character is already upper case, so the final `ToUpper` changes nothing. */
  lemma ToUpperKeeps(s: string)
    requires forall i :: 0 <= i < |s| ==> UpperAlnum(s[i])
    ensures Text.ToUpper(s) == s
  {
  }

  /** The fallback indices 0, 7, 14, 21, 28 and 35. */
  lemma FallbackIndices(draw: nat -> Option<Byte>)
    requires forall i :: draw(i).None?
    ensures DrawIndex(draw, 0) == 0 && DrawIndex(draw, 1) == 7 && DrawIndex(draw, 2) == 14
    ensures DrawIndex(draw, 3) == 21 && DrawIndex(draw, 4) == 28 && DrawIndex(draw, 5) == 35
  {
    assert draw(0).None? && draw(1).None? && draw(2).None?;
    assert draw(3).None? && draw(4).None? && draw(5).None?;
  }

  /** When crypto/rand always fails, every order gets the same code. */
  lemma FallbackOrderID(draw: nat -> Option<Byte>)
    requires forall i :: draw(i).None?
    ensures OrderIDFor(draw) == "AHOV29"
  {
    var id := OrderIDFor(draw);
    FallbackIndices(draw);
    assert id == [Charset[0], Charset[7], Charset[14], Charset[21], Charset[28], Charset[35]];
  }

  /**
   * `GenerateOrderID`, with `draw(i)` the outcome of the i-th one-byte
   * `rand.Read` (None when it fails).
   */
  method GenerateOrderID(draw: nat -> Option<Byte>) returns (id: string)
    ensures id == OrderIDFor(draw)
    ensures |id| == OrderIDLength && forall i :: 0 <= i < |id| ==> UpperAlnum(id[i])
  {
    var b := new char[OrderIDLength];
    for i := 0 to OrderIDLength
      invariant forall j :: 0 <= j < i ==> b[j] == Charset[DrawIndex(draw, j)]
    {
      var randomByte: Byte;
      var drawn := draw(i);
      if drawn.None? {
        randomByte := i * 7 % |Charset|;
      } else {
        randomByte := drawn.value;
      }
      b[i] := Charset[randomByte % |Charset|];
    }
    assert b[..] == OrderIDFor(draw);
    OrderIDCharacters(draw);
    ToUpperKeeps(b[..]);
    id := Text.ToUpper(b[..]);
  }
}
