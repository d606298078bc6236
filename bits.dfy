/**
  Most-significant-bit-first bit fields, as the board encoder writes them:
  bit i of v is Python's `(v >> i) & 1`, which for a positive divisor is
  Euclidean division followed by a remainder modulo 2, also for negative v.
 */
module Bits {
  import opened Arith

  function Pow2(n: nat): (r: nat)
    ensures r >= 1
  {
    if n == 0 then 1 else 2 * Pow2(n - 1)
  }

  /** The widths the encoder uses: 5 bits hold values below 32, 8 bits values below 256. */
  lemma Pow2Widths()
    ensures Pow2(5) == 32 && Pow2(8) == 256
  {
  }

  /**
    Bit i of v, counting from the least significant bit: it is set exactly
    when v modulo 2^(i+1) reaches 2^i.
   */
  function Bit(v: int, i: nat): (r: bool)
    ensures r <==> v % Pow2(i + 1) >= Pow2(i)
  {
    ModDouble(v, Pow2(i));
    (v / Pow2(i)) % 2 == 1
  }

  /** The low `width` bits of v, most significant first. */
  function ToBits(v: int, width: nat): (r: seq<bool>)
    ensures |r| == width
  {
    if width == 0 then [] else [Bit(v, width - 1)] + ToBits(v, width - 1)
  }

  /** Reads a bit string back as a big-endian unsigned number. */
  function FromBits(bs: seq<bool>): (r: nat)
    ensures r < Pow2(|bs|)
  {
    if bs == [] then 0 else (if bs[0] then Pow2(|bs| - 1) else 0) + FromBits(bs[1..])
  }

  /** Position j of a field holds bit width-1-j of the value: the most significant bit comes first. */
  lemma {:induction false} ToBitsAt(v: int, width: nat, j: nat)
    requires j < width
    ensures ToBits(v, width)[j] == Bit(v, width - 1 - j)
  {
    if j > 0 {
      ToBitsAt(v, width - 1, j - 1);
    }
  }

  /** Reading a field back gives the value modulo 2^width. */
  lemma {:induction false} FromToBits(v: int, width: nat)
    ensures FromBits(ToBits(v, width)) == v % Pow2(width)
  {
    if width == 0 {
      assert v % 1 == 0;
    } else {
      var p := Pow2(width - 1);
      var bs := ToBits(v, width);
      assert bs[1..] == ToBits(v, width - 1);
      FromToBits(v, width - 1);
      assert FromBits(bs) == (if bs[0] then p else 0) + v % p;
      ModDouble(v, p);
      var d := (v / p) % 2;
      assert bs[0] <==> d == 1;
      assert d * p == (if d == 1 then p else 0) by {
        assert d == 0 || d == 1;
      }
    }
  }

  /** Two bit strings of one length with the same value are equal. */
  lemma {:induction false} FromBitsInjective(a: seq<bool>, b: seq<bool>)
    requires |a| == |b| && FromBits(a) == FromBits(b)
    ensures a == b
  {
    if a != [] {
      var p := Pow2(|a| - 1);
      assert FromBits(a[1..]) < p && FromBits(b[1..]) < p;
      assert a[0] == b[0];
      FromBitsInjective(a[1..], b[1..]);
      assert a == [a[0]] + a[1..] && b == [b[0]] + b[1..];
    }
  }

  /** Encoding the value of a bit string in its own width gives the string back. */
  lemma ToFromBits(bs: seq<bool>)
    ensures ToBits(FromBits(bs), |bs|) == bs
  {
    var v := FromBits(bs);
    FromToBits(v, |bs|);
    DivModUnique(v, Pow2(|bs|), 0, v);
    FromBitsInjective(ToBits(v, |bs|), bs);
  }
}
