/** Bytes and bits, most significant bit first, and packing bits into fixed-width words. */
module Bits {
  import opened Arithmetic
  import opened Collections

  type byte = b: int | 0 <= b < 256
  type bit = b: int | 0 <= b <= 1

  function Pow2(n: nat): (p: nat)
    ensures p > 0
  {
    if n == 0 then 1 else 2 * Pow2(n - 1)
  }

  /** `(v >>> i) & 1` */
  function Bit(v: nat, i: nat): bit {
    (v / Pow2(i)) % 2
  }

  /** The low `n` bits of `v`, most significant first. */
  function BitsOf(v: nat, n: nat): (r: seq<bit>)
    ensures |r| == n
  {
    if n == 0 then [] else BitsOf(v / 2, n - 1) + [v % 2]
  }

  function FromBits(bits: seq<bit>): nat {
    if bits == [] then 0 else 2 * FromBits(bits[..|bits| - 1]) + bits[|bits| - 1]
  }

  function Zeros(n: nat): (r: seq<bit>)
    ensures |r| == n
  {
    seq(n, i => 0)
  }

  function Unpack(values: seq<nat>, width: nat): seq<bit> {
    if values == [] then [] else BitsOf(values[0], width) + Unpack(values[1..], width)
  }

  /** Whole words of `width` bits, from the front. */
  function Pack(bits: seq<bit>, width: nat): seq<nat> {
    if width == 0 || |bits| < width then []
    else [FromBits(bits[..width])] + Pack(bits[width..], width)
  }

  // ---- One value ----

  lemma {:induction false} FromBitsBound(bits: seq<bit>)
    ensures FromBits(bits) < Pow2(|bits|)
  {
    if bits == [] {
    } else {
      FromBitsBound(bits[..|bits| - 1]);
    }
  }

  lemma {:induction false} FromBitsOf(v: nat, n: nat)
    requires v < Pow2(n)
    ensures FromBits(BitsOf(v, n)) == v
  {
    if n == 0 {
    } else {
      FromBitsOf(v / 2, n - 1);
      assert BitsOf(v, n)[..n - 1] == BitsOf(v / 2, n - 1);
    }
  }

  lemma {:induction false} BitsOfFrom(bits: seq<bit>)
    ensures BitsOf(FromBits(bits), |bits|) == bits
  {
    if bits == [] {
    } else {
      var last := |bits| - 1;
      BitsOfFrom(bits[..last]);
      assert bits == bits[..last] + [bits[last]];
    }
  }

  lemma {:induction false} BitsOfAt(v: nat, n: nat, k: nat)
    requires k < n
    ensures BitsOf(v, n)[k] == Bit(v, n - 1 - k)
  {
    if k < n - 1 {
      BitsOfAt(v / 2, n - 1, k);
      HalfThenShift(v, n - 2 - k);
    }
  }

  lemma HalfThenShift(v: nat, i: nat)
    ensures Bit(v / 2, i) == Bit(v, i + 1)
  {
    DivDiv(v, 2, Pow2(i));
  }

  /** The leading bits of a value are the bits of its quotient. */
  lemma {:induction false} LeadingBits(v: nat, n: nat, k: nat)
    requires k <= n
    ensures BitsOf(v, n)[..k] == BitsOf(v / Pow2(n - k), k)
  {
    if k == n {
      assert BitsOf(v, n)[..k] == BitsOf(v, n);
    } else {
      LeadingBits(v / 2, n - 1, k);
      assert BitsOf(v, n)[..k] == BitsOf(v / 2, n - 1)[..k];
      DivDiv(v, 2, Pow2(n - 1 - k));
    }
  }

  // ---- Sequences of values ----

  lemma {:induction false} UnpackLength(values: seq<nat>, width: nat)
    ensures |Unpack(values, width)| == |values| * width
  {
    if values == [] {
    } else {
      UnpackLength(values[1..], width);
      assert |values| * width == (|values| - 1) * width + width;
    }
  }

  lemma {:induction false} PackLength(bits: seq<bit>, width: nat, count: nat)
    requires width > 0 && |bits| == count * width
    ensures |Pack(bits, width)| == count
  {
    if count == 0 {
    } else {
      Products(width, count - 1, 1, 1);
      assert |bits[width..]| == (count - 1) * width;
      PackLength(bits[width..], width, count - 1);
    }
  }

  lemma {:induction false} PackUnpack(values: seq<nat>, width: nat)
    requires width > 0 && forall i :: 0 <= i < |values| ==> values[i] < Pow2(width)
    ensures Pack(Unpack(values, width), width) == values
  {
    if values == [] {
    } else {
      PackUnpack(values[1..], width);
      FromBitsOf(values[0], width);
      var bits := Unpack(values, width);
      assert bits[..width] == BitsOf(values[0], width);
      assert bits[width..] == Unpack(values[1..], width);
    }
  }

  /** `n` bits are a whole number of words. */
  predicate InWords(n: nat, width: nat, count: nat) { n == count * width }

  lemma OneWordFewer(n: nat, width: nat, count: nat)
    requires width > 0 && n > 0 && InWords(n, width, count)
    ensures count > 0 && n >= width && InWords(n - width, width, count - 1)
  {
    Products(width, count - 1, 1, 1);
  }

  lemma {:induction false} UnpackPack(bits: seq<bit>, width: nat, count: nat)
    requires width > 0 && InWords(|bits|, width, count)
    ensures Unpack(Pack(bits, width), width) == bits
    decreases count
  {
    hide InWords;
    if bits == [] {
    } else {
      OneWordFewer(|bits|, width, count);
      UnpackPack(bits[width..], width, count - 1);
      hide FromBits, BitsOf, Unpack, Pack;
      BitsOfFrom(bits[..width]);
      PackFirst(bits, width);
      UnpackFirst(FromBits(bits[..width]), Pack(bits[width..], width), width);
    }
  }

  lemma PackFirst(bits: seq<bit>, width: nat)
    requires 0 < width <= |bits|
    ensures Pack(bits, width) == [FromBits(bits[..width])] + Pack(bits[width..], width)
  {
    hide FromBits;
  }

  lemma UnpackFirst(v: nat, rest: seq<nat>, width: nat)
    ensures Unpack([v] + rest, width) == BitsOf(v, width) + Unpack(rest, width)
  {
    hide BitsOf;
    assert ([v] + rest)[1..] == rest;
  }

  lemma {:induction false} PackBound(bits: seq<bit>, width: nat, i: nat)
    requires i < |Pack(bits, width)|
    ensures Pack(bits, width)[i] < Pow2(width)
  {
    if i == 0 {
      FromBitsBound(bits[..width]);
    } else {
      PackBound(bits[width..], width, i - 1);
    }
  }

  lemma {:induction false} UnpackConcat(a: seq<nat>, b: seq<nat>, width: nat)
    ensures Unpack(a + b, width) == Unpack(a, width) + Unpack(b, width)
  {
    hide BitsOf;
    if a == [] {
      assert a + b == b;
    } else {
      UnpackConcat(a[1..], b, width);
      assert (a + b)[0] == a[0] && (a + b)[1..] == a[1..] + b;
      Reassociate(BitsOf(a[0], width), Unpack(a[1..], width), Unpack(b, width));
    }
  }

  lemma FromBitsSnoc(bits: seq<bit>, b: bit)
    ensures FromBits(bits + [b]) == 2 * FromBits(bits) + b
  {
    assert (bits + [b])[..|bits|] == bits;
  }
}
