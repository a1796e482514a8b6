/**
  * The checksum as the standard defines it: division of polynomials over GF(2). Nothing here
  * mentions the register; a sequence of bits is a polynomial with its highest power first.
  */
module Polynomial {
  import opened Bytes
  import Crc

  function Zeros(n: nat): (s: seq<bool>)
    ensures |s| == n
  {
    seq(n, _ => false)
  }

  /** The sum of two polynomials, coefficient by coefficient without carries. */
  function Plus(a: seq<bool>, b: seq<bool>): (s: seq<bool>)
    requires |a| == |b|
    ensures |s| == |a|
  {
    seq(|a|, i requires 0 <= i < |a| => a[i] != b[i])
  }

  /** The carry-less product: the sum of `g` shifted to every power that occurs in `q`. */
  function Product(q: seq<bool>, g: seq<bool>): (s: seq<bool>)
    requires |g| > 0
    ensures |s| == |q| + |g| - 1
  {
    if q == [] then Zeros(|g| - 1)
    else
      var n := |q| - 1;
      Plus(Product(q[..n], g) + [false], Zeros(n) + (if q[n] then g else Zeros(|g|)))
  }

  ghost predicate Divides(g: seq<bool>, s: seq<bool>)
    requires |g| > 0
  {
    |s| + 1 >= |g| && exists q: seq<bool> :: |q| == |s| + 1 - |g| && Product(q, g) == s
  }

  /** x^16 + x^12 + x^5 + 1. */
  function Generator(): (g: seq<bool>)
    ensures |g| == 17
  {
    seq(17, i => 16 - i == 16 || 16 - i == 12 || 16 - i == 5 || 16 - i == 0)
  }

  /** The bits of a byte string, the highest bit of each byte first. */
  function MessageBits(bytes: seq<byte>): (s: seq<bool>)
    ensures |s| == 8 * |bytes|
  {
    seq(8 * |bytes|, i requires 0 <= i < 8 * |bytes| => bytes[i / 8] / Weight(i % 8) % 2 == 1)
  }

  /** The value of bit `k` of a byte, counted from the highest. */
  function Weight(k: nat): (w: nat)
    requires k < 8
    ensures w > 0
  {
    [128, 64, 32, 16, 8, 4, 2, 1][k]
  }

  /** The register starts with all ones, which inverts the first sixteen bits. */
  function Inverted(s: seq<bool>): (r: seq<bool>)
    ensures |r| == |s|
  {
    seq(|s|, i requires 0 <= i < |s| => if i < 16 then !s[i] else s[i])
  }

  // ----- bits of bytes ---------------------------------------------------------------------

  /** Each binary digit is a quotient's parity. */
  lemma {:induction false} BinaryDigit(n: nat, k: nat, i: nat)
    requires n < Pow2(k) && i < k
    ensures Binary(n, k)[i] <==> n / Pow2(k - 1 - i) % 2 == 1
  {
    var p := Pow2(k - 1);
    if i == 0 {
      QuotientIs(n, p, if n >= p then 1 else 0);
    } else {
      var rest := if n >= p then n - p else n;
      var q := Pow2(k - 1 - i);
      BinaryDigit(rest, k - 1, i - 1);
      var m := PowersDivide(k - 1, k - 1 - i);
      if n >= p {
        EvenMultiple(n - p, m, q);
      }
    }
  }

  lemma QuotientIs(n: nat, p: nat, q: nat)
    requires p > 0 && q * p <= n < q * p + p
    ensures n / p == q
  {
    var d := n / p;
    assert d * p <= n < d * p + p;
    assert d < q ==> (d + 1) * p <= q * p;
    assert d > q ==> (q + 1) * p <= d * p;
  }

  /** A larger power of two is an even multiple of a smaller one. */
  lemma {:induction false} PowersDivide(k: nat, j: nat) returns (m: nat)
    requires j < k
    ensures Pow2(k) == 2 * m * Pow2(j)
    decreases k
  {
    if k == j + 1 {
      m := 1;
    } else {
      m := PowersDivide(k - 1, j);
      m := 2 * m;
    }
  }

  lemma EvenMultiple(n: int, m: nat, q: nat)
    requires q > 0 && n >= 0
    ensures (n + 2 * m * q) / q % 2 == n / q % 2
  {
    var d := n / q;
    assert (2 * m + d) * q == 2 * m * q + d * q;
    QuotientIs(n + 2 * m * q, q, 2 * m + d);
  }

  lemma ByteDigit(b: byte, k: nat)
    requires k < 8
    ensures ByteBits(b)[k] <==> b / Weight(k) % 2 == 1
  {
    hide Binary, Pow2;
    BytePow();
    Powers();
    BinaryDigit(b, 8, k);
  }

  lemma Powers()
    ensures Pow2(0) == 1 && Pow2(1) == 2 && Pow2(2) == 4 && Pow2(3) == 8
    ensures Pow2(4) == 16 && Pow2(5) == 32 && Pow2(6) == 64 && Pow2(7) == 128
  {
  }

  lemma FirstBits(bytes: seq<byte>)
    requires bytes != []
    ensures MessageBits(bytes)[..8] == ByteBits(bytes[0])
  {
    hide Weight, ByteBits;
    forall k | 0 <= k < 8
      ensures MessageBits(bytes)[k] == ByteBits(bytes[0])[k]
    {
      ByteDigit(bytes[0], k);
    }
  }

  lemma LaterBits(bytes: seq<byte>)
    requires bytes != []
    ensures MessageBits(bytes)[8..] == MessageBits(bytes[1..])
  {
    hide Weight;
    forall i | 8 <= i < 8 * |bytes|
      ensures MessageBits(bytes)[i] == MessageBits(bytes[1..])[i - 8]
    {
      assert (i - 8) / 8 == i / 8 - 1 && (i - 8) % 8 == i % 8;
    }
  }

  lemma {:induction false} BitsAreMessageBits(bytes: seq<byte>)
    ensures Crc.Bits(bytes) == MessageBits(bytes)
  {
    hide ByteBits, MessageBits;
    if bytes == [] {
      assert MessageBits(bytes) == [];
    } else {
      BitsAreMessageBits(bytes[1..]);
      FirstBits(bytes);
      LaterBits(bytes);
      var m := MessageBits(bytes);
      assert m == m[..8] + m[8..];
    }
  }

  // ----- one bit of the division -----------------------------------------------------------

  lemma {:induction false} TopBitsPrefix(c: bv16, k: nat)
    ensures Crc.TopBits(c, k + 1)[..k] == Crc.TopBits(c, k)
    decreases k
  {
    hide Crc.Overflows, Crc.Doubled;
    if k > 0 {
      TopBitsPrefix(Crc.Doubled(c), k - 1);
    }
  }

  lemma {:induction false} TopBitsXor(a: bv16, b: bv16, k: nat)
    ensures var x, y := Crc.TopBits(a, k), Crc.TopBits(b, k);
            forall j :: 0 <= j < k ==> Crc.TopBits(Crc.Xor(a, b), k)[j] == (x[j] != y[j])
    decreases k
  {
    hide Crc.Overflows, Crc.Doubled, Crc.Xor;
    if k > 0 {
      Crc.OverflowLinear(a, b);
      Crc.DoubledLinear(a, b);
      TopBitsXor(Crc.Doubled(a), Crc.Doubled(b), k - 1);
    }
  }

  /** Shifting left moves every bit one place up and leaves the last one clear. */
  lemma DoubledBits(c: bv16)
    ensures [Crc.Overflows(c)] + Crc.TopBits(Crc.Doubled(c), 16) == Crc.TopBits(c, 16) + [false]
  {
    hide Crc.Overflows, Crc.Doubled, Crc.TopBits;
    var d := Crc.Doubled(c);
    TopBitsPrefix(d, 15);
    LastClear(c);
    FirstTop(c, 16);
    var t := Crc.TopBits(d, 16);
    assert t == t[..15] + [t[15]];
  }

  lemma FirstTop(c: bv16, k: nat)
    requires k > 0
    ensures Crc.TopBits(c, k) == [Crc.Overflows(c)] + Crc.TopBits(Crc.Doubled(c), k - 1)
  {
    hide Crc.Overflows, Crc.Doubled;
  }

  lemma {:induction false} TopBitAt(c: bv16, k: nat, j: nat)
    requires j < k
    ensures Crc.TopBits(c, k)[j] == Crc.Overflows(Shift(c, j))
    decreases j
  {
    hide Crc.Overflows, Crc.Doubled;
    if j > 0 {
      TopBitAt(Crc.Doubled(c), k - 1, j - 1);
    }
  }

  function Shift(c: bv16, k: nat): bv16
    decreases k
  {
    if k == 0 then c else Shift(Crc.Doubled(c), k - 1)
  }

  lemma LastClear(c: bv16)
    ensures !Crc.TopBits(Crc.Doubled(c), 16)[15]
  {
    TopBitAt(Crc.Doubled(c), 16, 15);
    ShiftSeven(Crc.Doubled(c));
    ShiftAdds(Crc.Doubled(c), 7, 8);
    ShiftEight(Shift(Crc.Doubled(c), 7));
    ShiftedOut(c);
  }

  lemma ShiftSeven(c: bv16)
    ensures Shift(c, 7) == c << 7
  {
  }

  lemma ShiftEight(c: bv16)
    ensures Shift(c, 8) == c << 8
  {
  }

  lemma {:induction false} ShiftAdds(c: bv16, j: nat, k: nat)
    ensures Shift(c, j + k) == Shift(Shift(c, j), k)
    decreases j
  {
    hide Crc.Doubled;
    if j > 0 {
      ShiftAdds(Crc.Doubled(c), j - 1, k);
    }
  }

  lemma ShiftedOut(c: bv16)
    ensures (((c << 1) << 7) << 8) & 0x8000 == 0
  {
  }

  /** The low sixteen coefficients of the generator are the bits of its register word. */
  lemma GeneratorWord()
    ensures Crc.TopBits(0x1021, 16) == Generator()[1..] && Generator()[0]
    ensures Crc.TopBits(0, 16) == Zeros(16)
  {
    hide Crc.Overflows, Crc.Doubled, Crc.TopBits;
    ZeroBits(16);
    forall j | 0 <= j < 16
      ensures Crc.TopBits(0x1021, 16)[j] == Generator()[j + 1]
    {
      TopBitAt(0x1021, 16, j);
      GeneratorBit(j);
    }
  }

  lemma GeneratorBit(j: nat)
    requires j < 16
    ensures Crc.Overflows(Shift(0x1021, j)) == Generator()[j + 1]
  {
    hide Crc.Overflows, Shift;
    FourPlaces(0x1021, 0x0210, 0x2100, 0x1000, j);
    Leading(0x1021);
    Leading(0x0210);
    Leading(0x2100);
    Leading(0x1000);
  }

  /** Four of the first sixteen places at a time. */
  lemma FourPlaces(a: bv16, b: bv16, c: bv16, d: bv16, j: nat)
    requires j < 16 && b == a << 4 && c == b << 4 && d == c << 4
    ensures Shift(a, j) == if j < 4 then Shift(a, j) else if j < 8 then Shift(b, j - 4)
                           else if j < 12 then Shift(c, j - 8) else Shift(d, j - 12)
  {
    hide Shift;
    if j >= 4 {
      ShiftFour(a, j);
    }
    if j >= 8 {
      ShiftFour(b, j - 4);
    }
    if j >= 12 {
      ShiftFour(c, j - 8);
    }
  }

  lemma ShiftFour(c: bv16, k: nat)
    requires k >= 4
    ensures Shift(c, k) == Shift(c << 4, k - 4)
  {
    assert Shift(c, 4) == c << 4;
    ShiftAdds(c, 4, k - 4);
  }

  predicate Has(c: bv16, mask: bv16) {
    c & mask != 0
  }

  lemma Leading(c: bv16)
    ensures Crc.Overflows(Shift(c, 0)) == Has(c, 0x8000) && Crc.Overflows(Shift(c, 1)) == Has(c, 0x4000)
    ensures Crc.Overflows(Shift(c, 2)) == Has(c, 0x2000) && Crc.Overflows(Shift(c, 3)) == Has(c, 0x1000)
  {
    hide Has, Crc.Doubled, Crc.Overflows;
    var d, e := Crc.Doubled(c), Crc.Doubled(Crc.Doubled(c));
    assert Shift(d, 0) == d && Shift(d, 1) == e && Shift(d, 2) == Crc.Doubled(e);
    FirstHas(c);
    FirstHas(d);
    FirstHas(e);
    FirstHas(Crc.Doubled(e));
    DoubledHas(c);
    DoubledHas(d);
    DoubledHas(e);
  }

  lemma FirstHas(c: bv16)
    ensures Crc.Overflows(c) == Has(c, 0x8000)
  {
  }

  lemma DoubledHas(c: bv16)
    ensures Has(Crc.Doubled(c), 0x8000) == Has(c, 0x4000) && Has(Crc.Doubled(c), 0x4000) == Has(c, 0x2000)
    ensures Has(Crc.Doubled(c), 0x2000) == Has(c, 0x1000)
  {
    hide Has;
    ThirdHas(c);
    FourthHas(c);
    SecondHas(c);
  }

  lemma SecondHas(c: bv16)
    ensures Has(Crc.Doubled(c), 0x8000) == Has(c, 0x4000)
  {
  }

  lemma ThirdHas(c: bv16)
    ensures Has(Crc.Doubled(c), 0x4000) == Has(c, 0x2000)
  {
  }

  lemma FourthHas(c: bv16)
    ensures Has(Crc.Doubled(c), 0x2000) == Has(c, 0x1000)
  {
  }

  lemma {:induction false} ZeroBits(k: nat)
    ensures Crc.TopBits(0, k) == Zeros(k)
  {
    if k > 0 {
      ZeroBits(k - 1);
      assert Crc.Doubled(0) == 0 && !Crc.Overflows(0);
    }
  }

  // ----- the division ----------------------------------------------------------------------

  function PaddedIf(bit: bool, g: seq<bool>): (s: seq<bool>)
    ensures |s| == |g|
  {
    if bit then g else Zeros(|g|)
  }

  /**
    * Seventeen coefficients around one register step: adding the generator, if the bit that leaves
    * the register differs from the one fed in, clears the leaving bit and gives the next register.
    */
  lemma TailStep(r: bv16, b: bool)
    ensures Plus(Crc.TopBits(r, 16) + [false], PaddedIf(Crc.Overflows(r) != b, Generator()))
         == [b] + Crc.TopBits(Crc.FeedBit(r, b), 16)
  {
    hide Crc.Overflows, Crc.Doubled, Crc.Xor, Crc.BitStep, Crc.TopBits, Generator;
    var fed := Crc.Xor(r, Crc.Top(b));
    var c := Crc.Overflows(r) != b;
    TopLeaves(r, b);
    Crc.BitStepSplit(fed);
    var word := Crc.Feedback(c);
    GeneratorWord();
    DoubledBits(r);
    TopBitsXor(Crc.Doubled(r), word, 16);
    var left := Plus(Crc.TopBits(r, 16) + [false], PaddedIf(c, Generator()));
    var right := [b] + Crc.TopBits(Crc.FeedBit(r, b), 16);
    forall k | 0 <= k < 17
      ensures left[k] == right[k]
    {
      assert (Crc.TopBits(r, 16) + [false])[k] == ([Crc.Overflows(r)] + Crc.TopBits(Crc.Doubled(r), 16))[k];
      if k > 0 {
        assert Generator()[1..][k - 1] == Generator()[k];
        assert Crc.TopBits(Crc.Xor(Crc.Doubled(r), word), 16)[k - 1]
            == (Crc.TopBits(Crc.Doubled(r), 16)[k - 1] != Crc.TopBits(word, 16)[k - 1]);
      }
    }
  }

  lemma TopLeaves(r: bv16, b: bool)
    ensures Crc.Overflows(Crc.Xor(r, Crc.Top(b))) == (Crc.Overflows(r) != b)
    ensures Crc.Doubled(Crc.Xor(r, Crc.Top(b))) == Crc.Doubled(r)
  {
    hide Crc.Overflows, Crc.Doubled, Crc.Xor, Crc.Top;
    Crc.OverflowLinear(r, Crc.Top(b));
    Crc.DoubledLinear(r, Crc.Top(b));
    TopAlone(b);
    Crc.XorCancel(Crc.Doubled(r), 0);
  }

  lemma TopAlone(b: bool)
    ensures Crc.Overflows(Crc.Top(b)) == b && Crc.Doubled(Crc.Top(b)) == 0
  {
  }

  /** A message followed by its register, the first sixteen bits inverted. */
  function Sealed(bits: seq<bool>, r: bv16): seq<bool> { Inverted(bits + Crc.TopBits(r, 16)) }

  lemma SealedStart()
    ensures Sealed([], 0xFFFF) == Zeros(16)
  {
    AllOnes();
    assert [] + Crc.TopBits(0xFFFF, 16) == Crc.TopBits(0xFFFF, 16);
  }

  lemma AllOnes()
    ensures forall j :: 0 <= j < 16 ==> Crc.TopBits(0xFFFF, 16)[j]
  {
    hide Crc.Overflows, Shift, Crc.TopBits;
    Leading(0xFFFF);
    Leading(0xFFF0);
    Leading(0xFF00);
    Leading(0xF000);
    forall j | 0 <= j < 16
      ensures Crc.TopBits(0xFFFF, 16)[j]
    {
      TopBitAt(0xFFFF, 16, j);
      FourPlaces(0xFFFF, 0xFFF0, 0xFF00, 0xF000, j);
    }
  }

  lemma ProductStep(q: seq<bool>, c: bool, i: nat)
    requires i < |q| + 17
    ensures Product(q + [c], Generator())[i]
         == ((Product(q, Generator()) + [false])[i] != (i >= |q| && PaddedIf(c, Generator())[i - |q|]))
  {
    hide Generator;
    var more, n := q + [c], |q|;
    assert more[..n] == q && more[n] == c;
    assert i < n ==> (Zeros(n) + PaddedIf(c, Generator()))[i] == Zeros(n)[i];
  }

  /** A coefficient of a sealed message, with the clear one behind it. */
  lemma SealedAt(bits: seq<bool>, r: bv16, i: nat)
    requires i < |bits| + 17
    ensures (Sealed(bits, r) + [false])[i]
         == ((if i < |bits| then bits[i] else (Crc.TopBits(r, 16) + [false])[i - |bits|]) != (i < 16))
  {
    hide Crc.TopBits;
    var s := bits + Crc.TopBits(r, 16);
    if i < |s| {
      assert Inverted(s)[i] == (s[i] != (i < 16));
    }
  }

  /** Feeding one more bit extends the quotient by one coefficient. */
  lemma SealedStep(q: seq<bool>, bits: seq<bool>, r: bv16, b: bool)
    requires |q| == |bits| && Product(q, Generator()) == Sealed(bits, r)
    ensures Product(q + [Crc.Overflows(r) != b], Generator()) == Sealed(bits + [b], Crc.FeedBit(r, b))
  {
    hide Crc.Overflows, Crc.FeedBit, Crc.TopBits, Generator, Product, Sealed, Inverted;
    var c, n := Crc.Overflows(r) != b, |q|;
    TailStep(r, b);
    var tail := Plus(Crc.TopBits(r, 16) + [false], PaddedIf(c, Generator()));
    var next := Crc.FeedBit(r, b);
    SealedLength(bits + [b], next);
    forall i | 0 <= i < n + 17
      ensures Product(q + [c], Generator())[i] == Sealed(bits + [b], next)[i]
    {
      ProductStep(q, c, i);
      SealedAt(bits, r, i);
      SealedAt(bits + [b], next, i);
      SealedInside(bits + [b], next, i);
      if i >= n {
        assert tail[i - n] == ([b] + Crc.TopBits(next, 16))[i - n];
      }
    }
  }

  lemma SealedLength(bits: seq<bool>, r: bv16)
    ensures |Sealed(bits, r)| == |bits| + 16
  {
  }

  lemma SealedInside(bits: seq<bool>, r: bv16, i: nat)
    requires i < |bits| + 16
    ensures |Sealed(bits, r)| == |bits| + 16 && (Sealed(bits, r) + [false])[i] == Sealed(bits, r)[i]
    ensures i >= |bits| ==> (Crc.TopBits(r, 16) + [false])[i - |bits|] == Crc.TopBits(r, 16)[i - |bits|]
  {
  }

  /** The checksum is the remainder: with it appended, the message is a multiple of the generator. */
  lemma {:induction false} FeedDivides(bits: seq<bool>) returns (q: seq<bool>)
    ensures |q| == |bits| && Product(q, Generator()) == Sealed(bits, Crc.Feed(0xFFFF, bits))
  {
    hide Crc.Overflows, Crc.FeedBit, Crc.TopBits, Generator, Sealed;
    if bits == [] {
      q := [];
      SealedStart();
    } else {
      var n := |bits| - 1;
      q := FeedDivides(bits[..n]);
      var r := Crc.Feed(0xFFFF, bits[..n]);
      FeedLast(0xFFFF, bits[..n], bits[n]);
      assert bits == bits[..n] + [bits[n]];
      SealedStep(q, bits[..n], r, bits[n]);
      q := q + [Crc.Overflows(r) != bits[n]];
    }
  }

  lemma FeedLast(c: bv16, bits: seq<bool>, b: bool)
    ensures Crc.Feed(c, bits + [b]) == Crc.FeedBit(Crc.Feed(c, bits), b)
  {
    Crc.FeedConcat(c, bits, [b]);
  }

  /** A multiple of the generator is determined by all but its last sixteen coefficients. */
  lemma {:induction false} QuotientUnique(p: seq<bool>, q: seq<bool>)
    requires |p| == |q| && forall i :: 0 <= i < |p| ==> Product(p, Generator())[i] == Product(q, Generator())[i]
    ensures p == q
    decreases |p|
  {
    hide Generator;
    if p != [] {
      var n, g := |p| - 1, Generator();
      GeneratorLeads();
      forall i | 0 <= i < n
        ensures Product(p[..n], g)[i] == Product(q[..n], g)[i]
      {
        assert Product(p, g)[i] == Product(q, g)[i];
        assert Product(p, g)[i] == (Product(p[..n], g) + [false])[i];
        assert Product(q, g)[i] == (Product(q[..n], g) + [false])[i];
      }
      QuotientUnique(p[..n], q[..n]);
      assert Product(p, g)[n] == Product(q, g)[n];
      assert Product(p, g)[n] == ((Product(p[..n], g) + [false])[n] != p[n]);
      assert Product(q, g)[n] == ((Product(q[..n], g) + [false])[n] != q[n]);
      assert p == p[..n] + [p[n]] && q == q[..n] + [q[n]];
    }
  }

  lemma GeneratorLeads()
    ensures |Generator()| == 17 && Generator()[0]
  {
  }

  // ----- the checksum ----------------------------------------------------------------------

  /** The bits of a frame end with those of its two checksum bytes. */
  lemma FrameBits(payload: seq<byte>, hi: byte, lo: byte)
    ensures MessageBits(payload + [hi, lo]) == MessageBits(payload) + (ByteBits(hi) + ByteBits(lo))
  {
    hide MessageBits, ByteBits;
    BitsAreMessageBits(payload + [hi, lo]);
    BitsAreMessageBits(payload);
    BitsConcat(payload, [hi, lo]);
    assert [hi, lo][1..] == [lo] && [lo][1..] == [];
    assert Crc.Bits([lo]) == ByteBits(lo) + [];
  }

  lemma {:induction false} BitsConcat(x: seq<byte>, y: seq<byte>)
    ensures Crc.Bits(x + y) == Crc.Bits(x) + Crc.Bits(y)
  {
    hide ByteBits;
    if x == [] {
      assert x + y == y;
    } else {
      assert (x + y)[1..] == x[1..] + y;
      BitsConcat(x[1..], y);
    }
  }

  lemma WordBits(c: bv16, hi: byte, lo: byte)
    ensures c == Crc.Word(hi, lo) <==> Crc.TopBits(c, 16) == ByteBits(hi) + ByteBits(lo)
  {
    hide Crc.Word, ByteBits, Crc.TopBits;
    var t := Crc.TopBits(c, 16);
    Crc.WordOfHalves(c);
    assert t == t[..8] + t[8..];
    if c == Crc.Word(hi, lo) {
      Crc.WordInjective(hi, lo, Crc.High(c), Crc.LowHalf(c));
    }
    if t == ByteBits(hi) + ByteBits(lo) {
      assert t[..8] == ByteBits(hi) && t[8..] == ByteBits(lo);
      ByteBitsInjective(hi, Crc.High(c));
      ByteBitsInjective(lo, Crc.LowHalf(c));
    }
  }

  /** Inversion loses nothing. */
  lemma InvertedInjective(s: seq<bool>, t: seq<bool>)
    requires |s| == |t| && Inverted(s) == Inverted(t)
    ensures s == t
  {
    forall i | 0 <= i < |s|
      ensures s[i] == t[i]
    {
      assert Inverted(s)[i] == Inverted(t)[i];
    }
  }

  /**
    * The checksum of the standard: a frame matches exactly when its bits, the first sixteen
    * inverted, are a multiple of x^16 + x^12 + x^5 + 1.
    */
  lemma MatchesIffDivisible(frame: seq<byte>)
    requires |frame| >= 2
    ensures Crc.ChecksumMatches(frame) <==> Divides(Generator(), Inverted(MessageBits(frame)))
  {
    hide Crc.Checksum, Crc.Feed, Crc.Word, MessageBits, Generator, Inverted, Product, Crc.TopBits, ByteBits;
    var n := |frame| - 2;
    var payload, hi, lo := frame[..n], frame[n], frame[n + 1];
    assert frame == payload + [hi, lo];
    var bits, trailer := MessageBits(payload), ByteBits(hi) + ByteBits(lo);
    var c := Crc.Checksum(0xFFFF, payload);
    FrameBits(payload, hi, lo);
    Crc.ChecksumIsFeed(0xFFFF, payload);
    BitsAreMessageBits(payload);
    var q := FeedDivides(bits);
    WordBits(c, hi, lo);
    if Crc.ChecksumMatches(frame) {
      assert Product(q, Generator()) == Inverted(MessageBits(frame));
    }
    if Divides(Generator(), Inverted(MessageBits(frame))) {
      var p :| |p| == 8 * |frame| - 16 && Product(p, Generator()) == Inverted(bits + trailer);
      OnlyRemainder(bits, Crc.TopBits(c, 16), trailer, p, q);
    }
  }

  /** Two multiples that agree before the last sixteen coefficients agree in them too. */
  lemma OnlyRemainder(bits: seq<bool>, s: seq<bool>, t: seq<bool>, p: seq<bool>, q: seq<bool>)
    requires |s| == |t| == 16 && |p| == |q| == |bits|
    requires Product(q, Generator()) == Inverted(bits + s) && Product(p, Generator()) == Inverted(bits + t)
    ensures s == t
  {
    hide Product, Generator;
    forall i | 0 <= i < |bits|
      ensures Product(p, Generator())[i] == Product(q, Generator())[i]
    {
      assert (bits + s)[i] == (bits + t)[i];
      assert Inverted(bits + s)[i] == Inverted(bits + t)[i];
    }
    QuotientUnique(p, q);
    InvertedInjective(bits + s, bits + t);
    assert s == (bits + s)[|bits|..] && t == (bits + t)[|bits|..];
  }

  /** The character code of a decimal digit: its high half is 3. */
  lemma DigitBits(b: byte, low: seq<bool>)
    requires 0x30 <= b < 0x40 && |low| == 4
    requires forall k :: 0 <= k < 4 ==> (low[k] <==> b / Weight(4 + k) % 2 == 1)
    ensures ByteBits(b) == [false, false, true, true] + low
  {
    hide ByteBits;
    forall k | 0 <= k < 8
      ensures ByteBits(b)[k] == ([false, false, true, true] + low)[k]
    {
      ByteDigit(b, k);
    }
  }

  lemma StepIs(c: bv16, b: byte, bits: seq<bool>, next: bv16)
    requires |bits| == 8 && ByteBits(b) == bits[..4] + bits[4..] && Crc.Feed(c, bits) == next
    ensures Crc.ByteStep(c, b) == next
  {
    hide ByteBits, Crc.ByteStep, Crc.Feed;
    assert bits == bits[..4] + bits[4..];
    Crc.ByteStepIsFeed(c, b);
  }

  lemma Digit1()
    ensures Crc.ByteStep(0xFFFF, 0x31) == 0xC782
  {
    hide ByteBits, Crc.ByteStep;
    var bits := [false, false, true, true, false, false, false, true];
    DigitBits(0x31, bits[4..]);
    StepIs(0xFFFF, 0x31, bits, 0xC782);
  }

  lemma Digit2()
    ensures Crc.ByteStep(0xC782, 0x32) == 0x3DBA
  {
    hide ByteBits, Crc.ByteStep;
    var bits := [false, false, true, true, false, false, true, false];
    DigitBits(0x32, bits[4..]);
    StepIs(0xC782, 0x32, bits, 0x3DBA);
  }

  lemma Digit3()
    ensures Crc.ByteStep(0x3DBA, 0x33) == 0x5BCE
  {
    hide ByteBits, Crc.ByteStep;
    var bits := [false, false, true, true, false, false, true, true];
    DigitBits(0x33, bits[4..]);
    StepIs(0x3DBA, 0x33, bits, 0x5BCE);
  }

  lemma Digit4()
    ensures Crc.ByteStep(0x5BCE, 0x34) == 0x5349
  {
    hide ByteBits, Crc.ByteStep;
    var bits := [false, false, true, true, false, true, false, false];
    DigitBits(0x34, bits[4..]);
    StepIs(0x5BCE, 0x34, bits, 0x5349);
  }

  lemma Digit5()
    ensures Crc.ByteStep(0x5349, 0x35) == 0x4560
  {
    hide ByteBits, Crc.ByteStep;
    var bits := [false, false, true, true, false, true, false, true];
    DigitBits(0x35, bits[4..]);
    StepIs(0x5349, 0x35, bits, 0x4560);
  }

  lemma Digit6()
    ensures Crc.ByteStep(0x4560, 0x36) == 0x2EF4
  {
    hide ByteBits, Crc.ByteStep;
    var bits := [false, false, true, true, false, true, true, false];
    DigitBits(0x36, bits[4..]);
    StepIs(0x4560, 0x36, bits, 0x2EF4);
  }

  lemma Digit7()
    ensures Crc.ByteStep(0x2EF4, 0x37) == 0x7718
  {
    hide ByteBits, Crc.ByteStep;
    var bits := [false, false, true, true, false, true, true, true];
    DigitBits(0x37, bits[4..]);
    StepIs(0x2EF4, 0x37, bits, 0x7718);
  }

  lemma Digit8()
    ensures Crc.ByteStep(0x7718, 0x38) == 0xA12B
  {
    hide ByteBits, Crc.ByteStep;
    var bits := [false, false, true, true, true, false, false, false];
    DigitBits(0x38, bits[4..]);
    StepIs(0x7718, 0x38, bits, 0xA12B);
  }

  lemma Digit9()
    ensures Crc.ByteStep(0xA12B, 0x39) == 0x29B1
  {
    hide ByteBits, Crc.ByteStep;
    var bits := [false, false, true, true, true, false, false, true];
    DigitBits(0x39, bits[4..]);
    StepIs(0xA12B, 0x39, bits, 0x29B1);
  }

  /** The check value of the standard's checksum: that of the nine characters "123456789". */
  lemma CheckValue()
    ensures Crc.Checksum(0xFFFF, [0x31, 0x32, 0x33, 0x34, 0x35, 0x36, 0x37, 0x38, 0x39]) == 0x29B1
  {
    hide Crc.ByteStep, Crc.Checksum;
    Digit1();
    Digit2();
    Digit3();
    Digit4();
    Digit5();
    Digit6();
    Digit7();
    Digit8();
    Digit9();
    var first, middle, last := [0x31, 0x32, 0x33], [0x34, 0x35, 0x36], [0x37, 0x38, 0x39];
    Three(0xFFFF, first);
    Three(0x5BCE, middle);
    Three(0x2EF4, last);
    Crc.ChecksumConcat(0xFFFF, first, middle);
    Crc.ChecksumConcat(0xFFFF, first + middle, last);
    assert first + middle + last == [0x31, 0x32, 0x33, 0x34, 0x35, 0x36, 0x37, 0x38, 0x39];
  }

  lemma Three(c: bv16, s: seq<byte>)
    requires |s| == 3
    ensures Crc.Checksum(c, s) == Crc.ByteStep(Crc.ByteStep(Crc.ByteStep(c, s[0]), s[1]), s[2])
  {
    hide Crc.Checksum, Crc.ByteStep;
    Single(c, s[0]);
    Single(Crc.ByteStep(c, s[0]), s[1]);
    Single(Crc.ByteStep(Crc.ByteStep(c, s[0]), s[1]), s[2]);
    Crc.ChecksumConcat(c, [s[0]], [s[1]]);
    Crc.ChecksumConcat(c, [s[0]] + [s[1]], [s[2]]);
    assert s == [s[0]] + [s[1]] + [s[2]];
  }

  lemma Single(c: bv16, b: byte)
    ensures Crc.Checksum(c, [b]) == Crc.ByteStep(c, b)
  {
    hide Crc.ByteStep;
    assert [b][1..] == [];
  }
}
