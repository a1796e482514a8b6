/** Bytes, big-endian integers and the result type shared by the codecs. */
module Bytes {

  type byte = n: nat | n < 256

  datatype Option<+T> = None | Some(value: T) {
    predicate IsFailure() { None? }

    function PropagateFailure<U>(): Option<U>
      requires None?
    {
      None
    }

    function Extract(): T
      requires Some?
    {
      value
    }
  }

  datatype Result<+T, +E> = Ok(value: T) | Err(error: E)

  const U16_MAX := 0xFFFF
  const U32_MAX := 0xFFFF_FFFF
  const U64_MAX := 0xFFFF_FFFF_FFFF_FFFF

  function U16(hi: byte, lo: byte): (n: nat)
    ensures n <= U16_MAX
  {
    hi * 256 + lo
  }

  function U24(a: byte, b: byte, c: byte): (n: nat)
    ensures n < 0x100_0000
  {
    U16(a, b) * 256 + c
  }

  function U32(a: byte, b: byte, c: byte, d: byte): (n: nat)
    ensures n <= U32_MAX
  {
    U24(a, b, c) * 256 + d
  }

  /** The low eight bits of `n`. */
  function Low(n: nat): byte {
    n % 256
  }

  function PutU16(n: nat): (s: seq<byte>)
    ensures |s| == 2
  {
    [Low(n / 256), Low(n)]
  }

  function PutU24(n: nat): (s: seq<byte>)
    ensures |s| == 3
  {
    PutU16(n / 256) + [Low(n)]
  }

  function PutU32(n: nat): (s: seq<byte>)
    ensures |s| == 4
  {
    PutU24(n / 256) + [Low(n)]
  }

  /** Decoding inverts encoding for every value of the field's width. */
  lemma U16RoundTrip(n: nat)
    requires n <= U16_MAX
    ensures U16(PutU16(n)[0], PutU16(n)[1]) == n
  {
    assert n / 256 % 256 == n / 256;
  }

  lemma U24RoundTrip(n: nat)
    requires n < 0x100_0000
    ensures U24(PutU24(n)[0], PutU24(n)[1], PutU24(n)[2]) == n
  {
    U16RoundTrip(n / 256);
  }

  lemma U32RoundTrip(n: nat)
    requires n <= U32_MAX
    ensures U32(PutU32(n)[0], PutU32(n)[1], PutU32(n)[2], PutU32(n)[3]) == n
  {
    U24RoundTrip(n / 256);
  }

  lemma DivMod(q: nat, r: nat)
    requires r < 256
    ensures (q * 256 + r) / 256 == q && (q * 256 + r) % 256 == r
  {
  }

  /** Encoding inverts decoding for every byte string of the field's width. */
  lemma U16Inverse(a: byte, b: byte)
    ensures PutU16(U16(a, b)) == [a, b]
  {
    DivMod(a, b);
  }

  lemma U24Inverse(a: byte, b: byte, c: byte)
    ensures PutU24(U24(a, b, c)) == [a, b, c]
  {
    U16Inverse(a, b);
    DivMod(U16(a, b), c);
  }

  lemma U32Inverse(a: byte, b: byte, c: byte, d: byte)
    ensures PutU32(U32(a, b, c, d)) == [a, b, c, d]
  {
    U24Inverse(a, b, c);
    DivMod(U24(a, b, c), d);
  }

  // ----- binary digits ---------------------------------------------------------------------

  function Pow2(k: nat): (p: nat)
    ensures p > 0
  {
    if k == 0 then 1 else 2 * Pow2(k - 1)
  }

  /** The `k` binary digits of `n`, most significant first. */
  function Binary(n: nat, k: nat): (s: seq<bool>)
    requires n < Pow2(k)
    ensures |s| == k
  {
    if k == 0 then [] else
    if n >= Pow2(k - 1) then [true] + Binary(n - Pow2(k - 1), k - 1) else [false] + Binary(n, k - 1)
  }

  function FromBinary(s: seq<bool>): (n: nat)
    ensures n < Pow2(|s|)
  {
    if s == [] then 0 else (if s[0] then Pow2(|s| - 1) else 0) + FromBinary(s[1..])
  }

  lemma {:induction false} BinaryInverse(s: seq<bool>)
    ensures Binary(FromBinary(s), |s|) == s
  {
    if s != [] {
      BinaryInverse(s[1..]);
      assert s == [s[0]] + s[1..];
    }
  }

  lemma {:induction false} BinaryInjective(a: nat, b: nat, k: nat)
    requires a < Pow2(k) && b < Pow2(k) && Binary(a, k) == Binary(b, k)
    ensures a == b
  {
    if k > 0 {
      var p := Pow2(k - 1);
      assert Binary(a, k)[0] == Binary(b, k)[0];
      assert Binary(a, k)[1..] == Binary(b, k)[1..];
      BinaryInjective(if a >= p then a - p else a, if b >= p then b - p else b, k - 1);
    }
  }

  lemma BytePow()
    ensures Pow2(8) == 256
  {
    assert Pow2(2) == 4 && Pow2(4) == 16 && Pow2(6) == 64;
  }

  function ByteBits(b: byte): (s: seq<bool>)
    ensures |s| == 8
  {
    BytePow();
    Binary(b, 8)
  }

  function ByteOfBits(s: seq<bool>): (b: byte)
    requires |s| == 8
    ensures ByteBits(b) == s
  {
    BytePow();
    BinaryInverse(s);
    FromBinary(s)
  }

  lemma ByteBitsInjective(a: byte, b: byte)
    requires ByteBits(a) == ByteBits(b)
    ensures a == b
  {
    BytePow();
    BinaryInjective(a, b, 8);
  }
}
