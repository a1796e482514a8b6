/**
  * CRC-CCITT as the frame codecs compute it, and the errors it is certain to detect.
  *
  * The byte-wise loops are proved equal to a serial register fed one bit at a time. In that
  * form a window of at most sixteen bits is injective: it reaches the register as one word, and
  * the register step has no kernel.
  */
module Crc {
  import opened Bytes

  function Xor(a: bv16, b: bv16): bv16 {
    a ^ b
  }

  function Doubled(c: bv16): bv16 {
    c << 1
  }

  predicate Overflows(c: bv16) {
    c & 0x8000 != 0
  }

  function BitStep(c: bv16): bv16 {
    if Overflows(c) then Xor(Doubled(c), 0x1021) else Doubled(c)
  }

  /** `k` register steps without input. */
  function Steps(c: bv16, k: nat): bv16
    decreases k
  {
    if k == 0 then c else Steps(BitStep(c), k - 1)
  }

  function Half(c: bv16): bv16 {
    c >> 1
  }

  function Top(bit: bool): bv16 {
    if bit then 0x8000 else 0
  }

  /** At most sixteen bits, left-aligned in a register word. */
  function Aligned(bits: seq<bool>): bv16
    requires |bits| <= 16
  {
    if bits == [] then 0 else Xor(Top(bits[0]), Half(Aligned(bits[1..])))
  }

  /** A byte at the top of the register. */
  function Shifted(b: byte): bv16 {
    Aligned(ByteBits(b))
  }

  function ByteStep(c: bv16, b: byte): bv16 {
    Steps(Xor(c, Shifted(b)), 8)
  }

  function Checksum(c: bv16, bytes: seq<byte>): bv16
    decreases |bytes|
  {
    if bytes == [] then c else Checksum(ByteStep(c, bytes[0]), bytes[1..])
  }

  /** The two nested loops of `crc16_ccitt`. */
  method Crc16Ccitt(bytes: seq<byte>) returns (checksum: bv16)
    ensures checksum == Checksum(0xFFFF, bytes)
  {
    hide BitStep, Xor, Shifted;
    checksum := 0xFFFF;
    for i := 0 to |bytes|
      invariant Checksum(checksum, bytes[i..]) == Checksum(0xFFFF, bytes)
    {
      ghost var start := checksum;
      checksum := Xor(checksum, Shifted(bytes[i]));
      for k := 0 to 8
        invariant Steps(checksum, 8 - k) == ByteStep(start, bytes[i])
      {
        checksum := BitStep(checksum);
      }
      assert bytes[i..][1..] == bytes[i + 1..];
    }
    assert bytes[|bytes|..] == [];
  }

  /** The first `k` bits of the register. */
  function TopBits(c: bv16, k: nat): (s: seq<bool>)
    ensures |s| == k
    decreases k
  {
    if k == 0 then [] else [Overflows(c)] + TopBits(Doubled(c), k - 1)
  }

  function High(c: bv16): byte {
    ByteOfBits(TopBits(c, 16)[..8])
  }

  function LowHalf(c: bv16): byte {
    ByteOfBits(TopBits(c, 16)[8..])
  }

  /** Two bytes read as a big-endian register word. */
  function Word(hi: byte, lo: byte): bv16 {
    Aligned(ByteBits(hi) + ByteBits(lo))
  }

  /** `checksum_matches`: the last two bytes are the checksum of everything before them. */
  predicate ChecksumMatches(frame: seq<byte>) {
    && |frame| >= 2
    && Checksum(0xFFFF, frame[..|frame| - 2]) == Word(frame[|frame| - 2], frame[|frame| - 1])
  }

  function Seal(payload: seq<byte>): (frame: seq<byte>)
    ensures |frame| == |payload| + 2
  {
    var c := Checksum(0xFFFF, payload);
    payload + [High(c), LowHalf(c)]
  }

  // ----- the serial register -------------------------------------------------------------

  function FeedBit(c: bv16, bit: bool): bv16 {
    BitStep(Xor(c, Top(bit)))
  }

  function Feed(c: bv16, bits: seq<bool>): bv16
    decreases |bits|
  {
    if bits == [] then c else Feed(FeedBit(c, bits[0]), bits[1..])
  }

  /** The bits of a byte string in transmission order. */
  function Bits(bytes: seq<byte>): (s: seq<bool>)
    ensures |s| == 8 * |bytes|
  {
    if bytes == [] then [] else ByteBits(bytes[0]) + Bits(bytes[1..])
  }

  // Exclusive-or identities, each proved alone: the solver is quick on one bit-vector fact at a
  // time. The inductions over them hide the bit-vector operations.

  lemma XorAssoc(a: bv16, b: bv16, c: bv16)
    ensures Xor(Xor(a, b), c) == Xor(a, Xor(b, c))
  {
  }

  lemma XorCancel(a: bv16, b: bv16)
    ensures Xor(Xor(a, b), b) == a && Xor(a, b) == Xor(b, a) && Xor(a, 0) == a && Xor(a, a) == 0
  {
  }

  lemma EqualIfSumZero(a: bv16, b: bv16)
    requires Xor(a, b) == 0
    ensures a == b
  {
  }

  /** The polynomial that one step feeds back. */
  function Feedback(overflow: bool): bv16 {
    if overflow then 0x1021 else 0
  }

  lemma BitStepSplit(c: bv16)
    ensures BitStep(c) == Xor(Doubled(c), Feedback(Overflows(c)))
  {
    hide Xor, Doubled;
    XorCancel(Doubled(c), 0);
    assert BitStep(c) == if Overflows(c) then Xor(Doubled(c), 0x1021) else Doubled(c);
  }

  lemma DoubledLinear(a: bv16, b: bv16)
    ensures Doubled(Xor(a, b)) == Xor(Doubled(a), Doubled(b))
  {
  }

  lemma TopBitLinear(a: bv16, b: bv16)
    ensures Xor(a, b) & 0x8000 == Xor(a & 0x8000, b & 0x8000)
  {
  }

  lemma TopBitValues(a: bv16)
    ensures a & 0x8000 == 0 || a & 0x8000 == 0x8000
  {
  }

  lemma OverflowLinear(a: bv16, b: bv16)
    ensures Overflows(Xor(a, b)) == (Overflows(a) != Overflows(b))
  {
    hide Xor;
    TopBitLinear(a, b);
    TopBitValues(a);
    TopBitValues(b);
    XorCancel(0, 0x8000);
    XorCancel(0x8000, 0);
    XorCancel(0, 0);
  }

  lemma FeedbackLinear(s: bool, t: bool)
    ensures Feedback(s != t) == Xor(Feedback(s), Feedback(t))
  {
  }

  lemma XorSwap(a: bv16, b: bv16, c: bv16, d: bv16)
    ensures Xor(Xor(a, b), Xor(c, d)) == Xor(Xor(a, c), Xor(b, d))
  {
    hide Xor;
    XorAssoc(a, b, Xor(c, d));
    XorAssoc(b, c, d);
    XorCancel(b, c);
    XorAssoc(c, b, d);
    XorAssoc(a, c, Xor(b, d));
  }

  lemma BitStepLinear(a: bv16, b: bv16)
    ensures BitStep(Xor(a, b)) == Xor(BitStep(a), BitStep(b))
  {
    hide Xor, BitStep, Doubled, Overflows, Feedback;
    BitStepSplit(a);
    BitStepSplit(b);
    BitStepSplit(Xor(a, b));
    DoubledLinear(a, b);
    OverflowLinear(a, b);
    FeedbackLinear(Overflows(a), Overflows(b));
    XorSwap(Doubled(a), Doubled(b), Feedback(Overflows(a)), Feedback(Overflows(b)));
  }

  lemma BitStepKernel(a: bv16)
    ensures BitStep(a) == 0 <==> a == 0
  {
  }

  lemma {:induction false} StepsLinear(a: bv16, b: bv16, k: nat)
    ensures Steps(Xor(a, b), k) == Xor(Steps(a, k), Steps(b, k))
    decreases k
  {
    hide Xor, BitStep;
    if k > 0 {
      BitStepLinear(a, b);
      StepsLinear(BitStep(a), BitStep(b), k - 1);
    }
  }

  lemma {:induction false} StepsKernel(a: bv16, k: nat)
    ensures Steps(a, k) == 0 <==> a == 0
    decreases k
  {
    hide BitStep;
    if k > 0 {
      StepsKernel(BitStep(a), k - 1);
      BitStepKernel(a);
    }
  }

  lemma StepsInjective(a: bv16, b: bv16, k: nat)
    requires Steps(a, k) == Steps(b, k)
    ensures a == b
  {
    hide Xor, BitStep, Steps;
    StepsLinear(a, b, k);
    XorCancel(Steps(a, k), 0);
    StepsKernel(Xor(a, b), k);
    EqualIfSumZero(a, b);
  }

  lemma {:induction false} FeedConcat(c: bv16, x: seq<bool>, y: seq<bool>)
    ensures Feed(c, x + y) == Feed(Feed(c, x), y)
    decreases |x|
  {
    if x == [] {
      assert x + y == y;
    } else {
      assert (x + y)[1..] == x[1..] + y;
      FeedConcat(FeedBit(c, x[0]), x[1..], y);
    }
  }

  lemma {:induction false} FeedInjective(a: bv16, b: bv16, bits: seq<bool>)
    requires Feed(a, bits) == Feed(b, bits)
    ensures a == b
    decreases |bits|
  {
    hide Xor, BitStep, Top;
    if bits != [] {
      var t := Top(bits[0]);
      FeedInjective(FeedBit(a, bits[0]), FeedBit(b, bits[0]), bits[1..]);
      assert Steps(Xor(a, t), 1) == Steps(BitStep(Xor(a, t)), 0) == BitStep(Xor(a, t));
      assert Steps(Xor(b, t), 1) == Steps(BitStep(Xor(b, t)), 0) == BitStep(Xor(b, t));
      StepsInjective(Xor(a, t), Xor(b, t), 1);
      XorCancel(a, t);
      XorCancel(b, t);
    }
  }

  /** The mask of the register bits below the first `used` ones. */
  function Unused(used: nat): bv16 {
    if used == 0 then 0xFFFF else Half(Unused(used - 1))
  }

  predicate Disjoint(a: bv16, b: bv16) {
    a & b == 0
  }

  lemma DisjointHalves(c: bv16, m: bv16, bit: bool)
    requires Disjoint(c, m) && (Disjoint(m, 0x8000) || c == 0)
    ensures Disjoint(Xor(Top(bit), Half(c)), Half(m)) && Disjoint(Half(m), 0x8000)
  {
  }

  lemma {:induction false} AlignedClear(bits: seq<bool>)
    requires |bits| <= 16
    ensures Disjoint(Aligned(bits), Unused(|bits|))
    ensures bits != [] ==> Disjoint(Unused(|bits|), 0x8000)
  {
    hide Xor, Top, Half, Disjoint;
    if bits == [] {
      ZeroDisjoint(0xFFFF);
    } else {
      AlignedClear(bits[1..]);
      DisjointHalves(Aligned(bits[1..]), Unused(|bits| - 1), bits[0]);
    }
  }

  lemma ZeroDisjoint(m: bv16)
    ensures Disjoint(0, m)
  {
  }

  lemma UnusedLow(used: nat)
    requires used < 16
    ensures Unused(used) & 1 == 1
  {
    assert Unused(0) == 0xFFFF && Unused(1) == 0x7FFF && Unused(2) == 0x3FFF && Unused(3) == 0x1FFF;
    assert Unused(4) == 0xFFF && Unused(5) == 0x7FF && Unused(6) == 0x3FF && Unused(7) == 0x1FF;
    assert Unused(8) == 0xFF && Unused(9) == 0x7F && Unused(10) == 0x3F && Unused(11) == 0x1F;
    assert Unused(12) == 0xF && Unused(13) == 7 && Unused(14) == 3 && Unused(15) == 1;
  }

  lemma HalvedWord(c: bv16, m: bv16)
    requires Disjoint(c, m) && m & 1 == 1
    ensures BitStep(Half(c)) == c
  {
  }

  /** Fewer than sixteen aligned bits survive a halving followed by one register step. */
  lemma HalvedStep(bits: seq<bool>)
    requires |bits| < 16
    ensures BitStep(Half(Aligned(bits))) == Aligned(bits)
  {
    hide Xor, BitStep, Half, Disjoint, Aligned, Unused;
    AlignedClear(bits);
    UnusedLow(|bits|);
    HalvedWord(Aligned(bits), Unused(|bits|));
  }

  /** Feeding at most sixteen bits is the same as adding them as one word and stepping. */
  lemma {:induction false} FeedIsWord(c: bv16, bits: seq<bool>)
    requires |bits| <= 16
    ensures Feed(c, bits) == Steps(Xor(c, Aligned(bits)), |bits|)
    decreases |bits|
  {
    hide Xor, BitStep, Half, Top;
    if bits == [] {
      XorCancel(c, 0);
    } else {
      var t, rest := Top(bits[0]), Aligned(bits[1..]);
      FeedIsWord(FeedBit(c, bits[0]), bits[1..]);
      HalvedStep(bits[1..]);
      BitStepLinear(Xor(c, t), Half(rest));
      XorAssoc(c, t, Half(rest));
    }
  }

  lemma TopShows(s: bool, a: bv16)
    ensures Overflows(Xor(Top(s), Half(a))) == s
  {
  }

  lemma HeadDecides(s: bool, t: bool, a: bv16, b: bv16)
    requires Xor(Top(s), Half(a)) == Xor(Top(t), Half(b))
    ensures s == t && Half(a) == Half(b)
  {
    hide Xor, Top, Half, Overflows;
    TopShows(s, a);
    TopShows(t, b);
    XorCancel(Half(a), Top(s));
    XorCancel(Half(b), Top(s));
    XorCancel(Top(s), Half(a));
    XorCancel(Top(s), Half(b));
  }

  lemma {:induction false} AlignedInjective(x: seq<bool>, y: seq<bool>)
    requires |x| == |y| <= 16 && Aligned(x) == Aligned(y)
    ensures x == y
  {
    hide Xor, BitStep, Half, Top;
    if x != [] {
      HalvedStep(x[1..]);
      HalvedStep(y[1..]);
      HeadDecides(x[0], y[0], Aligned(x[1..]), Aligned(y[1..]));
      AlignedInjective(x[1..], y[1..]);
      assert x == [x[0]] + x[1..] && y == [y[0]] + y[1..];
    }
  }

  lemma WindowInjective(c: bv16, x: seq<bool>, y: seq<bool>)
    requires |x| == |y| <= 16 && Feed(c, x) == Feed(c, y)
    ensures x == y
  {
    hide Xor, BitStep, Steps, Aligned, Feed;
    FeedIsWord(c, x);
    FeedIsWord(c, y);
    StepsInjective(Xor(c, Aligned(x)), Xor(c, Aligned(y)), |x|);
    XorCancel(Aligned(x), c);
    XorCancel(Aligned(y), c);
    XorCancel(c, Aligned(x));
    XorCancel(c, Aligned(y));
    AlignedInjective(x, y);
  }

  lemma HalvesMeet(c: bv16)
    ensures Xor(Top(Overflows(c)), Half(Doubled(c))) == c
  {
    hide Xor, Half, Doubled;
    TopBitValues(c);
    MaskedHalves(c);
  }

  lemma MaskedHalves(c: bv16)
    ensures Xor(c & 0x8000, Half(Doubled(c))) == c
  {
  }

  lemma DoubledClear(c: bv16, m: bv16)
    requires Disjoint(c, Half(m))
    ensures Disjoint(Doubled(c), m)
  {
  }

  /** Reading bits off the register and aligning them again loses nothing below them. */
  lemma {:induction false} AlignedTopBits(c: bv16, k: nat)
    requires k <= 16 && Disjoint(c, Unused(k))
    ensures Aligned(TopBits(c, k)) == c
    decreases k
  {
    hide Xor, Top, Half, Disjoint, Overflows, Doubled;
    if k == 0 {
      NothingOutside(c);
    } else {
      DoubledClear(c, Unused(k - 1));
      AlignedTopBits(Doubled(c), k - 1);
      HalvesMeet(c);
    }
  }

  lemma NothingOutside(c: bv16)
    ensures Disjoint(c, 0xFFFF) ==> c == 0
    ensures Disjoint(c, 0)
  {
  }

  lemma UnusedEmpty()
    ensures Unused(16) == 0
  {
    assert Unused(8) == 0xFF by {
      assert Unused(4) == 0xFFF;
    }
    assert Unused(12) == 0xF;
  }

  lemma WordOfHalves(c: bv16)
    ensures Word(High(c), LowHalf(c)) == c
  {
    hide Xor, Top, Half, Disjoint, Aligned, Unused;
    var t := TopBits(c, 16);
    assert t[..8] + t[8..] == t;
    NothingOutside(c);
    UnusedEmpty();
    AlignedTopBits(c, 16);
  }

  lemma WordInjective(a: byte, b: byte, c: byte, d: byte)
    requires Word(a, b) == Word(c, d)
    ensures a == c && b == d
  {
    hide Xor, Top, Half, Aligned, ByteBits;
    AlignedInjective(ByteBits(a) + ByteBits(b), ByteBits(c) + ByteBits(d));
    assert (ByteBits(a) + ByteBits(b))[..8] == ByteBits(a) && (ByteBits(c) + ByteBits(d))[..8] == ByteBits(c);
    assert (ByteBits(a) + ByteBits(b))[8..] == ByteBits(b) && (ByteBits(c) + ByteBits(d))[8..] == ByteBits(d);
    ByteBitsInjective(a, c);
    ByteBitsInjective(b, d);
  }

  /** Appending the checksum makes the frame match, and nothing else appended does. */
  lemma SealMatches(payload: seq<byte>, hi: byte, lo: byte)
    ensures ChecksumMatches(payload + [hi, lo]) <==> payload + [hi, lo] == Seal(payload)
  {
    hide Checksum, Word, High, LowHalf;
    var frame, c := payload + [hi, lo], Checksum(0xFFFF, payload);
    assert frame[..|frame| - 2] == payload;
    WordOfHalves(c);
    if c == Word(hi, lo) {
      WordInjective(hi, lo, High(c), LowHalf(c));
    }
    assert frame == Seal(payload) ==> frame[|payload|] == High(c) && frame[|payload| + 1] == LowHalf(c);
  }

  lemma ByteStepIsFeed(c: bv16, b: byte)
    ensures ByteStep(c, b) == Feed(c, ByteBits(b))
  {
    hide Xor, Feed, Aligned, ByteBits;
    FeedIsWord(c, ByteBits(b));
  }

  lemma {:induction false} ChecksumIsFeed(c: bv16, bytes: seq<byte>)
    ensures Checksum(c, bytes) == Feed(c, Bits(bytes))
    decreases |bytes|
  {
    if bytes != [] {
      ByteStepIsFeed(c, bytes[0]);
      FeedConcat(c, ByteBits(bytes[0]), Bits(bytes[1..]));
      ChecksumIsFeed(ByteStep(c, bytes[0]), bytes[1..]);
    }
  }

  lemma {:induction false} ChecksumConcat(c: bv16, x: seq<byte>, y: seq<byte>)
    ensures Checksum(c, x + y) == Checksum(Checksum(c, x), y)
    decreases |x|
  {
    if x == [] {
      assert x + y == y;
    } else {
      assert (x + y)[1..] == x[1..] + y;
      ChecksumConcat(ByteStep(c, x[0]), x[1..], y);
    }
  }

  lemma {:induction false} BitsInjective(x: seq<byte>, y: seq<byte>)
    requires |x| == |y| && Bits(x) == Bits(y)
    ensures x == y
  {
    if x != [] {
      assert ByteBits(x[0]) == Bits(x)[..8] == Bits(y)[..8] == ByteBits(y[0]);
      assert Bits(x[1..]) == Bits(x)[8..] == Bits(y)[8..] == Bits(y[1..]);
      ByteBitsInjective(x[0], y[0]);
      BitsInjective(x[1..], y[1..]);
      assert x == [x[0]] + x[1..] && y == [y[0]] + y[1..];
    }
  }

  lemma TrailerLeavesZero(c: bv16, hi: byte, lo: byte)
    ensures Checksum(c, [hi, lo]) == 0 <==> c == Word(hi, lo)
  {
    hide Xor, Steps, Checksum, Aligned, Feed, ByteBits;
    var bits := ByteBits(hi) + ByteBits(lo);
    assert [hi, lo][1..] == [lo] && [lo][1..] == [];
    assert Bits([lo]) == ByteBits(lo) + [] && Bits([hi, lo]) == bits;
    ChecksumIsFeed(c, [hi, lo]);
    FeedIsWord(c, bits);
    StepsKernel(Xor(c, Aligned(bits)), 16);
    XorCancel(c, c);
    if Xor(c, Aligned(bits)) == 0 {
      EqualIfSumZero(c, Aligned(bits));
    }
  }

  /** A frame matches exactly when the register ends at zero after its own trailer. */
  lemma MatchesIffZero(frame: seq<byte>)
    requires |frame| >= 2
    ensures ChecksumMatches(frame) <==> Feed(0xFFFF, Bits(frame)) == 0
  {
    hide Checksum, Feed, Word, Bits;
    var n := |frame| - 2;
    var payload, trailer := frame[..n], [frame[n], frame[n + 1]];
    assert frame == payload + trailer;
    ChecksumIsFeed(0xFFFF, frame);
    ChecksumConcat(0xFFFF, payload, trailer);
    TrailerLeavesZero(Checksum(0xFFFF, payload), frame[n], frame[n + 1]);
  }

  /** Bit strings that agree outside sixteen consecutive bits leave different registers. */
  lemma WindowDetected(c: bv16, x: seq<bool>, y: seq<bool>, lo: nat, hi: nat)
    requires |x| == |y| && lo <= hi <= |x| && hi <= lo + 16
    requires x[..lo] == y[..lo] && x[hi..] == y[hi..] && Feed(c, x) == Feed(c, y)
    ensures x == y
  {
    hide Feed;
    var before, after := x[..lo], x[hi..];
    var u, v := x[lo..hi], y[lo..hi];
    assert x == (before + u) + after && y == (before + v) + after;
    FeedConcat(c, before + u, after);
    FeedConcat(c, before + v, after);
    FeedInjective(Feed(c, before + u), Feed(c, before + v), after);
    FeedConcat(c, before, u);
    FeedConcat(c, before, v);
    WindowInjective(Feed(c, before), u, v);
  }

  /** Two byte strings differ only in bits `start .. start + 16`. */
  ghost predicate DifferWithinWindow(x: seq<byte>, y: seq<byte>, start: nat) {
    && |x| == |y|
    && forall i :: 0 <= i < |Bits(x)| && !(start <= i < start + 16) ==> Bits(x)[i] == Bits(y)[i]
  }

  /**
    * Burst detection: of two different byte strings that agree outside a window of sixteen
    * consecutive bits, at most one carries a matching checksum. The length is unbounded.
    */
  lemma BurstDetected(x: seq<byte>, y: seq<byte>, start: nat)
    requires DifferWithinWindow(x, y, start) && x != y
    requires ChecksumMatches(x)
    ensures !ChecksumMatches(y)
  {
    assert |x| >= 2;
    hide ChecksumMatches, Feed, Bits;
    if ChecksumMatches(y) {
      MatchesIffZero(x);
      MatchesIffZero(y);
      var a, b := Bits(x), Bits(y);
      var lo := if start <= |a| then start else |a|;
      var hi := if start + 16 <= |a| then start + 16 else |a|;
      assert a[..lo] == b[..lo];
      assert a[hi..] == b[hi..];
      WindowDetected(0xFFFF, a, b, lo, hi);
      BitsInjective(x, y);
    }
  }
}
