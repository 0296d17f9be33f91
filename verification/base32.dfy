/**
 Lowercase, unpadded base32 (the RFC 4648 section 6 alphabet, lowercased,
 without '=' padding), as used to derive slugs from a SHA-256 digest.

 `Encode` is the reference definition over the big-endian bit stream of the
 input; `EncodeLoop` is the bit-packing loop of the worker, with the
 JavaScript 32-bit shift semantics written out, and is proved to compute
 `Encode`.
 */
module Base32 {
  import opened Arith

  type byte = x: int | 0 <= x < 256
  type bit = x: int | 0 <= x < 2

  /** A SHA-256 digest: exactly 32 bytes. */
  type Digest = d: seq<byte> | |d| == 32 witness seq(32, _ => 0)

  const Alphabet: string := "abcdefghijklmnopqrstuvwxyz234567"

  /** 2^32: JavaScript bitwise operators work on 32-bit integers. */
  const U32: nat := 0x1_0000_0000

  /** The low n bits of x, most significant first. */
  function NatBits(x: nat, n: nat): (r: seq<bit>)
    ensures |r| == n
  {
    if n == 0 then [] else NatBits(x / 2, n - 1) + [x % 2]
  }

  /** The eight bits of a byte, most significant first. */
  function ByteBits(b: byte): (r: seq<bit>)
    ensures |r| == 8
  {
    NatBits(b, 8)
  }

  /** The big-endian bit stream of a byte sequence. */
  function Bits(bytes: seq<byte>): (r: seq<bit>)
    ensures |r| == 8 * |bytes|
  {
    if |bytes| == 0 then [] else Bits(bytes[..|bytes| - 1]) + ByteBits(bytes[|bytes| - 1])
  }

  /** The number a bit string denotes, most significant bit first. */
  function Value(s: seq<bit>): (r: nat)
    ensures r < Pow2(|s|)
  {
    if |s| == 0 then 0 else 2 * Value(s[..|s| - 1]) + s[|s| - 1]
  }

  /**
   Cuts a bit stream into 5-bit groups, one alphabet letter per group; a
   final group shorter than five bits is left-aligned and filled with zeros.
   */
  function Groups(bits: seq<bit>): (r: string)
    ensures |r| == (|bits| + 4) / 5
    ensures forall i :: 0 <= i < |r| ==> r[i] in Alphabet
    decreases |bits|
  {
    if |bits| == 0 then ""
    else if |bits| < 5 then
      Pow2Add(|bits|, 5 - |bits|);
      Pow2Values();
      [Alphabet[Value(bits) * Pow2(5 - |bits|)]]
    else [Alphabet[Value(bits[..5])]] + Groups(bits[5..])
  }

  /** Lowercase unpadded base32 of a byte sequence. */
  function Encode(bytes: seq<byte>): (r: string)
    ensures |r| == (8 * |bytes| + 4) / 5
    ensures forall i :: 0 <= i < |r| ==> r[i] in Alphabet
  {
    Groups(Bits(bytes))
  }

  /** The bit stream extended with zeros to a whole number of 5-bit groups. */
  function ZeroFill(bits: seq<bit>): (r: seq<bit>)
    ensures |r| == 5 * ((|bits| + 4) / 5)
    ensures r[..|bits|] == bits
  {
    bits + seq((5 - |bits| % 5) % 5, _ => 0)
  }

  /** The value of the i-th 5-bit group of the zero-filled stream. */
  function GroupValue(bits: seq<bit>, i: nat): nat
    requires i < (|bits| + 4) / 5
  {
    Value(ZeroFill(bits)[5 * i .. 5 * i + 5])
  }

  // ---------------------------------------------------------------------
  // JavaScript 32-bit operators, on the unsigned 32-bit reading of a value
  // (the reading `>>>` uses; `<<` and `|` give the same bits as int32).
  // ---------------------------------------------------------------------

  /** `(value << 8) | b`: the low eight bits of the shift are zero, so `|` adds `b`. */
  function ShiftInByte(value: nat, b: byte): (r: nat)
    ensures r < U32
  {
    (value * 256 + b) % U32
  }

  /** `(value >>> n) & 31` on a 32-bit value. */
  function TakeGroup(value: nat, n: nat): (r: nat)
    ensures r < 32
  {
    (value / Pow2(n)) % 32
  }

  /** `(value << n) & 31`. */
  function ShiftLowGroup(value: nat, n: nat): (r: nat)
    ensures r < 32
  {
    ((value * Pow2(n)) % U32) % 32
  }

  /**
   The worker's encoding loop: `value` accumulates bytes, `nbits` counts the
   bits not yet emitted, and every full 5-bit group at the top of those bits
   is emitted at once; a remainder is emitted left-aligned at the end.
   */
  method EncodeLoop(bytes: seq<byte>) returns (out: string)
    ensures out == Encode(bytes)
  {
    var value: nat := 0;
    var nbits: nat := 0;
    out := "";
    ghost var done: seq<bit> := [];
    ghost var pending: seq<bit> := [];
    var k := 0;
    while k < |bytes|
      invariant 0 <= k <= |bytes|
      invariant Encoded(bytes[..k], value, nbits, out, done, pending)
    {
      value, nbits, out, done, pending := ShiftInAndEmit(bytes, k, value, nbits, out, done, pending);
      k := k + 1;
    }
    FinishEncode(bytes, value, nbits, out, done, pending);
    if nbits > 0 {
      out := out + [Alphabet[ShiftLowGroup(value, 5 - nbits)]];
    }
  }

  /** After the last byte, the left-aligned remainder, if any, completes the encoding. */
  lemma FinishEncode(bytes: seq<byte>, value: nat, nbits: nat, out: string, done: seq<bit>, pending: seq<bit>)
    requires Encoded(bytes[..|bytes|], value, nbits, out, done, pending)
    ensures Encode(bytes) == out + (if nbits > 0 then [Alphabet[ShiftLowGroup(value, 5 - nbits)]] else [])
  {
    assert Bits(bytes) == done + pending by {
      assert bytes[..|bytes|] == bytes;
    }
    FinishGroups(bytes, done, pending, value, |out|);
  }

  /**
   The loop state after reading `read`: `out` holds the letters of the
   emitted bits `done`, and the low `nbits` bits of `value` are the `pending`
   ones, fewer than five.
   */
  ghost predicate Encoded(read: seq<byte>, value: nat, nbits: nat, out: string, done: seq<bit>, pending: seq<bit>)
  {
    && Bits(read) == done + pending
    && |done| == 5 * |out| && out == Groups(done)
    && nbits == |pending| < 5
    && value % Pow2(nbits) == Value(pending)
  }

  /** One iteration of the outer loop: `value = (value << 8) | b; bits += 8`, then emit. */
  method ShiftInAndEmit(bytes: seq<byte>, k: nat, value: nat, nbits: nat, out: string,
                        ghost done: seq<bit>, ghost pending: seq<bit>)
    returns (value': nat, nbits': nat, out': string, ghost done': seq<bit>, ghost pending': seq<bit>)
    requires k < |bytes|
    requires Encoded(bytes[..k], value, nbits, out, done, pending)
    ensures Encoded(bytes[..k + 1], value', nbits', out', done', pending')
    ensures value' == ShiftInByte(value, bytes[k])
    ensures |out'| >= |out| && out'[..|out|] == out
  {
    var b := bytes[k];
    assert Bits(bytes[..k + 1]) == done + (pending + ByteBits(b)) by {
      BitsSnoc(bytes, k);
    }
    FeedByte(value, pending, b);
    value' := ShiftInByte(value, b);
    nbits', out', done', pending' := EmitFullGroups(value', nbits + 8, out, done, pending + ByteBits(b));
  }

  /**
   The inner loop of the encoder: while at least five bits are pending, emit
   the letter of the top five, `(value >>> (nbits - 5)) & 31`.
   */
  method EmitFullGroups(value: nat, nbits: nat, out: string, ghost done: seq<bit>, ghost pending: seq<bit>)
    returns (nbits': nat, out': string, ghost done': seq<bit>, ghost pending': seq<bit>)
    requires |done| == 5 * |out| && out == Groups(done)
    requires nbits == |pending| <= 12
    requires value % Pow2(nbits) == Value(pending)
    ensures done' + pending' == done + pending
    ensures |done'| == 5 * |out'| && out' == Groups(done')
    ensures nbits' == |pending'| < 5
    ensures value % Pow2(nbits') == Value(pending')
    ensures |out'| >= |out| && 5 * (|out'| - |out|) == nbits - nbits'
    ensures out'[..|out|] == out
  {
    nbits', out', done', pending' := nbits, out, done, pending;
    while nbits' >= 5
      invariant done' + pending' == done + pending
      invariant |done'| == 5 * |out'| && out' == Groups(done')
      invariant nbits' == |pending'| <= 12
      invariant value % Pow2(nbits') == Value(pending')
      invariant |out'| >= |out| && 5 * (|out'| - |out|) == nbits - nbits'
      invariant out'[..|out|] == out
      decreases nbits'
    {
      EmitOne(value, out', done', pending');
      out' := out' + [Alphabet[TakeGroup(value, nbits' - 5)]];
      done' := done' + pending'[..5];
      pending' := pending'[5..];
      nbits' := nbits' - 5;
    }
  }

  // ---------------------------------------------------------------------
  // Lemmas
  // ---------------------------------------------------------------------

  lemma {:induction false} ValueAppend(a: seq<bit>, b: seq<bit>)
    ensures Value(a + b) == Value(a) * Pow2(|b|) + Value(b)
    decreases |b|
  {
    if |b| == 0 {
      assert a + b == a;
    } else {
      var b' := b[..|b| - 1];
      var last := b[|b| - 1];
      assert (a + b)[..|a + b| - 1] == a + b';
      assert (a + b)[|a + b| - 1] == last;
      ValueAppend(a, b');
      assert Value(a + b) == 2 * Value(a + b') + last;
      Regroup(Value(a), Pow2(|b'|), Value(b'), last);
    }
  }

  lemma Regroup(v: int, p: int, w: int, last: int)
    ensures 2 * (v * p + w) + last == v * (2 * p) + (2 * w + last)
  {
  }

  /** The n bits of x denote x modulo 2^n. */
  lemma {:induction false} NatBitsValue(x: nat, n: nat)
    ensures Value(NatBits(x, n)) == x % Pow2(n)
    decreases n
  {
    if n > 0 {
      var s := NatBits(x, n);
      assert s[..n - 1] == NatBits(x / 2, n - 1);
      NatBitsValue(x / 2, n - 1);
      HalfMod(x, Pow2(n - 1));
    }
  }

  lemma ValueByteBits(b: byte)
    ensures Value(ByteBits(b)) == b
  {
    NatBitsValue(b, 8);
    assert Pow2(8) == 256;
  }

  lemma BitsSnoc(bytes: seq<byte>, k: nat)
    requires k < |bytes|
    ensures Bits(bytes[..k + 1]) == Bits(bytes[..k]) + ByteBits(bytes[k])
  {
    assert bytes[..k + 1][..k] == bytes[..k];
  }

  /** Shifting a byte into the accumulator appends its eight bits to the pending ones. */
  lemma FeedByte(value: nat, pending: seq<bit>, b: byte)
    requires |pending| < 5 && value % Pow2(|pending|) == Value(pending)
    ensures ShiftInByte(value, b) % Pow2(|pending| + 8) == Value(pending + ByteBits(b))
  {
    assert Value(pending + ByteBits(b)) == Value(pending) * Pow2(8) + b by {
      ValueAppend(pending, ByteBits(b));
      ValueByteBits(b);
    }
    ShiftInValue(value, b, |pending|);
  }

  /** `(value << 8) | b` keeps the low n bits of the value, now above the byte. */
  lemma ShiftInValue(value: nat, b: byte, n: nat)
    requires n < 5
    ensures ShiftInByte(value, b) % Pow2(n + 8) == (value % Pow2(n)) * Pow2(8) + b
  {
    Pow2Values();
    Pow2Add(n, 8);
    Pow2Add(n + 8, 24 - n);
    Assoc(Pow2(n), 256, Pow2(24 - n));
    ShiftArith(value, b, Pow2(n), Pow2(24 - n), U32);
  }

  /** Emitting the letter of the top five pending bits moves those bits from pending to done. */
  lemma EmitOne(value: nat, out: string, done: seq<bit>, pending: seq<bit>)
    requires |done| == 5 * |out| && out == Groups(done)
    requires |pending| >= 5 && value % Pow2(|pending|) == Value(pending)
    ensures var out2 := out + [Alphabet[TakeGroup(value, |pending| - 5)]];
      var done2 := done + pending[..5];
      && done2 + pending[5..] == done + pending
      && |done2| == 5 * |out2| && out2 == Groups(done2)
      && value % Pow2(|pending| - 5) == Value(pending[5..])
  {
    EmitStep(value, pending);
    EmitGroups(done, pending[..5], |out|);
    assert done + pending == (done + pending[..5]) + pending[5..];
  }

  /** The top five of the pending bits are `(value >>> (nbits - 5)) & 31`. */
  lemma EmitStep(value: nat, pending: seq<bit>)
    requires |pending| >= 5
    requires value % Pow2(|pending|) == Value(pending)
    ensures TakeGroup(value, |pending| - 5) == Value(pending[..5])
    ensures value % Pow2(|pending| - 5) == Value(pending[5..])
  {
    var n := |pending|;
    var h, t := pending[..5], pending[5..];
    assert pending == h + t;
    ValueAppend(h, t);
    Pow2Values();
    Pow2Add(5, n - 5);
    EmitArith(value, Pow2(n - 5), Value(h), Value(t));
  }

  /** What the loop has emitted, followed by the final partial group, is the encoding. */
  lemma FinishGroups(bytes: seq<byte>, done: seq<bit>, pending: seq<bit>, value: nat, n: nat)
    requires Bits(bytes) == done + pending && |done| == 5 * n
    requires |pending| < 5 && value % Pow2(|pending|) == Value(pending)
    ensures Encode(bytes) == Groups(done) +
      (if |pending| > 0 then [Alphabet[ShiftLowGroup(value, 5 - |pending|)]] else [])
  {
    GroupsAppend(done, pending, n);
    if |pending| > 0 {
      var c := Pow2(5 - |pending|);
      Pow2Add(|pending|, 5 - |pending|);
      Pow2Values();
      FinalArith(value, Pow2(|pending|), c, Value(pending), 0x800_0000, U32);
    }
  }

  lemma GroupsOne(h: seq<bit>)
    requires |h| == 5
    ensures Groups(h) == [Alphabet[Value(h)]]
  {
    assert h[..5] == h;
    assert |h[5..]| == 0;
  }

  /** Emitting five more bits extends the encoding by the letter of their value. */
  lemma EmitGroups(done: seq<bit>, h: seq<bit>, n: nat)
    requires |done| == 5 * n && |h| == 5
    ensures Groups(done + h) == Groups(done) + [Alphabet[Value(h)]]
  {
    GroupsAppend(done, h, n);
    GroupsOne(h);
  }

  /** Groups of a whole number of 5-bit groups followed by more bits. */
  lemma {:induction false} GroupsAppend(a: seq<bit>, b: seq<bit>, n: nat)
    requires |a| == 5 * n
    ensures Groups(a + b) == Groups(a) + Groups(b)
    decreases n
  {
    if n > 0 {
      assert (a + b)[..5] == a[..5];
      assert (a + b)[5..] == a[5..] + b;
      GroupsAppend(a[5..], b, n - 1);
    } else {
      assert a + b == b;
    }
  }

  lemma ValueZeros(k: nat)
    ensures Value(seq(k, _ => 0)) == 0
  {
    if k > 0 {
      assert seq(k, _ => 0)[..k - 1] == seq(k - 1, _ => 0);
      ValueZeros(k - 1);
    }
  }

  lemma ZeroFillSplit(bits: seq<bit>)
    requires |bits| >= 5
    ensures ZeroFill(bits) == bits[..5] + ZeroFill(bits[5..])
  {
    assert |bits[5..]| % 5 == |bits| % 5;
    assert bits == bits[..5] + bits[5..];
  }

  /** A group shorter than five bits, once zero-filled, keeps its value scaled up. */
  lemma ZeroFillShort(bits: seq<bit>)
    requires 0 < |bits| < 5
    ensures ZeroFill(bits)[0..5] == ZeroFill(bits)
    ensures Value(ZeroFill(bits)) == Value(bits) * Pow2(5 - |bits|)
  {
    var k := 5 - |bits|;
    assert (5 - |bits| % 5) % 5 == k;
    var zeros: seq<bit> := seq(k, _ => 0);
    assert ZeroFill(bits) == bits + zeros;
    ValueAppend(bits, zeros);
    ValueZeros(k);
  }

  /**
   Bit-exactness: letter i of the encoding is the alphabet letter of bits
   5i..5i+4 of the big-endian bit stream, zero-filled past its end.
   */
  lemma {:induction false} GroupsBitExact(bits: seq<bit>, i: nat)
    requires i < (|bits| + 4) / 5
    ensures Groups(bits)[i] == Alphabet[GroupValue(bits, i)]
    decreases |bits|
  {
    if |bits| < 5 {
      ZeroFillShort(bits);
    } else if i == 0 {
      ZeroFillSplit(bits);
      assert ZeroFill(bits)[0..5] == bits[..5];
    } else {
      GroupsBitExact(bits[5..], i - 1);
      GroupsTail(bits, i);
      GroupValueTail(bits, i);
    }
  }

  /** Letter i of a stream's encoding is letter i - 1 of the encoding after its first group. */
  lemma GroupsTail(bits: seq<bit>, i: nat)
    requires |bits| >= 5 && 0 < i < (|bits| + 4) / 5
    ensures Groups(bits)[i] == Groups(bits[5..])[i - 1]
  {
    var rest := Groups(bits[5..]);
    GroupsUnfold(bits);
    assert ([Alphabet[Value(bits[..5])]] + rest)[i] == rest[i - 1];
  }

  /** Five or more bits encode to the first group's letter before the rest's encoding. */
  lemma GroupsUnfold(bits: seq<bit>)
    requires |bits| >= 5
    ensures Groups(bits) == [Alphabet[Value(bits[..5])]] + Groups(bits[5..])
  {
  }

  /** Group i of a stream is group i - 1 of the stream after its first group. */
  lemma GroupValueTail(bits: seq<bit>, i: nat)
    requires |bits| >= 5 && 0 < i < (|bits| + 4) / 5
    ensures GroupValue(bits, i) == GroupValue(bits[5..], i - 1)
  {
    ZeroFillSlice(bits, i - 1);
  }

  lemma ZeroFillSlice(bits: seq<bit>, j: nat)
    requires |bits| >= 5 && j < (|bits| - 1) / 5
    ensures ZeroFill(bits)[5 * j + 5 .. 5 * j + 10] == ZeroFill(bits[5..])[5 * j .. 5 * j + 5]
  {
    ZeroFillSplit(bits);
  }

  /** Bit-exactness of `Encode`, stated over the input bytes. */
  lemma EncodeBitExact(bytes: seq<byte>, i: nat)
    requires i < (8 * |bytes| + 4) / 5
    ensures Encode(bytes)[i] == Alphabet[GroupValue(Bits(bytes), i)]
  {
    GroupsBitExact(Bits(bytes), i);
  }

  /** The bit stream of a concatenation is the concatenation of the bit streams. */
  lemma {:induction false} BitsAppend(a: seq<byte>, b: seq<byte>)
    ensures Bits(a + b) == Bits(a) + Bits(b)
    decreases |b|
  {
    if |b| == 0 {
      assert a + b == a;
    } else {
      var b' := b[..|b| - 1];
      assert (a + b)[..|a + b| - 1] == a + b';
      assert (a + b)[|a + b| - 1] == b[|b| - 1];
      BitsAppend(a, b');
    }
  }

  function FiveBitsValue(b0: bit, b1: bit, b2: bit, b3: bit, b4: bit): (r: nat)
    ensures r < 32
  {
    16 * b0 as int + 8 * b1 as int + 4 * b2 as int + 2 * b3 as int + b4 as int
  }

  /** The value of five bits, most significant first. */
  lemma ValueFive(s: seq<bit>)
    requires |s| == 5
    ensures Value(s) == FiveBitsValue(s[0], s[1], s[2], s[3], s[4])
  {
    assert s[..1][..0] == [];
    assert Value(s[..1]) == s[0];
    assert s[..2][..1] == s[..1];
    assert Value(s[..2]) == 2 * s[0] as int + s[1] as int;
    assert s[..3][..2] == s[..2];
    assert Value(s[..3]) == 4 * s[0] as int + 2 * s[1] as int + s[2] as int;
    assert s[..4][..3] == s[..3];
    assert Value(s[..4]) == 8 * s[0] as int + 4 * s[1] as int + 2 * s[2] as int + s[3] as int;
    assert s[..5] == s;
  }

  /** Zero-filling leaves the bits of the stream in place. */
  lemma ZeroFillWithin(bits: seq<bit>, lo: nat, hi: nat)
    requires lo <= hi <= |bits|
    ensures ZeroFill(bits)[lo..hi] == bits[lo..hi]
  {
    var filled := ZeroFill(bits);
    assert filled[..|bits|] == bits;
    assert filled[lo..hi] == filled[..|bits|][lo..hi];
  }

  /** A group lying wholly inside the bit stream is the letter of its five bits. */
  lemma GroupLetter(bits: seq<bit>, i: nat)
    requires 5 * i + 5 <= |bits|
    ensures Groups(bits)[i]
         == Alphabet[FiveBitsValue(bits[5 * i], bits[5 * i + 1], bits[5 * i + 2], bits[5 * i + 3], bits[5 * i + 4])]
  {
    var five := bits[5 * i .. 5 * i + 5];
    assert GroupValue(bits, i) == Value(five) by {
      ZeroFillWithin(bits, 5 * i, 5 * i + 5);
    }
    assert Value(five) == FiveBitsValue(bits[5 * i], bits[5 * i + 1], bits[5 * i + 2], bits[5 * i + 3], bits[5 * i + 4]) by {
      ValueFive(five);
      assert five[0] == bits[5 * i] && five[1] == bits[5 * i + 1] && five[2] == bits[5 * i + 2];
      assert five[3] == bits[5 * i + 3] && five[4] == bits[5 * i + 4];
    }
    GroupsBitExact(bits, i);
  }

  /** The three leading five-bit groups of a bit string. */
  predicate LeadingGroups(bits: seq<bit>, v0: nat, v1: nat, v2: nat)
  {
    && |bits| >= 15
    && FiveBitsValue(bits[0], bits[1], bits[2], bits[3], bits[4]) == v0
    && FiveBitsValue(bits[5], bits[6], bits[7], bits[8], bits[9]) == v1
    && FiveBitsValue(bits[10], bits[11], bits[12], bits[13], bits[14]) == v2
  }

  /** The bit stream of two bytes is their two bytes' bits. */
  lemma TwoByteBits(head: seq<byte>)
    requires |head| == 2
    ensures Bits(head) == ByteBits(head[0]) + ByteBits(head[1])
  {
    var first := head[..1];
    assert first[..0] == [];
    assert Bits(first) == ByteBits(head[0]);
    assert head[..|head| - 1] == first;
  }

  /** 0x03 is 0000 0011 and 0xD0 is 1101 0000. */
  lemma ByteBitsConstants()
    ensures var a := ByteBits(0x03);
      && a[0] == 0 && a[1] == 0 && a[2] == 0 && a[3] == 0 && a[4] == 0 && a[5] == 0 && a[6] == 1 && a[7] == 1
    ensures var b := ByteBits(0xD0);
      && b[0] == 1 && b[1] == 1 && b[2] == 0 && b[3] == 1 && b[4] == 0 && b[5] == 0 && b[6] == 0 && b[7] == 0
  {
  }

  /** 0000 0011 1101 0000 splits into the groups 00000, 01111 and 01000. */
  lemma HeadGroups(h: seq<bit>)
    requires |h| == 16
    requires h[0] == 0 && h[1] == 0 && h[2] == 0 && h[3] == 0 && h[4] == 0 && h[5] == 0 && h[6] == 1 && h[7] == 1
    requires h[8] == 1 && h[9] == 1 && h[10] == 0 && h[11] == 1 && h[12] == 0 && h[13] == 0 && h[14] == 0 && h[15] == 0
    ensures LeadingGroups(h, 0, 15, 8)
  {
  }

  /** The bit stream of 0x03 0xD0 starts with the groups 0, 15 and 8. */
  lemma HeadBytesGroups()
    ensures LeadingGroups(ByteBits(0x03) + ByteBits(0xD0), 0, 15, 8)
  {
    var a, b := ByteBits(0x03), ByteBits(0xD0);
    ByteBitsConstants();
    var h := a + b;
    assert forall k :: 0 <= k < 8 ==> h[k] == a[k] && h[k + 8] == b[k];
    HeadGroups(h);
  }

  /** Groups lying in a prefix are groups of the whole string. */
  lemma LeadingGroupsExtend(h: seq<bit>, t: seq<bit>, v0: nat, v1: nat, v2: nat)
    requires LeadingGroups(h, v0, v1, v2)
    ensures LeadingGroups(h + t, v0, v1, v2)
  {
    var bits := h + t;
    assert forall k :: 0 <= k < 15 ==> bits[k] == h[k];
  }

  /** Two bytes 0x03 0xD0 have the bit stream 00000 01111 01000 0. */
  lemma HeadGroupsOf(head: seq<byte>)
    requires |head| == 2 && head[0] == 0x03 && head[1] == 0xD0
    ensures LeadingGroups(Bits(head), 0, 15, 8)
  {
    TwoByteBits(head);
    HeadBytesGroups();
  }

  /** The bit stream splits where the bytes do. */
  lemma SplitBits(bytes: seq<byte>, n: nat)
    requires n <= |bytes|
    ensures Bits(bytes) == Bits(bytes[..n]) + Bits(bytes[n..])
  {
    assert bytes == bytes[..n] + bytes[n..];
    BitsAppend(bytes[..n], bytes[n..]);
  }

  /** Bytes 0x03 0xD0 begin the bit stream with the groups 0, 15 and 8. */
  lemma PrefixBits(bytes: seq<byte>)
    requires |bytes| >= 2 && bytes[0] == 0x03 && bytes[1] == 0xD0
    ensures LeadingGroups(Bits(bytes), 0, 15, 8)
  {
    SplitBits(bytes, 2);
    HeadGroupsOf(bytes[..2]);
    LeadingGroupsExtend(Bits(bytes[..2]), Bits(bytes[2..]), 0, 15, 8);
  }

  /** The letter of a group is the alphabet letter of its five bits' value. */
  lemma LetterOf(bits: seq<bit>, i: nat, v: nat)
    requires 5 * i + 5 <= |bits|
    requires FiveBitsValue(bits[5 * i], bits[5 * i + 1], bits[5 * i + 2], bits[5 * i + 3], bits[5 * i + 4]) == v
    ensures v < 32 && Groups(bits)[i] == Alphabet[v]
  {
    GroupLetter(bits, i);
  }

  lemma ThreeLetters(s: string, c0: char, c1: char, c2: char)
    requires |s| >= 3 && s[0] == c0 && s[1] == c1 && s[2] == c2
    ensures s[..3] == [c0, c1, c2]
  {
  }

  lemma ApiAlphabet()
    ensures Alphabet[0] == 'a' && Alphabet[15] == 'p' && Alphabet[8] == 'i'
  {
  }

  /** Groups of values 0, 15 and 8 are the letters "api". */
  lemma ApiLetters(bits: seq<bit>)
    requires LeadingGroups(bits, 0, 15, 8)
    ensures |Groups(bits)| >= 3 && Groups(bits)[..3] == "api"
  {
    LetterOf(bits, 0, 0);
    LetterOf(bits, 1, 15);
    LetterOf(bits, 2, 8);
    ApiAlphabet();
    ThreeLetters(Groups(bits), 'a', 'p', 'i');
  }

  /**
   Bytes 0x03 0xD0 begin with the bits 00000 01111 01000, so any input
   starting with them encodes to letters starting with "api".
   */
  lemma EncodeApiPrefix(bytes: seq<byte>)
    requires |bytes| >= 2 && bytes[0] == 0x03 && bytes[1] == 0xD0
    ensures |Encode(bytes)| >= 3 && Encode(bytes)[..3] == "api"
  {
    PrefixBits(bytes);
    ApiLetters(Bits(bytes));
  }

  /** A digest encodes to 52 letters, so the 6- and 10-letter slugs always exist. */
  lemma DigestLength(d: Digest)
    ensures |Encode(d)| == 52
  {
  }
}
