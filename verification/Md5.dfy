/** The MD5 digest of RFC 1321 over an abstract block function: streaming, length counting and padding. */
module Md5 {
  const WORD := 0x1_0000_0000

  type Byte = x: nat | x < 0x100
  type Word = x: nat | x < 0x1_0000_0000

  datatype Regs = Regs(a: Word, b: Word, c: Word, d: Word)

  /** What transform does to the registers with one 64-byte block. */
  type Transform = (Regs, seq<Byte>) -> Regs

  /** The initial registers of section 3.3. */
  const INIT := Regs(0x67452301, 0xefcdab89, 0x98badcfe, 0x10325476)

  // Words and bytes, low-order byte first.

  function EncodeWord(x: Word): seq<Byte> {
    [x % 0x100, x / 0x100 % 0x100, x / 0x1_0000 % 0x100, x / 0x100_0000 % 0x100]
  }

  /** The number that bytes write in base 256, low-order byte first. */
  function Value(b: seq<Byte>): nat {
    if b == [] then 0 else b[0] + 0x100 * Value(b[1..])
  }

  lemma ValueOfFour(b: seq<Byte>)
    requires |b| == 4
    ensures Value(b) == b[0] + 0x100 * b[1] + 0x1_0000 * b[2] + 0x100_0000 * b[3] < WORD
  {
    var b1, b2, b3 := b[1..], b[2..], b[3..];
    assert b1[1..] == b2 && b2[1..] == b3 && b3[1..] == [];
    assert Value(b3) == b[3];
  }

  function DecodeWord(b: seq<Byte>): Word
    requires |b| == 4
  {
    ValueOfFour(b);
    Value(b)
  }

  function Encode(words: seq<Word>): (bytes: seq<Byte>)
    ensures |bytes| == 4 * |words|
  {
    if words == [] then [] else Encode(words[..|words| - 1]) + EncodeWord(words[|words| - 1])
  }

  function Decode(bytes: seq<Byte>): (words: seq<Word>)
    requires |bytes| % 4 == 0
    ensures 4 * |words| == |bytes|
  {
    if bytes == [] then [] else Decode(bytes[..|bytes| - 4]) + [DecodeWord(bytes[|bytes| - 4..])]
  }

  lemma DivStep(x: nat, b: nat, y: nat)
    requires x == b + 0x100 * y && b < 0x100
    ensures x % 0x100 == b && x / 0x100 == y
  {
  }

  lemma DivDiv(x: nat)
    ensures x / 0x1_0000 == x / 0x100 / 0x100 && x / 0x100_0000 == x / 0x100 / 0x100 / 0x100
  {
  }

  lemma WordRoundTrip(x: Word)
    ensures DecodeWord(EncodeWord(x)) == x
  {
    DivDiv(x);
    var y, z, w: int := x / 0x100, x / 0x100 / 0x100, x / 0x100 / 0x100 / 0x100;
    assert x == x % 0x100 + 0x100 * y && y == y % 0x100 + 0x100 * z && z == z % 0x100 + 0x100 * w;
    assert w < 0x100 && EncodeWord(x) == [x % 0x100, y % 0x100, z % 0x100, w];
    ValueOfFour(EncodeWord(x));
  }

  lemma BytesRoundTrip(b: seq<Byte>)
    requires |b| == 4
    ensures EncodeWord(DecodeWord(b)) == b
  {
    var x, b1, b2, b3: int := DecodeWord(b), b[1], b[2], b[3];
    ValueOfFour(b);
    DivDiv(x);
    DivStep(x, b[0], b1 + 0x100 * (b2 + 0x100 * b3));
    DivStep(b1 + 0x100 * (b2 + 0x100 * b3), b1, b2 + 0x100 * b3);
    DivStep(b2 + 0x100 * b3, b2, b3);
  }

  lemma EncodeMore(words: seq<Word>, x: Word)
    ensures Encode(words + [x]) == Encode(words) + EncodeWord(x)
  {
    assert (words + [x])[..|words|] == words;
  }

  lemma DecodeMore(bytes: seq<Byte>, four: seq<Byte>)
    requires |bytes| % 4 == 0 && |four| == 4
    ensures Decode(bytes + four) == Decode(bytes) + [DecodeWord(four)]
  {
    assert (bytes + four)[..|bytes|] == bytes && (bytes + four)[|bytes|..] == four;
  }

  lemma EncodeNext(input: seq<Word>, i: nat, done: seq<Byte>)
    requires i < |input| && done == Encode(input[..i])
    ensures done + EncodeWord(input[i]) == Encode(input[..i + 1])
  {
    EncodeMore(input[..i], input[i]);
    assert input[..i + 1] == input[..i] + [input[i]];
  }

  lemma DecodeNext(input: seq<Byte>, i: nat, j: nat, done: seq<Word>)
    requires j == 4 * i && j + 4 <= |input| && done == Decode(input[..j])
    ensures done + [DecodeWord(input[j..j + 4])] == Decode(input[..j + 4])
  {
    DecodeMore(input[..j], input[j..j + 4]);
    assert input[..j + 4] == input[..j] + input[j..j + 4];
  }

  lemma {:induction false} DecodeEncode(words: seq<Word>)
    ensures Decode(Encode(words)) == words
  {
    if words != [] {
      var k := |words| - 1;
      DecodeEncode(words[..k]);
      WordRoundTrip(words[k]);
      var e := Encode(words);
      assert e[..|e| - 4] == Encode(words[..k]) && e[|e| - 4..] == EncodeWord(words[k]);
    }
  }

  lemma {:induction false} EncodeDecode(bytes: seq<Byte>)
    requires |bytes| % 4 == 0
    ensures Encode(Decode(bytes)) == bytes
  {
    if bytes != [] {
      var k := |bytes| - 4;
      EncodeDecode(bytes[..k]);
      BytesRoundTrip(bytes[k..]);
      EncodeMore(Decode(bytes[..k]), DecodeWord(bytes[k..]));
      assert bytes == bytes[..k] + bytes[k..];
    }
  }

  method EncodeInto(input: seq<Word>, output: array<Byte>)
    requires output.Length == 4 * |input|
    modifies output
    ensures output[..] == Encode(input)
  {
    var i, j := 0, 0;
    while j < output.Length
      invariant j == 4 * i && i <= |input|
      invariant output[..j] == Encode(input[..i])
    {
      output[j] := input[i] % 0x100;
      output[j + 1] := input[i] / 0x100 % 0x100;
      output[j + 2] := input[i] / 0x1_0000 % 0x100;
      output[j + 3] := input[i] / 0x100_0000 % 0x100;
      EncodeNext(input, i, output[..j]);
      assert output[..j + 4] == output[..j] + EncodeWord(input[i]);
      i, j := i + 1, j + 4;
    }
    assert input[..i] == input;
  }

  /** The four shifted bytes do not overlap, so that joining them by "or" is adding them. */
  method ReadWord(input: seq<Byte>, j: nat) returns (w: Word)
    requires j + 4 <= |input|
    ensures w == DecodeWord(input[j..j + 4])
  {
    ValueOfFour(input[j..j + 4]);
    var b0: int, b1: int, b2: int, b3: int := input[j], input[j + 1], input[j + 2], input[j + 3];
    w := b0 + 0x100 * b1 + 0x1_0000 * b2 + 0x100_0000 * b3;
  }

  method DecodeInto(input: seq<Byte>, output: array<Word>)
    requires |input| == 4 * output.Length
    modifies output
    ensures output[..] == Decode(input)
  {
    var i, j := 0, 0;
    while j < |input|
      invariant j == 4 * i && i <= output.Length
      invariant output[..i] == Decode(input[..j])
    {
      output[i] := ReadWord(input, j);
      DecodeNext(input, i, j, output[..i]);
      assert output[..i + 1] == output[..i] + [output[i]];
      i, j := i + 1, j + 4;
    }
    assert input[..j] == input;
  }

  // Absorbing whole blocks.

  function Absorb(f: Transform, r: Regs, m: seq<Byte>): Regs
    decreases |m|
  {
    if |m| < 64 then r else Absorb(f, f(r, m[..64]), m[64..])
  }

  /** What is left after the last whole block. */
  function Tail(m: seq<Byte>): (t: seq<Byte>)
    ensures |t| == |m| % 64
  {
    m[|m| - |m| % 64..]
  }

  lemma {:induction false} AbsorbConcat(f: Transform, r: Regs, a: seq<Byte>, b: seq<Byte>)
    requires |a| % 64 == 0
    ensures Absorb(f, r, a + b) == Absorb(f, Absorb(f, r, a), b)
    decreases |a|
  {
    if a == [] {
      assert a + b == b;
    } else {
      assert (a + b)[..64] == a[..64] && (a + b)[64..] == a[64..] + b;
      AbsorbConcat(f, f(r, a[..64]), a[64..], b);
    }
  }

  lemma AbsorbBlock(f: Transform, r: Regs, a: seq<Byte>, block: seq<Byte>)
    requires |a| % 64 == 0 && |block| == 64
    ensures Absorb(f, r, a + block) == f(Absorb(f, r, a), block)
  {
    AbsorbConcat(f, r, a, block);
    assert block[..64] == block;
  }

  lemma AbsorbShort(f: Transform, r: Regs, a: seq<Byte>, b: seq<Byte>)
    requires |a| % 64 == 0 && |b| < 64
    ensures Absorb(f, r, a + b) == Absorb(f, r, a) && Tail(a + b) == b
  {
    AbsorbConcat(f, r, a, b);
  }

  lemma AbsorbWhole(f: Transform, r: Regs, m: seq<Byte>)
    ensures var whole := m[..|m| - |m| % 64];
            |whole| % 64 == 0 && m == whole + Tail(m) && Absorb(f, r, m) == Absorb(f, r, whole)
  {
    var whole := m[..|m| - |m| % 64];
    assert m == whole + Tail(m);
    AbsorbShort(f, r, whole, Tail(m));
  }

  /** The bytes that complete the last block make it absorbed. */
  lemma AbsorbFilled(f: Transform, r: Regs, m: seq<Byte>, head: seq<Byte>)
    requires |m| % 64 + |head| == 64
    ensures Absorb(f, r, m + head) == f(Absorb(f, r, m), Tail(m) + head)
  {
    AbsorbWhole(f, r, m);
    var whole := m[..|m| - |m| % 64];
    AbsorbBlock(f, r, whole, Tail(m) + head);
    assert m + head == whole + (Tail(m) + head);
  }

  /** Bytes that complete no block only lengthen the tail. */
  lemma AbsorbFew(f: Transform, r: Regs, m: seq<Byte>, more: seq<Byte>)
    requires |m| % 64 + |more| < 64
    ensures Absorb(f, r, m + more) == Absorb(f, r, m) && Tail(m + more) == Tail(m) + more
  {
    AbsorbWhole(f, r, m);
    AbsorbFewAfter(f, r, m[..|m| - |m| % 64], Tail(m), more);
  }

  lemma AbsorbFewAfter(f: Transform, r: Regs, whole: seq<Byte>, tail: seq<Byte>, more: seq<Byte>)
    requires |whole| % 64 == 0 && |tail| + |more| < 64
    ensures Absorb(f, r, whole + tail + more) == Absorb(f, r, whole) && Tail(whole + tail + more) == tail + more
  {
    assert whole + tail + more == whole + (tail + more);
    AbsorbShort(f, r, whole, tail + more);
  }

  lemma AbsorbUpTo(f: Transform, r: Regs, m: seq<Byte>, input: seq<Byte>, i: nat)
    requires i <= |input| && (|m| + i) % 64 == 0 && |input| - i < 64
    ensures Absorb(f, r, m + input) == Absorb(f, r, m + input[..i]) && Tail(m + input) == input[i..]
  {
    assert m + input == m + input[..i] + input[i..];
    AbsorbShort(f, r, m + input[..i], input[i..]);
  }

  lemma AbsorbNext(f: Transform, r: Regs, m: seq<Byte>, input: seq<Byte>, i: nat)
    requires i + 64 <= |input| && (|m| + i) % 64 == 0
    ensures Absorb(f, r, m + input[..i + 64]) == f(Absorb(f, r, m + input[..i]), input[i..i + 64])
  {
    AbsorbBlock(f, r, m + input[..i], input[i..i + 64]);
    assert m + input[..i] + input[i..i + 64] == m + input[..i + 64];
  }

  // The bit count in two words.

  ghost predicate CountOk(count0: Word, count1: Word, n: nat) {
    count0 == 8 * n % WORD && count1 == 8 * n / WORD % WORD
  }

  lemma IndexOfCount(count0: Word, n: nat)
    requires count0 == 8 * n % WORD
    ensures count0 / 8 % 64 == n % 64
  {
    var q := 8 * n / WORD;
    assert 8 * n == q * WORD + count0;
    assert count0 == 8 * (n - q * 0x2000_0000);
    assert count0 / 8 == n - q * 0x2000_0000;
    assert n == count0 / 8 + 64 * (q * 0x80_0000);
  }

  lemma PartAligns(n: nat)
    ensures (n + (64 - n % 64)) % 64 == 0
  {
    assert n + (64 - n % 64) == 64 * (n / 64 + 1);
  }

  /** The low word after adding to the count. */
  function LowSum(count0: Word, len: nat): Word {
    (count0 + 8 * len % WORD) % WORD
  }

  /** The high word after adding: one more when the low word has wrapped around. */
  function HighSum(count0: Word, count1: Word, len: nat): Word {
    ((if LowSum(count0, len) < 8 * len % WORD then (count1 + 1) % WORD else count1) + len / 0x2000_0000) % WORD
  }

  lemma CountGrows(count0: Word, count1: Word, n: nat, len: nat)
    requires CountOk(count0, count1, n) && len < WORD
    ensures CountOk(LowSum(count0, len), HighSum(count0, count1, len), n + len)
  {
    var low := 8 * len % WORD;
    var carry := if LowSum(count0, len) < low then 1 else 0;
    assert 8 * len == low + WORD * (len / 0x2000_0000);
    var q := 8 * n / WORD;
    assert 8 * n == q * WORD + count0;
    assert count0 + low == LowSum(count0, len) + carry * WORD;
    var total := q + carry + len / 0x2000_0000;
    assert 8 * (n + len) == total * WORD + LowSum(count0, len);
    SplitWord(8 * (n + len), total, LowSum(count0, len));
    ModSum(q, carry, len / 0x2000_0000);
  }

  lemma SplitWord(x: nat, q: nat, r: nat)
    requires x == q * WORD + r && r < WORD
    ensures x % WORD == r && x / WORD == q
  {
  }

  lemma ModSum(q: nat, carry: nat, high: nat)
    ensures ((q % WORD + carry) % WORD + high) % WORD == (q + carry + high) % WORD
  {
  }

  // Sections 3.1 and 3.2: padding to 56 modulo 64, then the length in bits, low-order word first.

  function Zeros(n: nat): seq<Byte> {
    seq(n, i => 0)
  }

  /** The number of zero bytes after the byte 0x80. */
  function ZeroCount(n: nat): (k: nat)
    ensures k < 64 && (n + 1 + k) % 64 == 56
  {
    (119 - n % 64) % 64
  }

  function Padded(m: seq<Byte>): seq<Byte> {
    m + [0x80] + Zeros(ZeroCount(|m|)) + Encode([8 * |m| % WORD, 8 * |m| / WORD % WORD])
  }

  function Words(r: Regs): (words: seq<Word>)
    ensures |words| == 4
  {
    [r.a, r.b, r.c, r.d]
  }

  class MD5Impl {
    const transform: Transform
    var state: Regs
    var count0: Word
    var count1: Word
    const buffer: array<Byte>
    const digest: array<Byte>
    ghost var absorbed: seq<Byte>

    ghost predicate Arrays()
      reads this
    {
      buffer.Length == 64 && digest.Length == 16 && buffer != digest
    }

    /** The registers and the buffer are those of the bytes absorbed so far. */
    ghost predicate Valid()
      reads this, buffer
    {
      && Arrays()
      && CountOk(count0, count1, |absorbed|)
      && state == Absorb(transform, INIT, absorbed)
      && buffer[..|absorbed| % 64] == Tail(absorbed)
    }

    constructor (transform: Transform)
      ensures this.transform == transform && Arrays() && fresh(buffer) && fresh(digest)
    {
      this.transform := transform;
      state, count0, count1, absorbed := INIT, 0, 0, [];
      buffer := new Byte[64];
      digest := new Byte[16];
    }

    /** Copies part of the input to the buffer. */
    method CopyToBuffer(index: nat, input: seq<Byte>, from: nat, to: nat)
      requires Arrays() && from <= to <= |input| && index + (to - from) <= 64
      modifies buffer
      ensures buffer[..index] == old(buffer[..index])
      ensures buffer[index..index + (to - from)] == input[from..to]
    {
      for k := 0 to to - from
        invariant buffer[..index] == old(buffer[..index])
        invariant buffer[index..index + k] == input[from..from + k]
      {
        buffer[index + k] := input[from + k];
        assert buffer[index..index + k + 1] == buffer[index..index + k] + [input[from + k]];
        assert input[from..from + k + 1] == input[from..from + k] + [input[from + k]];
      }
    }

    method Transform(block: seq<Byte>)
      requires |block| == 64
      modifies `state
      ensures state == transform(old(state), block)
    {
      state := transform(state, block);
    }

    /** Completes the buffered block with the input's first bytes and absorbs it. */
    method FillBuffer(input: seq<Byte>, index: nat)
      requires Arrays() && index < 64 && 64 - index <= |input|
      modifies `state, buffer
      ensures state == transform(old(state), old(buffer[..index]) + input[..64 - index])
    {
      CopyToBuffer(index, input, 0, 64 - index);
      assert buffer[..] == buffer[..index] + buffer[index..index + (64 - index)];
      Transform(buffer[..]);
    }

    /** Absorbs the whole blocks of the input from a position on. The loop's bound is computed in 32 bits. */
    method TransformRest(input: seq<Byte>, from: nat, ghost m: seq<Byte>) returns (i: nat)
      requires from <= |input| < WORD - 64 && (|m| + from) % 64 == 0
      requires state == Absorb(transform, INIT, m + input[..from])
      modifies `state
      ensures from <= i <= |input| && (|m| + i) % 64 == 0 && |input| - i < 64
      ensures state == Absorb(transform, INIT, m + input[..i])
    {
      i := from;
      while (i + 63) % WORD < |input|
        invariant from <= i <= |input| && (|m| + i) % 64 == 0
        invariant state == Absorb(transform, INIT, m + input[..i])
        decreases |input| - i
      {
        Transform(input[i..i + 64]);
        AbsorbNext(transform, INIT, m, input, i);
        i := i + 64;
      }
    }

    /** Adds to the bit count, with a carry from the low word to the high one. */
    method AddCount(len: nat)
      requires len < WORD && CountOk(count0, count1, |absorbed|)
      modifies `count0, `count1
      ensures CountOk(count0, count1, |absorbed| + len)
    {
      CountGrows(count0, count1, |absorbed|, len);
      count0 := (count0 + 8 * len % WORD) % WORD;
      if count0 < 8 * len % WORD {
        count1 := (count1 + 1) % WORD;
      }
      count1 := (count1 + len / 0x2000_0000) % WORD;
      assert count0 == LowSum(old(count0), len) && count1 == HighSum(old(count0), old(count1), len);
    }

    /** Absorbs more bytes, for inputs short enough that the 32-bit loop bound does not wrap. */
    method Init(input: seq<Byte>)
      requires Valid() && |input| < WORD - 64
      modifies `state, `count0, `count1, `absorbed, buffer
      ensures Valid() && absorbed == old(absorbed) + input
    {
      var len := |input|;
      var index := count0 / 8 % 64;
      IndexOfCount(count0, |absorbed|);
      AddCount(len);
      var i := 0;
      var part := 64 - index;
      ghost var m := absorbed;
      if len >= part {
        PartAligns(|m|);
        AbsorbFilled(transform, INIT, m, input[..part]);
        FillBuffer(input, index);
        i := TransformRest(input, part, m);
        AbsorbUpTo(transform, INIT, m, input, i);
        index := 0;
      } else {
        AbsorbFew(transform, INIT, m, input);
      }
      CopyToBuffer(index, input, i, len);
      absorbed := m + input;
      assert buffer[..index + (len - i)] == buffer[..index] + buffer[index..index + (len - i)];
    }

    /** Absorbs the padding and then the length that was counted before it. */
    method Pad()
      requires Valid()
      modifies `state, `count0, `count1, `absorbed, buffer
      ensures Valid() && absorbed == Padded(old(absorbed))
    {
      ghost var msg := absorbed;
      var bits := EncodeCount();
      var index := count0 / 8 % 64;
      IndexOfCount(count0, |msg|);
      var padLen := if index < 56 then 56 - index else 120 - index;
      var padding := [0x80] + Zeros(63);
      PadLength(|msg|);
      PaddingPrefix(padLen - 1);
      PaddedPieces(msg);
      Init(padding[..padLen]);
      Init(bits);
    }

    method EncodeCount() returns (bits: seq<Byte>)
      requires CountOk(count0, count1, |absorbed|)
      ensures bits == Encode([8 * |absorbed| % WORD, 8 * |absorbed| / WORD % WORD])
    {
      var output := new Byte[8];
      EncodeInto([count0, count1], output);
      bits := output[..];
    }

    method Reset()
      requires Arrays()
      modifies `state, `count0, `count1, `absorbed
      ensures Valid() && absorbed == []
    {
      count0, count1 := 0, 0;
      state := INIT;
      absorbed := [];
    }

    /** The digest of a message: its padded form absorbed from the initial registers, low-order bytes first. */
    method Digest(msg: seq<Byte>) returns (result: seq<Byte>)
      requires Arrays() && |msg| < WORD - 64
      modifies this, buffer, digest
      ensures Arrays() && result == Encode(Words(Absorb(transform, INIT, Padded(msg))))
    {
      Reset();
      Init(msg);
      assert [] + msg == msg;
      var oldState, old0, old1 := state, count0, count1;
      Pad();
      result := Output();
      state, count0, count1 := oldState, old0, old1;
    }

    method Output() returns (result: seq<Byte>)
      requires Arrays()
      modifies digest
      ensures result == Encode(Words(state))
    {
      EncodeInto(Words(state), digest);
      result := digest[..];
    }
  }

  lemma PadLength(n: nat)
    ensures (if n % 64 < 56 then 56 - n % 64 else 120 - n % 64) == 1 + ZeroCount(n)
    ensures (n + 1 + ZeroCount(n) + 8) % 64 == 0
  {
  }

  lemma PaddingPrefix(k: nat)
    requires k < 64
    ensures ([0x80] + Zeros(63))[..1 + k] == [0x80] + Zeros(k)
  {
  }

  lemma PaddedPieces(msg: seq<Byte>)
    ensures Padded(msg) ==
              msg + ([0x80] + Zeros(ZeroCount(|msg|))) + Encode([8 * |msg| % WORD, 8 * |msg| / WORD % WORD])
    ensures |Padded(msg)| % 64 == 0
  {
    PadLength(|msg|);
    assert msg + [0x80] + Zeros(ZeroCount(|msg|)) == msg + ([0x80] + Zeros(ZeroCount(|msg|)));
  }

  // The constants of the standard, byte by byte.

  lemma Slice<T>(a: seq<T>, b: seq<T>, i: nat)
    ensures (a + b)[|a|..|a| + |b|] == b
    ensures i + 4 <= |a| ==> (a + b)[i..i + 4] == a[i..i + 4]
  {
  }

  lemma {:induction false} EncodedPart(words: seq<Word>, k: nat)
    requires k < |words|
    ensures Encode(words)[4 * k..4 * k + 4] == EncodeWord(words[k])
    decreases |words|
  {
    var n := |words| - 1;
    Slice(Encode(words[..n]), EncodeWord(words[n]), 4 * k);
    if k < n {
      EncodedPart(words[..n], k);
    }
  }

  /** A digest is the four registers in their order, each low-order byte first: section 3.5 of RFC 1321. */
  lemma DigestBytes(r: Regs)
    ensures var d := Encode(Words(r));
            && |d| == 16 && Value(d[..4]) == r.a && Value(d[4..8]) == r.b && Value(d[8..12]) == r.c
            && Value(d[12..]) == r.d
  {
    var d := Encode(Words(r));
    EncodedPart(Words(r), 0);
    EncodedPart(Words(r), 1);
    EncodedPart(Words(r), 2);
    EncodedPart(Words(r), 3);
    assert d[..4] == d[0..4] && d[12..] == d[12..16];
    WordRoundTrip(r.a);
    WordRoundTrip(r.b);
    WordRoundTrip(r.c);
    WordRoundTrip(r.d);
  }

  /** The initial registers hold the bytes of section 3.3, low-order byte first. */
  lemma InitialBytes()
    ensures Value([0x01, 0x23, 0x45, 0x67]) == INIT.a && Value([0x89, 0xab, 0xcd, 0xef]) == INIT.b
    ensures Value([0xfe, 0xdc, 0xba, 0x98]) == INIT.c && Value([0x76, 0x54, 0x32, 0x10]) == INIT.d
  {
    ValueOfFour([0x01, 0x23, 0x45, 0x67]);
    ValueOfFour([0x89, 0xab, 0xcd, 0xef]);
    ValueOfFour([0xfe, 0xdc, 0xba, 0x98]);
    ValueOfFour([0x76, 0x54, 0x32, 0x10]);
  }

  lemma {:induction false} ValueConcat(a: seq<Byte>, b: seq<Byte>)
    requires |a| == 4
    ensures Value(a + b) == Value(a) + WORD * Value(b)
  {
    var c := a + b;
    assert c[1..] == a[1..] + b && (a[1..] + b)[1..] == a[2..] + b && (a[2..] + b)[1..] == a[3..] + b;
    assert (a[3..] + b)[1..] == b;
    ValueOfFour(a);
    assert Value(a[3..] + b) == a[3] + 0x100 * Value(b);
    assert Value(a[2..] + b) == a[2] + 0x100 * Value(a[3..] + b);
    assert Value(a[1..] + b) == a[1] + 0x100 * Value(a[2..] + b);
  }

  lemma Halves(n: nat)
    ensures n % WORD + WORD * (n / WORD % WORD) == n % (WORD * WORD)
  {
    var q := n / WORD / WORD;
    assert n == n % WORD + WORD * (n / WORD % WORD) + WORD * WORD * q;
  }

  /**
    The padded message: the message, a byte 0x80, fewer than 64 zero bytes, and the message's length in bits modulo
    2^64 as eight bytes, low-order byte first; whole blocks in all.
   */
  lemma PaddedInFull(m: seq<Byte>)
    ensures var p := Padded(m);
            && |m| + 9 <= |p| < |m| + 73 && |p| % 64 == 0 && p[..|m|] == m && p[|m|] == 0x80
            && (forall i :: |m| < i < |p| - 8 ==> p[i] == 0)
            && Value(p[|p| - 8..]) == 8 * |m| % 0x1_0000_0000_0000_0000
  {
    var p, lo, hi := Padded(m), 8 * |m| % WORD, 8 * |m| / WORD % WORD;
    PaddedPieces(m);
    var length := Encode([lo, hi]);
    EncodedPart([lo, hi], 0);
    EncodedPart([lo, hi], 1);
    assert length == EncodeWord(lo) + EncodeWord(hi);
    assert p[|p| - 8..] == length;
    ValueConcat(EncodeWord(lo), EncodeWord(hi));
    WordRoundTrip(lo);
    WordRoundTrip(hi);
    Halves(8 * |m|);
  }
}
