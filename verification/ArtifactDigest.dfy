/** The artifact digest of src/storage.rs: a hand-written SHA-256 over byte vectors,
    proved to compute the standard's function for every input it is defined on. */
module ArtifactDigest {
  import opened Fips180

  // ----- operations of the Rust library -----

  /** `u64::to_be_bytes`, `n` bytes wide. */
  function BigEndianBytes(x: nat, n: nat): (bytes: seq<byte>)
    ensures |bytes| == n
  {
    if n == 0 then [] else BigEndianBytes(x / 256, n - 1) + [x % 256]
  }

  function FourBytes(b0: byte, b1: byte, b2: byte, b3: byte): (n: nat)
    ensures n < 0x1_0000_0000
  {
    b0 * 0x100_0000 + b1 * 0x1_0000 + b2 * 0x100 + b3
  }

  /** `u32::from_be_bytes`. */
  function FromBigEndian(b0: byte, b1: byte, b2: byte, b3: byte): bv32 {
    FourBytes(b0, b1, b2, b3) as bv32
  }

  function HexDigit(x: bv4): char {
    if x == 0 then '0' else if x == 1 then '1' else if x == 2 then '2' else if x == 3 then '3'
    else if x == 4 then '4' else if x == 5 then '5' else if x == 6 then '6' else if x == 7 then '7'
    else if x == 8 then '8' else if x == 9 then '9' else if x == 10 then 'a' else if x == 11 then 'b'
    else if x == 12 then 'c' else if x == 13 then 'd' else if x == 14 then 'e' else 'f'
  }

  /** `format!("{word:08x}")`. */
  function HexOfWord(x: bv32): (text: string)
    ensures |text| == 8
  {
    [HexDigit((x >> 28) as bv4), HexDigit(((x >> 24) & 15) as bv4),
     HexDigit(((x >> 20) & 15) as bv4), HexDigit(((x >> 16) & 15) as bv4),
     HexDigit(((x >> 12) & 15) as bv4), HexDigit(((x >> 8) & 15) as bv4),
     HexDigit(((x >> 4) & 15) as bv4), HexDigit((x & 15) as bv4)]
  }

  function HexOf(words: seq<bv32>): (text: string)
    ensures |text| == 8 * |words|
  {
    if words == [] then "" else HexOf(words[..|words| - 1]) + HexOfWord(words[|words| - 1])
  }

  // ----- bytes against bits -----

  lemma {:induction false} BitsOfConcat(a: seq<byte>, b: seq<byte>)
    ensures BitsOf(a + b) == BitsOf(a) + BitsOf(b)
  {
    if b == [] {
      assert a + b == a;
    } else {
      var front, last := b[..|b| - 1], b[|b| - 1];
      BitsOfConcat(a, front);
      assert (a + b)[..|a + b| - 1] == a + front;
      assert BitsOf(a + b) == BitsOf(a + front) + BitsOfByte(last) && BitsOf(b) == BitsOf(front) + BitsOfByte(last);
      hide BitsOf;
    }
  }

  lemma BitsOfThree(a: seq<byte>, b: seq<byte>, c: seq<byte>)
    ensures BitsOf(a + b + c) == BitsOf(a) + BitsOf(b) + BitsOf(c)
  {
    hide BitsOf;
    BitsOfConcat(a + b, c);
    BitsOfConcat(a, b);
  }

  lemma InThreeParts(s: seq<byte>, i: nat, j: nat)
    requires i <= j <= |s|
    ensures s == s[..i] + s[i..j] + s[j..]
  {
  }

  lemma MiddlePart(x: seq<bool>, y: seq<bool>, z: seq<bool>, low: nat, high: nat)
    requires low == |x| && high == |x| + |y|
    ensures (x + y + z)[low..high] == y
  {
  }

  lemma BitsOfSlice(s: seq<byte>, i: nat, j: nat)
    requires i <= j <= |s|
    ensures BitsOf(s)[8 * i..8 * j] == BitsOf(s[i..j])
  {
    hide BitsOf;
    var a, b, c := s[..i], s[i..j], s[j..];
    InThreeParts(s, i, j);
    BitsOfThree(a, b, c);
    MiddlePart(BitsOf(a), BitsOf(b), BitsOf(c), 8 * i, 8 * j);
  }

  lemma BitsOfOneByte(b: byte)
    ensures BitsOf([b]) == BitsOfByte(b)
  {
    assert [b][..0] == [];
  }

  lemma TwiceAProduct(a: nat, x: nat, y: nat)
    ensures 2 * (a * x + y) == (2 * a) * x + 2 * y
  {
  }

  lemma {:induction false} NumberOfConcat(p: seq<bool>, q: seq<bool>)
    ensures NumberOf(p + q) == Pow2(|q|) * NumberOf(p) + NumberOf(q)
  {
    if q == [] {
      assert p + q == p;
    } else {
      var front := q[..|q| - 1];
      NumberOfConcat(p, front);
      LastBit(p + q);
      LastBit(q);
      assert (p + q)[..|p + q| - 1] == p + front;
      var a, x := Pow2(|front|), NumberOf(p);
      assert Pow2(|q|) == 2 * a;
      hide NumberOf, Pow2;
      TwiceAProduct(a, x, NumberOf(front));
    }
  }

  lemma LastBit(bits: seq<bool>)
    requires bits != []
    ensures NumberOf(bits) == 2 * NumberOf(bits[..|bits| - 1]) + if bits[|bits| - 1] then 1 else 0
  {
  }

  /** Writing a number in binary and reading it back loses nothing that fits. */
  lemma {:induction false} NumberOfBinary(n: nat, width: nat)
    requires n < Pow2(width)
    ensures NumberOf(Binary(n, width)) == n
  {
    if width > 0 {
      NumberOfBinary(n / 2, width - 1);
      assert Binary(n, width)[..width - 1] == Binary(n / 2, width - 1);
    }
  }

  /** High digits and low digits of a number written in binary. */
  lemma {:induction false} BinarySplit(high: nat, low: nat, n: nat, m: nat)
    requires low < Pow2(m)
    ensures Binary(high * Pow2(m) + low, n + m) == Binary(high, n) + Binary(low, m)
  {
    var x := high * Pow2(m) + low;
    if m == 0 {
      assert x == high;
    } else {
      var half := high * Pow2(m - 1);
      assert x == 2 * half + low by {
        assert Pow2(m) == 2 * Pow2(m - 1);
      }
      BinarySplit(high, low / 2, n, m - 1);
      assert x / 2 == half + low / 2 && x % 2 == low % 2;
    }
  }

  lemma EightBits()
    ensures Pow2(8) == 256 && Pow2(7) == 128
  {
    assert Pow2(4) == 16;
  }

  lemma {:induction false} BinaryOfBytes(x: nat, n: nat)
    ensures BitsOf(BigEndianBytes(x, n)) == Binary(x, 8 * n)
  {
    if n == 0 {
      assert BigEndianBytes(x, 0) == [];
    } else {
      BinaryOfBytes(x / 256, n - 1);
      OneMoreByte(BigEndianBytes(x / 256, n - 1), x % 256);
      HighAndLow(x, n);
    }
  }

  lemma OneMoreByte(bytes: seq<byte>, b: byte)
    ensures BitsOf(bytes + [b]) == BitsOf(bytes) + BitsOfByte(b)
  {
    hide BitsOf;
    BitsOfConcat(bytes, [b]);
    BitsOfOneByte(b);
  }

  lemma HighAndLow(x: nat, n: nat)
    requires n > 0
    ensures Binary(x, 8 * n) == Binary(x / 256, 8 * (n - 1)) + Binary(x % 256, 8)
  {
    EightBits();
    hide Binary, Pow2;
    BinarySplit(x / 256, x % 256, 8 * (n - 1), 8);
  }

  // ----- the digest -----

  lemma {:induction false} BinaryZero(k: nat)
    ensures Binary(0, k) == Zeros(k)
  {
    if k > 0 {
      BinaryZero(k - 1);
    }
  }

  lemma OneMoreZero(msg: seq<byte>, prefix: seq<bool>, k: nat)
    requires BitsOf(msg) == prefix + Zeros(k)
    ensures BitsOf(msg + [0]) == prefix + Zeros(k + 8)
  {
    hide BitsOf, Binary;
    BitsOfConcat(msg, [0]);
    BitsOfOneByte(0);
    BinaryZero(8);
  }

  lemma MarkerByte()
    ensures BitsOfByte(0x80) == [true] + Zeros(7)
  {
    EightBits();
    BinarySplit(1, 0, 1, 7);
    BinaryZero(7);
    assert Binary(1, 1) == [true];
  }

  lemma OneThenZeros(data: seq<byte>)
    ensures BitsOf(data + [0x80]) == BitsOf(data) + [true] + Zeros(7)
  {
    hide BitsOf, BitsOfByte;
    BitsOfConcat(data, [0x80]);
    BitsOfOneByte(0x80);
    MarkerByte();
  }

  /** How many zero bytes the padding loop appends. */
  function ZeroByteCount(n: nat): (k: nat)
    ensures k < 64 && (n + 1 + k) % 64 == 56
  {
    var r := n % 64;
    assert n == 64 * (n / 64) + r;
    if r <= 55 then 55 - r else 119 - r
  }

  lemma ZeroBitsInBytes(n: nat)
    ensures ZeroBits(8 * n) == 7 + 8 * ZeroByteCount(n)
  {
    var k := 7 + 8 * ZeroByteCount(n);
    assert 8 * n == 512 * (n / 64) + 8 * (n % 64);
    RemainderOf(447 - 8 * n, if n % 64 <= 55 then 0 - n / 64 else 0 - n / 64 - 1, k);
  }

  lemma RemainderOf(x: int, blocks: int, k: nat)
    requires x == 512 * blocks + k && k < 512
    ensures x % 512 == k
  {
  }

  lemma EightMore(n: nat)
    requires n % 64 == 56
    ensures (n + 8) % 64 == 0
  {
  }

  lemma StopsAtTheFirst(n: nat, j: nat)
    requires j <= ZeroByteCount(n)
    ensures (n + 1 + j) % 64 == 56 <==> j == ZeroByteCount(n)
  {
  }

  lemma LengthFieldCompletesThePadding(data: seq<byte>, body: seq<byte>)
    requires BitsOf(body) == BitsOf(data) + [true] + Zeros(ZeroBits(8 * |data|))
    ensures BitsOf(body + BigEndianBytes(|data| * 8, 8)) == Pad(BitsOf(data))
  {
    hide BitsOf, Binary, ZeroBits;
    BitsOfConcat(body, BigEndianBytes(|data| * 8, 8));
    BinaryOfBytes(|data| * 8, 8);
  }

  /** The message vector before the block loop: exactly the padding of the standard,
      in the fewest blocks that leave room for it. */
  method PadMessage(data: seq<byte>) returns (msg: seq<byte>)
    requires |data| < 0x2000_0000_0000_0000
    ensures BitsOf(msg) == Pad(BitsOf(data))
    ensures |msg| % 64 == 0 && |data| + 9 <= |msg| < |data| + 9 + 64
  {
    hide BitsOf, Binary, ZeroByteCount, ZeroBits, Pad, Zeros;
    msg := data;
    var bitLen := |data| * 8;
    msg := msg + [0x80];
    OneThenZeros(data);
    ghost var zeros := 0;
    while |msg| % 64 != 56
      invariant |msg| == |data| + 1 + zeros
      invariant 0 <= zeros <= ZeroByteCount(|data|)
      invariant BitsOf(msg) == BitsOf(data) + [true] + Zeros(7 + 8 * zeros)
      decreases ZeroByteCount(|data|) - zeros
    {
      OneMoreZero(msg, BitsOf(data) + [true], 7 + 8 * zeros);
      StopsAtTheFirst(|data|, zeros);
      msg := msg + [0];
      zeros := zeros + 1;
    }
    StopsAtTheFirst(|data|, zeros);
    ZeroBitsInBytes(|data|);
    EightMore(|msg|);
    LengthFieldCompletesThePadding(data, msg);
    msg := msg + BigEndianBytes(bitLen, 8);
  }

  /** The sixteen words of one 64-byte chunk. */
  function ChunkWords(chunk: seq<byte>): (block: seq<bv32>)
    requires |chunk| == 64
    ensures |block| == 16
  {
    seq(16, i requires 0 <= i < 16 =>
      FromBigEndian(chunk[i * 4], chunk[i * 4 + 1], chunk[i * 4 + 2], chunk[i * 4 + 3]))
  }

  lemma NumberOfFourBytes(b0: byte, b1: byte, b2: byte, b3: byte)
    ensures NumberOf(BitsOf([b0, b1, b2, b3])) == FourBytes(b0, b1, b2, b3)
  {
    hide BitsOf, NumberOf, Binary;
    EightBits();
    assert [b0, b1, b2, b3] == [b0] + [b1] + [b2] + [b3];
    BitsOfConcat([b0] + [b1] + [b2], [b3]);
    BitsOfConcat([b0] + [b1], [b2]);
    BitsOfConcat([b0], [b1]);
    BitsOfOneByte(b0);
    BitsOfOneByte(b1);
    BitsOfOneByte(b2);
    BitsOfOneByte(b3);
    NumberOfBinary(b0, 8);
    NumberOfBinary(b1, 8);
    NumberOfBinary(b2, 8);
    NumberOfBinary(b3, 8);
    NumberOfConcat(Binary(b0, 8), Binary(b1, 8));
    NumberOfConcat(Binary(b0, 8) + Binary(b1, 8), Binary(b2, 8));
    NumberOfConcat(Binary(b0, 8) + Binary(b1, 8) + Binary(b2, 8), Binary(b3, 8));
  }

  lemma NumberOfFourBytesAt(msg: seq<byte>, at: nat)
    requires at + 4 <= |msg|
    ensures NumberMod32(BitsOf(msg)[8 * at..8 * at + 32]) == FourBytes(msg[at], msg[at + 1], msg[at + 2], msg[at + 3])
  {
    hide BitsOf, NumberOf, FourBytes;
    assert msg[at..at + 4] == [msg[at], msg[at + 1], msg[at + 2], msg[at + 3]];
    BitsOfSlice(msg, at, at + 4);
    NumberOfFourBytes(msg[at], msg[at + 1], msg[at + 2], msg[at + 3]);
  }

  lemma FourBytesAreAWord(msg: seq<byte>, at: nat)
    requires at + 4 <= |msg|
    ensures FromBigEndian(msg[at], msg[at + 1], msg[at + 2], msg[at + 3]) == WordAt(BitsOf(msg), 8 * at)
  {
    hide BitsOf, NumberMod32, FourBytes;
    NumberOfFourBytesAt(msg, at);
  }

  lemma FourBytesOfAChunk(msg: seq<byte>, i: nat, j: nat)
    requires 64 * (i + 1) <= |msg| && j < 16
    ensures
      var chunk := msg[64 * i..64 * (i + 1)];
      && chunk[j * 4] == msg[64 * i + 4 * j]
      && chunk[j * 4 + 1] == msg[64 * i + 4 * j + 1]
      && chunk[j * 4 + 2] == msg[64 * i + 4 * j + 2]
      && chunk[j * 4 + 3] == msg[64 * i + 4 * j + 3]
  {
  }

  lemma ChunkIsBlock(msg: seq<byte>, i: nat)
    requires 64 * (i + 1) <= |msg|
    ensures ChunkWords(msg[64 * i..64 * (i + 1)]) == BlockAt(BitsOf(msg), i)
  {
    hide BitsOf, FromBigEndian, WordAt;
    var chunk := msg[64 * i..64 * (i + 1)];
    forall j | 0 <= j < 16 ensures ChunkWords(chunk)[j] == BlockAt(BitsOf(msg), i)[j] {
      FourBytesAreAWord(msg, 64 * i + 4 * j);
      FourBytesOfAChunk(msg, i, j);
    }
  }

  // The rotations as they stand in the two inner loops of `sha256_hex`.

  function ScheduleS0(x: bv32): bv32 { x.RotateRight(7) ^ x.RotateRight(18) ^ (x >> 3) }

  function ScheduleS1(x: bv32): bv32 { x.RotateRight(17) ^ x.RotateRight(19) ^ (x >> 10) }

  function RoundS0(a: bv32): bv32 { a.RotateRight(2) ^ a.RotateRight(13) ^ a.RotateRight(22) }

  function RoundS1(e: bv32): bv32 { e.RotateRight(6) ^ e.RotateRight(11) ^ e.RotateRight(25) }

  lemma RotationsAreTheSigmas(x: bv32)
    ensures RoundS0(x) == BigSigma0(x) && RoundS1(x) == BigSigma1(x)
    ensures ScheduleS0(x) == SmallSigma0(x) && ScheduleS1(x) == SmallSigma1(x)
  {
  }

  /** `sha256_hex` adds the four terms of a schedule word oldest first. */
  function WrappingSum(a: bv32, b: bv32, c: bv32, d: bv32): bv32 { a + b + c + d }

  lemma SumInEitherOrder(a: bv32, b: bv32, c: bv32, d: bv32)
    ensures WrappingSum(a, b, c, d) == Sum(d, c, b, a)
  {
  }

  lemma ScheduleStep(block: seq<bv32>, t: nat)
    requires |block| == 16 && 16 <= t < 64
    ensures Schedule(block, t)
         == Sum(SmallSigma1(Schedule(block, t - 2)), Schedule(block, t - 7),
                SmallSigma0(Schedule(block, t - 15)), Schedule(block, t - 16))
  {
    hide Sum, SmallSigma0, SmallSigma1;
  }

  lemma FirstWords(block: seq<bv32>, t: nat)
    requires |block| == 16 && t < 16
    ensures Schedule(block, t) == block[t]
  {
  }

  /** The in-place message schedule of one chunk. */
  method ExpandSchedule(chunk: seq<byte>) returns (w: array<bv32>)
    requires |chunk| == 64
    ensures fresh(w) && w.Length == 64
    ensures forall t :: 0 <= t < 64 ==> w[t] == Schedule(ChunkWords(chunk), t)
  {
    hide FromBigEndian, Schedule, SmallSigma0, SmallSigma1, ScheduleS0, ScheduleS1, Sum, WrappingSum;
    w := new bv32[64];
    ghost var block := ChunkWords(chunk);
    for i := 0 to 16
      invariant forall t :: 0 <= t < i ==> w[t] == Schedule(block, t)
    {
      w[i] := FromBigEndian(chunk[i * 4], chunk[i * 4 + 1], chunk[i * 4 + 2], chunk[i * 4 + 3]);
      FirstWords(block, i);
    }
    for i := 16 to 64
      invariant forall t :: 0 <= t < i ==> w[t] == Schedule(block, t)
    {
      var s0 := ScheduleS0(w[i - 15]);
      var s1 := ScheduleS1(w[i - 2]);
      RotationsAreTheSigmas(w[i - 15]);
      RotationsAreTheSigmas(w[i - 2]);
      ScheduleStep(block, i);
      SumInEitherOrder(w[i - 16], s0, w[i - 7], s1);
      w[i] := WrappingSum(w[i - 16], s0, w[i - 7], s1);
    }
  }

  /** The rotating registers, all rounds of one chunk. */
  method RunRounds(h: array<bv32>, w: array<bv32>, ghost block: seq<bv32>) returns (r: Registers)
    requires h.Length == 8 && w.Length == 64 && |block| == 16
    requires forall t :: 0 <= t < 64 ==> w[t] == Schedule(block, t)
    ensures r == Rounds(Load(h[..]), block, |K|)
  {
    hide Schedule, BigSigma0, BigSigma1, RoundS0, RoundS1, Plus;
    var a, b, c, d, e, f, g, hh := h[0], h[1], h[2], h[3], h[4], h[5], h[6], h[7];
    for i := 0 to 64
      invariant Registers(a, b, c, d, e, f, g, hh) == Rounds(Load(h[..]), block, i)
    {
      RotationsAreTheSigmas(a);
      RotationsAreTheSigmas(e);
      var s1 := RoundS1(e);
      var ch := (e & f) ^ (!e & g);
      var t1 := Plus(Plus(Plus(Plus(hh, s1), ch), K[i]), w[i]);
      var s0 := RoundS0(a);
      var maj := (a & b) ^ (a & c) ^ (b & c);
      var t2 := Plus(s0, maj);
      hh := g;
      g := f;
      f := e;
      e := Plus(d, t1);
      d := c;
      c := b;
      b := a;
      a := Plus(t1, t2);
    }
    r := Registers(a, b, c, d, e, f, g, hh);
  }

  /** The eight additions that close a chunk, in place. */
  method AddRegisters(h: array<bv32>, r: Registers)
    requires h.Length == 8
    modifies h
    ensures h[..] == [Plus(old(h[0]), r.a), Plus(old(h[1]), r.b), Plus(old(h[2]), r.c), Plus(old(h[3]), r.d),
                      Plus(old(h[4]), r.e), Plus(old(h[5]), r.f), Plus(old(h[6]), r.g), Plus(old(h[7]), r.h)]
  {
    hide Plus;
    h[0], h[1], h[2], h[3] := Plus(h[0], r.a), Plus(h[1], r.b), Plus(h[2], r.c), Plus(h[3], r.d);
    h[4], h[5], h[6], h[7] := Plus(h[4], r.e), Plus(h[5], r.f), Plus(h[6], r.g), Plus(h[7], r.h);
  }

  /** One chunk, compressed into the hash value in place. */
  method CompressChunk(h: array<bv32>, chunk: seq<byte>)
    requires h.Length == 8 && |chunk| == 64
    modifies h
    ensures h[..] == Compress(old(h[..]), ChunkWords(chunk))
  {
    hide Schedule, Rounds, Plus, ChunkWords;
    var w := ExpandSchedule(chunk);
    var r := RunRounds(h, w, ChunkWords(chunk));
    AddRegisters(h, r);
  }

  /** The digest of a byte vector is the standard's hash of its bits, in hexadecimal. */
  method Sha256Hex(data: seq<byte>) returns (out: string)
    requires |data| < 0x2000_0000_0000_0000
    ensures out == HexOf(Sha256(BitsOf(data)))
    ensures |out| == 64
  {
    hide BitsOf, Pad, BlockAt, ChunkWords, Compress;
    var h := new bv32[8] [0x6a09e667, 0xbb67ae85, 0x3c6ef372, 0xa54ff53a,
                          0x510e527f, 0x9b05688c, 0x1f83d9ab, 0x5be0cd19];
    assert h[..] == H0;
    var msg := PadMessage(data);
    var n := |msg| / 64;
    for i := 0 to n
      invariant h[..] == HashAfter(BitsOf(msg), i)
    {
      ChunkIsBlock(msg, i);
      CompressChunk(h, msg[64 * i..64 * (i + 1)]);
    }
    out := "";
    for i := 0 to 8
      invariant out == HexOf(h[..i])
    {
      assert h[..i + 1][..i] == h[..i];
      out := out + HexOfWord(h[i]);
    }
    assert h[..8] == h[..];
  }

  // ----- what the digest text and the padding lose: nothing -----

  function HexValue(c: char): bv4 {
    match c
    case '0' => 0 case '1' => 1 case '2' => 2 case '3' => 3
    case '4' => 4 case '5' => 5 case '6' => 6 case '7' => 7
    case '8' => 8 case '9' => 9 case 'a' => 10 case 'b' => 11
    case 'c' => 12 case 'd' => 13 case 'e' => 14 case _ => 15
  }

  predicate IsLowerHex(c: char) {
    '0' <= c <= '9' || 'a' <= c <= 'f'
  }

  lemma HexDigitRoundTrip(x: bv4)
    ensures HexValue(HexDigit(x)) == x && IsLowerHex(HexDigit(x))
  {
  }

  /** Reads eight digits back into a word. */
  function WordOfHex(text: string): bv32
    requires |text| == 8
  {
    (HexValue(text[0]) as bv32 << 28) | (HexValue(text[1]) as bv32 << 24)
    | (HexValue(text[2]) as bv32 << 20) | (HexValue(text[3]) as bv32 << 16)
    | (HexValue(text[4]) as bv32 << 12) | (HexValue(text[5]) as bv32 << 8)
    | (HexValue(text[6]) as bv32 << 4) | (HexValue(text[7]) as bv32)
  }

  lemma HexWordRoundTrip(x: bv32)
    ensures WordOfHex(HexOfWord(x)) == x
    ensures forall i :: 0 <= i < 8 ==> IsLowerHex(HexOfWord(x)[i])
  {
    hide HexDigit, HexValue, IsLowerHex;
    HexDigitRoundTrip((x >> 28) as bv4);
    HexDigitRoundTrip(((x >> 24) & 15) as bv4);
    HexDigitRoundTrip(((x >> 20) & 15) as bv4);
    HexDigitRoundTrip(((x >> 16) & 15) as bv4);
    HexDigitRoundTrip(((x >> 12) & 15) as bv4);
    HexDigitRoundTrip(((x >> 8) & 15) as bv4);
    HexDigitRoundTrip(((x >> 4) & 15) as bv4);
    HexDigitRoundTrip((x & 15) as bv4);
  }

  function WordsOfHex(text: string): seq<bv32>
    requires |text| % 8 == 0
  {
    if text == "" then [] else WordsOfHex(text[..|text| - 8]) + [WordOfHex(text[|text| - 8..])]
  }

  /** The digest text is lowercase hexadecimal and decodes back to the state words. */
  lemma {:induction false} HexRoundTrip(words: seq<bv32>)
    ensures WordsOfHex(HexOf(words)) == words
    ensures forall i :: 0 <= i < |HexOf(words)| ==> IsLowerHex(HexOf(words)[i])
  {
    hide HexOfWord, WordOfHex, IsLowerHex;
    if words != [] {
      var init, last := words[..|words| - 1], words[|words| - 1];
      HexRoundTrip(init);
      HexWordRoundTrip(last);
      assert HexOf(words)[..8 * |init|] == HexOf(init);
      assert HexOf(words)[8 * |init|..] == HexOfWord(last);
    }
  }

  /** Distinct messages have distinct padded forms. */
  lemma PaddingIsInjective(a: seq<bool>, b: seq<bool>)
    requires |a| < Pow2(64) && |b| < Pow2(64)
    requires Pad(a) == Pad(b)
    ensures a == b
  {
    hide Binary, NumberOf, ZeroBits, Pow2;
    var p := Pad(a);
    assert p[|p| - 64..] == Binary(|a|, 64);
    assert p[|p| - 64..] == Binary(|b|, 64);
    NumberOfBinary(|a|, 64);
    NumberOfBinary(|b|, 64);
    assert p[..|a|] == a && p[..|b|] == b;
  }

  lemma {:induction false} BitsOfIsInjective(a: seq<byte>, b: seq<byte>)
    requires BitsOf(a) == BitsOf(b)
    ensures a == b
  {
    if a != [] && b != [] {
      var x, y := a[|a| - 1], b[|b| - 1];
      assert BitsOf(a)[..8 * (|a| - 1)] == BitsOf(a[..|a| - 1]);
      assert BitsOf(b)[..8 * (|b| - 1)] == BitsOf(b[..|b| - 1]);
      assert BitsOf(a)[8 * (|a| - 1)..] == Binary(x, 8);
      assert BitsOf(b)[8 * (|b| - 1)..] == Binary(y, 8);
      BitsOfIsInjective(a[..|a| - 1], b[..|b| - 1]);
      EightBits();
      NumberOfBinary(x, 8);
      NumberOfBinary(y, 8);
      assert a == a[..|a| - 1] + [x] && b == b[..|b| - 1] + [y];
    }
  }

  lemma {:induction false} Pow2Sum(m: nat, n: nat)
    ensures Pow2(m + n) == Pow2(m) * Pow2(n)
  {
    if n > 0 {
      Pow2Sum(m, n - 1);
      TwiceAProduct(Pow2(m), Pow2(n - 1), 0);
      assert Pow2(m) * Pow2(n) == Pow2(m) * (2 * Pow2(n - 1));
    }
  }

  lemma SixtyFourBits()
    ensures Pow2(64) == 0x1_0000_0000_0000_0000
  {
    EightBits();
    hide Pow2;
    Pow2Sum(8, 8);
    Pow2Sum(16, 16);
    Pow2Sum(32, 32);
  }

  /** Of all byte strings the digest is defined on, no two are padded alike. */
  lemma PaddedBytesAreDistinct(a: seq<byte>, b: seq<byte>)
    requires |a| < 0x2000_0000_0000_0000 && |b| < 0x2000_0000_0000_0000
    ensures Pad(BitsOf(a)) == Pad(BitsOf(b)) <==> a == b
  {
    hide BitsOf, Pad, Pow2;
    SixtyFourBits();
    if Pad(BitsOf(a)) == Pad(BitsOf(b)) {
      PaddingIsInjective(BitsOf(a), BitsOf(b));
      BitsOfIsInjective(a, b);
    }
  }
}
