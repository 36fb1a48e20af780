/** MD5 of src/hashkit/gf_md5.c: the optimised and buffered form against the algorithm
    of sections 3.1 to 3.5 of RFC 1321. */
module Md5 {
  type Byte = bv8
  type Word = bv32

  // ---------- RFC 1321, section 3.4 ----------

  function F(x: Word, y: Word, z: Word): Word { (x & y) | (!x & z) }
  function G(x: Word, y: Word, z: Word): Word { (x & z) | (y & !z) }
  function H(x: Word, y: Word, z: Word): Word { x ^ y ^ z }
  function I(x: Word, y: Word, z: Word): Word { y ^ (x | !z) }

  function Left(x: Word, s: nat): Word
    requires s <= 32
  {
    x << s
  }

  function Right(x: Word, s: nat): Word
    requires s <= 32
  {
    x >> s
  }

  /** Addition modulo 2^32. */
  function Add(x: Word, y: Word): Word { x + y }

  function Rotate(x: Word, s: nat): Word
    requires s < 32
  {
    Left(x, s) | Right(x, 32 - s)
  }

  datatype State = State(a: Word, b: Word, c: Word, d: Word)

  const INIT := State(0x67452301, 0xefcdab89, 0x98badcfe, 0x10325476)

  /** The table T[1..64], counted from 0. */
  function Sine(i: nat): Word
    requires i < 64
  {
    match i
    case 0 => 0xd76aa478 case 1 => 0xe8c7b756 case 2 => 0x242070db
    case 3 => 0xc1bdceee case 4 => 0xf57c0faf case 5 => 0x4787c62a
    case 6 => 0xa8304613 case 7 => 0xfd469501 case 8 => 0x698098d8
    case 9 => 0x8b44f7af case 10 => 0xffff5bb1 case 11 => 0x895cd7be
    case 12 => 0x6b901122 case 13 => 0xfd987193 case 14 => 0xa679438e
    case 15 => 0x49b40821 case 16 => 0xf61e2562 case 17 => 0xc040b340
    case 18 => 0x265e5a51 case 19 => 0xe9b6c7aa case 20 => 0xd62f105d
    case 21 => 0x02441453 case 22 => 0xd8a1e681 case 23 => 0xe7d3fbc8
    case 24 => 0x21e1cde6 case 25 => 0xc33707d6 case 26 => 0xf4d50d87
    case 27 => 0x455a14ed case 28 => 0xa9e3e905 case 29 => 0xfcefa3f8
    case 30 => 0x676f02d9 case 31 => 0x8d2a4c8a case 32 => 0xfffa3942
    case 33 => 0x8771f681 case 34 => 0x6d9d6122 case 35 => 0xfde5380c
    case 36 => 0xa4beea44 case 37 => 0x4bdecfa9 case 38 => 0xf6bb4b60
    case 39 => 0xbebfbc70 case 40 => 0x289b7ec6 case 41 => 0xeaa127fa
    case 42 => 0xd4ef3085 case 43 => 0x04881d05 case 44 => 0xd9d4d039
    case 45 => 0xe6db99e5 case 46 => 0x1fa27cf8 case 47 => 0xc4ac5665
    case 48 => 0xf4292244 case 49 => 0x432aff97 case 50 => 0xab9423a7
    case 51 => 0xfc93a039 case 52 => 0x655b59c3 case 53 => 0x8f0ccc92
    case 54 => 0xffeff47d case 55 => 0x85845dd1 case 56 => 0x6fa87e4f
    case 57 => 0xfe2ce6e0 case 58 => 0xa3014314 case 59 => 0x4e0811a1
    case 60 => 0xf7537e82 case 61 => 0xbd3af235 case 62 => 0x2ad7d2bb
    case _ => 0xeb86d391
  }

  /** Which word of the block step i uses. */
  function Pick(i: nat): nat
  {
    if i < 16 then i
    else if i < 32 then (1 + 5 * i) % 16
    else if i < 48 then (5 + 3 * i) % 16
    else 7 * i % 16
  }

  function Shift(i: nat): (s: nat)
    ensures 0 < s < 32
  {
    if i < 16 then [7, 12, 17, 22][i % 4]
    else if i < 32 then [5, 9, 14, 20][i % 4]
    else if i < 48 then [4, 11, 16, 23][i % 4]
    else [6, 10, 15, 21][i % 4]
  }

  function Mix(i: nat, b: Word, c: Word, d: Word): Word {
    if i < 16 then F(b, c, d) else if i < 32 then G(b, c, d) else if i < 48 then H(b, c, d) else I(b, c, d)
  }

  /** a = b + ((a + mix(b, c, d) + x + t) <<< s). The sums are modulo 2^32, so that
      their grouping does not matter. */
  function StepValue(mix: Word, a: Word, b: Word, x: Word, t: Word, s: nat): Word
    requires s < 32
  {
    Add(Rotate(Add(a, Add(Add(mix, x), t)), s), b)
  }

  /** Step i on the registers in the order the step names them, turned for the next. */
  function Turn(i: nat, s: State, x: seq<Word>): State
    requires i < 64 && |x| == 16
  {
    State(s.d, StepValue(Mix(i, s.b, s.c, s.d), s.a, s.b, x[Pick(i)], Sine(i), Shift(i)), s.b, s.c)
  }

  function Turns(n: nat, s: State, x: seq<Word>): State
    requires n <= 64 && |x| == 16
  {
    if n == 0 then s else Turn(n - 1, Turns(n - 1, s, x), x)
  }

  function Plus(s: State, t: State): State {
    State(Add(s.a, t.a), Add(s.b, t.b), Add(s.c, t.c), Add(s.d, t.d))
  }

  /** A word from four bytes, low-order byte first. */
  function Word32(b0: Byte, b1: Byte, b2: Byte, b3: Byte): Word {
    (b0 as Word) | ((b1 as Word) << 8) | ((b2 as Word) << 16) | ((b3 as Word) << 24)
  }

  function Words(block: seq<Byte>): (x: seq<Word>)
    requires |block| == 64
    ensures |x| == 16
  {
    seq(16, i requires 0 <= i < 16 => Word32(block[4 * i], block[4 * i + 1], block[4 * i + 2], block[4 * i + 3]))
  }

  function Compress(s: State, block: seq<Byte>): State
    requires |block| == 64
  {
    Plus(Turns(64, s, Words(block)), s)
  }

  function Fold(s: State, data: seq<Byte>): State
    decreases |data|
  {
    if |data| < 64 then s else Fold(Compress(s, data[..64]), data[64..])
  }

  lemma {:induction false} FoldConcat(s: State, x: seq<Byte>, y: seq<Byte>)
    requires |x| % 64 == 0
    ensures Fold(s, x + y) == Fold(Fold(s, x), y)
    decreases |x|
  {
    hide Compress;
    if x == [] {
      assert x + y == y;
    } else {
      assert (x + y)[..64] == x[..64] && (x + y)[64..] == x[64..] + y;
      FoldConcat(Compress(s, x[..64]), x[64..], y);
    }
  }

  lemma FoldOne(s: State, block: seq<Byte>)
    requires |block| == 64
    ensures Fold(s, block) == Compress(s, block)
  {
    assert block[..64] == block && block[64..] == [];
  }

  // ---------- the forms of the source ----------

  /** F and G without an and-not. */
  function FastF(x: Word, y: Word, z: Word): Word { z ^ (x & (y ^ z)) }
  function FastG(x: Word, y: Word, z: Word): Word { y ^ (z & (x ^ y)) }

  lemma Choose(x: Word, y: Word, z: Word)
    ensures z ^ (x & (y ^ z)) == (x & y) | (!x & z)
    ensures y ^ (z & (x ^ y)) == (x & z) | (y & !z)
  {
  }

  lemma FastForms(x: Word, y: Word, z: Word)
    ensures FastF(x, y, z) == F(x, y, z)
    ensures FastG(x, y, z) == G(x, y, z)
  {
    Choose(x, y, z);
  }

  /** The rotation as STEP writes it. */
  function Rotated(x: Word, s: nat): Word
    requires s < 32
  {
    Left(x, s) | Right(x & 0xffffffff, 32 - s)
  }

  /** STEP */
  function Step(mix: Word, a: Word, b: Word, x: Word, t: Word, s: nat): Word
    requires s < 32
  {
    Add(Rotated(Add(a, Add(Add(mix, x), t)), s), b)
  }

  lemma Mask(x: Word)
    ensures x & 0xffffffff == x
  {
  }

  lemma RotatedIs(x: Word, s: nat)
    requires s < 32
    ensures Rotated(x, s) == Rotate(x, s)
  {
    hide Left, Right;
    Mask(x);
  }

  lemma StepIs(mix: Word, a: Word, b: Word, x: Word, t: Word, s: nat)
    requires s < 32
    ensures Step(mix, a, b, x, t, s) == StepValue(mix, a, b, x, t, s)
  {
    hide Add, Rotate, Rotated;
    RotatedIs(Add(a, Add(Add(mix, x), t)), s);
  }

  lemma MixIs(i: nat, x: Word, y: Word, z: Word)
    ensures i < 16 ==> Mix(i, x, y, z) == FastF(x, y, z)
    ensures 16 <= i < 32 ==> Mix(i, x, y, z) == FastG(x, y, z)
    ensures 32 <= i < 48 ==> Mix(i, x, y, z) == H(x, y, z)
    ensures 48 <= i ==> Mix(i, x, y, z) == I(x, y, z)
  {
    hide F, G, FastF, FastG, H, I;
    FastForms(x, y, z);
  }

  lemma OneTurn(i: nat, t: State, x: seq<Word>, s: State)
    requires i < 64 && |x| == 16 && t == Turns(i, s, x)
    ensures Pick(i) < 16
    ensures Turns(i + 1, s, x) ==
            State(t.d, StepValue(Mix(i, t.b, t.c, t.d), t.a, t.b, x[Pick(i)], Sine(i), Shift(i)), t.b, t.c)
  {
    assert Turns(i + 1, s, x) == Turn(i, t, x);
  }

  /** Round 1 of the block loop. */
  method Round1(a0: Word, b0: Word, c0: Word, d0: Word, x: seq<Word>, ghost s: State)
    returns (a: Word, b: Word, c: Word, d: Word)
    requires |x| == 16 && State(a0, b0, c0, d0) == Turns(0, s, x)
    ensures State(a, b, c, d) == Turns(16, s, x)
  {
    a, b, c, d := a0, b0, c0, d0;
    a, b, c, d := Quad0(a, b, c, d, x, s);
    a, b, c, d := Quad4(a, b, c, d, x, s);
    a, b, c, d := Quad8(a, b, c, d, x, s);
    a, b, c, d := Quad12(a, b, c, d, x, s);
  }

  /** Round 2 of the block loop. */
  method Round2(a0: Word, b0: Word, c0: Word, d0: Word, x: seq<Word>, ghost s: State)
    returns (a: Word, b: Word, c: Word, d: Word)
    requires |x| == 16 && State(a0, b0, c0, d0) == Turns(16, s, x)
    ensures State(a, b, c, d) == Turns(32, s, x)
  {
    a, b, c, d := a0, b0, c0, d0;
    a, b, c, d := Quad16(a, b, c, d, x, s);
    a, b, c, d := Quad20(a, b, c, d, x, s);
    a, b, c, d := Quad24(a, b, c, d, x, s);
    a, b, c, d := Quad28(a, b, c, d, x, s);
  }

  /** Round 3 of the block loop. */
  method Round3(a0: Word, b0: Word, c0: Word, d0: Word, x: seq<Word>, ghost s: State)
    returns (a: Word, b: Word, c: Word, d: Word)
    requires |x| == 16 && State(a0, b0, c0, d0) == Turns(32, s, x)
    ensures State(a, b, c, d) == Turns(48, s, x)
  {
    a, b, c, d := a0, b0, c0, d0;
    a, b, c, d := Quad32(a, b, c, d, x, s);
    a, b, c, d := Quad36(a, b, c, d, x, s);
    a, b, c, d := Quad40(a, b, c, d, x, s);
    a, b, c, d := Quad44(a, b, c, d, x, s);
  }

  /** Round 4 of the block loop. */
  method Round4(a0: Word, b0: Word, c0: Word, d0: Word, x: seq<Word>, ghost s: State)
    returns (a: Word, b: Word, c: Word, d: Word)
    requires |x| == 16 && State(a0, b0, c0, d0) == Turns(48, s, x)
    ensures State(a, b, c, d) == Turns(64, s, x)
  {
    a, b, c, d := a0, b0, c0, d0;
    a, b, c, d := Quad48(a, b, c, d, x, s);
    a, b, c, d := Quad52(a, b, c, d, x, s);
    a, b, c, d := Quad56(a, b, c, d, x, s);
    a, b, c, d := Quad60(a, b, c, d, x, s);
  }

  lemma Rows0()
    ensures Pick(0) == 0 && Sine(0) == 0xd76aa478 && Shift(0) == 7
    ensures Pick(1) == 1 && Sine(1) == 0xe8c7b756 && Shift(1) == 12
    ensures Pick(2) == 2 && Sine(2) == 0x242070db && Shift(2) == 17
    ensures Pick(3) == 3 && Sine(3) == 0xc1bdceee && Shift(3) == 22
  {
  }

  method Quad0(a0: Word, b0: Word, c0: Word, d0: Word, x: seq<Word>, ghost s: State)
    returns (a: Word, b: Word, c: Word, d: Word)
    requires |x| == 16 && State(a0, b0, c0, d0) == Turns(0, s, x)
    ensures State(a, b, c, d) == Turns(4, s, x)
  {
    hide *;
    Rows0();
    a, b, c, d := a0, b0, c0, d0;
    StepIs(FastF(b, c, d), a, b, x[0], 0xd76aa478, 7);
    MixIs(0, b, c, d);
    OneTurn(0, State(a, b, c, d), x, s);
    a := Step(FastF(b, c, d), a, b, x[0], 0xd76aa478, 7);
    StepIs(FastF(a, b, c), d, a, x[1], 0xe8c7b756, 12);
    MixIs(1, a, b, c);
    OneTurn(1, State(d, a, b, c), x, s);
    d := Step(FastF(a, b, c), d, a, x[1], 0xe8c7b756, 12);
    StepIs(FastF(d, a, b), c, d, x[2], 0x242070db, 17);
    MixIs(2, d, a, b);
    OneTurn(2, State(c, d, a, b), x, s);
    c := Step(FastF(d, a, b), c, d, x[2], 0x242070db, 17);
    StepIs(FastF(c, d, a), b, c, x[3], 0xc1bdceee, 22);
    MixIs(3, c, d, a);
    OneTurn(3, State(b, c, d, a), x, s);
    b := Step(FastF(c, d, a), b, c, x[3], 0xc1bdceee, 22);
  }

  lemma Rows4()
    ensures Pick(4) == 4 && Sine(4) == 0xf57c0faf && Shift(4) == 7
    ensures Pick(5) == 5 && Sine(5) == 0x4787c62a && Shift(5) == 12
    ensures Pick(6) == 6 && Sine(6) == 0xa8304613 && Shift(6) == 17
    ensures Pick(7) == 7 && Sine(7) == 0xfd469501 && Shift(7) == 22
  {
  }

  method Quad4(a0: Word, b0: Word, c0: Word, d0: Word, x: seq<Word>, ghost s: State)
    returns (a: Word, b: Word, c: Word, d: Word)
    requires |x| == 16 && State(a0, b0, c0, d0) == Turns(4, s, x)
    ensures State(a, b, c, d) == Turns(8, s, x)
  {
    hide *;
    Rows4();
    a, b, c, d := a0, b0, c0, d0;
    StepIs(FastF(b, c, d), a, b, x[4], 0xf57c0faf, 7);
    MixIs(4, b, c, d);
    OneTurn(4, State(a, b, c, d), x, s);
    a := Step(FastF(b, c, d), a, b, x[4], 0xf57c0faf, 7);
    StepIs(FastF(a, b, c), d, a, x[5], 0x4787c62a, 12);
    MixIs(5, a, b, c);
    OneTurn(5, State(d, a, b, c), x, s);
    d := Step(FastF(a, b, c), d, a, x[5], 0x4787c62a, 12);
    StepIs(FastF(d, a, b), c, d, x[6], 0xa8304613, 17);
    MixIs(6, d, a, b);
    OneTurn(6, State(c, d, a, b), x, s);
    c := Step(FastF(d, a, b), c, d, x[6], 0xa8304613, 17);
    StepIs(FastF(c, d, a), b, c, x[7], 0xfd469501, 22);
    MixIs(7, c, d, a);
    OneTurn(7, State(b, c, d, a), x, s);
    b := Step(FastF(c, d, a), b, c, x[7], 0xfd469501, 22);
  }

  lemma Rows8()
    ensures Pick(8) == 8 && Sine(8) == 0x698098d8 && Shift(8) == 7
    ensures Pick(9) == 9 && Sine(9) == 0x8b44f7af && Shift(9) == 12
    ensures Pick(10) == 10 && Sine(10) == 0xffff5bb1 && Shift(10) == 17
    ensures Pick(11) == 11 && Sine(11) == 0x895cd7be && Shift(11) == 22
  {
  }

  method Quad8(a0: Word, b0: Word, c0: Word, d0: Word, x: seq<Word>, ghost s: State)
    returns (a: Word, b: Word, c: Word, d: Word)
    requires |x| == 16 && State(a0, b0, c0, d0) == Turns(8, s, x)
    ensures State(a, b, c, d) == Turns(12, s, x)
  {
    hide *;
    Rows8();
    a, b, c, d := a0, b0, c0, d0;
    StepIs(FastF(b, c, d), a, b, x[8], 0x698098d8, 7);
    MixIs(8, b, c, d);
    OneTurn(8, State(a, b, c, d), x, s);
    a := Step(FastF(b, c, d), a, b, x[8], 0x698098d8, 7);
    StepIs(FastF(a, b, c), d, a, x[9], 0x8b44f7af, 12);
    MixIs(9, a, b, c);
    OneTurn(9, State(d, a, b, c), x, s);
    d := Step(FastF(a, b, c), d, a, x[9], 0x8b44f7af, 12);
    StepIs(FastF(d, a, b), c, d, x[10], 0xffff5bb1, 17);
    MixIs(10, d, a, b);
    OneTurn(10, State(c, d, a, b), x, s);
    c := Step(FastF(d, a, b), c, d, x[10], 0xffff5bb1, 17);
    StepIs(FastF(c, d, a), b, c, x[11], 0x895cd7be, 22);
    MixIs(11, c, d, a);
    OneTurn(11, State(b, c, d, a), x, s);
    b := Step(FastF(c, d, a), b, c, x[11], 0x895cd7be, 22);
  }

  lemma Rows12()
    ensures Pick(12) == 12 && Sine(12) == 0x6b901122 && Shift(12) == 7
    ensures Pick(13) == 13 && Sine(13) == 0xfd987193 && Shift(13) == 12
    ensures Pick(14) == 14 && Sine(14) == 0xa679438e && Shift(14) == 17
    ensures Pick(15) == 15 && Sine(15) == 0x49b40821 && Shift(15) == 22
  {
  }

  method Quad12(a0: Word, b0: Word, c0: Word, d0: Word, x: seq<Word>, ghost s: State)
    returns (a: Word, b: Word, c: Word, d: Word)
    requires |x| == 16 && State(a0, b0, c0, d0) == Turns(12, s, x)
    ensures State(a, b, c, d) == Turns(16, s, x)
  {
    hide *;
    Rows12();
    a, b, c, d := a0, b0, c0, d0;
    StepIs(FastF(b, c, d), a, b, x[12], 0x6b901122, 7);
    MixIs(12, b, c, d);
    OneTurn(12, State(a, b, c, d), x, s);
    a := Step(FastF(b, c, d), a, b, x[12], 0x6b901122, 7);
    StepIs(FastF(a, b, c), d, a, x[13], 0xfd987193, 12);
    MixIs(13, a, b, c);
    OneTurn(13, State(d, a, b, c), x, s);
    d := Step(FastF(a, b, c), d, a, x[13], 0xfd987193, 12);
    StepIs(FastF(d, a, b), c, d, x[14], 0xa679438e, 17);
    MixIs(14, d, a, b);
    OneTurn(14, State(c, d, a, b), x, s);
    c := Step(FastF(d, a, b), c, d, x[14], 0xa679438e, 17);
    StepIs(FastF(c, d, a), b, c, x[15], 0x49b40821, 22);
    MixIs(15, c, d, a);
    OneTurn(15, State(b, c, d, a), x, s);
    b := Step(FastF(c, d, a), b, c, x[15], 0x49b40821, 22);
  }

  lemma Rows16()
    ensures Pick(16) == 1 && Sine(16) == 0xf61e2562 && Shift(16) == 5
    ensures Pick(17) == 6 && Sine(17) == 0xc040b340 && Shift(17) == 9
    ensures Pick(18) == 11 && Sine(18) == 0x265e5a51 && Shift(18) == 14
    ensures Pick(19) == 0 && Sine(19) == 0xe9b6c7aa && Shift(19) == 20
  {
  }

  method Quad16(a0: Word, b0: Word, c0: Word, d0: Word, x: seq<Word>, ghost s: State)
    returns (a: Word, b: Word, c: Word, d: Word)
    requires |x| == 16 && State(a0, b0, c0, d0) == Turns(16, s, x)
    ensures State(a, b, c, d) == Turns(20, s, x)
  {
    hide *;
    Rows16();
    a, b, c, d := a0, b0, c0, d0;
    StepIs(FastG(b, c, d), a, b, x[1], 0xf61e2562, 5);
    MixIs(16, b, c, d);
    OneTurn(16, State(a, b, c, d), x, s);
    a := Step(FastG(b, c, d), a, b, x[1], 0xf61e2562, 5);
    StepIs(FastG(a, b, c), d, a, x[6], 0xc040b340, 9);
    MixIs(17, a, b, c);
    OneTurn(17, State(d, a, b, c), x, s);
    d := Step(FastG(a, b, c), d, a, x[6], 0xc040b340, 9);
    StepIs(FastG(d, a, b), c, d, x[11], 0x265e5a51, 14);
    MixIs(18, d, a, b);
    OneTurn(18, State(c, d, a, b), x, s);
    c := Step(FastG(d, a, b), c, d, x[11], 0x265e5a51, 14);
    StepIs(FastG(c, d, a), b, c, x[0], 0xe9b6c7aa, 20);
    MixIs(19, c, d, a);
    OneTurn(19, State(b, c, d, a), x, s);
    b := Step(FastG(c, d, a), b, c, x[0], 0xe9b6c7aa, 20);
  }

  lemma Rows20()
    ensures Pick(20) == 5 && Sine(20) == 0xd62f105d && Shift(20) == 5
    ensures Pick(21) == 10 && Sine(21) == 0x02441453 && Shift(21) == 9
    ensures Pick(22) == 15 && Sine(22) == 0xd8a1e681 && Shift(22) == 14
    ensures Pick(23) == 4 && Sine(23) == 0xe7d3fbc8 && Shift(23) == 20
  {
  }

  method Quad20(a0: Word, b0: Word, c0: Word, d0: Word, x: seq<Word>, ghost s: State)
    returns (a: Word, b: Word, c: Word, d: Word)
    requires |x| == 16 && State(a0, b0, c0, d0) == Turns(20, s, x)
    ensures State(a, b, c, d) == Turns(24, s, x)
  {
    hide *;
    Rows20();
    a, b, c, d := a0, b0, c0, d0;
    StepIs(FastG(b, c, d), a, b, x[5], 0xd62f105d, 5);
    MixIs(20, b, c, d);
    OneTurn(20, State(a, b, c, d), x, s);
    a := Step(FastG(b, c, d), a, b, x[5], 0xd62f105d, 5);
    StepIs(FastG(a, b, c), d, a, x[10], 0x02441453, 9);
    MixIs(21, a, b, c);
    OneTurn(21, State(d, a, b, c), x, s);
    d := Step(FastG(a, b, c), d, a, x[10], 0x02441453, 9);
    StepIs(FastG(d, a, b), c, d, x[15], 0xd8a1e681, 14);
    MixIs(22, d, a, b);
    OneTurn(22, State(c, d, a, b), x, s);
    c := Step(FastG(d, a, b), c, d, x[15], 0xd8a1e681, 14);
    StepIs(FastG(c, d, a), b, c, x[4], 0xe7d3fbc8, 20);
    MixIs(23, c, d, a);
    OneTurn(23, State(b, c, d, a), x, s);
    b := Step(FastG(c, d, a), b, c, x[4], 0xe7d3fbc8, 20);
  }

  lemma Rows24()
    ensures Pick(24) == 9 && Sine(24) == 0x21e1cde6 && Shift(24) == 5
    ensures Pick(25) == 14 && Sine(25) == 0xc33707d6 && Shift(25) == 9
    ensures Pick(26) == 3 && Sine(26) == 0xf4d50d87 && Shift(26) == 14
    ensures Pick(27) == 8 && Sine(27) == 0x455a14ed && Shift(27) == 20
  {
  }

  method Quad24(a0: Word, b0: Word, c0: Word, d0: Word, x: seq<Word>, ghost s: State)
    returns (a: Word, b: Word, c: Word, d: Word)
    requires |x| == 16 && State(a0, b0, c0, d0) == Turns(24, s, x)
    ensures State(a, b, c, d) == Turns(28, s, x)
  {
    hide *;
    Rows24();
    a, b, c, d := a0, b0, c0, d0;
    StepIs(FastG(b, c, d), a, b, x[9], 0x21e1cde6, 5);
    MixIs(24, b, c, d);
    OneTurn(24, State(a, b, c, d), x, s);
    a := Step(FastG(b, c, d), a, b, x[9], 0x21e1cde6, 5);
    StepIs(FastG(a, b, c), d, a, x[14], 0xc33707d6, 9);
    MixIs(25, a, b, c);
    OneTurn(25, State(d, a, b, c), x, s);
    d := Step(FastG(a, b, c), d, a, x[14], 0xc33707d6, 9);
    StepIs(FastG(d, a, b), c, d, x[3], 0xf4d50d87, 14);
    MixIs(26, d, a, b);
    OneTurn(26, State(c, d, a, b), x, s);
    c := Step(FastG(d, a, b), c, d, x[3], 0xf4d50d87, 14);
    StepIs(FastG(c, d, a), b, c, x[8], 0x455a14ed, 20);
    MixIs(27, c, d, a);
    OneTurn(27, State(b, c, d, a), x, s);
    b := Step(FastG(c, d, a), b, c, x[8], 0x455a14ed, 20);
  }

  lemma Rows28()
    ensures Pick(28) == 13 && Sine(28) == 0xa9e3e905 && Shift(28) == 5
    ensures Pick(29) == 2 && Sine(29) == 0xfcefa3f8 && Shift(29) == 9
    ensures Pick(30) == 7 && Sine(30) == 0x676f02d9 && Shift(30) == 14
    ensures Pick(31) == 12 && Sine(31) == 0x8d2a4c8a && Shift(31) == 20
  {
  }

  method Quad28(a0: Word, b0: Word, c0: Word, d0: Word, x: seq<Word>, ghost s: State)
    returns (a: Word, b: Word, c: Word, d: Word)
    requires |x| == 16 && State(a0, b0, c0, d0) == Turns(28, s, x)
    ensures State(a, b, c, d) == Turns(32, s, x)
  {
    hide *;
    Rows28();
    a, b, c, d := a0, b0, c0, d0;
    StepIs(FastG(b, c, d), a, b, x[13], 0xa9e3e905, 5);
    MixIs(28, b, c, d);
    OneTurn(28, State(a, b, c, d), x, s);
    a := Step(FastG(b, c, d), a, b, x[13], 0xa9e3e905, 5);
    StepIs(FastG(a, b, c), d, a, x[2], 0xfcefa3f8, 9);
    MixIs(29, a, b, c);
    OneTurn(29, State(d, a, b, c), x, s);
    d := Step(FastG(a, b, c), d, a, x[2], 0xfcefa3f8, 9);
    StepIs(FastG(d, a, b), c, d, x[7], 0x676f02d9, 14);
    MixIs(30, d, a, b);
    OneTurn(30, State(c, d, a, b), x, s);
    c := Step(FastG(d, a, b), c, d, x[7], 0x676f02d9, 14);
    StepIs(FastG(c, d, a), b, c, x[12], 0x8d2a4c8a, 20);
    MixIs(31, c, d, a);
    OneTurn(31, State(b, c, d, a), x, s);
    b := Step(FastG(c, d, a), b, c, x[12], 0x8d2a4c8a, 20);
  }

  lemma Rows32()
    ensures Pick(32) == 5 && Sine(32) == 0xfffa3942 && Shift(32) == 4
    ensures Pick(33) == 8 && Sine(33) == 0x8771f681 && Shift(33) == 11
    ensures Pick(34) == 11 && Sine(34) == 0x6d9d6122 && Shift(34) == 16
    ensures Pick(35) == 14 && Sine(35) == 0xfde5380c && Shift(35) == 23
  {
  }

  method Quad32(a0: Word, b0: Word, c0: Word, d0: Word, x: seq<Word>, ghost s: State)
    returns (a: Word, b: Word, c: Word, d: Word)
    requires |x| == 16 && State(a0, b0, c0, d0) == Turns(32, s, x)
    ensures State(a, b, c, d) == Turns(36, s, x)
  {
    hide *;
    Rows32();
    a, b, c, d := a0, b0, c0, d0;
    StepIs(H(b, c, d), a, b, x[5], 0xfffa3942, 4);
    MixIs(32, b, c, d);
    OneTurn(32, State(a, b, c, d), x, s);
    a := Step(H(b, c, d), a, b, x[5], 0xfffa3942, 4);
    StepIs(H(a, b, c), d, a, x[8], 0x8771f681, 11);
    MixIs(33, a, b, c);
    OneTurn(33, State(d, a, b, c), x, s);
    d := Step(H(a, b, c), d, a, x[8], 0x8771f681, 11);
    StepIs(H(d, a, b), c, d, x[11], 0x6d9d6122, 16);
    MixIs(34, d, a, b);
    OneTurn(34, State(c, d, a, b), x, s);
    c := Step(H(d, a, b), c, d, x[11], 0x6d9d6122, 16);
    StepIs(H(c, d, a), b, c, x[14], 0xfde5380c, 23);
    MixIs(35, c, d, a);
    OneTurn(35, State(b, c, d, a), x, s);
    b := Step(H(c, d, a), b, c, x[14], 0xfde5380c, 23);
  }

  lemma Rows36()
    ensures Pick(36) == 1 && Sine(36) == 0xa4beea44 && Shift(36) == 4
    ensures Pick(37) == 4 && Sine(37) == 0x4bdecfa9 && Shift(37) == 11
    ensures Pick(38) == 7 && Sine(38) == 0xf6bb4b60 && Shift(38) == 16
    ensures Pick(39) == 10 && Sine(39) == 0xbebfbc70 && Shift(39) == 23
  {
  }

  method Quad36(a0: Word, b0: Word, c0: Word, d0: Word, x: seq<Word>, ghost s: State)
    returns (a: Word, b: Word, c: Word, d: Word)
    requires |x| == 16 && State(a0, b0, c0, d0) == Turns(36, s, x)
    ensures State(a, b, c, d) == Turns(40, s, x)
  {
    hide *;
    Rows36();
    a, b, c, d := a0, b0, c0, d0;
    StepIs(H(b, c, d), a, b, x[1], 0xa4beea44, 4);
    MixIs(36, b, c, d);
    OneTurn(36, State(a, b, c, d), x, s);
    a := Step(H(b, c, d), a, b, x[1], 0xa4beea44, 4);
    StepIs(H(a, b, c), d, a, x[4], 0x4bdecfa9, 11);
    MixIs(37, a, b, c);
    OneTurn(37, State(d, a, b, c), x, s);
    d := Step(H(a, b, c), d, a, x[4], 0x4bdecfa9, 11);
    StepIs(H(d, a, b), c, d, x[7], 0xf6bb4b60, 16);
    MixIs(38, d, a, b);
    OneTurn(38, State(c, d, a, b), x, s);
    c := Step(H(d, a, b), c, d, x[7], 0xf6bb4b60, 16);
    StepIs(H(c, d, a), b, c, x[10], 0xbebfbc70, 23);
    MixIs(39, c, d, a);
    OneTurn(39, State(b, c, d, a), x, s);
    b := Step(H(c, d, a), b, c, x[10], 0xbebfbc70, 23);
  }

  lemma Rows40()
    ensures Pick(40) == 13 && Sine(40) == 0x289b7ec6 && Shift(40) == 4
    ensures Pick(41) == 0 && Sine(41) == 0xeaa127fa && Shift(41) == 11
    ensures Pick(42) == 3 && Sine(42) == 0xd4ef3085 && Shift(42) == 16
    ensures Pick(43) == 6 && Sine(43) == 0x04881d05 && Shift(43) == 23
  {
  }

  method Quad40(a0: Word, b0: Word, c0: Word, d0: Word, x: seq<Word>, ghost s: State)
    returns (a: Word, b: Word, c: Word, d: Word)
    requires |x| == 16 && State(a0, b0, c0, d0) == Turns(40, s, x)
    ensures State(a, b, c, d) == Turns(44, s, x)
  {
    hide *;
    Rows40();
    a, b, c, d := a0, b0, c0, d0;
    StepIs(H(b, c, d), a, b, x[13], 0x289b7ec6, 4);
    MixIs(40, b, c, d);
    OneTurn(40, State(a, b, c, d), x, s);
    a := Step(H(b, c, d), a, b, x[13], 0x289b7ec6, 4);
    StepIs(H(a, b, c), d, a, x[0], 0xeaa127fa, 11);
    MixIs(41, a, b, c);
    OneTurn(41, State(d, a, b, c), x, s);
    d := Step(H(a, b, c), d, a, x[0], 0xeaa127fa, 11);
    StepIs(H(d, a, b), c, d, x[3], 0xd4ef3085, 16);
    MixIs(42, d, a, b);
    OneTurn(42, State(c, d, a, b), x, s);
    c := Step(H(d, a, b), c, d, x[3], 0xd4ef3085, 16);
    StepIs(H(c, d, a), b, c, x[6], 0x04881d05, 23);
    MixIs(43, c, d, a);
    OneTurn(43, State(b, c, d, a), x, s);
    b := Step(H(c, d, a), b, c, x[6], 0x04881d05, 23);
  }

  lemma Rows44()
    ensures Pick(44) == 9 && Sine(44) == 0xd9d4d039 && Shift(44) == 4
    ensures Pick(45) == 12 && Sine(45) == 0xe6db99e5 && Shift(45) == 11
    ensures Pick(46) == 15 && Sine(46) == 0x1fa27cf8 && Shift(46) == 16
    ensures Pick(47) == 2 && Sine(47) == 0xc4ac5665 && Shift(47) == 23
  {
  }

  method Quad44(a0: Word, b0: Word, c0: Word, d0: Word, x: seq<Word>, ghost s: State)
    returns (a: Word, b: Word, c: Word, d: Word)
    requires |x| == 16 && State(a0, b0, c0, d0) == Turns(44, s, x)
    ensures State(a, b, c, d) == Turns(48, s, x)
  {
    hide *;
    Rows44();
    a, b, c, d := a0, b0, c0, d0;
    StepIs(H(b, c, d), a, b, x[9], 0xd9d4d039, 4);
    MixIs(44, b, c, d);
    OneTurn(44, State(a, b, c, d), x, s);
    a := Step(H(b, c, d), a, b, x[9], 0xd9d4d039, 4);
    StepIs(H(a, b, c), d, a, x[12], 0xe6db99e5, 11);
    MixIs(45, a, b, c);
    OneTurn(45, State(d, a, b, c), x, s);
    d := Step(H(a, b, c), d, a, x[12], 0xe6db99e5, 11);
    StepIs(H(d, a, b), c, d, x[15], 0x1fa27cf8, 16);
    MixIs(46, d, a, b);
    OneTurn(46, State(c, d, a, b), x, s);
    c := Step(H(d, a, b), c, d, x[15], 0x1fa27cf8, 16);
    StepIs(H(c, d, a), b, c, x[2], 0xc4ac5665, 23);
    MixIs(47, c, d, a);
    OneTurn(47, State(b, c, d, a), x, s);
    b := Step(H(c, d, a), b, c, x[2], 0xc4ac5665, 23);
  }

  lemma Rows48()
    ensures Pick(48) == 0 && Sine(48) == 0xf4292244 && Shift(48) == 6
    ensures Pick(49) == 7 && Sine(49) == 0x432aff97 && Shift(49) == 10
    ensures Pick(50) == 14 && Sine(50) == 0xab9423a7 && Shift(50) == 15
    ensures Pick(51) == 5 && Sine(51) == 0xfc93a039 && Shift(51) == 21
  {
  }

  method Quad48(a0: Word, b0: Word, c0: Word, d0: Word, x: seq<Word>, ghost s: State)
    returns (a: Word, b: Word, c: Word, d: Word)
    requires |x| == 16 && State(a0, b0, c0, d0) == Turns(48, s, x)
    ensures State(a, b, c, d) == Turns(52, s, x)
  {
    hide *;
    Rows48();
    a, b, c, d := a0, b0, c0, d0;
    StepIs(I(b, c, d), a, b, x[0], 0xf4292244, 6);
    MixIs(48, b, c, d);
    OneTurn(48, State(a, b, c, d), x, s);
    a := Step(I(b, c, d), a, b, x[0], 0xf4292244, 6);
    StepIs(I(a, b, c), d, a, x[7], 0x432aff97, 10);
    MixIs(49, a, b, c);
    OneTurn(49, State(d, a, b, c), x, s);
    d := Step(I(a, b, c), d, a, x[7], 0x432aff97, 10);
    StepIs(I(d, a, b), c, d, x[14], 0xab9423a7, 15);
    MixIs(50, d, a, b);
    OneTurn(50, State(c, d, a, b), x, s);
    c := Step(I(d, a, b), c, d, x[14], 0xab9423a7, 15);
    StepIs(I(c, d, a), b, c, x[5], 0xfc93a039, 21);
    MixIs(51, c, d, a);
    OneTurn(51, State(b, c, d, a), x, s);
    b := Step(I(c, d, a), b, c, x[5], 0xfc93a039, 21);
  }

  lemma Rows52()
    ensures Pick(52) == 12 && Sine(52) == 0x655b59c3 && Shift(52) == 6
    ensures Pick(53) == 3 && Sine(53) == 0x8f0ccc92 && Shift(53) == 10
    ensures Pick(54) == 10 && Sine(54) == 0xffeff47d && Shift(54) == 15
    ensures Pick(55) == 1 && Sine(55) == 0x85845dd1 && Shift(55) == 21
  {
  }

  method Quad52(a0: Word, b0: Word, c0: Word, d0: Word, x: seq<Word>, ghost s: State)
    returns (a: Word, b: Word, c: Word, d: Word)
    requires |x| == 16 && State(a0, b0, c0, d0) == Turns(52, s, x)
    ensures State(a, b, c, d) == Turns(56, s, x)
  {
    hide *;
    Rows52();
    a, b, c, d := a0, b0, c0, d0;
    StepIs(I(b, c, d), a, b, x[12], 0x655b59c3, 6);
    MixIs(52, b, c, d);
    OneTurn(52, State(a, b, c, d), x, s);
    a := Step(I(b, c, d), a, b, x[12], 0x655b59c3, 6);
    StepIs(I(a, b, c), d, a, x[3], 0x8f0ccc92, 10);
    MixIs(53, a, b, c);
    OneTurn(53, State(d, a, b, c), x, s);
    d := Step(I(a, b, c), d, a, x[3], 0x8f0ccc92, 10);
    StepIs(I(d, a, b), c, d, x[10], 0xffeff47d, 15);
    MixIs(54, d, a, b);
    OneTurn(54, State(c, d, a, b), x, s);
    c := Step(I(d, a, b), c, d, x[10], 0xffeff47d, 15);
    StepIs(I(c, d, a), b, c, x[1], 0x85845dd1, 21);
    MixIs(55, c, d, a);
    OneTurn(55, State(b, c, d, a), x, s);
    b := Step(I(c, d, a), b, c, x[1], 0x85845dd1, 21);
  }

  lemma Rows56()
    ensures Pick(56) == 8 && Sine(56) == 0x6fa87e4f && Shift(56) == 6
    ensures Pick(57) == 15 && Sine(57) == 0xfe2ce6e0 && Shift(57) == 10
    ensures Pick(58) == 6 && Sine(58) == 0xa3014314 && Shift(58) == 15
    ensures Pick(59) == 13 && Sine(59) == 0x4e0811a1 && Shift(59) == 21
  {
  }

  method Quad56(a0: Word, b0: Word, c0: Word, d0: Word, x: seq<Word>, ghost s: State)
    returns (a: Word, b: Word, c: Word, d: Word)
    requires |x| == 16 && State(a0, b0, c0, d0) == Turns(56, s, x)
    ensures State(a, b, c, d) == Turns(60, s, x)
  {
    hide *;
    Rows56();
    a, b, c, d := a0, b0, c0, d0;
    StepIs(I(b, c, d), a, b, x[8], 0x6fa87e4f, 6);
    MixIs(56, b, c, d);
    OneTurn(56, State(a, b, c, d), x, s);
    a := Step(I(b, c, d), a, b, x[8], 0x6fa87e4f, 6);
    StepIs(I(a, b, c), d, a, x[15], 0xfe2ce6e0, 10);
    MixIs(57, a, b, c);
    OneTurn(57, State(d, a, b, c), x, s);
    d := Step(I(a, b, c), d, a, x[15], 0xfe2ce6e0, 10);
    StepIs(I(d, a, b), c, d, x[6], 0xa3014314, 15);
    MixIs(58, d, a, b);
    OneTurn(58, State(c, d, a, b), x, s);
    c := Step(I(d, a, b), c, d, x[6], 0xa3014314, 15);
    StepIs(I(c, d, a), b, c, x[13], 0x4e0811a1, 21);
    MixIs(59, c, d, a);
    OneTurn(59, State(b, c, d, a), x, s);
    b := Step(I(c, d, a), b, c, x[13], 0x4e0811a1, 21);
  }

  lemma Rows60()
    ensures Pick(60) == 4 && Sine(60) == 0xf7537e82 && Shift(60) == 6
    ensures Pick(61) == 11 && Sine(61) == 0xbd3af235 && Shift(61) == 10
    ensures Pick(62) == 2 && Sine(62) == 0x2ad7d2bb && Shift(62) == 15
    ensures Pick(63) == 9 && Sine(63) == 0xeb86d391 && Shift(63) == 21
  {
  }

  method Quad60(a0: Word, b0: Word, c0: Word, d0: Word, x: seq<Word>, ghost s: State)
    returns (a: Word, b: Word, c: Word, d: Word)
    requires |x| == 16 && State(a0, b0, c0, d0) == Turns(60, s, x)
    ensures State(a, b, c, d) == Turns(64, s, x)
  {
    hide *;
    Rows60();
    a, b, c, d := a0, b0, c0, d0;
    StepIs(I(b, c, d), a, b, x[4], 0xf7537e82, 6);
    MixIs(60, b, c, d);
    OneTurn(60, State(a, b, c, d), x, s);
    a := Step(I(b, c, d), a, b, x[4], 0xf7537e82, 6);
    StepIs(I(a, b, c), d, a, x[11], 0xbd3af235, 10);
    MixIs(61, a, b, c);
    OneTurn(61, State(d, a, b, c), x, s);
    d := Step(I(a, b, c), d, a, x[11], 0xbd3af235, 10);
    StepIs(I(d, a, b), c, d, x[2], 0x2ad7d2bb, 15);
    MixIs(62, d, a, b);
    OneTurn(62, State(c, d, a, b), x, s);
    c := Step(I(d, a, b), c, d, x[2], 0x2ad7d2bb, 15);
    StepIs(I(c, d, a), b, c, x[9], 0xeb86d391, 21);
    MixIs(63, c, d, a);
    OneTurn(63, State(b, c, d, a), x, s);
    b := Step(I(c, d, a), b, c, x[9], 0xeb86d391, 21);
  }

  // ---------- padding and length, RFC 1321, sections 3.1 and 3.2 ----------

  function Zeros(n: nat): (z: seq<Byte>)
    ensures |z| == n && forall i :: 0 <= i < n ==> z[i] == 0
  {
    seq(n, _ => 0)
  }

  /** The low-order byte of v. */
  function ByteOf(v: nat): Byte {
    (v % 256) as Byte
  }

  lemma ByteOfEqual(v: nat, w: nat)
    requires v % 256 == w % 256
    ensures ByteOf(v) == ByteOf(w)
  {
  }

  /** The low-order n bytes of v, low-order byte first. */
  function LittleEndian(v: nat, n: nat): (r: seq<Byte>)
    ensures |r| == n
  {
    if n == 0 then [] else [ByteOf(v)] + LittleEndian(v / 256, n - 1)
  }

  /** The padding of a message of n bytes: one bit, and zeros up to 56 modulo 64. */
  function Padding(n: nat): (p: seq<Byte>)
    ensures (n + |p|) % 64 == 56 && 1 <= |p| <= 64 && p[0] == 0x80
  {
    [0x80] + Zeros((119 - n % 64) % 64)
  }

  const TWO29: nat := 0x2000_0000
  const TWO32: nat := 0x1_0000_0000

  /** The length in bits, as a number of 64 bits. */
  function BitLength(n: nat): nat {
    8 * n % 0x1_0000_0000_0000_0000
  }

  function Padded(msg: seq<Byte>): (p: seq<Byte>) {
    msg + Padding(|msg|) + LittleEndian(BitLength(|msg|), 8)
  }

  lemma PaddedLength(msg: seq<Byte>)
    ensures |Padded(msg)| % 64 == 0
  {
    hide BitLength, Padding, LittleEndian;
    var n := |msg| + |Padding(|msg|)|;
    assert |Padded(msg)| == n + 8;
    assert n % 64 == 56;
  }

  /** Four bytes of a register, low-order byte first (section 3.5). */
  function WordBytes(w: Word): (r: seq<Byte>)
    ensures |r| == 4
  {
    [(w & 0xff) as Byte, ((w >> 8) & 0xff) as Byte, ((w >> 16) & 0xff) as Byte, ((w >> 24) & 0xff) as Byte]
  }

  lemma WordRoundTrip(w: Word)
    ensures var b := WordBytes(w); Word32(b[0], b[1], b[2], b[3]) == w
  {
  }

  function Output(s: State): (r: seq<Byte>)
    ensures |r| == 16
  {
    WordBytes(s.a) + WordBytes(s.b) + WordBytes(s.c) + WordBytes(s.d)
  }

  function Digest(msg: seq<Byte>): (r: seq<Byte>)
    ensures |r| == 16
  {
    Output(Fold(INIT, Padded(msg)))
  }

  // ---------- the buffered form ----------

  /** The counters: hi and lo hold the length in bytes, in 32 and 29 bits. */
  ghost predicate Counts(lo: nat, hi: nat, n: nat) {
    lo == n % TWO29 && hi == n / TWO29 % TWO32
  }

  /** They are the length in bits modulo 2^64. */
  lemma CountsBits(lo: nat, hi: nat, n: nat)
    requires Counts(lo, hi, n)
    ensures hi * TWO32 + lo * 8 == BitLength(n) && lo * 8 < TWO32
  {
    var q, r := n / TWO29, n % TWO29;
    assert n == q * TWO29 + r;
    var k := q / TWO32;
    assert q == k * TWO32 + hi;
    assert 8 * n == k * 0x1_0000_0000_0000_0000 + (hi * TWO32 + lo * 8);
  }

  /** One addition to the counters, with the carry found as in MD5_Update. */
  lemma CountsAdd(lo: nat, hi: nat, n: nat, size: nat)
    requires Counts(lo, hi, n)
    ensures
      var lo' := (lo + size) % TWO29;
      var carried := if lo' < lo then (hi + 1) % TWO32 else hi;
      Counts(lo', (carried + size / TWO29) % TWO32, n + size)
  {
    var q, r, u, v := n / TWO29, n % TWO29, size / TWO29, size % TWO29;
    assert n == q * TWO29 + r && size == u * TWO29 + v;
    var c := if r + v >= TWO29 then 1 else 0;
    assert n + size == (q + u + c) * TWO29 + (r + v - c * TWO29);
    assert (n + size) / TWO29 == q + u + c && (n + size) % TWO29 == r + v - c * TWO29;
    assert lo + size == u * TWO29 + (r + v);
    assert (lo + size) % TWO29 == r + v - c * TWO29;
    ModAdd(q, u + c);
    ModAdd(q, c);
    ModAdd((q + c) % TWO32, u);
    ModAdd(q + c, u);
  }

  lemma ModAdd(x: nat, y: nat)
    ensures (x % TWO32 + y) % TWO32 == (x + y) % TWO32
  {
  }

  /** The whole blocks of a message, and the bytes behind them. */
  ghost function Blocks(msg: seq<Byte>): seq<Byte> {
    msg[..|msg| - |msg| % 64]
  }

  ghost function Tail(msg: seq<Byte>): seq<Byte> {
    msg[|msg| - |msg| % 64..]
  }

  lemma Divide(msg: seq<Byte>, x: seq<Byte>, y: seq<Byte>)
    requires msg == x + y && |x| % 64 == 0 && |y| < 64
    ensures Blocks(msg) == x && Tail(msg) == y && |msg| % 64 == |y|
  {
    var k := |x| / 64;
    assert |msg| == 64 * k + |y|;
    assert |msg| % 64 == |y|;
  }

  /** What is known while Update runs: rest is the end of the whole message that the
      registers have not taken in. */
  ghost predicate Taking(s: State, whole: seq<Byte>, rest: seq<Byte>) {
    && |rest| <= |whole| && (|whole| - |rest|) % 64 == 0 && rest == whole[|whole| - |rest|..]
    && s == Fold(INIT, whole[..|whole| - |rest|])
  }

  lemma StartTaking(s: State, whole: seq<Byte>, before: seq<Byte>, data: seq<Byte>)
    requires whole == before + data && s == Fold(INIT, Blocks(before))
    ensures Taking(s, whole, Tail(before) + data)
  {
    hide Fold;
    assert whole[..|before| - |before| % 64] == Blocks(before);
  }

  lemma Finished(s: State, whole: seq<Byte>, rest: seq<Byte>)
    requires Taking(s, whole, rest) && |rest| < 64
    ensures s == Fold(INIT, Blocks(whole)) && Tail(whole) == rest && |rest| == |whole| % 64
  {
    hide Fold;
    Divide(whole, whole[..|whole| - |rest|], rest);
  }

  lemma LowBits(lo: nat, n: nat)
    requires lo == n % TWO29
    ensures lo % 64 == n % 64
  {
    var q := n / TWO29;
    assert n == 64 * (q * 0x80_0000) + lo;
  }

  class Ctx {
    var lo: nat
    var hi: nat
    var a: Word
    var b: Word
    var c: Word
    var d: Word
    const buffer: array<Byte>
    ghost var msg: seq<Byte>     // everything given to Update so far

    function State4(): State
      reads `a, `b, `c, `d
    {
      State(a, b, c, d)
    }

    /** The registers have taken in the whole blocks, the buffer holds the rest, and
        the counters hold the length. */
    ghost predicate Valid()
      reads this, buffer
    {
      && buffer.Length == 64
      && Counts(lo, hi, |msg|)
      && State4() == Fold(INIT, Blocks(msg))
      && buffer[..|msg| % 64] == Tail(msg)
    }

    /** MD5_Init */
    constructor ()
      ensures Valid() && msg == [] && fresh(buffer)
    {
      a, b, c, d := INIT.a, INIT.b, INIT.c, INIT.d;
      lo, hi := 0, 0;
      buffer := new Byte[64];
      msg := [];
    }

    /** body: one or more blocks. */
    method Body(data: seq<Byte>)
      requires |data| >= 64 && |data| % 64 == 0
      modifies `a, `b, `c, `d
      ensures State4() == Fold(old(State4()), data)
    {
      hide Compress, Words;
      var p := 0;
      ghost var s0 := State4();
      assert data[..0] == [];
      while p < |data|
        invariant 0 <= p <= |data| && p % 64 == 0 && State4() == Fold(s0, data[..p])
        decreases |data| - p
      {
        ghost var s := State4();
        var block := data[p..p + 64];
        Block(block);
        assert data[..p + 64] == data[..p] + block;
        FoldConcat(s0, data[..p], block);
        FoldOne(s, block);
        p := p + 64;
      }
      assert data[..p] == data;
    }

    /** The four rounds on one block, and the sums with the saved registers. */
    method Block(block: seq<Byte>)
      requires |block| == 64
      modifies `a, `b, `c, `d
      ensures State4() == Compress(old(State4()), block)
    {
      hide *;
      Registers();
      ghost var s := State(a, b, c, d);
      var x := Words(block);
      NoTurns(s, x);
      var a', b', c', d' := Round1(a, b, c, d, x, s);
      a', b', c', d' := Round2(a', b', c', d', x, s);
      a', b', c', d' := Round3(a', b', c', d', x, s);
      a', b', c', d' := Round4(a', b', c', d', x, s);
      CompressIs(s, block, a', b', c', d');
      a, b, c, d := Add(a', a), Add(b', b), Add(c', c), Add(d', d);
      Registers();
    }

    lemma Registers()
      ensures State4() == State(a, b, c, d)
    {
    }

    /** memcpy into the buffer. */
    method Store(at: nat, data: seq<Byte>)
      requires buffer.Length == 64 && at + |data| <= 64
      modifies buffer
      ensures buffer[..at + |data|] == old(buffer[..at]) + data
    {
      forall i | 0 <= i < |data| {
        buffer[at + i] := data[i];
      }
    }

    /** Some blocks at the front of rest go through Body. */
    method Take(block: seq<Byte>, ghost whole: seq<Byte>, ghost rest: seq<Byte>)
      requires Taking(State4(), whole, rest) && |block| >= 64 && |block| % 64 == 0 && block <= rest
      modifies `a, `b, `c, `d
      ensures Taking(State4(), whole, rest[|block|..])
    {
      hide Fold;
      ghost var k := |whole| - |rest|;
      FoldConcat(INIT, whole[..k], block);
      assert whole[..k + |block|] == whole[..k] + block;
      Body(block);
    }

    /** The end of MD5_Update: whole blocks are taken in, the rest is buffered. */
    method TakeRest(data: seq<Byte>, ghost whole: seq<Byte>)
      requires buffer.Length == 64 && Taking(State4(), whole, data)
      modifies `a, `b, `c, `d, buffer
      ensures State4() == Fold(INIT, Blocks(whole)) && buffer[..|whole| % 64] == Tail(whole)
    {
      hide Fold, Taking, Blocks, Tail;
      var left := data;
      if |left| >= 64 {
        var m := |left| - |left| % 64;
        Take(left[..m], whole, left);
        left := left[m..];
      }
      Finished(State4(), whole, left);
      assert buffer[..0] == [];
      Store(0, left);
    }

    /** The counters take the size, with the carry out of the low 29 bits. */
    method Count(size: nat)
      requires Counts(lo, hi, |msg|)
      modifies `lo, `hi
      ensures Counts(lo, hi, |msg| + size)
    {
      CountsAdd(lo, hi, |msg|, size);
      var savedLo := lo;
      lo := (savedLo + size) % TWO29;
      if lo < savedLo {
        hi := (hi + 1) % TWO32;
      }
      hi := (hi + size / TWO29) % TWO32;
    }

    /** MD5_Update */
    method Update(data: seq<Byte>)
      requires Valid()
      modifies `lo, `hi, `a, `b, `c, `d, `msg, buffer
      ensures Valid() && msg == old(msg) + data
    {
      hide Fold, Counts, Taking, Blocks, Tail;
      ghost var whole, tail := msg + data, Tail(msg);
      var used := UsedNow();
      StartTaking(State4(), whole, msg, data);
      Count(|data|);
      msg := whole;
      if used == 0 {
        assert tail + data == data;
        TakeRest(data, whole);
      } else if |data| < 64 - used {
        Store(used, data);
        Finished(State4(), whole, tail + data);
      } else {
        var free := 64 - used;
        Store(used, data[..free]);
        assert buffer[..] == tail + data[..free] == (tail + data)[..64];
        Take(buffer[..], whole, tail + data);
        assert (tail + data)[64..] == data[free..];
        TakeRest(data[free..], whole);
      }
    }

    /** used = lo & 0x3f */
    method UsedNow() returns (used: nat)
      requires Valid()
      ensures used == |msg| % 64 && |Tail(msg)| == used && buffer[..used] == Tail(msg)
    {
      hide Fold;
      used := lo % 64;
      LowBits(lo, |msg|);
    }

    /** memset of the rest of the buffer, up to a place. */
    method Clear(from: nat, to: nat)
      requires buffer.Length == 64 && from <= to <= 64
      modifies buffer
      ensures buffer[..to] == old(buffer[..from]) + Zeros(to - from)
    {
      forall i | from <= i < to {
        buffer[i] := 0;
      }
    }

    /** The block is filled with zeros and taken in. */
    method FillUp(used: nat, ghost whole: seq<Byte>, ghost rest: seq<Byte>, ghost z: nat)
      requires buffer.Length == 64 && used <= 64 && z == 64 - used + 56 && rest == buffer[..used] + Zeros(z)
      requires Taking(State4(), whole, rest)
      modifies `a, `b, `c, `d, buffer
      ensures Taking(State4(), whole, Zeros(56))
    {
      hide Fold, Taking;
      Clear(used, 64);
      assert Zeros(z) == Zeros(64 - used) + Zeros(56);
      assert buffer[..] == rest[..64];
      Take(buffer[..], whole, rest);
      assert rest[64..] == Zeros(56);
    }

    /** The padding goes behind the message, with a block of its own when eight bytes
        do not fit behind it. */
    method Pad()
      requires Valid()
      modifies `a, `b, `c, `d, buffer
      ensures Taking(State4(), msg + Padding(|msg|), buffer[..56])
    {
      hide Fold, Taking, Counts, Blocks, Tail;
      ghost var n := |msg|;
      var used := UsedNow();
      StartTaking(State4(), msg + Padding(n), msg, Padding(n));
      ghost var rest := Tail(msg) + Padding(n);
      Store(used, [0x80]);
      used := used + 1;
      var free := 64 - used;
      ghost var z := (119 - n % 64) % 64;
      assert rest == buffer[..used] + Zeros(z);
      if free < 8 {
        FillUp(used, msg + Padding(n), rest, z);
        rest := Zeros(56);
        used, free := 0, 64;
        assert rest == buffer[..0] + Zeros(56);
      }
      assert rest == buffer[..used] + Zeros(free - 8);
      Clear(used, used + (free - 8));
      assert buffer[..56] == rest;
    }

    /** MD5_Final */
    method Final() returns (result: seq<Byte>)
      requires Valid()
      modifies this, buffer
      ensures result == Digest(old(msg))
      ensures lo == hi == 0 && State4() == State(0, 0, 0, 0) && buffer[..] == Zeros(64)
    {
      hide Fold, Taking, Padding, LittleEndian, Output, BitLength, Blocks, Tail, ByteOf, WordBytes, Counts;
      Pad();
      CountsBits(lo, hi, |msg|);
      ghost var text := msg + Padding(|msg|);
      ghost var rest := buffer[..56];
      ghost var bits := LittleEndian(BitLength(|msg|), 8);
      TwoWords(hi, lo * 8);
      FourBytes(lo * 8);
      FourBytes(hi);
      lo := lo * 8 % TWO32;
      Store(56, [ByteOf(lo), ByteOf(lo / 256), ByteOf(lo / 65536), ByteOf(lo / 16777216)]);
      Store(60, [ByteOf(hi), ByteOf(hi / 256), ByteOf(hi / 65536), ByteOf(hi / 16777216)]);
      assert buffer[..] == buffer[..64] == rest + bits;
      LastBlock(State4(), text, rest, bits);
      Body(buffer[..]);
      result := WordBytes(a) + WordBytes(b) + WordBytes(c) + WordBytes(d);
      OutputIs(State4());
      Reset();
    }

    /** memset of the whole context. */
    method Reset()
      requires buffer.Length == 64
      modifies `lo, `hi, `a, `b, `c, `d, buffer
      ensures lo == hi == 0 && State4() == State(0, 0, 0, 0) && buffer[..] == Zeros(64)
    {
      a, b, c, d, lo, hi := 0, 0, 0, 0, 0, 0;
      Clear(0, 64);
      assert buffer[..] == buffer[..64];
    }
  }

  lemma OutputIs(s: State)
    ensures Output(s) == WordBytes(s.a) + WordBytes(s.b) + WordBytes(s.c) + WordBytes(s.d)
  {
  }

  lemma LastBlock(s: State, text: seq<Byte>, rest: seq<Byte>, bits: seq<Byte>)
    requires Taking(s, text, rest) && |rest| == 56 && |bits| == 8
    ensures Fold(s, rest + bits) == Fold(INIT, text + bits)
  {
    hide Fold;
    var k := |text| - |rest|;
    FoldConcat(INIT, text[..k], rest + bits);
    assert text + bits == text[..k] + (rest + bits);
  }

  lemma FourBytes(v: nat)
    ensures LittleEndian(v, 4) == [ByteOf(v), ByteOf(v / 256), ByteOf(v / 65536), ByteOf(v / 16777216)]
  {
    hide ByteOf;
    var v1, v2, v3 := v / 256, v / 65536, v / 16777216;
    assert v1 / 256 == v2 && v2 / 256 == v3;
    assert LittleEndian(v3, 1) == [ByteOf(v3)];
    assert LittleEndian(v2, 2) == [ByteOf(v2)] + LittleEndian(v3, 1);
    assert LittleEndian(v1, 3) == [ByteOf(v1)] + LittleEndian(v2, 2);
  }

  /** Eight bytes are four of the low word and four of the high word. */
  lemma TwoWords(h: nat, l: nat)
    requires l < TWO32
    ensures LittleEndian(h * TWO32 + l, 8) == LittleEndian(l, 4) + LittleEndian(h, 4)
  {
    LowBytes(h * TWO32 + l, h, l, 4);
  }

  function Pow256(k: nat): (p: nat)
    ensures p > 0
  {
    if k == 0 then 1 else 256 * Pow256(k - 1)
  }

  lemma Shifted(v: nat, h: nat, l: nat, p: nat, q: nat)
    requires v == h * p + l && p == 256 * q
    ensures v % 256 == l % 256 && v / 256 == h * q + l / 256
  {
    assert h * p == 256 * (h * q);
  }

  lemma {:induction false} LowBytes(v: nat, h: nat, l: nat, k: nat)
    requires v == h * Pow256(k) + l && l < Pow256(k)
    ensures LittleEndian(v, k + 4) == LittleEndian(l, k) + LittleEndian(h, 4)
  {
    hide ByteOf;
    if k == 0 {
      assert v == h;
    } else {
      Shifted(v, h, l, Pow256(k), Pow256(k - 1));
      ByteOfEqual(v, l);
      LowBytes(v / 256, h, l / 256, k - 1);
    }
  }

  lemma NoTurns(s: State, x: seq<Word>)
    requires |x| == 16
    ensures Turns(0, s, x) == s
  {
  }

  lemma CompressIs(s: State, block: seq<Byte>, a: Word, b: Word, c: Word, d: Word)
    requires |block| == 64 && State(a, b, c, d) == Turns(64, s, Words(block))
    ensures Compress(s, block) == State(Add(a, s.a), Add(b, s.b), Add(c, s.c), Add(d, s.d))
  {
    hide Turns, Words, Add;
  }

  ghost function Flat(parts: seq<seq<Byte>>): seq<Byte> {
    if parts == [] then [] else Flat(parts[..|parts| - 1]) + parts[|parts| - 1]
  }

  /** MD5_Init, any calls of MD5_Update, and MD5_Final. */
  method DigestOf(parts: seq<seq<Byte>>) returns (result: seq<Byte>)
    ensures result == Digest(Flat(parts))
  {
    hide Digest;
    var ctx := new Ctx();
    var i := 0;
    while i < |parts|
      invariant 0 <= i <= |parts| && fresh(ctx) && fresh(ctx.buffer) && ctx.Valid() && ctx.msg == Flat(parts[..i])
    {
      ctx.Update(parts[i]);
      assert parts[..i + 1][..i] == parts[..i];
      i := i + 1;
    }
    assert parts[..i] == parts;
    result := ctx.Final();
  }

  /** md5_signature and hash_md5: the first register, whatever the byte order of the
      machine. */
  method HashMd5(key: seq<Byte>) returns (h: Word)
    ensures h == Fold(INIT, Padded(key)).a
  {
    hide Fold, Padded, WordBytes, Word32;
    var results := DigestOf([key]);
    assert Flat([key]) == key by { assert [key][..0] == []; }
    OutputIs(Fold(INIT, Padded(key)));
    WordRoundTrip(Fold(INIT, Padded(key)).a);
    assert results[..4] == WordBytes(Fold(INIT, Padded(key)).a);
    h := Word32(results[0], results[1], results[2], results[3]);
  }
}
