/** hash_jenkins of src/hashkit/gf_jenkins.c: three ways to read a key, for three
    alignments, with one result. Words are numbers below 2^32; a mask of low bits is a
    remainder, and a shift to the left a product. */
module Jenkins {
  type Word = w: nat | w < 0x1_0000_0000 witness 0
  type Byte = b: nat | b < 256 witness 0

  datatype State = State(a: Word, b: Word, c: Word)

  function Add(x: nat, y: nat): Word {
    (x + y) % 0x1_0000_0000
  }

  function Sub(x: Word, y: Word): Word {
    (x + 0x1_0000_0000 - y) % 0x1_0000_0000
  }

  function Bits(x: Word): bv32 { x as bv32 }

  function Number(x: bv32): Word { x as nat }

  function Xor(x: Word, y: Word): Word {
    Number(Bits(x) ^ Bits(y))
  }

  function Rot(x: Word, k: nat): Word
    requires 0 < k < 32
  {
    Number((Bits(x) << k) | (Bits(x) >> (32 - k)))
  }

  /** One line of mix: x -= z, x ^= rot(z, k), z += y. */
  function MixLine(x: Word, y: Word, z: Word, k: nat): (Word, Word)
    requires 0 < k < 32
  {
    (Xor(Sub(x, z), Rot(z, k)), Add(z, y))
  }

  function Mix(s: State): State {
    var (a1, c1) := MixLine(s.a, s.b, s.c, 4);
    var (b1, a2) := MixLine(s.b, c1, a1, 6);
    var (c2, b2) := MixLine(c1, a2, b1, 8);
    var (a3, c3) := MixLine(a2, b2, c2, 16);
    var (b3, a4) := MixLine(b2, c3, a3, 19);
    var (c4, b4) := MixLine(c3, a4, b3, 4);
    State(a4, b4, c4)
  }

  function FinalLine(x: Word, y: Word, k: nat): Word
    requires 0 < k < 32
  {
    Sub(Xor(x, y), Rot(y, k))
  }

  function Final(s: State): Word {
    var c := FinalLine(s.c, s.b, 14);
    var a := FinalLine(s.a, c, 11);
    var b := FinalLine(s.b, a, 25);
    var c' := FinalLine(c, b, 16);
    var a' := FinalLine(a, c', 4);
    var b' := FinalLine(b, a', 14);
    FinalLine(c', b', 24)
  }

  /** Four bytes as a word of a little-endian machine. */
  function Le(b0: Byte, b1: Byte, b2: Byte, b3: Byte): Word {
    b0 + 0x100 * b1 + 0x1_0000 * b2 + 0x100_0000 * b3
  }

  /** Byte i of a key, with zeros behind its end. */
  function At(key: seq<Byte>, i: nat): Byte {
    if i < |key| then key[i] else 0
  }

  /** Twelve bytes are added to the state, as three words. */
  function Load(s: State, key: seq<Byte>): State {
    State(Add(s.a, Le(At(key, 0), At(key, 1), At(key, 2), At(key, 3))),
          Add(s.b, Le(At(key, 4), At(key, 5), At(key, 6), At(key, 7))),
          Add(s.c, Le(At(key, 8), At(key, 9), At(key, 10), At(key, 11))))
  }

  function Rest(s: State, key: seq<Byte>): Word
    decreases |key|
  {
    if key == [] then s.c
    else if |key| <= 12 then Final(Load(s, key))
    else Rest(Mix(Load(s, key)), key[12..])
  }

  const INITVAL: nat := 13

  function Start(length: nat, initval: nat): State {
    var v := Add(Add(0xdeadbeef, length % 0x1_0000_0000), initval);
    State(v, v, v)
  }

  /** The hash of a key, for any start value. */
  function HashFrom(key: seq<Byte>, initval: nat): Word {
    Rest(Start(|key|, initval), key)
  }

  function Hash(key: seq<Byte>): Word {
    HashFrom(key, INITVAL)
  }

  lemma AddAdd(a: Word, x: nat, y: nat)
    ensures Add(Add(a, x), y) == Add(a, x + y)
  {
  }

  // ---------- 32 bits at a time ----------

  /** The aligned word at place p of memory; it may reach behind the end of the key. */
  function WordAt(mem: seq<Byte>, p: nat): Word
    requires p + 4 <= |mem|
  {
    Le(mem[p], mem[p + 1], mem[p + 2], mem[p + 3])
  }

  lemma Masks(b0: Byte, b1: Byte, b2: Byte, b3: Byte)
    ensures Le(b0, b1, b2, b3) % 0x100_0000 == Le(b0, b1, b2, 0)
    ensures Le(b0, b1, b2, b3) % 0x1_0000 == Le(b0, b1, 0, 0)
    ensures Le(b0, b1, b2, b3) % 0x100 == Le(b0, 0, 0, 0)
  {
    Low24(b3, b0 + 0x100 * b1 + 0x1_0000 * b2);
    Low16(b2 + 0x100 * b3, b0 + 0x100 * b1);
    Low8(b1 + 0x100 * b2 + 0x1_0000 * b3, b0);
  }

  lemma Low24(high: nat, low: nat)
    requires low < 0x100_0000
    ensures (high * 0x100_0000 + low) % 0x100_0000 == low
  {
  }

  lemma Low16(high: nat, low: nat)
    requires low < 0x1_0000
    ensures (high * 0x1_0000 + low) % 0x1_0000 == low
  {
  }

  lemma Low8(high: nat, low: nat)
    requires low < 0x100
    ensures (high * 0x100 + low) % 0x100 == low
  {
  }

  /** The last block, with what lies behind the key masked off. */
  method TailWords(mem: seq<Byte>, p: nat, length: nat, s: State) returns (r: State)
    requires 1 <= length <= 12 && p + length <= |mem| && p % 4 == 0 && |mem| % 4 == 0
    ensures r == Load(s, mem[p..p + length])
  {
    hide Add, Le, At;
    var a, b, c := s.a, s.b, s.c;
    Bytes(mem, p, length, mem[p..p + length]);
    Nothing(a);
    Nothing(b);
    Nothing(c);
    MasksAt(mem, p);
    MasksAt(mem, p + 4);
    MasksAt(mem, p + 8);
    match length {
      case 12 => c := Add(c, WordAt(mem, p + 8)); b := Add(b, WordAt(mem, p + 4)); a := Add(a, WordAt(mem, p));
      case 11 =>
        c := Add(c, WordAt(mem, p + 8) % 0x100_0000);
        b := Add(b, WordAt(mem, p + 4));
        a := Add(a, WordAt(mem, p));
      case 10 =>
        c := Add(c, WordAt(mem, p + 8) % 0x1_0000);
        b := Add(b, WordAt(mem, p + 4));
        a := Add(a, WordAt(mem, p));
      case 9 => c := Add(c, WordAt(mem, p + 8) % 0x100); b := Add(b, WordAt(mem, p + 4)); a := Add(a, WordAt(mem, p));
      case 8 => b := Add(b, WordAt(mem, p + 4)); a := Add(a, WordAt(mem, p));
      case 7 => b := Add(b, WordAt(mem, p + 4) % 0x100_0000); a := Add(a, WordAt(mem, p));
      case 6 => b := Add(b, WordAt(mem, p + 4) % 0x1_0000); a := Add(a, WordAt(mem, p));
      case 5 => b := Add(b, WordAt(mem, p + 4) % 0x100); a := Add(a, WordAt(mem, p));
      case 4 => a := Add(a, WordAt(mem, p));
      case 3 => a := Add(a, WordAt(mem, p) % 0x100_0000);
      case 2 => a := Add(a, WordAt(mem, p) % 0x1_0000);
      case _ => a := Add(a, WordAt(mem, p) % 0x100);
    }
    r := State(a, b, c);
  }

  lemma Nothing(x: Word)
    ensures Add(x, Le(0, 0, 0, 0)) == x
  {
    hide Add;
    AddZero(x);
    assert Le(0, 0, 0, 0) == 0;
  }

  lemma AddZero(x: Word)
    ensures Add(x, 0) == x
  {
  }

  /** The bytes of the key from place p, and the zeros behind them. */
  lemma Bytes(mem: seq<Byte>, p: nat, length: nat, key: seq<Byte>)
    requires length <= 12 && p + length <= |mem| && key == mem[p..p + length]
    ensures forall i :: 0 <= i < length ==> At(key, i) == mem[p + i]
    ensures forall i :: length <= i < 12 ==> At(key, i) == 0
  {
  }

  lemma MasksAt(mem: seq<Byte>, p: nat)
    ensures p + 4 <= |mem| ==> WordAt(mem, p) % 0x100_0000 == Le(mem[p], mem[p + 1], mem[p + 2], 0)
    ensures p + 4 <= |mem| ==> WordAt(mem, p) % 0x1_0000 == Le(mem[p], mem[p + 1], 0, 0)
    ensures p + 4 <= |mem| ==> WordAt(mem, p) % 0x100 == Le(mem[p], 0, 0, 0)
  {
    if p + 4 <= |mem| {
      Masks(mem[p], mem[p + 1], mem[p + 2], mem[p + 3]);
    }
  }

  /** The branch for keys at a multiple of four; memory is readable up to the end of the
      word the key ends in. */
  method HashWords(mem: seq<Byte>, length0: nat) returns (h: Word)
    requires length0 <= |mem| && |mem| % 4 == 0
    ensures h == Hash(mem[..length0])
  {
    hide Load, Mix, Final, Start, Add;
    var s := Start(length0, INITVAL);
    var p: nat, length: nat := 0, length0;
    ghost var key := mem[..length0];
    assert key[0..] == key;
    while length > 12
      invariant p + length == length0 && p % 4 == 0 && (length0 > 0 ==> length > 0)
      invariant Rest(s, key[p..]) == Hash(key)
    {
      assert key[p..][12..] == key[p + 12..];
      LoadFirst(s, key[p..]);
      s := Mix(State(Add(s.a, WordAt(mem, p)), Add(s.b, WordAt(mem, p + 4)), Add(s.c, WordAt(mem, p + 8))));
      p, length := p + 12, length - 12;
    }
    if length == 0 {
      return s.c;
    }
    assert key[p..] == mem[p..p + length];
    s := TailWords(mem, p, length, s);
    h := Final(s);
  }

  /** A full block. */
  lemma LoadFirst(s: State, k: seq<Byte>)
    requires |k| >= 12
    ensures Load(s, k) == State(Add(s.a, Le(k[0], k[1], k[2], k[3])), Add(s.b, Le(k[4], k[5], k[6], k[7])),
                                Add(s.c, Le(k[8], k[9], k[10], k[11])))
  {
  }

  /** Shifts to the left by 8, 16 and 24 bits. */
  function Up8(x: nat): nat { 0x100 * x }
  function Up16(x: nat): nat { 0x1_0000 * x }
  function Up24(x: nat): nat { 0x100_0000 * x }

  // ---------- 16 bits at a time ----------

  function Half(b0: Byte, b1: Byte): nat {
    b0 + 0x100 * b1
  }

  function HalfAt(mem: seq<Byte>, p: nat): nat
    requires p + 2 <= |mem|
  {
    Half(mem[p], mem[p + 1])
  }

  lemma Halves(x: Word, b0: Byte, b1: Byte, b2: Byte, b3: Byte)
    ensures Add(x, Half(b0, b1) + Up16(Half(b2, b3))) == Add(x, Le(b0, b1, b2, b3))
    ensures Add(Add(x, Up16(b2)), Half(b0, b1)) == Add(x, Le(b0, b1, b2, 0))
    ensures Add(x, Half(b0, b1)) == Add(x, Le(b0, b1, 0, 0))
    ensures Add(x, b0) == Add(x, Le(b0, 0, 0, 0))
  {
    hide Add;
    AddAdd(x, Up16(b2), Half(b0, b1));
  }

  lemma HalvesAt(x: Word, mem: seq<Byte>, p: nat, n: nat)
    requires n <= 4 && p + n <= |mem|
    ensures n == 4 ==>
      Add(x, HalfAt(mem, p) + Up16(HalfAt(mem, p + 2))) == Add(x, Le(mem[p], mem[p + 1], mem[p + 2], mem[p + 3]))
    ensures n == 3 ==> Add(Add(x, Up16(mem[p + 2])), HalfAt(mem, p)) == Add(x, Le(mem[p], mem[p + 1], mem[p + 2], 0))
    ensures n == 2 ==> Add(x, HalfAt(mem, p)) == Add(x, Le(mem[p], mem[p + 1], 0, 0))
    ensures n == 1 ==> Add(x, mem[p]) == Add(x, Le(mem[p], 0, 0, 0))
  {
    hide Add, Half, Le;
    if n > 0 {
      Halves(
        x, mem[p], if n > 1 then mem[p + 1] else 0, if n > 2 then mem[p + 2] else 0, if n > 3 then mem[p + 3] else 0);
    }
  }

  /** How many of the four bytes from place i on are within the length. */
  function Part(length: nat, i: nat): nat {
    if length <= i then 0 else if length >= i + 4 then 4 else length - i
  }

  /** The last block, with the source's cases that run into one another written out. */
  method TailHalves(mem: seq<Byte>, p: nat, length: nat, s: State) returns (r: State)
    requires 1 <= length <= 12 && p + length <= |mem|
    ensures r == Load(s, mem[p..p + length])
  {
    hide Add, Le, At, HalfAt;
    var a, b, c := s.a, s.b, s.c;
    Bytes(mem, p, length, mem[p..p + length]);
    Nothing(b);
    Nothing(c);
    HalvesAt(a, mem, p, Part(length, 0));
    HalvesAt(b, mem, p + Part(length, 0), Part(length, 4));
    HalvesAt(c, mem, p + Part(length, 0) + Part(length, 4), Part(length, 8));
    if length == 12 {
      c := Add(c, HalfAt(mem, p + 8) + Up16(HalfAt(mem, p + 10)));
    } else {
      if length == 11 {
        c := Add(c, Up16(mem[p + 10]));
      }
      if length == 11 || length == 10 {
        c := Add(c, HalfAt(mem, p + 8));
      } else if length == 9 {
        c := Add(c, mem[p + 8]);
      }
    }
    if length >= 8 {
      b := Add(b, HalfAt(mem, p + 4) + Up16(HalfAt(mem, p + 6)));
    } else {
      if length == 7 {
        b := Add(b, Up16(mem[p + 6]));
      }
      if length == 7 || length == 6 {
        b := Add(b, HalfAt(mem, p + 4));
      } else if length == 5 {
        b := Add(b, mem[p + 4]);
      }
    }
    if length >= 4 {
      a := Add(a, HalfAt(mem, p) + Up16(HalfAt(mem, p + 2)));
    } else {
      if length == 3 {
        a := Add(a, Up16(mem[p + 2]));
      }
      if length == 3 || length == 2 {
        a := Add(a, HalfAt(mem, p));
      } else {
        a := Add(a, mem[p]);
      }
    }
    r := State(a, b, c);
  }

  /** The branch for keys at a multiple of two; nothing behind the key is read. */
  method HashHalves(key: seq<Byte>) returns (h: Word)
    ensures h == Hash(key)
  {
    hide Load, Mix, Final, Start, Add, HalfAt, Le;
    var s := Start(|key|, INITVAL);
    var p: nat, length: nat := 0, |key|;
    assert key[0..] == key;
    while length > 12
      invariant p + length == |key| && (|key| > 0 ==> length > 0)
      invariant Rest(s, key[p..]) == Hash(key)
    {
      assert key[p..][12..] == key[p + 12..];
      LoadFirst(s, key[p..]);
      HalvesAt(s.a, key, p, 4);
      HalvesAt(s.b, key, p + 4, 4);
      HalvesAt(s.c, key, p + 8, 4);
      s := Mix(State(Add(s.a, HalfAt(key, p) + Up16(HalfAt(key, p + 2))),
                     Add(s.b, HalfAt(key, p + 4) + Up16(HalfAt(key, p + 6))),
                     Add(s.c, HalfAt(key, p + 8) + Up16(HalfAt(key, p + 10)))));
      p, length := p + 12, length - 12;
    }
    if length == 0 {
      return s.c;
    }
    assert key[p..] == key[p..p + length];
    s := TailHalves(key, p, length, s);
    h := Final(s);
  }

  // ---------- a byte at a time ----------

  lemma ByteSums(x: Word, b0: Byte, b1: Byte, b2: Byte, b3: Byte)
    ensures Add(Add(Add(Add(x, b0), Up8(b1)), Up16(b2)), Up24(b3)) == Add(x, Le(b0, b1, b2, b3))
    ensures Add(Add(Add(Add(x, Up24(b3)), Up16(b2)), Up8(b1)), b0) == Add(x, Le(b0, b1, b2, b3))
    ensures Add(Add(Add(x, Up16(b2)), Up8(b1)), b0) == Add(x, Le(b0, b1, b2, 0))
    ensures Add(Add(x, Up8(b1)), b0) == Add(x, Le(b0, b1, 0, 0))
    ensures Add(x, b0) == Add(x, Le(b0, 0, 0, 0))
  {
    hide Add;
    AddAdd(x, b0, Up8(b1));
    AddAdd(x, b0 + Up8(b1), Up16(b2));
    AddAdd(x, b0 + Up8(b1) + Up16(b2), Up24(b3));
    AddAdd(x, Up24(b3), Up16(b2));
    AddAdd(x, Up24(b3) + Up16(b2), Up8(b1));
    AddAdd(x, Up24(b3) + Up16(b2) + Up8(b1), b0);
    AddAdd(x, Up16(b2), Up8(b1));
    AddAdd(x, Up16(b2) + Up8(b1), b0);
    AddAdd(x, Up8(b1), b0);
  }

  /** Up to four bytes of the last block, from the highest down, as the cases of the
      source run through. */
  method DownBytes(x0: Word, mem: seq<Byte>, p: nat, n: nat) returns (x: Word)
    requires n <= 4 && p + n <= |mem|
    ensures x == Add(x0, Le(if n > 0 then mem[p] else 0, if n > 1 then mem[p + 1] else 0,
                            if n > 2 then mem[p + 2] else 0, if n > 3 then mem[p + 3] else 0))
  {
    hide Add, Le;
    ByteSums(x0, if n > 0 then mem[p] else 0, if n > 1 then mem[p + 1] else 0, if n > 2 then mem[p + 2] else 0,
             if n > 3 then mem[p + 3] else 0);
    Nothing(x0);
    x := x0;
    if n >= 4 { x := Add(x, Up24(mem[p + 3])); }
    if n >= 3 { x := Add(x, Up16(mem[p + 2])); }
    if n >= 2 { x := Add(x, Up8(mem[p + 1])); }
    if n >= 1 { x := Add(x, mem[p]); }
  }

  method TailBytes(mem: seq<Byte>, p: nat, length: nat, s: State) returns (r: State)
    requires 1 <= length <= 12 && p + length <= |mem|
    ensures r == Load(s, mem[p..p + length])
  {
    hide Add, Le, At;
    Bytes(mem, p, length, mem[p..p + length]);
    var c := DownBytes(s.c, mem, p + Part(length, 0) + Part(length, 4), Part(length, 8));
    var b := DownBytes(s.b, mem, p + Part(length, 0), Part(length, 4));
    var a := DownBytes(s.a, mem, p, Part(length, 0));
    r := State(a, b, c);
  }

  /** Four bytes, from the lowest up. */
  method UpBytes(x0: Word, mem: seq<Byte>, p: nat) returns (x: Word)
    requires p + 4 <= |mem|
    ensures x == Add(x0, Le(mem[p], mem[p + 1], mem[p + 2], mem[p + 3]))
  {
    hide Add, Le;
    ByteSums(x0, mem[p], mem[p + 1], mem[p + 2], mem[p + 3]);
    x := Add(x0, mem[p]);
    x := Add(x, Up8(mem[p + 1]));
    x := Add(x, Up16(mem[p + 2]));
    x := Add(x, Up24(mem[p + 3]));
  }

  /** The branch for all other keys. */
  method HashBytes(key: seq<Byte>) returns (h: Word)
    ensures h == Hash(key)
  {
    hide Load, Mix, Final, Start, Add, Le;
    var s := Start(|key|, INITVAL);
    var p: nat, length: nat := 0, |key|;
    assert key[0..] == key;
    while length > 12
      invariant p + length == |key| && (|key| > 0 ==> length > 0)
      invariant Rest(s, key[p..]) == Hash(key)
    {
      assert key[p..][12..] == key[p + 12..];
      LoadFirst(s, key[p..]);
      var a := UpBytes(s.a, key, p);
      var b := UpBytes(s.b, key, p + 4);
      var c := UpBytes(s.c, key, p + 8);
      s := Mix(State(a, b, c));
      p, length := p + 12, length - 12;
    }
    if length == 0 {
      return s.c;
    }
    assert key[p..] == key[p..p + length];
    s := TailBytes(key, p, length, s);
    h := Final(s);
  }

  /** hash_jenkins: the address of the key decides how it is read, and not what comes out. */
  method HashAt(address: nat, mem: seq<Byte>, length: nat) returns (h: Word)
    requires length <= |mem| && (address % 4 == 0 ==> |mem| % 4 == 0)
    ensures h == Hash(mem[..length])
  {
    if address % 4 == 0 {
      h := HashWords(mem, length);
    } else if address % 2 == 0 {
      h := HashHalves(mem[..length]);
    } else {
      h := HashBytes(mem[..length]);
    }
  }
}
