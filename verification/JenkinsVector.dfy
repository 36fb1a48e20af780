/** A hash published with the function by its author, computed from the definitions of module
    Jenkins step by step: that of "Four score and seven years ago" from the start value 0. */
module JenkinsVector {
  import opened Jenkins

  /** The text, in three parts. */
  ghost predicate IsKey(key: seq<Byte>) {
    |key| == 30 && Chars0(key) && Chars1(key) && Chars2(key)
  }

  ghost predicate Chars0(key: seq<Byte>)
    requires |key| == 30
  {
    && key[0] == 0x46 && key[1] == 0x6f && key[2] == 0x75 && key[3] == 0x72
    && key[4] == 0x20 && key[5] == 0x73 && key[6] == 0x63 && key[7] == 0x6f
    && key[8] == 0x72 && key[9] == 0x65 && key[10] == 0x20 && key[11] == 0x61
  }

  ghost predicate Chars1(key: seq<Byte>)
    requires |key| == 30
  {
    && key[12] == 0x6e && key[13] == 0x64 && key[14] == 0x20 && key[15] == 0x73
    && key[16] == 0x65 && key[17] == 0x76 && key[18] == 0x65 && key[19] == 0x6e
    && key[20] == 0x20 && key[21] == 0x79 && key[22] == 0x65 && key[23] == 0x61
  }

  ghost predicate Chars2(key: seq<Byte>)
    requires |key| == 30
  {
    && key[24] == 0x72 && key[25] == 0x73 && key[26] == 0x20 && key[27] == 0x61
    && key[28] == 0x67 && key[29] == 0x6f
  }

  lemma Rots0()
    ensures Rot(0x3fce247f, 4) == 0xfce247f3
    ensures Rot(0xedb74e27, 6) == 0x6dd389fb
    ensures Rot(0x0d8a6dfd, 8) == 0x8a6dfd0d
    ensures Rot(0x0a3915a2, 16) == 0x15a20a39
    ensures Rot(0x64ff8508, 19) == 0x284327fc
    ensures Rot(0x0c62aa34, 4) == 0xc62aa340
  {
  }

  lemma Xors0()
    ensures Xor(0x115509d4, 0xfce247f3) == 0xedb74e27
    ensures Xor(0x6059e406, 0x6dd389fb) == 0x0d8a6dfd
    ensures Xor(0x8054e8af, 0x8a6dfd0d) == 0x0a3915a2
    ensures Xor(0x715d8f31, 0x15a20a39) == 0x64ff8508
    ensures Xor(0x24218dc8, 0x284327fc) == 0x0c62aa34
    ensures Xor(0x86f77e3e, 0xc62aa340) == 0x40dddd7e
  {
  }

  lemma Sums0()
    ensures Sub(0x51232e53, 0x3fce247f) == 0x115509d4
    ensures Add(0x3fce247f, 0x4e11322d) == 0x8ddf56ac
    ensures Sub(0x4e11322d, 0xedb74e27) == 0x6059e406
    ensures Add(0xedb74e27, 0x8ddf56ac) == 0x7b96a4d3
    ensures Sub(0x8ddf56ac, 0x0d8a6dfd) == 0x8054e8af
    ensures Add(0x0d8a6dfd, 0x7b96a4d3) == 0x892112d0
    ensures Sub(0x7b96a4d3, 0x0a3915a2) == 0x715d8f31
    ensures Add(0x0a3915a2, 0x892112d0) == 0x935a2872
    ensures Sub(0x892112d0, 0x64ff8508) == 0x24218dc8
    ensures Add(0x64ff8508, 0x935a2872) == 0xf859ad7a
    ensures Sub(0x935a2872, 0x0c62aa34) == 0x86f77e3e
    ensures Add(0x0c62aa34, 0xf859ad7a) == 0x04bc57ae
  {
  }

  lemma Mix0()
    ensures Mix(State(0x51232e53, 0x4e11322d, 0x3fce247f)) ==
            State(0xf859ad7a, 0x04bc57ae, 0x40dddd7e)
  {
    Rots0();
    Xors0();
    Sums0();
    hide Rot, Xor, Add, Sub;
  }

  lemma Sum0()
    ensures Add(0xdeadbf0d, 0x72756f46) == 0x51232e53
    ensures Add(0xdeadbf0d, 0x6f637320) == 0x4e11322d
    ensures Add(0xdeadbf0d, 0x61206572) == 0x3fce247f
    ensures Le(0x46, 0x6f, 0x75, 0x72) == 0x72756f46
    ensures Le(0x20, 0x73, 0x63, 0x6f) == 0x6f637320
    ensures Le(0x72, 0x65, 0x20, 0x61) == 0x61206572
  {
  }

  lemma Bytes0(key: seq<Byte>)
    requires |key| == 30 && Chars0(key)
    ensures
      var rest := key[0..];
      && At(rest, 0) == 0x46 && At(rest, 1) == 0x6f && At(rest, 2) == 0x75 && At(rest, 3) == 0x72
      && At(rest, 4) == 0x20 && At(rest, 5) == 0x73 && At(rest, 6) == 0x63 && At(rest, 7) == 0x6f
      && At(rest, 8) == 0x72 && At(rest, 9) == 0x65 && At(rest, 10) == 0x20 && At(rest, 11) == 0x61
  {
  }

  lemma Load0(key: seq<Byte>)
    requires |key| == 30 && Chars0(key)
    ensures Load(State(0xdeadbf0d, 0xdeadbf0d, 0xdeadbf0d), key[0..]) ==
            State(0x51232e53, 0x4e11322d, 0x3fce247f)
  {
    Bytes0(key);
    Sum0();
    hide Le, Add, At, Chars0;
  }

  lemma Rots1()
    ensures Rot(0xa243569e, 4) == 0x243569ea
    ensures Rot(0xed03d2a0, 6) == 0x40f4a83b
    ensures Rot(0xc6e95348, 8) == 0xe95348c6
    ensures Rot(0xa72899af, 16) == 0x99afa728
    ensures Rot(0xc2effa8a, 19) == 0xd456177f
    ensures Rot(0xd2344770, 4) == 0x2344770d
  {
  }

  lemma Xors1()
    ensures Xor(0xc936bb4a, 0x243569ea) == 0xed03d2a0
    ensures Xor(0x861dfb73, 0x40f4a83b) == 0xc6e95348
    ensures Xor(0x4e7bd169, 0xe95348c6) == 0xa72899af
    ensures Xor(0x5b405da2, 0x99afa728) == 0xc2effa8a
    ensures Xor(0x0662500f, 0xd456177f) == 0xd2344770
    ensures Xor(0x9e469cd8, 0x2344770d) == 0xbd02ebd5
  {
  }

  lemma Sums1()
    ensures Sub(0x6b7a11e8, 0xa243569e) == 0xc936bb4a
    ensures Add(0xa243569e, 0x7321ce13) == 0x156524b1
    ensures Sub(0x7321ce13, 0xed03d2a0) == 0x861dfb73
    ensures Add(0xed03d2a0, 0x156524b1) == 0x0268f751
    ensures Sub(0x156524b1, 0xc6e95348) == 0x4e7bd169
    ensures Add(0xc6e95348, 0x0268f751) == 0xc9524a99
    ensures Sub(0x0268f751, 0xa72899af) == 0x5b405da2
    ensures Add(0xa72899af, 0xc9524a99) == 0x707ae448
    ensures Sub(0xc9524a99, 0xc2effa8a) == 0x0662500f
    ensures Add(0xc2effa8a, 0x707ae448) == 0x336aded2
    ensures Sub(0x707ae448, 0xd2344770) == 0x9e469cd8
    ensures Add(0xd2344770, 0x336aded2) == 0x059f2642
  {
  }

  lemma Mix1()
    ensures Mix(State(0x6b7a11e8, 0x7321ce13, 0xa243569e)) ==
            State(0x336aded2, 0x059f2642, 0xbd02ebd5)
  {
    Rots1();
    Xors1();
    Sums1();
    hide Rot, Xor, Add, Sub;
  }

  lemma Sum1()
    ensures Add(0xf859ad7a, 0x7320646e) == 0x6b7a11e8
    ensures Add(0x04bc57ae, 0x6e657665) == 0x7321ce13
    ensures Add(0x40dddd7e, 0x61657920) == 0xa243569e
    ensures Le(0x6e, 0x64, 0x20, 0x73) == 0x7320646e
    ensures Le(0x65, 0x76, 0x65, 0x6e) == 0x6e657665
    ensures Le(0x20, 0x79, 0x65, 0x61) == 0x61657920
  {
  }

  lemma Bytes1(key: seq<Byte>)
    requires |key| == 30 && Chars1(key)
    ensures
      var rest := key[12..];
      && At(rest, 0) == 0x6e && At(rest, 1) == 0x64 && At(rest, 2) == 0x20 && At(rest, 3) == 0x73
      && At(rest, 4) == 0x65 && At(rest, 5) == 0x76 && At(rest, 6) == 0x65 && At(rest, 7) == 0x6e
      && At(rest, 8) == 0x20 && At(rest, 9) == 0x79 && At(rest, 10) == 0x65 && At(rest, 11) == 0x61
  {
  }

  lemma Load1(key: seq<Byte>)
    requires |key| == 30 && Chars1(key)
    ensures Load(State(0xf859ad7a, 0x04bc57ae, 0x40dddd7e), key[12..]) ==
            State(0x6b7a11e8, 0x7321ce13, 0xa243569e)
  {
    Bytes1(key);
    Sum1();
    hide Le, Add, At, Chars1;
  }

  lemma Rots2()
    ensures Rot(0x059f95a9, 14) == 0xe56a4167
    ensures Rot(0xd3333d15, 11) == 0x99e8ae99
    ensures Rot(0xadcfc0b8, 25) == 0x715b9f81
    ensures Rot(0x36f4b590, 16) == 0xb59036f4
    ensures Rot(0x30375191, 4) == 0x03751913
    ensures Rot(0x9a837816, 14) == 0xde05a6a0
    ensures Rot(0xce7226e6, 24) == 0xe6ce7226
  {
  }

  lemma Xors2()
    ensures Xor(0xbd02ebd5, 0x059f95a9) == 0xb89d7e7c
    ensures Xor(0x948b5244, 0xd3333d15) == 0x47b86f51
    ensures Xor(0x059f95a9, 0xadcfc0b8) == 0xa8505511
    ensures Xor(0xd3333d15, 0x36f4b590) == 0xe5c78885
    ensures Xor(0xadcfc0b8, 0x30375191) == 0x9df89129
    ensures Xor(0x36f4b590, 0x9a837816) == 0xac77cd86
    ensures Xor(0x30375191, 0xce7226e6) == 0xfe457777
  {
  }

  lemma Sums2()
    ensures Sub(0xb89d7e7c, 0xe56a4167) == 0xd3333d15
    ensures Sub(0x47b86f51, 0x99e8ae99) == 0xadcfc0b8
    ensures Sub(0xa8505511, 0x715b9f81) == 0x36f4b590
    ensures Sub(0xe5c78885, 0xb59036f4) == 0x30375191
    ensures Sub(0x9df89129, 0x03751913) == 0x9a837816
    ensures Sub(0xac77cd86, 0xde05a6a0) == 0xce7226e6
    ensures Sub(0xfe457777, 0xe6ce7226) == 0x17770551
  {
  }

  lemma Final2()
    ensures Final(State(0x948b5244, 0x059f95a9, 0xbd02ebd5)) == 0x17770551
  {
    Rots2();
    Xors2();
    Sums2();
    hide Rot, Xor, Add, Sub;
  }

  lemma Sum2()
    ensures Add(0x336aded2, 0x61207372) == 0x948b5244
    ensures Add(0x059f2642, 0x00006f67) == 0x059f95a9
    ensures Add(0xbd02ebd5, 0x00000000) == 0xbd02ebd5
    ensures Le(0x72, 0x73, 0x20, 0x61) == 0x61207372
    ensures Le(0x67, 0x6f, 0x00, 0x00) == 0x00006f67
    ensures Le(0x00, 0x00, 0x00, 0x00) == 0x00000000
  {
  }

  lemma Bytes2(key: seq<Byte>)
    requires |key| == 30 && Chars2(key)
    ensures
      var rest := key[24..];
      && At(rest, 0) == 0x72 && At(rest, 1) == 0x73 && At(rest, 2) == 0x20 && At(rest, 3) == 0x61
      && At(rest, 4) == 0x67 && At(rest, 5) == 0x6f && At(rest, 6) == 0x00 && At(rest, 7) == 0x00
      && At(rest, 8) == 0x00 && At(rest, 9) == 0x00 && At(rest, 10) == 0x00 && At(rest, 11) == 0x00
  {
  }

  lemma Load2(key: seq<Byte>)
    requires |key| == 30 && Chars2(key)
    ensures Load(State(0x336aded2, 0x059f2642, 0xbd02ebd5), key[24..]) ==
            State(0x948b5244, 0x059f95a9, 0xbd02ebd5)
  {
    Bytes2(key);
    Sum2();
    hide Le, Add, At, Chars2;
  }

  lemma Known(key: seq<Byte>)
    requires IsKey(key)
    ensures HashFrom(key, 0) == 0x17770551
  {
    hide Mix, Final, Load, Add, Chars0, Chars1, Chars2;
    Begin();
    assert key[0..] == key && key[12..][12..] == key[24..];
    Load0(key);
    Mix0();
    Load1(key);
    Mix1();
    Load2(key);
    Final2();
    assert Rest(State(0x336aded2, 0x059f2642, 0xbd02ebd5), key[24..]) == 0x17770551;
    assert Rest(State(0xf859ad7a, 0x04bc57ae, 0x40dddd7e), key[12..]) == 0x17770551;
  }

  lemma Begin()
    ensures Start(30, 0) == State(0xdeadbf0d, 0xdeadbf0d, 0xdeadbf0d)
  {
  }

  /** The start value of the source. */
  lemma Initval(key: seq<Byte>)
    ensures Hash(key) == HashFrom(key, 13)
  {
  }
}
