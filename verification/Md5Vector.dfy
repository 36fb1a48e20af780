/** A digest of the test suite in appendix A.5 of RFC 1321, computed from the definitions of
    module Md5 step by step. */
module Md5Vector {
  import opened Md5

  /** The words of the one block of the message "abc". */
  ghost predicate Block(x: seq<Word>) {
    x == [0x80636261, 0, 0, 0, 0, 0, 0, 0, 0, 0, 0, 0, 0, 0, 24, 0]
  }

  lemma BlockWords(x: seq<Word>)
    requires Block(x)
    ensures |x| == 16 && x[0] == 0x80636261 && x[14] == 24 && forall i :: 0 < i < 16 && i != 14 ==> x[i] == 0
  {
  }

  /** Step i, with the function of its round. */
  lemma Taken(i: nat, t: State, x: seq<Word>)
    requires i < 64 && |x| == 16 && t == Turns(i, INIT, x)
    ensures Pick(i) < 16
    ensures
      var mix := if i < 16 then F(t.b, t.c, t.d) else if i < 32 then G(t.b, t.c, t.d)
                 else if i < 48 then H(t.b, t.c, t.d) else I(t.b, t.c, t.d);
      Turns(i + 1, INIT, x) == State(t.d, StepValue(mix, t.a, t.b, x[Pick(i)], Sine(i), Shift(i)), t.b, t.c)
  {
    hide F, G, H, I, StepValue, Sine, Shift, Pick, Turns;
    OneTurn(i, t, x, INIT);
  }

  lemma Values0()
    ensures StepValue(F(0xefcdab89, 0x98badcfe, 0x10325476), 0x67452301, 0xefcdab89, 0x80636261, 0xd76aa478, 7) ==
      0xd6d117b4
    ensures StepValue(F(0xd6d117b4, 0xefcdab89, 0x98badcfe), 0x10325476, 0xd6d117b4, 0, 0xe8c7b756, 12) ==
      0x344a8432
    ensures StepValue(F(0x344a8432, 0xd6d117b4, 0xefcdab89), 0x98badcfe, 0x344a8432, 0, 0x242070db, 17) ==
      0x2f6fbd72
    ensures StepValue(F(0x2f6fbd72, 0x344a8432, 0xd6d117b4), 0xefcdab89, 0x2f6fbd72, 0, 0xc1bdceee, 22) ==
      0x7ad956f2
  {
  }

  lemma Steps0(x: seq<Word>)
    requires Block(x) && Turns(0, INIT, x) == State(0x67452301, 0xefcdab89, 0x98badcfe, 0x10325476)
    ensures Turns(4, INIT, x) == State(0xd6d117b4, 0x7ad956f2, 0x2f6fbd72, 0x344a8432)
  {
    hide *;
    Rows0();
    Values0();
    BlockWords(x);
    Taken(0, State(0x67452301, 0xefcdab89, 0x98badcfe, 0x10325476), x);
    Taken(1, State(0x10325476, 0xd6d117b4, 0xefcdab89, 0x98badcfe), x);
    Taken(2, State(0x98badcfe, 0x344a8432, 0xd6d117b4, 0xefcdab89), x);
    Taken(3, State(0xefcdab89, 0x2f6fbd72, 0x344a8432, 0xd6d117b4), x);
  }

  lemma Values4()
    ensures StepValue(F(0x7ad956f2, 0x2f6fbd72, 0x344a8432), 0xd6d117b4, 0x7ad956f2, 0, 0xf57c0faf, 7) ==
      0xc73741ef
    ensures StepValue(F(0xc73741ef, 0x7ad956f2, 0x2f6fbd72), 0x344a8432, 0xc73741ef, 0, 0x4787c62a, 12) ==
      0x8bac3051
    ensures StepValue(F(0x8bac3051, 0xc73741ef, 0x7ad956f2), 0x2f6fbd72, 0x8bac3051, 0, 0xa8304613, 17) ==
      0x207dc67b
    ensures StepValue(F(0x207dc67b, 0x8bac3051, 0xc73741ef), 0x7ad956f2, 0x207dc67b, 0, 0xfd469501, 22) ==
      0x928d99f6
  {
  }

  lemma Steps4(x: seq<Word>)
    requires Block(x) && Turns(4, INIT, x) == State(0xd6d117b4, 0x7ad956f2, 0x2f6fbd72, 0x344a8432)
    ensures Turns(8, INIT, x) == State(0xc73741ef, 0x928d99f6, 0x207dc67b, 0x8bac3051)
  {
    hide *;
    Rows4();
    Values4();
    BlockWords(x);
    Taken(4, State(0xd6d117b4, 0x7ad956f2, 0x2f6fbd72, 0x344a8432), x);
    Taken(5, State(0x344a8432, 0xc73741ef, 0x7ad956f2, 0x2f6fbd72), x);
    Taken(6, State(0x2f6fbd72, 0x8bac3051, 0xc73741ef, 0x7ad956f2), x);
    Taken(7, State(0x7ad956f2, 0x207dc67b, 0x8bac3051, 0xc73741ef), x);
  }

  lemma Values8()
    ensures StepValue(F(0x928d99f6, 0x207dc67b, 0x8bac3051), 0xc73741ef, 0x928d99f6, 0, 0x698098d8, 7) ==
      0x854b3712
    ensures StepValue(F(0x854b3712, 0x928d99f6, 0x207dc67b), 0x8bac3051, 0x854b3712, 0, 0x8b44f7af, 12) ==
      0x74e2f284
    ensures StepValue(F(0x74e2f284, 0x854b3712, 0x928d99f6), 0x207dc67b, 0x74e2f284, 0, 0xffff5bb1, 17) ==
      0x3020401c
    ensures StepValue(F(0x3020401c, 0x74e2f284, 0x854b3712), 0x928d99f6, 0x3020401c, 0, 0x895cd7be, 22) ==
      0x5ed49596
  {
  }

  lemma Steps8(x: seq<Word>)
    requires Block(x) && Turns(8, INIT, x) == State(0xc73741ef, 0x928d99f6, 0x207dc67b, 0x8bac3051)
    ensures Turns(12, INIT, x) == State(0x854b3712, 0x5ed49596, 0x3020401c, 0x74e2f284)
  {
    hide *;
    Rows8();
    Values8();
    BlockWords(x);
    Taken(8, State(0xc73741ef, 0x928d99f6, 0x207dc67b, 0x8bac3051), x);
    Taken(9, State(0x8bac3051, 0x854b3712, 0x928d99f6, 0x207dc67b), x);
    Taken(10, State(0x207dc67b, 0x74e2f284, 0x854b3712, 0x928d99f6), x);
    Taken(11, State(0x928d99f6, 0x3020401c, 0x74e2f284, 0x854b3712), x);
  }

  lemma Values12()
    ensures StepValue(F(0x5ed49596, 0x3020401c, 0x74e2f284), 0x854b3712, 0x5ed49596, 0, 0x6b901122, 7) ==
      0xdda9b9a6
    ensures StepValue(F(0xdda9b9a6, 0x5ed49596, 0x3020401c), 0x74e2f284, 0xdda9b9a6, 0, 0xfd987193, 12) ==
      0xa1051895
    ensures StepValue(F(0xa1051895, 0xdda9b9a6, 0x5ed49596), 0x3020401c, 0xa1051895, 0x00000018, 0xa679438e, 17) ==
      0xe396856b
    ensures StepValue(F(0xe396856b, 0xa1051895, 0xdda9b9a6), 0x5ed49596, 0xe396856b, 0, 0x49b40821, 22) ==
      0x72aff2e0
  {
  }

  lemma Steps12(x: seq<Word>)
    requires Block(x) && Turns(12, INIT, x) == State(0x854b3712, 0x5ed49596, 0x3020401c, 0x74e2f284)
    ensures Turns(16, INIT, x) == State(0xdda9b9a6, 0x72aff2e0, 0xe396856b, 0xa1051895)
  {
    hide *;
    Rows12();
    Values12();
    BlockWords(x);
    Taken(12, State(0x854b3712, 0x5ed49596, 0x3020401c, 0x74e2f284), x);
    Taken(13, State(0x74e2f284, 0xdda9b9a6, 0x5ed49596, 0x3020401c), x);
    Taken(14, State(0x3020401c, 0xa1051895, 0xdda9b9a6, 0x5ed49596), x);
    Taken(15, State(0x5ed49596, 0xe396856b, 0xa1051895, 0xdda9b9a6), x);
  }

  lemma Values16()
    ensures StepValue(G(0x72aff2e0, 0xe396856b, 0xa1051895), 0xdda9b9a6, 0x72aff2e0, 0, 0xf61e2562, 5) ==
      0x3e9e9126
    ensures StepValue(G(0x3e9e9126, 0x72aff2e0, 0xe396856b), 0xa1051895, 0x3e9e9126, 0, 0xc040b340, 9) ==
      0x4a1d804e
    ensures StepValue(G(0x4a1d804e, 0x3e9e9126, 0x72aff2e0), 0xe396856b, 0x4a1d804e, 0, 0x265e5a51, 14) ==
      0xe25e1652
    ensures StepValue(G(0xe25e1652, 0x4a1d804e, 0x3e9e9126), 0x72aff2e0, 0xe25e1652, 0x80636261, 0xe9b6c7aa, 20) ==
      0xb5b204e4
  {
  }

  lemma Steps16(x: seq<Word>)
    requires Block(x) && Turns(16, INIT, x) == State(0xdda9b9a6, 0x72aff2e0, 0xe396856b, 0xa1051895)
    ensures Turns(20, INIT, x) == State(0x3e9e9126, 0xb5b204e4, 0xe25e1652, 0x4a1d804e)
  {
    hide *;
    Rows16();
    Values16();
    BlockWords(x);
    Taken(16, State(0xdda9b9a6, 0x72aff2e0, 0xe396856b, 0xa1051895), x);
    Taken(17, State(0xa1051895, 0x3e9e9126, 0x72aff2e0, 0xe396856b), x);
    Taken(18, State(0xe396856b, 0x4a1d804e, 0x3e9e9126, 0x72aff2e0), x);
    Taken(19, State(0x72aff2e0, 0xe25e1652, 0x4a1d804e, 0x3e9e9126), x);
  }

  lemma Values20()
    ensures StepValue(G(0xb5b204e4, 0xe25e1652, 0x4a1d804e), 0x3e9e9126, 0xb5b204e4, 0, 0xd62f105d, 5) ==
      0x59a8ffda
    ensures StepValue(G(0x59a8ffda, 0xb5b204e4, 0xe25e1652), 0x4a1d804e, 0x59a8ffda, 0, 0x02441453, 9) ==
      0x6d002f1e
    ensures StepValue(G(0x6d002f1e, 0x59a8ffda, 0xb5b204e4), 0xe25e1652, 0x6d002f1e, 0, 0xd8a1e681, 14) ==
      0xabfc7920
    ensures StepValue(G(0xabfc7920, 0x6d002f1e, 0x59a8ffda), 0xb5b204e4, 0xabfc7920, 0, 0xe7d3fbc8, 20) ==
      0x47092c07
  {
  }

  lemma Steps20(x: seq<Word>)
    requires Block(x) && Turns(20, INIT, x) == State(0x3e9e9126, 0xb5b204e4, 0xe25e1652, 0x4a1d804e)
    ensures Turns(24, INIT, x) == State(0x59a8ffda, 0x47092c07, 0xabfc7920, 0x6d002f1e)
  {
    hide *;
    Rows20();
    Values20();
    BlockWords(x);
    Taken(20, State(0x3e9e9126, 0xb5b204e4, 0xe25e1652, 0x4a1d804e), x);
    Taken(21, State(0x4a1d804e, 0x59a8ffda, 0xb5b204e4, 0xe25e1652), x);
    Taken(22, State(0xe25e1652, 0x6d002f1e, 0x59a8ffda, 0xb5b204e4), x);
    Taken(23, State(0xb5b204e4, 0xabfc7920, 0x6d002f1e, 0x59a8ffda), x);
  }

  lemma Values24()
    ensures StepValue(G(0x47092c07, 0xabfc7920, 0x6d002f1e), 0x59a8ffda, 0x47092c07, 0, 0x21e1cde6, 5) ==
      0xb7f268cf
    ensures StepValue(G(0xb7f268cf, 0x47092c07, 0xabfc7920), 0x6d002f1e, 0xb7f268cf, 0x00000018, 0xc33707d6, 9) ==
      0x09388eff
    ensures StepValue(G(0x09388eff, 0xb7f268cf, 0x47092c07), 0xabfc7920, 0x09388eff, 0, 0xf4d50d87, 14) ==
      0xfe1623b1
    ensures StepValue(G(0xfe1623b1, 0x09388eff, 0xb7f268cf), 0x47092c07, 0xfe1623b1, 0, 0x455a14ed, 20) ==
      0x786acb8f
  {
  }

  lemma Steps24(x: seq<Word>)
    requires Block(x) && Turns(24, INIT, x) == State(0x59a8ffda, 0x47092c07, 0xabfc7920, 0x6d002f1e)
    ensures Turns(28, INIT, x) == State(0xb7f268cf, 0x786acb8f, 0xfe1623b1, 0x09388eff)
  {
    hide *;
    Rows24();
    Values24();
    BlockWords(x);
    Taken(24, State(0x59a8ffda, 0x47092c07, 0xabfc7920, 0x6d002f1e), x);
    Taken(25, State(0x6d002f1e, 0xb7f268cf, 0x47092c07, 0xabfc7920), x);
    Taken(26, State(0xabfc7920, 0x09388eff, 0xb7f268cf, 0x47092c07), x);
    Taken(27, State(0x47092c07, 0xfe1623b1, 0x09388eff, 0xb7f268cf), x);
  }

  lemma Values28()
    ensures StepValue(G(0x786acb8f, 0xfe1623b1, 0x09388eff), 0xb7f268cf, 0x786acb8f, 0, 0xa9e3e905, 5) ==
      0x790a77fb
    ensures StepValue(G(0x790a77fb, 0x786acb8f, 0xfe1623b1), 0x09388eff, 0x790a77fb, 0, 0xfcefa3f8, 9) ==
      0x9f47e4f8
    ensures StepValue(G(0x9f47e4f8, 0x790a77fb, 0x786acb8f), 0xfe1623b1, 0x9f47e4f8, 0, 0x676f02d9, 14) ==
      0xa62884aa
    ensures StepValue(G(0xa62884aa, 0x9f47e4f8, 0x790a77fb), 0x786acb8f, 0xa62884aa, 0, 0x8d2a4c8a, 20) ==
      0x726342d3
  {
  }

  lemma Steps28(x: seq<Word>)
    requires Block(x) && Turns(28, INIT, x) == State(0xb7f268cf, 0x786acb8f, 0xfe1623b1, 0x09388eff)
    ensures Turns(32, INIT, x) == State(0x790a77fb, 0x726342d3, 0xa62884aa, 0x9f47e4f8)
  {
    hide *;
    Rows28();
    Values28();
    BlockWords(x);
    Taken(28, State(0xb7f268cf, 0x786acb8f, 0xfe1623b1, 0x09388eff), x);
    Taken(29, State(0x09388eff, 0x790a77fb, 0x786acb8f, 0xfe1623b1), x);
    Taken(30, State(0xfe1623b1, 0x9f47e4f8, 0x790a77fb, 0x786acb8f), x);
    Taken(31, State(0x786acb8f, 0xa62884aa, 0x9f47e4f8, 0x790a77fb), x);
  }

  lemma Values32()
    ensures StepValue(H(0x726342d3, 0xa62884aa, 0x9f47e4f8), 0x790a77fb, 0x726342d3, 0, 0xfffa3942, 4) ==
      0xb3707ebf
    ensures StepValue(H(0xb3707ebf, 0x726342d3, 0xa62884aa), 0x9f47e4f8, 0xb3707ebf, 0, 0x8771f681, 11) ==
      0x60127b2e
    ensures StepValue(H(0x60127b2e, 0xb3707ebf, 0x726342d3), 0xa62884aa, 0x60127b2e, 0, 0x6d9d6122, 16) ==
      0x8d212ff5
    ensures StepValue(H(0x8d212ff5, 0x60127b2e, 0xb3707ebf), 0x726342d3, 0x8d212ff5, 0x00000018, 0xfde5380c, 23) ==
      0x3b0875c7
  {
  }

  lemma Steps32(x: seq<Word>)
    requires Block(x) && Turns(32, INIT, x) == State(0x790a77fb, 0x726342d3, 0xa62884aa, 0x9f47e4f8)
    ensures Turns(36, INIT, x) == State(0xb3707ebf, 0x3b0875c7, 0x8d212ff5, 0x60127b2e)
  {
    hide *;
    Rows32();
    Values32();
    BlockWords(x);
    Taken(32, State(0x790a77fb, 0x726342d3, 0xa62884aa, 0x9f47e4f8), x);
    Taken(33, State(0x9f47e4f8, 0xb3707ebf, 0x726342d3, 0xa62884aa), x);
    Taken(34, State(0xa62884aa, 0x60127b2e, 0xb3707ebf, 0x726342d3), x);
    Taken(35, State(0x726342d3, 0x8d212ff5, 0x60127b2e, 0xb3707ebf), x);
  }

  lemma Values36()
    ensures StepValue(H(0x3b0875c7, 0x8d212ff5, 0x60127b2e), 0xb3707ebf, 0x3b0875c7, 0, 0xa4beea44, 4) ==
      0x21b117b9
    ensures StepValue(H(0x21b117b9, 0x3b0875c7, 0x8d212ff5), 0x60127b2e, 0x21b117b9, 0, 0x4bdecfa9, 11) ==
      0x6e7429d5
    ensures StepValue(H(0x6e7429d5, 0x21b117b9, 0x3b0875c7), 0x8d212ff5, 0x6e7429d5, 0, 0xf6bb4b60, 16) ==
      0x3575227e
    ensures StepValue(H(0x3575227e, 0x6e7429d5, 0x21b117b9), 0x3b0875c7, 0x3575227e, 0, 0xbebfbc70, 23) ==
      0x5a2f5ea5
  {
  }

  lemma Steps36(x: seq<Word>)
    requires Block(x) && Turns(36, INIT, x) == State(0xb3707ebf, 0x3b0875c7, 0x8d212ff5, 0x60127b2e)
    ensures Turns(40, INIT, x) == State(0x21b117b9, 0x5a2f5ea5, 0x3575227e, 0x6e7429d5)
  {
    hide *;
    Rows36();
    Values36();
    BlockWords(x);
    Taken(36, State(0xb3707ebf, 0x3b0875c7, 0x8d212ff5, 0x60127b2e), x);
    Taken(37, State(0x60127b2e, 0x21b117b9, 0x3b0875c7, 0x8d212ff5), x);
    Taken(38, State(0x8d212ff5, 0x6e7429d5, 0x21b117b9, 0x3b0875c7), x);
    Taken(39, State(0x3b0875c7, 0x3575227e, 0x6e7429d5, 0x21b117b9), x);
  }

  lemma Values40()
    ensures StepValue(H(0x5a2f5ea5, 0x3575227e, 0x6e7429d5), 0x21b117b9, 0x5a2f5ea5, 0, 0x289b7ec6, 4) ==
      0x11de1779
    ensures StepValue(H(0x11de1779, 0x5a2f5ea5, 0x3575227e), 0x6e7429d5, 0x11de1779, 0x80636261, 0xeaa127fa, 11) ==
      0xfadcaa38
    ensures StepValue(H(0xfadcaa38, 0x11de1779, 0x5a2f5ea5), 0x3575227e, 0xfadcaa38, 0, 0xd4ef3085, 16) ==
      0x31c465ca
    ensures StepValue(H(0x31c465ca, 0xfadcaa38, 0x11de1779), 0x5a2f5ea5, 0x31c465ca, 0, 0x04881d05, 23) ==
      0x4c6124f4
  {
  }

  lemma Steps40(x: seq<Word>)
    requires Block(x) && Turns(40, INIT, x) == State(0x21b117b9, 0x5a2f5ea5, 0x3575227e, 0x6e7429d5)
    ensures Turns(44, INIT, x) == State(0x11de1779, 0x4c6124f4, 0x31c465ca, 0xfadcaa38)
  {
    hide *;
    Rows40();
    Values40();
    BlockWords(x);
    Taken(40, State(0x21b117b9, 0x5a2f5ea5, 0x3575227e, 0x6e7429d5), x);
    Taken(41, State(0x6e7429d5, 0x11de1779, 0x5a2f5ea5, 0x3575227e), x);
    Taken(42, State(0x3575227e, 0xfadcaa38, 0x11de1779, 0x5a2f5ea5), x);
    Taken(43, State(0x5a2f5ea5, 0x31c465ca, 0xfadcaa38, 0x11de1779), x);
  }

  lemma Values44()
    ensures StepValue(H(0x4c6124f4, 0x31c465ca, 0xfadcaa38), 0x11de1779, 0x4c6124f4, 0, 0xd9d4d039, 4) ==
      0x7f2e507b
    ensures StepValue(H(0x7f2e507b, 0x4c6124f4, 0x31c465ca), 0xfadcaa38, 0x7f2e507b, 0, 0xe6db99e5, 11) ==
      0x99d9679d
    ensures StepValue(H(0x99d9679d, 0x7f2e507b, 0x4c6124f4), 0x31c465ca, 0x99d9679d, 0, 0x1fa27cf8, 16) ==
      0x8fae6399
    ensures StepValue(H(0x8fae6399, 0x99d9679d, 0x7f2e507b), 0x4c6124f4, 0x8fae6399, 0, 0xc4ac5665, 23) ==
      0x7beb9700
  {
  }

  lemma Steps44(x: seq<Word>)
    requires Block(x) && Turns(44, INIT, x) == State(0x11de1779, 0x4c6124f4, 0x31c465ca, 0xfadcaa38)
    ensures Turns(48, INIT, x) == State(0x7f2e507b, 0x7beb9700, 0x8fae6399, 0x99d9679d)
  {
    hide *;
    Rows44();
    Values44();
    BlockWords(x);
    Taken(44, State(0x11de1779, 0x4c6124f4, 0x31c465ca, 0xfadcaa38), x);
    Taken(45, State(0xfadcaa38, 0x7f2e507b, 0x4c6124f4, 0x31c465ca), x);
    Taken(46, State(0x31c465ca, 0x99d9679d, 0x7f2e507b, 0x4c6124f4), x);
    Taken(47, State(0x4c6124f4, 0x8fae6399, 0x99d9679d, 0x7f2e507b), x);
  }

  lemma Values48()
    ensures StepValue(I(0x7beb9700, 0x8fae6399, 0x99d9679d), 0x7f2e507b, 0x7beb9700, 0x80636261, 0xf4292244, 6) ==
      0x7b201df8
    ensures StepValue(I(0x7b201df8, 0x7beb9700, 0x8fae6399), 0x99d9679d, 0x7b201df8, 0, 0x432aff97, 10) ==
      0xf4e8e96e
    ensures StepValue(I(0xf4e8e96e, 0x7b201df8, 0x7beb9700), 0x8fae6399, 0xf4e8e96e, 0x00000018, 0xab9423a7, 15) ==
      0xb298cefd
    ensures StepValue(I(0xb298cefd, 0xf4e8e96e, 0x7b201df8), 0x7beb9700, 0xb298cefd, 0, 0xfc93a039, 21) ==
      0x8bf025c4
  {
  }

  lemma Steps48(x: seq<Word>)
    requires Block(x) && Turns(48, INIT, x) == State(0x7f2e507b, 0x7beb9700, 0x8fae6399, 0x99d9679d)
    ensures Turns(52, INIT, x) == State(0x7b201df8, 0x8bf025c4, 0xb298cefd, 0xf4e8e96e)
  {
    hide *;
    Rows48();
    Values48();
    BlockWords(x);
    Taken(48, State(0x7f2e507b, 0x7beb9700, 0x8fae6399, 0x99d9679d), x);
    Taken(49, State(0x99d9679d, 0x7b201df8, 0x7beb9700, 0x8fae6399), x);
    Taken(50, State(0x8fae6399, 0xf4e8e96e, 0x7b201df8, 0x7beb9700), x);
    Taken(51, State(0x7beb9700, 0xb298cefd, 0xf4e8e96e, 0x7b201df8), x);
  }

  lemma Values52()
    ensures StepValue(I(0x8bf025c4, 0xb298cefd, 0xf4e8e96e), 0x7b201df8, 0x8bf025c4, 0, 0x655b59c3, 6) ==
      0x06cc5e8a
    ensures StepValue(I(0x06cc5e8a, 0x8bf025c4, 0xb298cefd), 0xf4e8e96e, 0x06cc5e8a, 0, 0x8f0ccc92, 10) ==
      0x5b0d97aa
    ensures StepValue(I(0x5b0d97aa, 0x06cc5e8a, 0x8bf025c4), 0xb298cefd, 0x5b0d97aa, 0, 0xffeff47d, 15) ==
      0x7d632dd0
    ensures StepValue(I(0x7d632dd0, 0x5b0d97aa, 0x06cc5e8a), 0x8bf025c4, 0x7d632dd0, 0, 0x85845dd1, 21) ==
      0x3bfa2c27
  {
  }

  lemma Steps52(x: seq<Word>)
    requires Block(x) && Turns(52, INIT, x) == State(0x7b201df8, 0x8bf025c4, 0xb298cefd, 0xf4e8e96e)
    ensures Turns(56, INIT, x) == State(0x06cc5e8a, 0x3bfa2c27, 0x7d632dd0, 0x5b0d97aa)
  {
    hide *;
    Rows52();
    Values52();
    BlockWords(x);
    Taken(52, State(0x7b201df8, 0x8bf025c4, 0xb298cefd, 0xf4e8e96e), x);
    Taken(53, State(0xf4e8e96e, 0x06cc5e8a, 0x8bf025c4, 0xb298cefd), x);
    Taken(54, State(0xb298cefd, 0x5b0d97aa, 0x06cc5e8a, 0x8bf025c4), x);
    Taken(55, State(0x8bf025c4, 0x7d632dd0, 0x5b0d97aa, 0x06cc5e8a), x);
  }

  lemma Values56()
    ensures StepValue(I(0x3bfa2c27, 0x7d632dd0, 0x5b0d97aa), 0x06cc5e8a, 0x3bfa2c27, 0, 0x6fa87e4f, 6) ==
      0x7f81cc35
    ensures StepValue(I(0x7f81cc35, 0x3bfa2c27, 0x7d632dd0), 0x5b0d97aa, 0x7f81cc35, 0, 0xfe2ce6e0, 10) ==
      0x094454ab
    ensures StepValue(I(0x094454ab, 0x7f81cc35, 0x3bfa2c27), 0x7d632dd0, 0x094454ab, 0, 0xa3014314, 15) ==
      0x4f9dbe3f
    ensures StepValue(I(0x4f9dbe3f, 0x094454ab, 0x7f81cc35), 0x3bfa2c27, 0x4f9dbe3f, 0, 0x4e0811a1, 21) ==
      0x7327d604
  {
  }

  lemma Steps56(x: seq<Word>)
    requires Block(x) && Turns(56, INIT, x) == State(0x06cc5e8a, 0x3bfa2c27, 0x7d632dd0, 0x5b0d97aa)
    ensures Turns(60, INIT, x) == State(0x7f81cc35, 0x7327d604, 0x4f9dbe3f, 0x094454ab)
  {
    hide *;
    Rows56();
    Values56();
    BlockWords(x);
    Taken(56, State(0x06cc5e8a, 0x3bfa2c27, 0x7d632dd0, 0x5b0d97aa), x);
    Taken(57, State(0x5b0d97aa, 0x7f81cc35, 0x3bfa2c27, 0x7d632dd0), x);
    Taken(58, State(0x7d632dd0, 0x094454ab, 0x7f81cc35, 0x3bfa2c27), x);
    Taken(59, State(0x3bfa2c27, 0x4f9dbe3f, 0x094454ab, 0x7f81cc35), x);
  }

  lemma Values60()
    ensures StepValue(I(0x7327d604, 0x4f9dbe3f, 0x094454ab), 0x7f81cc35, 0x7327d604, 0, 0xf7537e82, 6) ==
      0x310ade8f
    ensures StepValue(I(0x310ade8f, 0x7327d604, 0x4f9dbe3f), 0x094454ab, 0x310ade8f, 0, 0xbd3af235, 10) ==
      0x624d8cb2
    ensures StepValue(I(0x624d8cb2, 0x310ade8f, 0x7327d604), 0x4f9dbe3f, 0x624d8cb2, 0, 0x2ad7d2bb, 15) ==
      0xe484b9d8
    ensures StepValue(I(0xe484b9d8, 0x624d8cb2, 0x310ade8f), 0x7327d604, 0xe484b9d8, 0, 0xeb86d391, 21) ==
      0xc08226b3
  {
  }

  lemma Steps60(x: seq<Word>)
    requires Block(x) && Turns(60, INIT, x) == State(0x7f81cc35, 0x7327d604, 0x4f9dbe3f, 0x094454ab)
    ensures Turns(64, INIT, x) == State(0x310ade8f, 0xc08226b3, 0xe484b9d8, 0x624d8cb2)
  {
    hide *;
    Rows60();
    Values60();
    BlockWords(x);
    Taken(60, State(0x7f81cc35, 0x7327d604, 0x4f9dbe3f, 0x094454ab), x);
    Taken(61, State(0x094454ab, 0x310ade8f, 0x7327d604, 0x4f9dbe3f), x);
    Taken(62, State(0x4f9dbe3f, 0x624d8cb2, 0x310ade8f, 0x7327d604), x);
    Taken(63, State(0x7327d604, 0xe484b9d8, 0x624d8cb2, 0x310ade8f), x);
  }

  lemma Rounds(x: seq<Word>)
    requires Block(x)
    ensures Turns(64, INIT, x) == State(0x310ade8f, 0xc08226b3, 0xe484b9d8, 0x624d8cb2)
  {
    BlockWords(x);
    assert Turns(0, INIT, x) == INIT;
    hide *;
    Steps0(x);
    Steps4(x);
    Steps8(x);
    Steps12(x);
    Steps16(x);
    Steps20(x);
    Steps24(x);
    Steps28(x);
    Steps32(x);
    Steps36(x);
    Steps40(x);
    Steps44(x);
    Steps48(x);
    Steps52(x);
    Steps56(x);
    Steps60(x);
  }

  function Message(): (m: seq<Byte>)
    ensures |m| == 3
  {
    [0x61, 0x62, 0x63]
  }

  /** The message, a one bit, zeros, and the length of 24 bits. */
  lemma PaddedIs()
    ensures
      var p := Padded(Message());
      |p| == 64 && p[0] == 0x61 && p[1] == 0x62 && p[2] == 0x63 && p[3] == 0x80 && p[56] == 24 &&
      forall i :: 4 <= i < 64 && i != 56 ==> p[i] == 0
  {
    LengthIs();
    hide LittleEndian, BitLength;
    assert Padding(3) == [0x80] + Zeros(52);
  }

  lemma LengthIs()
    ensures BitLength(3) == 24 && LittleEndian(24, 8) == [24, 0, 0, 0, 0, 0, 0, 0]
  {
    Zero(7);
    assert ByteOf(24) == 24 && 24 / 256 == 0;
  }

  lemma {:induction false} Zero(n: nat)
    ensures LittleEndian(0, n) == Zeros(n)
  {
    if n > 0 {
      Zero(n - 1);
      assert ByteOf(0) == 0;
    }
  }

  lemma WordsAre(p: seq<Byte>)
    requires |p| == 64 && p[0] == 0x61 && p[1] == 0x62 && p[2] == 0x63 && p[3] == 0x80 && p[56] == 24
    requires forall i :: 4 <= i < 64 && i != 56 ==> p[i] == 0
    ensures Block(Words(p))
  {
    WordValues();
    hide Word32;
    var x := Words(p);
    assert forall i :: 0 < i < 16 && i != 14 ==> x[i] == Word32(0, 0, 0, 0);
  }

  lemma WordValues()
    ensures Word32(0x61, 0x62, 0x63, 0x80) == 0x80636261 && Word32(24, 0, 0, 0) == 24 && Word32(0, 0, 0, 0) == 0
  {
  }

  lemma SumIs()
    ensures Plus(State(0x310ade8f, 0xc08226b3, 0xe484b9d8, 0x624d8cb2), INIT) ==
      State(0x98500190, 0xb04fd23c, 0x7d3f96d6, 0x727fe128)
    ensures Output(State(0x98500190, 0xb04fd23c, 0x7d3f96d6, 0x727fe128)) == Expected()
  {
  }

  function Expected(): seq<Byte> {
    [0x90, 0x01, 0x50, 0x98, 0x3c, 0xd2, 0x4f, 0xb0, 0xd6, 0x96, 0x3f, 0x7d, 0x28, 0xe1, 0x7f, 0x72]
  }

  /** MD5("abc") */
  lemma Abc()
    ensures Digest(Message()) == Expected()
  {
    hide Turns, Words, Padded, Message, Expected, Output, Block, Plus;
    var p := Padded(Message());
    PaddedIs();
    WordsAre(p);
    FoldOne(INIT, p);
    Rounds(Words(p));
    SumIs();
  }
}
