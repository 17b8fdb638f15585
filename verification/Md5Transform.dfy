/** base/md5.cc: the compression function with its 64 steps written out. */
module Md5Transform {
  import opened Words
  import opened Md5Spec

  // The macros F1 to F4; F1 is a cheaper form of F, and F2 is F1 with its arguments moved round.
  function F1(x: Word, y: Word, z: Word): Word { z ^ (x & (y ^ z)) }
  function F2(x: Word, y: Word, z: Word): Word { F1(z, x, y) }
  function F3(x: Word, y: Word, z: Word): Word { x ^ y ^ z }
  function F4(x: Word, y: Word, z: Word): Word { y ^ (x | !z) }

  /** The macro MD5STEP with data in[k] + constant: what it leaves in w. */
  function Md5Step(f: Word, w: Word, x: Word, word: Word, constant: Word, s: Word): Word
    requires 0 < s < 32
  {
    RotateLeft(w + (f + (word + constant)), s) + x
  }

  lemma CheaperSelect(x: Word, y: Word, z: Word)
    ensures z ^ (x & (y ^ z)) == (x & y) | (!x & z)
  {
  }

  lemma SelectBySecond(x: Word, y: Word, z: Word)
    ensures (z & x) | (!z & y) == (x & z) | (y & !z)
  {
  }

  lemma F1IsF(x: Word, y: Word, z: Word)
    ensures F1(x, y, z) == F(x, y, z)
  {
    CheaperSelect(x, y, z);
  }

  lemma F2IsG(x: Word, y: Word, z: Word)
    ensures F2(x, y, z) == G(x, y, z)
  {
    CheaperSelect(z, x, y);
    SelectBySecond(x, y, z);
  }

  lemma StepIsTurn(f: Word, w: Word, x: Word, word: Word, constant: Word, s: Word)
    requires 0 < s < 32
    ensures Md5Step(f, w, x, word, constant, s) == Turn(w, x, f, word, constant, s)
  {
    hide RotateLeft;
  }

  /** The function that step i of the source uses. */
  function Chosen(i: nat, x: Word, y: Word, z: Word): Word {
    if i < 16 then F1(x, y, z) else if i < 32 then F2(x, y, z) else if i < 48 then F3(x, y, z) else F4(x, y, z)
  }

  lemma Choices()
    ensures forall i: nat, x, y, z :: i < 16 ==> Chosen(i, x, y, z) == F1(x, y, z)
    ensures forall i: nat, x, y, z :: 16 <= i < 32 ==> Chosen(i, x, y, z) == F2(x, y, z)
    ensures forall i: nat, x, y, z :: 32 <= i < 48 ==> Chosen(i, x, y, z) == F3(x, y, z)
    ensures forall i: nat, x, y, z :: 48 <= i ==> Chosen(i, x, y, z) == F4(x, y, z)
  {
    hide F1, F2, F3, F4;
  }

  lemma ChosenIsMix(i: nat, x: Word, y: Word, z: Word)
    requires i < 64
    ensures Chosen(i, x, y, z) == Mix(i, x, y, z)
  {
    F1IsF(x, y, z);
    F2IsG(x, y, z);
    hide F1, F2, F, G;
  }

  lemma OneStep(i: nat, r: Regs, x: seq<Word>)
    requires i < 64 && |x| == 16
    ensures Op(i, r, x) == Regs(r.d, Md5Step(Chosen(i, r.b, r.c, r.d), r.a, r.b, x[K(i)], T(i), S(i)), r.b, r.c)
  {
    hide T, K, S, Mix, Chosen, Turn, Md5Step;
    ChosenIsMix(i, r.b, r.c, r.d);
    StepIsTurn(Mix(i, r.b, r.c, r.d), r.a, r.b, x[K(i)], T(i), S(i));
  }

  lemma FourSteps(i: nat, r: Regs, x: seq<Word>)
    requires i <= 60 && |x| == 16
    ensures Op(i + 3, Op(i + 2, Op(i + 1, Op(i, r, x), x), x), x) ==
      var a := Md5Step(Chosen(i, r.b, r.c, r.d), r.a, r.b, x[K(i)], T(i), S(i));
      var d := Md5Step(Chosen(i + 1, a, r.b, r.c), r.d, a, x[K(i + 1)], T(i + 1), S(i + 1));
      var c := Md5Step(Chosen(i + 2, d, a, r.b), r.c, d, x[K(i + 2)], T(i + 2), S(i + 2));
      var b := Md5Step(Chosen(i + 3, c, d, a), r.b, c, x[K(i + 3)], T(i + 3), S(i + 3));
      Regs(a, b, c, d)
  {
    hide Op, Md5Step, Chosen, T, K, S;
    OneStep(i, r, x);
    OneStep(i + 1, Op(i, r, x), x);
    OneStep(i + 2, Op(i + 1, Op(i, r, x), x), x);
    OneStep(i + 3, Op(i + 2, Op(i + 1, Op(i, r, x), x), x), x);
  }

  lemma NextFour(first: nat, n: nat, r: Regs, x: seq<Word>)
    requires first + n + 4 <= 64 && |x| == 16
    ensures Steps(first, n + 4, r, x)
         == Op(first + n + 3, Op(first + n + 2, Op(first + n + 1, Op(first + n, Steps(first, n, r, x), x), x), x), x)
  {
    hide Op;
    assert Steps(first, n + 2, r, x) == Op(first + n + 1, Op(first + n, Steps(first, n, r, x), x), x);
  }

  /** Row by row, the words, constants and rotations of round 1. */
  lemma Table1()
    ensures K(0) == 0 && T(0) == 0xd76aa478 && S(0) == 7
    ensures K(1) == 1 && T(1) == 0xe8c7b756 && S(1) == 12
    ensures K(2) == 2 && T(2) == 0x242070db && S(2) == 17
    ensures K(3) == 3 && T(3) == 0xc1bdceee && S(3) == 22
    ensures K(4) == 4 && T(4) == 0xf57c0faf && S(4) == 7
    ensures K(5) == 5 && T(5) == 0x4787c62a && S(5) == 12
    ensures K(6) == 6 && T(6) == 0xa8304613 && S(6) == 17
    ensures K(7) == 7 && T(7) == 0xfd469501 && S(7) == 22
    ensures K(8) == 8 && T(8) == 0x698098d8 && S(8) == 7
    ensures K(9) == 9 && T(9) == 0x8b44f7af && S(9) == 12
    ensures K(10) == 10 && T(10) == 0xffff5bb1 && S(10) == 17
    ensures K(11) == 11 && T(11) == 0x895cd7be && S(11) == 22
    ensures K(12) == 12 && T(12) == 0x6b901122 && S(12) == 7
    ensures K(13) == 13 && T(13) == 0xfd987193 && S(13) == 12
    ensures K(14) == 14 && T(14) == 0xa679438e && S(14) == 17
    ensures K(15) == 15 && T(15) == 0x49b40821 && S(15) == 22
  {
    hide T2, T3, T4;
  }

  /** Row by row, the words, constants and rotations of round 2. */
  lemma Table2()
    ensures K(16) == 1 && T(16) == 0xf61e2562 && S(16) == 5
    ensures K(17) == 6 && T(17) == 0xc040b340 && S(17) == 9
    ensures K(18) == 11 && T(18) == 0x265e5a51 && S(18) == 14
    ensures K(19) == 0 && T(19) == 0xe9b6c7aa && S(19) == 20
    ensures K(20) == 5 && T(20) == 0xd62f105d && S(20) == 5
    ensures K(21) == 10 && T(21) == 0x02441453 && S(21) == 9
    ensures K(22) == 15 && T(22) == 0xd8a1e681 && S(22) == 14
    ensures K(23) == 4 && T(23) == 0xe7d3fbc8 && S(23) == 20
    ensures K(24) == 9 && T(24) == 0x21e1cde6 && S(24) == 5
    ensures K(25) == 14 && T(25) == 0xc33707d6 && S(25) == 9
    ensures K(26) == 3 && T(26) == 0xf4d50d87 && S(26) == 14
    ensures K(27) == 8 && T(27) == 0x455a14ed && S(27) == 20
    ensures K(28) == 13 && T(28) == 0xa9e3e905 && S(28) == 5
    ensures K(29) == 2 && T(29) == 0xfcefa3f8 && S(29) == 9
    ensures K(30) == 7 && T(30) == 0x676f02d9 && S(30) == 14
    ensures K(31) == 12 && T(31) == 0x8d2a4c8a && S(31) == 20
  {
    hide T1, T3, T4;
  }

  /** Row by row, the words, constants and rotations of round 3. */
  lemma Table3()
    ensures K(32) == 5 && T(32) == 0xfffa3942 && S(32) == 4
    ensures K(33) == 8 && T(33) == 0x8771f681 && S(33) == 11
    ensures K(34) == 11 && T(34) == 0x6d9d6122 && S(34) == 16
    ensures K(35) == 14 && T(35) == 0xfde5380c && S(35) == 23
    ensures K(36) == 1 && T(36) == 0xa4beea44 && S(36) == 4
    ensures K(37) == 4 && T(37) == 0x4bdecfa9 && S(37) == 11
    ensures K(38) == 7 && T(38) == 0xf6bb4b60 && S(38) == 16
    ensures K(39) == 10 && T(39) == 0xbebfbc70 && S(39) == 23
    ensures K(40) == 13 && T(40) == 0x289b7ec6 && S(40) == 4
    ensures K(41) == 0 && T(41) == 0xeaa127fa && S(41) == 11
    ensures K(42) == 3 && T(42) == 0xd4ef3085 && S(42) == 16
    ensures K(43) == 6 && T(43) == 0x04881d05 && S(43) == 23
    ensures K(44) == 9 && T(44) == 0xd9d4d039 && S(44) == 4
    ensures K(45) == 12 && T(45) == 0xe6db99e5 && S(45) == 11
    ensures K(46) == 15 && T(46) == 0x1fa27cf8 && S(46) == 16
    ensures K(47) == 2 && T(47) == 0xc4ac5665 && S(47) == 23
  {
    hide T1, T2, T4;
  }

  /** Row by row, the words, constants and rotations of round 4. */
  lemma Table4()
    ensures K(48) == 0 && T(48) == 0xf4292244 && S(48) == 6
    ensures K(49) == 7 && T(49) == 0x432aff97 && S(49) == 10
    ensures K(50) == 14 && T(50) == 0xab9423a7 && S(50) == 15
    ensures K(51) == 5 && T(51) == 0xfc93a039 && S(51) == 21
    ensures K(52) == 12 && T(52) == 0x655b59c3 && S(52) == 6
    ensures K(53) == 3 && T(53) == 0x8f0ccc92 && S(53) == 10
    ensures K(54) == 10 && T(54) == 0xffeff47d && S(54) == 15
    ensures K(55) == 1 && T(55) == 0x85845dd1 && S(55) == 21
    ensures K(56) == 8 && T(56) == 0x6fa87e4f && S(56) == 6
    ensures K(57) == 15 && T(57) == 0xfe2ce6e0 && S(57) == 10
    ensures K(58) == 6 && T(58) == 0xa3014314 && S(58) == 15
    ensures K(59) == 13 && T(59) == 0x4e0811a1 && S(59) == 21
    ensures K(60) == 4 && T(60) == 0xf7537e82 && S(60) == 6
    ensures K(61) == 11 && T(61) == 0xbd3af235 && S(61) == 10
    ensures K(62) == 2 && T(62) == 0x2ad7d2bb && S(62) == 15
    ensures K(63) == 9 && T(63) == 0xeb86d391 && S(63) == 21
  {
    hide T1, T2, T3;
  }

  lemma NoSteps(first: nat, r: Regs, x: seq<Word>)
    requires first <= 64 && |x| == 16
    ensures Steps(first, 0, r, x) == r
  {
  }

  method RoundOne(r0: Regs, x: seq<Word>) returns (r: Regs)
    requires |x| == 16
    ensures r == Steps(0, 16, r0, x)
  {
    hide *;
    Table1();
    Choices();
    var Regs(a, b, c, d) := r0;
    NoSteps(0, r0, x);
    ghost var r1 := Regs(a, b, c, d);
    a := Md5Step(F1(b, c, d), a, b, x[0], 0xd76aa478, 7);
    d := Md5Step(F1(a, b, c), d, a, x[1], 0xe8c7b756, 12);
    c := Md5Step(F1(d, a, b), c, d, x[2], 0x242070db, 17);
    b := Md5Step(F1(c, d, a), b, c, x[3], 0xc1bdceee, 22);
    FourSteps(0, r1, x);
    NextFour(0, 0, r0, x);
    assert Regs(a, b, c, d) == Steps(0, 4, r0, x);
    ghost var r2 := Regs(a, b, c, d);
    a := Md5Step(F1(b, c, d), a, b, x[4], 0xf57c0faf, 7);
    d := Md5Step(F1(a, b, c), d, a, x[5], 0x4787c62a, 12);
    c := Md5Step(F1(d, a, b), c, d, x[6], 0xa8304613, 17);
    b := Md5Step(F1(c, d, a), b, c, x[7], 0xfd469501, 22);
    FourSteps(4, r2, x);
    NextFour(0, 4, r0, x);
    assert Regs(a, b, c, d) == Steps(0, 8, r0, x);
    ghost var r3 := Regs(a, b, c, d);
    a := Md5Step(F1(b, c, d), a, b, x[8], 0x698098d8, 7);
    d := Md5Step(F1(a, b, c), d, a, x[9], 0x8b44f7af, 12);
    c := Md5Step(F1(d, a, b), c, d, x[10], 0xffff5bb1, 17);
    b := Md5Step(F1(c, d, a), b, c, x[11], 0x895cd7be, 22);
    FourSteps(8, r3, x);
    NextFour(0, 8, r0, x);
    assert Regs(a, b, c, d) == Steps(0, 12, r0, x);
    ghost var r4 := Regs(a, b, c, d);
    a := Md5Step(F1(b, c, d), a, b, x[12], 0x6b901122, 7);
    d := Md5Step(F1(a, b, c), d, a, x[13], 0xfd987193, 12);
    c := Md5Step(F1(d, a, b), c, d, x[14], 0xa679438e, 17);
    b := Md5Step(F1(c, d, a), b, c, x[15], 0x49b40821, 22);
    FourSteps(12, r4, x);
    NextFour(0, 12, r0, x);
    assert Regs(a, b, c, d) == Steps(0, 16, r0, x);
    r := Regs(a, b, c, d);
  }

  method RoundTwo(r0: Regs, x: seq<Word>) returns (r: Regs)
    requires |x| == 16
    ensures r == Steps(16, 16, r0, x)
  {
    hide *;
    Table2();
    Choices();
    var Regs(a, b, c, d) := r0;
    NoSteps(16, r0, x);
    ghost var r1 := Regs(a, b, c, d);
    a := Md5Step(F2(b, c, d), a, b, x[1], 0xf61e2562, 5);
    d := Md5Step(F2(a, b, c), d, a, x[6], 0xc040b340, 9);
    c := Md5Step(F2(d, a, b), c, d, x[11], 0x265e5a51, 14);
    b := Md5Step(F2(c, d, a), b, c, x[0], 0xe9b6c7aa, 20);
    FourSteps(16, r1, x);
    NextFour(16, 0, r0, x);
    assert Regs(a, b, c, d) == Steps(16, 4, r0, x);
    ghost var r2 := Regs(a, b, c, d);
    a := Md5Step(F2(b, c, d), a, b, x[5], 0xd62f105d, 5);
    d := Md5Step(F2(a, b, c), d, a, x[10], 0x02441453, 9);
    c := Md5Step(F2(d, a, b), c, d, x[15], 0xd8a1e681, 14);
    b := Md5Step(F2(c, d, a), b, c, x[4], 0xe7d3fbc8, 20);
    FourSteps(20, r2, x);
    NextFour(16, 4, r0, x);
    assert Regs(a, b, c, d) == Steps(16, 8, r0, x);
    ghost var r3 := Regs(a, b, c, d);
    a := Md5Step(F2(b, c, d), a, b, x[9], 0x21e1cde6, 5);
    d := Md5Step(F2(a, b, c), d, a, x[14], 0xc33707d6, 9);
    c := Md5Step(F2(d, a, b), c, d, x[3], 0xf4d50d87, 14);
    b := Md5Step(F2(c, d, a), b, c, x[8], 0x455a14ed, 20);
    FourSteps(24, r3, x);
    NextFour(16, 8, r0, x);
    assert Regs(a, b, c, d) == Steps(16, 12, r0, x);
    ghost var r4 := Regs(a, b, c, d);
    a := Md5Step(F2(b, c, d), a, b, x[13], 0xa9e3e905, 5);
    d := Md5Step(F2(a, b, c), d, a, x[2], 0xfcefa3f8, 9);
    c := Md5Step(F2(d, a, b), c, d, x[7], 0x676f02d9, 14);
    b := Md5Step(F2(c, d, a), b, c, x[12], 0x8d2a4c8a, 20);
    FourSteps(28, r4, x);
    NextFour(16, 12, r0, x);
    assert Regs(a, b, c, d) == Steps(16, 16, r0, x);
    r := Regs(a, b, c, d);
  }

  method RoundThree(r0: Regs, x: seq<Word>) returns (r: Regs)
    requires |x| == 16
    ensures r == Steps(32, 16, r0, x)
  {
    hide *;
    Table3();
    Choices();
    var Regs(a, b, c, d) := r0;
    NoSteps(32, r0, x);
    ghost var r1 := Regs(a, b, c, d);
    a := Md5Step(F3(b, c, d), a, b, x[5], 0xfffa3942, 4);
    d := Md5Step(F3(a, b, c), d, a, x[8], 0x8771f681, 11);
    c := Md5Step(F3(d, a, b), c, d, x[11], 0x6d9d6122, 16);
    b := Md5Step(F3(c, d, a), b, c, x[14], 0xfde5380c, 23);
    FourSteps(32, r1, x);
    NextFour(32, 0, r0, x);
    assert Regs(a, b, c, d) == Steps(32, 4, r0, x);
    ghost var r2 := Regs(a, b, c, d);
    a := Md5Step(F3(b, c, d), a, b, x[1], 0xa4beea44, 4);
    d := Md5Step(F3(a, b, c), d, a, x[4], 0x4bdecfa9, 11);
    c := Md5Step(F3(d, a, b), c, d, x[7], 0xf6bb4b60, 16);
    b := Md5Step(F3(c, d, a), b, c, x[10], 0xbebfbc70, 23);
    FourSteps(36, r2, x);
    NextFour(32, 4, r0, x);
    assert Regs(a, b, c, d) == Steps(32, 8, r0, x);
    ghost var r3 := Regs(a, b, c, d);
    a := Md5Step(F3(b, c, d), a, b, x[13], 0x289b7ec6, 4);
    d := Md5Step(F3(a, b, c), d, a, x[0], 0xeaa127fa, 11);
    c := Md5Step(F3(d, a, b), c, d, x[3], 0xd4ef3085, 16);
    b := Md5Step(F3(c, d, a), b, c, x[6], 0x04881d05, 23);
    FourSteps(40, r3, x);
    NextFour(32, 8, r0, x);
    assert Regs(a, b, c, d) == Steps(32, 12, r0, x);
    ghost var r4 := Regs(a, b, c, d);
    a := Md5Step(F3(b, c, d), a, b, x[9], 0xd9d4d039, 4);
    d := Md5Step(F3(a, b, c), d, a, x[12], 0xe6db99e5, 11);
    c := Md5Step(F3(d, a, b), c, d, x[15], 0x1fa27cf8, 16);
    b := Md5Step(F3(c, d, a), b, c, x[2], 0xc4ac5665, 23);
    FourSteps(44, r4, x);
    NextFour(32, 12, r0, x);
    assert Regs(a, b, c, d) == Steps(32, 16, r0, x);
    r := Regs(a, b, c, d);
  }

  method RoundFour(r0: Regs, x: seq<Word>) returns (r: Regs)
    requires |x| == 16
    ensures r == Steps(48, 16, r0, x)
  {
    hide *;
    Table4();
    Choices();
    var Regs(a, b, c, d) := r0;
    NoSteps(48, r0, x);
    ghost var r1 := Regs(a, b, c, d);
    a := Md5Step(F4(b, c, d), a, b, x[0], 0xf4292244, 6);
    d := Md5Step(F4(a, b, c), d, a, x[7], 0x432aff97, 10);
    c := Md5Step(F4(d, a, b), c, d, x[14], 0xab9423a7, 15);
    b := Md5Step(F4(c, d, a), b, c, x[5], 0xfc93a039, 21);
    FourSteps(48, r1, x);
    NextFour(48, 0, r0, x);
    assert Regs(a, b, c, d) == Steps(48, 4, r0, x);
    ghost var r2 := Regs(a, b, c, d);
    a := Md5Step(F4(b, c, d), a, b, x[12], 0x655b59c3, 6);
    d := Md5Step(F4(a, b, c), d, a, x[3], 0x8f0ccc92, 10);
    c := Md5Step(F4(d, a, b), c, d, x[10], 0xffeff47d, 15);
    b := Md5Step(F4(c, d, a), b, c, x[1], 0x85845dd1, 21);
    FourSteps(52, r2, x);
    NextFour(48, 4, r0, x);
    assert Regs(a, b, c, d) == Steps(48, 8, r0, x);
    ghost var r3 := Regs(a, b, c, d);
    a := Md5Step(F4(b, c, d), a, b, x[8], 0x6fa87e4f, 6);
    d := Md5Step(F4(a, b, c), d, a, x[15], 0xfe2ce6e0, 10);
    c := Md5Step(F4(d, a, b), c, d, x[6], 0xa3014314, 15);
    b := Md5Step(F4(c, d, a), b, c, x[13], 0x4e0811a1, 21);
    FourSteps(56, r3, x);
    NextFour(48, 8, r0, x);
    assert Regs(a, b, c, d) == Steps(48, 12, r0, x);
    ghost var r4 := Regs(a, b, c, d);
    a := Md5Step(F4(b, c, d), a, b, x[4], 0xf7537e82, 6);
    d := Md5Step(F4(a, b, c), d, a, x[11], 0xbd3af235, 10);
    c := Md5Step(F4(d, a, b), c, d, x[2], 0x2ad7d2bb, 15);
    b := Md5Step(F4(c, d, a), b, c, x[9], 0xeb86d391, 21);
    FourSteps(60, r4, x);
    NextFour(48, 12, r0, x);
    assert Regs(a, b, c, d) == Steps(48, 16, r0, x);
    r := Regs(a, b, c, d);
  }

  /** The body of MD5Transform up to the final additions. */
  method AllRounds(r0: Regs, x: seq<Word>) returns (r: Regs)
    requires |x| == 16
    ensures r == Steps(0, 64, r0, x)
  {
    r := RoundOne(r0, x);
    r := RoundTwo(r, x);
    r := RoundThree(r, x);
    r := RoundFour(r, x);
    Rounds(r0, x);
  }

  lemma {:induction false} StepsSplit(first: nat, m: nat, n: nat, r: Regs, x: seq<Word>)
    requires first + m + n <= 64 && |x| == 16
    ensures Steps(first, m + n, r, x) == Steps(first + m, n, Steps(first, m, r, x), x)
  {
    hide Op;
    if n > 0 {
      StepsSplit(first, m, n - 1, r, x);
    }
  }

  lemma Rounds(r: Regs, x: seq<Word>)
    requires |x| == 16
    ensures Steps(0, 64, r, x) == Steps(48, 16, Steps(32, 16, Steps(16, 16, Steps(0, 16, r, x), x), x), x)
  {
    hide Steps;
    StepsSplit(0, 16, 48, r, x);
    StepsSplit(16, 16, 32, Steps(0, 16, r, x), x);
    StepsSplit(32, 16, 16, Steps(16, 16, Steps(0, 16, r, x), x), x);
  }

}
