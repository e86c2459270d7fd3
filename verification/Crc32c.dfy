/** CRC32C as the software loop computes it (section 12.1 of RFC 3720): reflected polynomial,
    one bit at a time, complemented at the end. */
module Crc32c {
  import opened Bytes

  const POLY: bv32 := 0x82F63B78

  /** One bit: `(crc >> 1) ^ (POLY * (crc & 1))`. */
  function BitStep(crc: bv32): bv32 {
    (crc >> 1) ^ (POLY * (crc & 1))
  }

  function Steps(crc: bv32, n: nat): bv32
    decreases n
  {
    if n == 0 then crc else Steps(BitStep(crc), n - 1)
  }

  function Xor(x: bv32, y: bv32): bv32 {
    x ^ y
  }

  function Twice(w: bv32): bv32 {
    w << 1
  }

  function TwiceAndOne(w: bv32): bv32 {
    (w << 1) | 1
  }

  /** `x` with the lowest binary digit of `n` behind it. */
  function WithDigit(x: bv32, n: nat): bv32 {
    if n % 2 == 1 then TwiceAndOne(x) else Twice(x)
  }

  /** The lowest `k` binary digits of `n` as a 32-bit word. */
  function Digits(n: nat, k: nat): bv32
    decreases k
  {
    if k == 0 then 0 else WithDigit(Digits(n / 2, k - 1), n)
  }

  function Bits(b: byte): bv32 {
    Digits(b, 8)
  }

  function ByteStep(crc: bv32, b: byte): bv32 {
    Steps(Xor(crc, Bits(b)), 8)
  }

  /** The register after the bytes. */
  function Register(crc: bv32, data: seq<byte>): bv32
    decreases |data|
  {
    if data == [] then crc else Register(ByteStep(crc, data[0]), data[1..])
  }

  function Complement(x: bv32): bv32 {
    !x
  }

  /** `Checksum::crc32c(data, length, initial_crc)`. */
  function Crc(data: seq<byte>, initial: bv32): bv32 {
    Complement(Register(initial, data))
  }

  /** The inner loop: eight bit steps. */
  method EightSteps(start: bv32) returns (crc: bv32)
    ensures crc == Steps(start, 8)
  {
    hide BitStep;
    crc := start;
    for j := 0 to 8
      invariant Steps(start, 8) == Steps(crc, 8 - j)
    {
      crc := BitStep(crc);
    }
  }

  method Checksum(data: seq<byte>, initial: bv32) returns (crc: bv32)
    ensures crc == Crc(data, initial)
  {
    hide Steps, BitStep, Complement, Xor;
    crc := initial;
    for i := 0 to |data|
      invariant Register(initial, data) == Register(crc, data[i..])
    {
      ghost var start := crc;
      crc := Xor(crc, Bits(data[i]));
      crc := EightSteps(crc);
      assert data[i..][1..] == data[i + 1..];
    }
    crc := Complement(crc);
  }

  // ----- chaining

  lemma {:induction false} RegisterConcat(crc: bv32, a: seq<byte>, b: seq<byte>)
    ensures Register(crc, a + b) == Register(Register(crc, a), b)
    decreases |a|
  {
    hide ByteStep;
    if a == [] {
      assert a + b == b;
    } else {
      assert (a + b)[1..] == a[1..] + b;
      RegisterConcat(ByteStep(crc, a[0]), a[1..], b);
    }
  }

  lemma ComplementTwice(x: bv32)
    ensures Complement(Complement(x)) == x
  {
  }

  /** Passing the complement of one checksum on as the initial value of the next is one pass over
      the concatenation. */
  lemma {:induction false} Chained(a: seq<byte>, b: seq<byte>, initial: bv32)
    ensures Crc(b, Complement(Crc(a, initial))) == Crc(a + b, initial)
  {
    hide Complement, Register;
    ComplementTwice(Register(initial, a));
    RegisterConcat(initial, a, b);
  }

  // ----- the bit step is a bijection, so equal registers come from equal registers

  predicate Odd(x: bv32) {
    x & 1 == 1
  }

  function Half(x: bv32): bv32 {
    x >> 1
  }

  lemma StepCases(crc: bv32)
    ensures BitStep(crc) == if Odd(crc) then Xor(Half(crc), POLY) else Half(crc)
  {
    assert crc & 1 == 0 || crc & 1 == 1;
  }

  function BitUnstep(crc: bv32): bv32 {
    if crc & 0x8000_0000 != 0 then ((crc ^ POLY) << 1) | 1 else crc << 1
  }

  lemma StepUnstep(crc: bv32)
    ensures BitUnstep(BitStep(crc)) == crc
  {
  }

  lemma TopSet(crc: bv32)
    requires crc & 0x8000_0000 != 0
    ensures var x := ((crc ^ POLY) << 1) | 1; x & 1 == 1 && x >> 1 == crc ^ POLY
    ensures (crc ^ POLY) ^ POLY == crc
  {
  }

  lemma TopUnset(crc: bv32)
    requires crc & 0x8000_0000 == 0
    ensures var x := crc << 1; x & 1 == 0 && x >> 1 == crc
  {
  }

  lemma UnstepStep(crc: bv32)
    ensures BitStep(BitUnstep(crc)) == crc
  {
    hide BitStep;
    StepCases(BitUnstep(crc));
    if crc & 0x8000_0000 != 0 {
      TopSet(crc);
    } else {
      TopUnset(crc);
    }
  }

  lemma {:induction false} StepsInjective(x: bv32, y: bv32, n: nat)
    requires Steps(x, n) == Steps(y, n)
    ensures x == y
    decreases n
  {
    hide BitStep, BitUnstep;
    if n > 0 {
      StepsInjective(BitStep(x), BitStep(y), n - 1);
      StepUnstep(x);
      StepUnstep(y);
    }
  }

  lemma StepsAdd(x: bv32, m: nat, n: nat)
    ensures Steps(x, m + n) == Steps(Steps(x, m), n)
    decreases m
  {
    hide BitStep;
    if m > 0 {
      StepsAdd(BitStep(x), m - 1, n);
    }
  }

  lemma {:induction false} RegisterInjective(x: bv32, y: bv32, data: seq<byte>)
    requires Register(x, data) == Register(y, data)
    ensures x == y
    decreases |data|
  {
    hide Steps, Xor;
    if data != [] {
      RegisterInjective(ByteStep(x, data[0]), ByteStep(y, data[0]), data[1..]);
      StepsInjective(Xor(x, Bits(data[0])), Xor(y, Bits(data[0])), 8);
      SameXor(x, y, Bits(data[0]));
    }
  }

  lemma SameXor(x: bv32, y: bv32, z: bv32)
    requires Xor(x, z) == Xor(y, z)
    ensures x == y
  {
  }

  // ----- four bytes are one 32-bit word fed to 32 bit steps

  predicate TopClear(w: bv32) {
    w < 0x8000_0000
  }

  function Up(w: bv32, n: nat): bv32 {
    if n == 0 then w else Twice(Up(w, n - 1))
  }

  lemma StepLinear(x: bv32, u: bv32)
    requires TopClear(u)
    ensures BitStep(Xor(x, Twice(u))) == Xor(BitStep(x), u)
  {
    hide BitStep, Xor, Twice;
    StepCases(x);
    StepCases(Xor(x, Twice(u)));
    SameLowBit(x, u);
    ShiftLinear(x, u);
    XorSwap(Half(x), u, POLY);
  }

  lemma SameLowBit(x: bv32, u: bv32)
    ensures Odd(Xor(x, Twice(u))) == Odd(x)
  {
    assert (u << 1) & 1 == 0;
    assert (x ^ (u << 1)) & 1 == (x & 1) ^ ((u << 1) & 1);
  }

  lemma ShiftXor(x: bv32, y: bv32)
    ensures Half(Xor(x, y)) == Xor(Half(x), Half(y))
  {
  }

  lemma HalfTwice(u: bv32)
    requires TopClear(u)
    ensures Half(Twice(u)) == u
  {
  }

  lemma ShiftLinear(x: bv32, u: bv32)
    requires TopClear(u)
    ensures Half(Xor(x, Twice(u))) == Xor(Half(x), u)
  {
    hide Half, Twice, Xor, TopClear;
    ShiftXor(x, Twice(u));
    HalfTwice(u);
  }

  lemma XorSwap(x: bv32, y: bv32, z: bv32)
    ensures Xor(Xor(x, y), z) == Xor(Xor(x, z), y)
    ensures Xor(Xor(x, y), z) == Xor(x, Xor(y, z))
  {
  }

  lemma {:induction false} StepsLinear(x: bv32, w: bv32, n: nat)
    requires forall k :: 0 <= k < n ==> TopClear(Up(w, k))
    ensures Steps(Xor(x, Up(w, n)), n) == Xor(Steps(x, n), w)
    decreases n
  {
    hide BitStep, Xor, Twice, TopClear;
    if n > 0 {
      StepLinear(x, Up(w, n - 1));
      StepsLinear(BitStep(x), w, n - 1);
    }
  }

  predicate Narrow(w: bv32) {
    w < 0x100_0000
  }

  lemma UpEight(w: bv32)
    requires Narrow(w)
    ensures Up(w, 8) == w << 8
    ensures forall k :: 0 <= k < 8 ==> TopClear(Up(w, k))
  {
    assert Up(w, 0) == w;
    assert Up(w, 1) == w << 1;
    assert Up(w, 2) == w << 2;
    assert Up(w, 3) == w << 3;
    assert Up(w, 4) == w << 4;
    assert Up(w, 5) == w << 5;
    assert Up(w, 6) == w << 6;
    assert Up(w, 7) == w << 7;
  }

  function Joined(x: bv32, rest: bv32): bv32 {
    x ^ (rest << 8)
  }

  function WordOf(b: byte, rest: bv32): bv32 {
    Joined(Bits(b), rest)
  }

  /** `x` has at most `k` binary digits. */
  predicate Below(x: bv32, k: nat) {
    if k == 0 then x < 1
    else if k == 1 then x < 2
    else if k == 2 then x < 4
    else if k == 3 then x < 8
    else if k == 4 then x < 0x10
    else if k == 5 then x < 0x20
    else if k == 6 then x < 0x40
    else if k == 7 then x < 0x80
    else x < 0x100
  }

  lemma BelowNext(x: bv32, n: nat, k: nat)
    requires k < 8 && Below(x, k)
    ensures Below(WithDigit(x, n), k + 1)
  {
  }

  lemma BelowZero()
    ensures Below(0, 0)
  {
  }

  lemma {:induction false} DigitsBelow(n: nat, k: nat)
    requires k <= 8
    ensures Below(Digits(n, k), k)
    decreases k
  {
    hide WithDigit, Below;
    if k == 0 {
      BelowZero();
    } else {
      DigitsBelow(n / 2, k - 1);
      BelowNext(Digits(n / 2, k - 1), n, k - 1);
    }
  }

  lemma BitsBelow(b: byte)
    ensures Bits(b) < 0x100
  {
    hide Digits;
    DigitsBelow(b, 8);
  }

  lemma DigitApart(x: bv32, m: nat, y: bv32, n: nat, k: nat)
    requires k < 8 && Below(x, k) && Below(y, k) && WithDigit(x, m) == WithDigit(y, n)
    ensures x == y && m % 2 == n % 2
  {
  }

  lemma {:induction false} DigitsInjective(m: nat, n: nat, k: nat)
    requires k <= 8 && m < Pow2(k) && n < Pow2(k) && Digits(m, k) == Digits(n, k)
    ensures m == n
    decreases k
  {
    hide WithDigit, Below;
    if k > 0 {
      DigitsBelow(m / 2, k - 1);
      DigitsBelow(n / 2, k - 1);
      DigitApart(Digits(m / 2, k - 1), m, Digits(n / 2, k - 1), n, k - 1);
      DigitsInjective(m / 2, n / 2, k - 1);
    }
  }

  function Pow2(k: nat): nat {
    if k == 0 then 1 else 2 * Pow2(k - 1)
  }

  lemma BitsInjective(b: byte, c: byte)
    requires Bits(b) == Bits(c)
    ensures b == c
  {
    hide Digits;
    assert Pow2(8) == 256;
    DigitsInjective(b, c, 8);
  }

  function Word(data: seq<byte>): bv32 {
    if data == [] then 0 else WordOf(data[0], Word(data[1..]))
  }

  lemma JoinedApart(x: bv32, rest: bv32, y: bv32, other: bv32)
    requires x < 0x100 && y < 0x100 && Narrow(rest) && Narrow(other)
    ensures Joined(x, rest) == Joined(y, other) ==> x == y && rest == other
  {
  }

  lemma WordOfFacts(b: byte, rest: bv32, c: byte, other: bv32)
    requires Narrow(rest) && Narrow(other)
    ensures WordOf(b, rest) == WordOf(c, other) ==> b == c && rest == other
  {
    hide Bits, Joined, Narrow;
    BitsBelow(b);
    BitsBelow(c);
    JoinedApart(Bits(b), rest, Bits(c), other);
    if Bits(b) == Bits(c) {
      BitsInjective(b, c);
    }
  }

  /** `w` is a word of at most `n` bytes. */
  predicate Fits(w: bv32, n: nat) {
    if n == 0 then w == 0
    else if n == 1 then w < 0x100
    else if n == 2 then w < 0x1_0000
    else Narrow(w)
  }

  lemma FitsNext(b: byte, w: bv32, n: nat)
    requires n <= 2 && Fits(w, n)
    ensures Fits(WordOf(b, w), n + 1)
  {
    hide Bits;
    BitsBelow(b);
    JoinedFits(Bits(b), w, n);
  }

  lemma JoinedFits(x: bv32, w: bv32, n: nat)
    requires n <= 2 && x < 0x100 && Fits(w, n)
    ensures Fits(Joined(x, w), n + 1)
  {
  }

  lemma FitsNarrow(w: bv32, n: nat)
    requires Fits(w, n)
    ensures Narrow(w)
  {
  }

  lemma {:induction false} WordNarrow(data: seq<byte>)
    requires |data| <= 3
    ensures Fits(Word(data), |data|) && Narrow(Word(data))
  {
    if data != [] {
      hide Fits, Narrow, WordOf;
      WordNarrow(data[1..]);
      FitsNext(data[0], Word(data[1..]), |data| - 1);
      FitsNarrow(Word(data), |data|);
    }
  }

  lemma {:induction false} WordInjective(a: seq<byte>, b: seq<byte>)
    requires |a| == |b| <= 4
    requires Word(a) == Word(b)
    ensures a == b
  {
    hide WordOf;
    if a != [] {
      WordNarrow(a[1..]);
      WordNarrow(b[1..]);
      WordOfFacts(a[0], Word(a[1..]), b[0], Word(b[1..]));
      WordInjective(a[1..], b[1..]);
      assert a == [a[0]] + a[1..] && b == [b[0]] + b[1..];
    }
  }

  lemma XorWord(x: bv32, b: byte, rest: bv32)
    requires Narrow(rest)
    ensures Xor(x, WordOf(b, rest)) == Xor(Xor(x, Bits(b)), Up(rest, 8))
  {
    hide Up, Bits, Narrow;
    UpEight(rest);
    JoinedXor(x, Bits(b), rest);
  }

  lemma JoinedXor(x: bv32, y: bv32, rest: bv32)
    ensures Xor(x, Joined(y, rest)) == Xor(Xor(x, y), rest << 8)
  {
  }

  /** Up to four bytes are one word xored in before the first of all their bit steps. */
  lemma {:induction false} RegisterOfWord(x: bv32, data: seq<byte>)
    requires |data| <= 4
    ensures Register(x, data) == Steps(Xor(x, Word(data)), 8 * |data|)
    decreases |data|
  {
    hide Steps, WordOf, Xor, TopClear, Narrow, Up;
    if data == [] {
      NoWord(x);
    } else {
      var b, rest := data[0], data[1..];
      WordNarrow(rest);
      XorWord(x, b, Word(rest));
      UpEight(Word(rest));
      StepsLinear(Xor(x, Bits(b)), Word(rest), 8);
      RegisterOfWord(ByteStep(x, b), rest);
      StepsAdd(Xor(x, Word(data)), 8, 8 * |rest|);
    }
  }

  lemma NoWord(x: bv32)
    ensures Xor(x, 0) == x == Steps(x, 0)
  {
  }

  predicate SameOutside(a: seq<byte>, b: seq<byte>, at: nat) {
    |a| == |b| && forall i :: 0 <= i < |a| && (i < at || at + 4 <= i) ==> a[i] == b[i]
  }

  /** Corruption confined to four consecutive bytes always changes the checksum. */
  lemma {:induction false} BurstDetected(a: seq<byte>, b: seq<byte>, at: nat, initial: bv32)
    requires SameOutside(a, b, at) && a != b
    ensures Crc(a, initial) != Crc(b, initial)
  {
    hide Register, Complement, Xor, Word, Steps;
    if Crc(a, initial) == Crc(b, initial) {
      ComplementTwice(Register(initial, a));
      ComplementTwice(Register(initial, b));
      BurstUndone(a, b, at, initial);
    }
  }

  lemma {:induction false} BurstUndone(a: seq<byte>, b: seq<byte>, at: nat, initial: bv32)
    requires SameOutside(a, b, at)
    requires Register(initial, a) == Register(initial, b)
    ensures a == b
  {
    hide Register, Xor, Word, Steps;
    if at < |a| {
      var end := if at + 4 <= |a| then at + 4 else |a|;
      var x := Register(initial, a[..at]);
      assert a[..at] == b[..at] && a[end..] == b[end..];
      assert a == a[..at] + (a[at..end] + a[end..]);
      assert b == b[..at] + (b[at..end] + b[end..]);
      RegisterConcat(initial, a[..at], a[at..end] + a[end..]);
      RegisterConcat(initial, b[..at], b[at..end] + b[end..]);
      RegisterConcat(x, a[at..end], a[end..]);
      RegisterConcat(x, b[at..end], b[end..]);
      RegisterInjective(Register(x, a[at..end]), Register(x, b[at..end]), a[end..]);
      WindowInjective(x, a[at..end], b[at..end]);
    }
  }

  lemma {:induction false} WindowInjective(x: bv32, a: seq<byte>, b: seq<byte>)
    requires |a| == |b| <= 4
    requires Register(x, a) == Register(x, b)
    ensures a == b
  {
    hide Register, Xor, Word, Steps;
    RegisterOfWord(x, a);
    RegisterOfWord(x, b);
    StepsInjective(Xor(x, Word(a)), Xor(x, Word(b)), 8 * |a|);
    SameXorLeft(x, Word(a), Word(b));
    WordInjective(a, b);
  }

  lemma SameXorLeft(x: bv32, y: bv32, z: bv32)
    requires Xor(x, y) == Xor(x, z)
    ensures y == z
  {
  }
}
