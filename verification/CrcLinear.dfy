/** The checksum register is linear: how a change of the data moves it, whatever the data is. */
module CrcLinear {
  import opened Bytes
  import opened Crc32c

  // ----- one step, many steps, whole data

  lemma LowBits(x: bv32, y: bv32)
    ensures Odd(Xor(x, y)) <==> Odd(x) != Odd(y)
  {
    assert (x ^ y) & 1 == (x & 1) ^ (y & 1);
    assert (x & 1 == 0 || x & 1 == 1) && (y & 1 == 0 || y & 1 == 1);
  }

  lemma StepXor(x: bv32, y: bv32)
    ensures BitStep(Xor(x, y)) == Xor(BitStep(x), BitStep(y))
  {
    hide BitStep, Xor, Half, Odd;
    StepCases(x);
    StepCases(y);
    StepCases(Xor(x, y));
    LowBits(x, y);
    ShiftXor(x, y);
    XorCancels(Half(x), Half(y), POLY);
    XorSwap(Half(x), Half(y), POLY);
  }

  lemma {:induction false} StepsXor(x: bv32, y: bv32, n: nat)
    ensures Steps(Xor(x, y), n) == Xor(Steps(x, n), Steps(y, n))
    decreases n
  {
    hide BitStep, Xor;
    if n > 0 {
      StepXor(x, y);
      StepsXor(BitStep(x), BitStep(y), n - 1);
    }
  }

  lemma {:induction false} StepsNext(x: bv32, n: nat)
    ensures Steps(BitStep(x), n) == BitStep(Steps(x, n))
    decreases n
  {
    hide BitStep;
    if n > 0 {
      StepsNext(BitStep(x), n - 1);
    }
  }

  lemma {:induction false} StepsZero(n: nat)
    ensures Steps(0, n) == 0
    decreases n
  {
    if n > 0 {
      assert BitStep(0) == 0;
      StepsZero(n - 1);
    }
  }

  lemma XorCancels(x: bv32, y: bv32, z: bv32)
    ensures Xor(Xor(x, z), Xor(y, z)) == Xor(x, y) && Xor(Xor(z, x), Xor(z, y)) == Xor(x, y)
  {
  }

  /** Equal data behind two registers only shifts their difference on. */
  lemma {:induction false} TailXor(x: bv32, y: bv32, t: seq<byte>)
    ensures Xor(Register(x, t), Register(y, t)) == Steps(Xor(x, y), 8 * |t|)
    decreases |t|
  {
    hide Steps, Xor, Bits;
    if t == [] {
      NoSteps(Xor(x, y));
    } else {
      var z := Bits(t[0]);
      TailXor(ByteStep(x, t[0]), ByteStep(y, t[0]), t[1..]);
      StepsXor(Xor(x, z), Xor(y, z), 8);
      XorCancels(x, y, z);
      StepsAdd(Xor(x, y), 8, 8 * |t[1..]|);
    }
  }

  lemma NoSteps(x: bv32)
    ensures Steps(x, 0) == x
  {
  }

  /** A change of up to four bytes with equal data before and behind. */
  lemma BurstXor(x: bv32, a: seq<byte>, b: seq<byte>, t: seq<byte>)
    requires |a| == |b| <= 4
    ensures Xor(Register(x, a + t), Register(x, b + t)) == Steps(Xor(Word(a), Word(b)), 8 * (|a| + |t|))
  {
    hide Steps, Xor, Register, Word;
    RegisterConcat(x, a, t);
    RegisterConcat(x, b, t);
    RegisterOfWord(x, a);
    RegisterOfWord(x, b);
    TailXor(Register(x, a), Register(x, b), t);
    StepsXor(Xor(x, Word(a)), Xor(x, Word(b)), 8 * |a|);
    XorCancels(Word(a), Word(b), x);
    StepsAdd(Xor(Word(a), Word(b)), 8 * |a|, 8 * |t|);
  }

  // ----- the images of the eight bits of a byte, highest first

  datatype Octet = Octet(c7: bv32, c6: bv32, c5: bv32, c4: bv32, c3: bv32, c2: bv32, c1: bv32, c0: bv32)

  function Pick(d: bv32, bit: bv32, c: bv32): bv32 {
    if d & bit != 0 then c else 0
  }

  function High(d: bv32, o: Octet): bv32 {
    Xor(Xor(Pick(d, 0x80, o.c7), Pick(d, 0x40, o.c6)), Xor(Pick(d, 0x20, o.c5), Pick(d, 0x10, o.c4)))
  }

  function Low(d: bv32, o: Octet): bv32 {
    Xor(Xor(Pick(d, 8, o.c3), Pick(d, 4, o.c2)), Xor(Pick(d, 2, o.c1), Pick(d, 1, o.c0)))
  }

  /** The sum of the images of the bits set in `d`. */
  function Sum(d: bv32, o: Octet): bv32 {
    Xor(High(d, o), Low(d, o))
  }

  /** Each bit is one step behind the next higher. */
  predicate Descends(o: Octet) {
    && o.c6 == BitStep(o.c7) && o.c5 == BitStep(o.c6) && o.c4 == BitStep(o.c5) && o.c3 == BitStep(o.c4)
    && o.c2 == BitStep(o.c3) && o.c1 == BitStep(o.c2) && o.c0 == BitStep(o.c1)
  }

  lemma PickSteps(d: bv32, bit: bv32, c: bv32, n: nat)
    ensures Steps(Pick(d, bit, c), n) == Pick(d, bit, Steps(c, n))
  {
    StepsZero(n);
  }

  lemma FourSteps(w: bv32, x: bv32, y: bv32, z: bv32, n: nat)
    ensures Steps(Xor(Xor(w, x), Xor(y, z)), n) == Xor(Xor(Steps(w, n), Steps(x, n)), Xor(Steps(y, n), Steps(z, n)))
  {
    hide Steps, Xor;
    StepsXor(w, x, n);
    StepsXor(y, z, n);
    StepsXor(Xor(w, x), Xor(y, z), n);
  }

  /** If the top bit's image steps from one octet to the other, so does every sum. */
  lemma SumSteps(d: bv32, from: Octet, to: Octet, n: nat)
    requires Descends(from) && Descends(to) && Steps(from.c7, n) == to.c7
    ensures Steps(Sum(d, from), n) == Sum(d, to)
  {
    hide Steps, Xor, Pick, BitStep;
    StepsNext(from.c7, n);
    StepsNext(from.c6, n);
    StepsNext(from.c5, n);
    StepsNext(from.c4, n);
    StepsNext(from.c3, n);
    StepsNext(from.c2, n);
    StepsNext(from.c1, n);
    PickSteps(d, 0x80, from.c7, n);
    PickSteps(d, 0x40, from.c6, n);
    PickSteps(d, 0x20, from.c5, n);
    PickSteps(d, 0x10, from.c4, n);
    PickSteps(d, 8, from.c3, n);
    PickSteps(d, 4, from.c2, n);
    PickSteps(d, 2, from.c1, n);
    PickSteps(d, 1, from.c0, n);
    FourSteps(Pick(d, 0x80, from.c7), Pick(d, 0x40, from.c6), Pick(d, 0x20, from.c5), Pick(d, 0x10, from.c4), n);
    FourSteps(Pick(d, 8, from.c3), Pick(d, 4, from.c2), Pick(d, 2, from.c1), Pick(d, 1, from.c0), n);
    StepsXor(High(d, from), Low(d, from), n);
  }

  const LOW: Octet := Octet(0x80, 0x40, 0x20, 0x10, 8, 4, 2, 1)
  const TOP: Octet := Octet(0x8000_0000, 0x4000_0000, 0x2000_0000, 0x1000_0000, 0x800_0000, 0x400_0000, 0x200_0000,
                            0x100_0000)

  lemma Units()
    ensures Descends(LOW) && Descends(TOP)
  {
  }

  lemma LowSum(d: bv32)
    requires d < 0x100
    ensures Sum(d, LOW) == d
  {
  }

  lemma TopSum(d: bv32)
    requires d < 0x100
    ensures Sum(d, TOP) == d << 24
  {
  }

  // ----- over the 72 bytes of a command, and over the length field and those 72

  /** The image of the low byte after 72 bytes. */
  const LOW_72: Octet :=
    Octet(0x8FCC_485C, 0x47E6_242E, 0x23F3_1217, 0x930F_B273,
        0xCB71_E241, 0xE74E_CA58, 0x73A7_652C, 0x39D3_B296)

  /** The image of the low byte after 75 bytes. */
  const LOW_75: Octet :=
    Octet(0xFD85_8BAB, 0xFC34_FEAD, 0xFCEC_442E, 0x7E76_2217,
        0xBDCD_2A73, 0xDC10_AE41, 0xECFE_6C58, 0x767F_362C)

  /** What is moved to the top byte by 72 bytes. */
  const BEFORE_TOP_72: Octet :=
    Octet(0x90EC_F51E, 0x4876_7A8F, 0xA6CD_063F, 0xD190_B867,
        0xEA3E_674B, 0xF7E9_08DD, 0xF902_BF16, 0x7C81_5F8B)

  function Eight(x: bv32): bv32 {
    BitStep(BitStep(BitStep(BitStep(BitStep(BitStep(BitStep(BitStep(x))))))))
  }

  function SixtyFour(x: bv32): bv32 {
    Eight(Eight(Eight(Eight(Eight(Eight(Eight(Eight(x))))))))
  }

  lemma EightIs(x: bv32)
    ensures Eight(x) == Steps(x, 8)
  {
    hide BitStep;
    var y := BitStep(BitStep(BitStep(BitStep(x))));
    assert Steps(x, 8) == Steps(y, 4);
    assert Steps(y, 4) == BitStep(BitStep(BitStep(BitStep(y))));
  }

  lemma TwiceEight(x: bv32, n: nat)
    ensures Steps(x, n + 8) == Eight(Steps(x, n))
  {
    hide Eight, Steps;
    StepsAdd(x, n, 8);
    EightIs(Steps(x, n));
  }

  lemma SixtyFourIs(x: bv32)
    ensures SixtyFour(x) == Steps(x, 64)
  {
    hide Eight, Steps;
    NoSteps(x);
    TwiceEight(x, 0);
    TwiceEight(x, 8);
    TwiceEight(x, 16);
    TwiceEight(x, 24);
    TwiceEight(x, 32);
    TwiceEight(x, 40);
    TwiceEight(x, 48);
    TwiceEight(x, 56);
  }

  lemma NextSixtyFour(x: bv32, n: nat)
    ensures Steps(x, n + 64) == SixtyFour(Steps(x, n))
  {
    hide SixtyFour, Steps;
    StepsAdd(x, n, 64);
    SixtyFourIs(Steps(x, n));
  }

  function Bytes72(x: bv32): bv32 {
    SixtyFour(SixtyFour(SixtyFour(SixtyFour(SixtyFour(SixtyFour(SixtyFour(SixtyFour(SixtyFour(x)))))))))
  }

  lemma Bytes72Is(x: bv32)
    ensures Bytes72(x) == Steps(x, 576)
  {
    hide SixtyFour, Steps;
    NoSteps(x);
    NextSixtyFour(x, 0);
    NextSixtyFour(x, 64);
    NextSixtyFour(x, 128);
    NextSixtyFour(x, 192);
    NextSixtyFour(x, 256);
    NextSixtyFour(x, 320);
    NextSixtyFour(x, 384);
    NextSixtyFour(x, 448);
    NextSixtyFour(x, 512);
  }

  lemma LowMoves()
    ensures Bytes72(0x80) == 0x8FCC_485C
  {
  }

  lemma TopComes()
    ensures Bytes72(0x90EC_F51E) == 0x8000_0000
  {
  }

  lemma ThreeMore()
    ensures Eight(Eight(Eight(0x8FCC_485C))) == 0xFD85_8BAB
  {
  }

  lemma LowDescends()
    ensures Descends(LOW_72) && Descends(LOW_75)
  {
  }

  lemma TopDescends()
    ensures Descends(BEFORE_TOP_72)
  {
  }

  /** What 72 and 75 bytes make of the lowest byte. */
  lemma LowImage(d: bv32)
    requires d < 0x100
    ensures Steps(d, 576) == Sum(d, LOW_72) && Steps(d, 600) == Sum(d, LOW_75)
  {
    hide Steps, Sum, Descends, Bytes72, Eight;
    Units();
    LowSum(d);
    LowDescends();
    Bytes72Is(0x80);
    LowMoves();
    SumSteps(d, LOW, LOW_72, 576);
    ThreeMore();
    TwiceEight(0x80, 576);
    TwiceEight(0x80, 584);
    TwiceEight(0x80, 592);
    SumSteps(d, LOW, LOW_75, 600);
  }

  /** What ends in the top byte after 72. */
  lemma TopImage(d: bv32)
    requires d < 0x100
    ensures Steps(Sum(d, BEFORE_TOP_72), 576) == d << 24
  {
    hide Steps, Sum, Descends, Bytes72;
    Units();
    TopSum(d);
    TopDescends();
    Bytes72Is(0x90EC_F51E);
    TopComes();
    SumSteps(d, BEFORE_TOP_72, TOP, 576);
  }

  // ----- which changes stay within given bytes

  lemma LowLeavesBits(b7: bool, b6: bool, b5: bool, b4: bool, b3: bool, b2: bool, b1: bool, b0: bool)
    requires b7 || b6 || b5 || b4 || b3 || b2 || b1 || b0
    ensures (((if b7 then 0xFD85_8BAB as bv32 else 0) ^ (if b6 then 0xFC34_FEAD as bv32 else 0)) ^
             ((if b5 then 0xFCEC_442E as bv32 else 0) ^ (if b4 then 0x7E76_2217 as bv32 else 0))) ^
            (((if b3 then 0xBDCD_2A73 as bv32 else 0) ^ (if b2 then 0xDC10_AE41 as bv32 else 0)) ^
             ((if b1 then 0xECFE_6C58 as bv32 else 0) ^ (if b0 then 0x767F_362C as bv32 else 0))) >= 0x100
  {
  }

  lemma SomeBit(d: bv32)
    requires 0 < d < 0x100
    ensures d & 0x80 != 0 || d & 0x40 != 0 || d & 0x20 != 0 || d & 0x10 != 0 || d & 8 != 0 || d & 4 != 0 ||
            d & 2 != 0 ||
            d & 1 != 0
  {
  }

  lemma LowLeaves(d: bv32)
    requires 0 < d < 0x100
    ensures Sum(d, LOW_75) >= 0x100
  {
    SomeBit(d);
    LowLeavesBits(d & 0x80 != 0, d & 0x40 != 0, d & 0x20 != 0, d & 0x10 != 0, d & 8 != 0, d & 4 != 0, d & 2 != 0,
                  d & 1 != 0);
  }

  lemma LowShows(d: bv32)
    requires 0 < d < 0x100
    ensures Sum(d, LOW_72) & 0xFF != 0
  {
  }

  lemma TopReachesBits(b7: bool, b6: bool, b5: bool, b4: bool, b3: bool, b2: bool, b1: bool, b0: bool)
    requires b7 || b6 || b5 || b4 || b3 || b2 || b1 || b0
    ensures (((if b7 then 0x90EC_F51E as bv32 else 0) ^ (if b6 then 0x4876_7A8F as bv32 else 0)) ^
             ((if b5 then 0xA6CD_063F as bv32 else 0) ^ (if b4 then 0xD190_B867 as bv32 else 0))) ^
            (((if b3 then 0xEA3E_674B as bv32 else 0) ^ (if b2 then 0xF7E9_08DD as bv32 else 0)) ^
             ((if b1 then 0xF902_BF16 as bv32 else 0) ^ (if b0 then 0x7C81_5F8B as bv32 else 0))) >= 0x100_0000
  {
  }

  lemma TopReaches(d: bv32)
    requires 0 < d < 0x100
    ensures Sum(d, BEFORE_TOP_72) >= 0x100_0000
  {
    SomeBit(d);
    TopReachesBits(d & 0x80 != 0, d & 0x40 != 0, d & 0x20 != 0, d & 0x10 != 0, d & 8 != 0, d & 4 != 0, d & 2 != 0,
                  d & 1 != 0);
  }

  /** The one change of two bytes whose effect 72 bytes on stays clear of the two lowest. */
  lemma PairHides()
    ensures Steps(0xF1D8, 576) == 0xEE37_0000
  {
    hide Steps;
    Bytes72Is(0xF1D8);
    PairMoves();
  }

  lemma PairMoves()
    ensures Bytes72(0xF1D8) == 0xEE37_0000
  {
  }
}
