/** Bytes as 32-bit words: the number that bytes store, and what two words have in common. */
module ChecksumWords {
  import opened Bytes
  import opened Crc32c
  import opened CrcLinear
  import opened Wal

  // ----- the number a word stores

  lemma TwiceInt(x: bv32)
    requires TopClear(x)
    ensures Word32(Twice(x)) == 2 * Word32(x)
  {
  }

  lemma TwiceAndOneInt(x: bv32)
    requires TopClear(x)
    ensures Word32(TwiceAndOne(x)) == 2 * Word32(x) + 1
  {
  }

  lemma DigitInt(x: bv32, n: nat)
    requires TopClear(x)
    ensures Word32(WithDigit(x, n)) == 2 * Word32(x) + n % 2
  {
    hide Twice, TwiceAndOne, Word32, TopClear;
    TwiceInt(x);
    TwiceAndOneInt(x);
  }

  lemma ClearInt(x: bv32)
    requires Word32(x) < 0x8000_0000
    ensures TopClear(x)
  {
  }

  /** The lowest `k` digits of `n`, with `w` above them. */
  function Above(n: nat, k: nat, w: bv32): bv32 {
    Xor(Digits(n, k), Up(w, k))
  }

  lemma AboveNext(n: nat, k: nat, w: bv32)
    requires k > 0
    ensures Above(n, k, w) == WithDigit(Above(n / 2, k - 1, w), n)
  {
    hide WithDigit, Xor, Twice;
    DigitXor(Digits(n / 2, k - 1), Up(w, k - 1), n);
  }

  lemma DigitXor(x: bv32, y: bv32, n: nat)
    ensures Xor(WithDigit(x, n), Twice(y)) == WithDigit(Xor(x, y), n)
  {
    hide Xor, Twice, TwiceAndOne;
    TwiceXor(x, y);
  }

  lemma TwiceXor(x: bv32, y: bv32)
    ensures Xor(Twice(x), Twice(y)) == Twice(Xor(x, y)) && Xor(TwiceAndOne(x), Twice(y)) == TwiceAndOne(Xor(x, y))
  {
  }

  lemma NoneAbove(n: nat, w: bv32)
    ensures Above(n, 0, w) == w
  {
  }

  /** `v` doubled `k` times. */
  function Scaled(v: nat, k: nat): nat {
    if k == 0 then v else 2 * Scaled(v, k - 1)
  }

  lemma {:induction false} ScaledAtMost(v: nat, k: nat)
    requires k <= 7
    ensures Scaled(v, k) <= 0x80 * v
    decreases 7 - k
  {
    if k == 7 {
      ScaledBy256(v);
    } else {
      ScaledAtMost(v, k + 1);
    }
  }

  lemma ScaledBy256(v: nat)
    ensures Scaled(v, 7) == 0x80 * v && Scaled(v, 8) == 0x100 * v
  {
    assert Scaled(v, 0) == v && Scaled(v, 1) == 2 * v && Scaled(v, 2) == 4 * v && Scaled(v, 3) == 8 * v;
    assert Scaled(v, 4) == 16 * v && Scaled(v, 5) == 32 * v && Scaled(v, 6) == 64 * v;
  }

  lemma {:induction false} AboveInt(n: nat, k: nat, w: bv32)
    requires k <= 8 && n < Pow2(k) && Word32(w) < 0x100_0000
    ensures Word32(Above(n, k, w)) == n + Scaled(Word32(w), k)
    decreases k
  {
    hide WithDigit, Above, Word32, TopClear;
    if k == 0 {
      NoneAbove(n, w);
    } else {
      AboveInt(n / 2, k - 1, w);
      AboveNext(n, k, w);
      PowersTo8(k - 1);
      ScaledAtMost(Word32(w), k - 1);
      ClearInt(Above(n / 2, k - 1, w));
      DigitInt(Above(n / 2, k - 1, w), n);
    }
  }

  lemma {:induction false} PowersTo8(k: nat)
    requires k <= 7
    ensures Pow2(k) <= 0x80
    decreases 7 - k
  {
    if k < 7 {
      PowersTo8(k + 1);
    }
  }

  /** The word of up to four bytes is the number they store. */
  lemma {:induction false} WordInt(s: seq<byte>)
    requires |s| <= 4
    ensures Word32(Word(s)) == Get(s)
  {
    hide Word32, WordOf, Narrow, Above;
    if s == [] {
      ZeroInt();
    } else {
      WordInt(s[1..]);
      WordNarrow(s[1..]);
      assert Pow256(3) == 0x100_0000 && Pow256(2) == 0x1_0000;
      Eights(s[0], Word(s[1..]));
      assert Pow2(8) == 256;
      AboveInt(s[0], 8, Word(s[1..]));
      ScaledBy256(Get(s[1..]));
    }
  }

  lemma ZeroInt()
    ensures Word32(0) == 0
  {
  }

  lemma Eights(b: byte, w: bv32)
    requires Narrow(w)
    ensures WordOf(b, w) == Above(b, 8, w)
  {
    hide Digits, Up, Narrow;
    UpEight(w);
  }

  /** The byte of a small word. */
  function ByteOf(x: bv32): byte
    requires x < 0x100
  {
    SmallInt(x);
    Word32(x)
  }

  lemma SmallInt(x: bv32)
    requires x < 0x100
    ensures Word32(x) < 256
  {
  }

  lemma ByteBits(x: bv32)
    requires x < 0x100
    ensures Bits(ByteOf(x)) == x
  {
    hide Digits, Word32;
    SmallInt(x);
    assert Pow2(8) == 256;
    ZeroInt();
    AboveInt(Word32(x), 8, 0);
    ScaledBy256(0);
    NothingAbove(Word32(x));
    WordInjective32(Digits(Word32(x), 8), x);
  }

  lemma NothingAbove(n: nat)
    ensures Above(n, 8, 0) == Digits(n, 8)
  {
    hide Digits;
    assert Up(0, 1) == 0 && Up(0, 2) == 0 && Up(0, 3) == 0 && Up(0, 4) == 0;
    assert Up(0, 5) == 0 && Up(0, 6) == 0 && Up(0, 7) == 0 && Up(0, 8) == 0;
  }

  // ----- words that agree in part

  lemma ComplementXor(x: bv32, y: bv32)
    ensures Xor(Complement(x), Complement(y)) == Xor(x, y)
  {
  }

  /** The lowest `k` bytes are clear. */
  predicate LowClear(x: bv32, k: nat) {
    if k == 0 then true
    else if k == 1 then x & 0xFF == 0
    else if k == 2 then x & 0xFFFF == 0
    else x & 0xFF_FFFF == 0
  }

  function Shifted(x: bv32): bv32 {
    x << 8
  }

  lemma ShiftedXor(v: bv32, w: bv32)
    ensures Shifted(Xor(v, w)) == Xor(Shifted(v), Shifted(w))
  {
  }

  lemma JoinedIs(x: bv32, v: bv32)
    ensures Joined(x, v) == Xor(x, Shifted(v))
  {
    assert Shifted(v) == v << 8;
    assert Joined(x, v) == x ^ (v << 8);
  }

  lemma JoinedXors(x: bv32, v: bv32, y: bv32, w: bv32)
    ensures Xor(Joined(x, v), Joined(y, w)) == Joined(Xor(x, y), Xor(v, w))
  {
    hide Joined, Xor, Shifted;
    JoinedIs(x, v);
    JoinedIs(y, w);
    JoinedIs(Xor(x, y), Xor(v, w));
    ShiftedXor(v, w);
    XorSwap(Xor(x, Shifted(v)), y, Shifted(w));
    XorSwap(x, Shifted(v), y);
    XorSwap(Xor(x, y), Shifted(v), Shifted(w));
  }

  lemma JoinedClear(x: bv32, v: bv32, k: nat)
    requires x < 0x100 && 1 <= k <= 3
    ensures LowClear(Joined(x, v), k) <==> x == 0 && LowClear(v, k - 1)
  {
  }

  lemma XorSmall(x: bv32, y: bv32)
    requires x < 0x100 && y < 0x100
    ensures Xor(x, y) < 0x100 && (Xor(x, y) == 0 <==> x == y)
  {
  }

  /** Two words agree in their lowest `k` bytes exactly when the bytes there are the same. */
  lemma {:induction false} WordsAgree(a: seq<byte>, b: seq<byte>, k: nat)
    requires |a| == |b| <= 4 && k <= 3 && k <= |a|
    ensures LowClear(Xor(Word(a), Word(b)), k) <==> a[..k] == b[..k]
  {
    hide LowClear, Bits, Xor, Joined;
    if k == 0 {
      AllClear(Xor(Word(a), Word(b)));
    } else {
      var x, y := Bits(a[0]), Bits(b[0]);
      BitsBelow(a[0]);
      BitsBelow(b[0]);
      XorSmall(x, y);
      JoinedXors(x, Word(a[1..]), y, Word(b[1..]));
      JoinedClear(Xor(x, y), Xor(Word(a[1..]), Word(b[1..])), k);
      WordsAgree(a[1..], b[1..], k - 1);
      if x == y {
        BitsInjective(a[0], b[0]);
      }
      SamePrefix(a, b, k);
    }
  }

  lemma SamePrefix(a: seq<byte>, b: seq<byte>, k: nat)
    requires |a| == |b| && 0 < k <= |a|
    ensures a[..k] == b[..k] <==> a[0] == b[0] && a[1..][..k - 1] == b[1..][..k - 1]
  {
    assert a[..k] == [a[0]] + a[1..][..k - 1] && b[..k] == [b[0]] + b[1..][..k - 1];
    if a[..k] == b[..k] {
      assert a[..k][0] == b[..k][0] && a[..k][1..] == b[..k][1..];
    }
  }

  lemma AllClear(x: bv32)
    ensures LowClear(x, 0)
  {
  }

  lemma OneByte(a: seq<byte>, b: seq<byte>)
    requires |a| == |b| == 1
    ensures Xor(Word(a), Word(b)) < 0x100 && (Xor(Word(a), Word(b)) == 0 ==> a == b)
  {
    hide Word, Xor;
    WordOne(a);
    WordOne(b);
    BitsBelow(a[0]);
    BitsBelow(b[0]);
    XorSmall(Bits(a[0]), Bits(b[0]));
    if Bits(a[0]) == Bits(b[0]) {
      BitsInjective(a[0], b[0]);
    }
  }

  lemma WordOne(a: seq<byte>)
    requires |a| == 1
    ensures Word(a) == Bits(a[0])
  {
    hide Bits;
    assert Word(a[1..]) == 0;
    JoinedZero(Bits(a[0]));
  }

  lemma JoinedZero(x: bv32)
    ensures Joined(x, 0) == x
  {
  }

  /** Checksums that differ in their first byte only. */
  lemma FirstByte(a: seq<byte>, b: seq<byte>)
    requires |a| == |b| == 4 && a[1..] == b[1..]
    ensures Xor(Word(a), Word(b)) < 0x100
  {
    hide Bits, Xor, Joined;
    var v := Word(a[1..]);
    BitsBelow(a[0]);
    BitsBelow(b[0]);
    XorSmall(Bits(a[0]), Bits(b[0]));
    JoinedXors(Bits(a[0]), v, Bits(b[0]), v);
    XorSelf(v);
    JoinedZero(Xor(Bits(a[0]), Bits(b[0])));
  }

  lemma XorSelf(x: bv32)
    ensures Xor(x, x) == 0
  {
  }

  lemma XorZero(x: bv32, y: bv32)
    requires Xor(x, y) == 0
    ensures x == y
  {
  }

  /** Bodies that turn out the same leave no room for a different checksum. */
  lemma NothingChanged(a: seq<byte>, b: seq<byte>, c: seq<byte>, d: seq<byte>, n: nat)
    requires |a| == |b| <= 4 && |c| == |d| <= 4 && Xor(Word(a), Word(b)) == 0
    requires Xor(Word(c), Word(d)) == Steps(Xor(Word(a), Word(b)), n)
    ensures a == b && c == d
  {
    hide Word, Xor, Steps;
    StepsZero(n);
    XorZero(Word(a), Word(b));
    XorZero(Word(c), Word(d));
    WordInjective(a, b);
    WordInjective(c, d);
  }
}
