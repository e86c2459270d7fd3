/** Byte strings and the little-endian integers of the wire and disk structs. */
module Bytes {
  import opened Domain

  type byte = u8

  function Pow256(k: nat): (r: nat)
    ensures r > 0
  {
    if k == 0 then 1 else 256 * Pow256(k - 1)
  }

  lemma Powers()
    ensures Pow256(1) == 256 && Pow256(7) == 0x100_0000_0000_0000 && Pow256(2) == 0x1_0000 &&
            Pow256(4) == 0x1_0000_0000 && Pow256(8) == TWO_64
  {
    assert Pow256(1) == 256;
    assert Pow256(3) == 256 * Pow256(2);
    assert Pow256(5) == 256 * Pow256(4);
    assert Pow256(6) == 256 * Pow256(5);
    assert Pow256(7) == 256 * Pow256(6);
  }

  /** The `k` low bytes of `n`, least significant first. */
  function Put(n: nat, k: nat): (r: seq<byte>)
    ensures |r| == k
    decreases k
  {
    if k == 0 then [] else [n % 256] + Put(n / 256, k - 1)
  }

  function Get(s: seq<byte>): (n: nat)
    ensures n < Pow256(|s|)
  {
    if s == [] then 0 else s[0] + 256 * Get(s[1..])
  }

  lemma {:induction false} PutGet(n: nat, k: nat)
    requires n < Pow256(k)
    ensures Get(Put(n, k)) == n
    decreases k
  {
    if k > 0 {
      PutGet(n / 256, k - 1);
      assert Put(n, k)[1..] == Put(n / 256, k - 1);
    }
  }

  lemma {:induction false} GetInjective(a: seq<byte>, b: seq<byte>)
    requires |a| == |b| && Get(a) == Get(b)
    ensures a == b
    decreases |a|
  {
    if a != [] {
      assert a[0] == b[0] && Get(a[1..]) == Get(b[1..]);
      GetInjective(a[1..], b[1..]);
      assert a == [a[0]] + a[1..] && b == [b[0]] + b[1..];
    }
  }

  lemma {:induction false} GetPut(s: seq<byte>)
    ensures Put(Get(s), |s|) == s
  {
    if s != [] {
      GetPut(s[1..]);
      assert Get(s) % 256 == s[0] && Get(s) / 256 == Get(s[1..]);
    }
  }

  /** The size of a struct whose fields have these widths in bytes. */
  function Size(widths: seq<nat>): nat {
    if widths == [] then 0 else widths[0] + Size(widths[1..])
  }

  lemma {:induction false} SizeConcat(a: seq<nat>, b: seq<nat>)
    ensures Size(a + b) == Size(a) + Size(b)
  {
    if a == [] {
      assert a + b == b;
    } else {
      SizeConcat(a[1..], b);
      assert (a + b)[1..] == a[1..] + b;
    }
  }

  ghost predicate Fits(widths: seq<nat>, values: seq<nat>) {
    |widths| == |values| && forall i :: 0 <= i < |values| ==> values[i] < Pow256(widths[i])
  }

  /** A struct as it lies in memory: its fields, little-endian, one after the other; padding is
      a field of value zero. */
  function Pack(widths: seq<nat>, values: seq<nat>): (r: seq<byte>)
    requires |widths| == |values|
    ensures |r| == Size(widths)
  {
    if widths == [] then [] else Put(values[0], widths[0]) + Pack(widths[1..], values[1..])
  }

  function Unpack(widths: seq<nat>, s: seq<byte>): (r: seq<nat>)
    requires |s| == Size(widths)
    ensures Fits(widths, r)
    decreases |widths|
  {
    if widths == [] then [] else [Get(s[..widths[0]])] + Unpack(widths[1..], s[widths[0]..])
  }

  lemma {:induction false} PackUnpack(widths: seq<nat>, values: seq<nat>)
    requires Fits(widths, values)
    ensures Unpack(widths, Pack(widths, values)) == values
    decreases |widths|
  {
    hide Put, Get, Pow256;
    if widths != [] {
      var head, tail := Put(values[0], widths[0]), Pack(widths[1..], values[1..]);
      PutGet(values[0], widths[0]);
      PackUnpack(widths[1..], values[1..]);
      assert (head + tail)[..widths[0]] == head && (head + tail)[widths[0]..] == tail;
    }
  }

  lemma {:induction false} PackConcat(widths: seq<nat>, values: seq<nat>, widths': seq<nat>, values': seq<nat>)
    requires |widths| == |values| && |widths'| == |values'|
    ensures Pack(widths + widths', values + values') == Pack(widths, values) + Pack(widths', values')
    decreases |widths|
  {
    hide Put;
    if widths == [] {
      assert widths + widths' == widths' && values + values' == values';
    } else {
      PackConcat(widths[1..], values[1..], widths', values');
      assert (widths + widths')[1..] == widths[1..] + widths' && (values + values')[1..] == values[1..] + values';
    }
  }

  /** A signed field holds the two's complement bit pattern. */
  function Signed(n: u64): i64 {
    if n < 0x8000_0000_0000_0000 then n else n - TWO_64
  }

  lemma SignedWrap(n: i64)
    ensures Signed(Wrap64(n)) == n
  {
    assert Wrap64(n) == if n >= 0 then n else n + TWO_64;
  }
}
