/** Insertion and deletion at a position of a sequence. */
module Seqs {

  ghost function InsertedAt<T>(xs: seq<T>, k: nat, x: T): (r: seq<T>)
    requires k <= |xs|
    ensures |r| == |xs| + 1
    ensures forall i :: 0 <= i < |r| ==> r[i] == if i < k then xs[i] else if i == k then x else xs[i - 1]
  {
    xs[..k] + [x] + xs[k..]
  }

  ghost function DeletedAt<T>(xs: seq<T>, k: nat): (r: seq<T>)
    requires k < |xs|
    ensures |r| == |xs| - 1
    ensures forall i :: 0 <= i < |r| ==> r[i] == if i < k then xs[i] else xs[i + 1]
  {
    xs[..k] + xs[k + 1..]
  }

  ghost predicate Distinct(nodes: seq<nat>) {
    forall i, j :: 0 <= i < j < |nodes| ==> nodes[i] != nodes[j]
  }

  lemma DistinctInserted(nodes: seq<nat>, k: nat, p: nat)
    requires Distinct(nodes) && k <= |nodes| && p !in nodes
    ensures Distinct(InsertedAt(nodes, k, p))
  {
  }

  lemma DistinctDeleted(nodes: seq<nat>, k: nat)
    requires Distinct(nodes) && k < |nodes|
    ensures Distinct(DeletedAt(nodes, k))
  {
  }

  lemma MembersDeleted(nodes: seq<nat>, k: nat)
    requires Distinct(nodes) && k < |nodes|
    ensures forall x :: x in DeletedAt(nodes, k) <==> x in nodes && x != nodes[k]
  {
    forall x | x in nodes && x != nodes[k]
      ensures x in DeletedAt(nodes, k)
    {
      var i :| 0 <= i < |nodes| && nodes[i] == x;
      assert DeletedAt(nodes, k)[if i < k then i else i - 1] == x;
    }
  }

  lemma MembersInserted(nodes: seq<nat>, k: nat, p: nat)
    requires k <= |nodes|
    ensures forall x :: x in InsertedAt(nodes, k, p) <==> x in nodes || x == p
  {
    forall x | x in nodes || x == p
      ensures x in InsertedAt(nodes, k, p)
    {
      if x == p {
        assert InsertedAt(nodes, k, p)[k] == x;
      } else {
        var i :| 0 <= i < |nodes| && nodes[i] == x;
        assert InsertedAt(nodes, k, p)[if i < k then i else i + 1] == x;
      }
    }
  }

  lemma InsertedTail<T>(xs: seq<T>, k: nat, x: T)
    requires 0 < k <= |xs|
    ensures InsertedAt(xs, k, x) == [xs[0]] + InsertedAt(xs[1..], k - 1, x)
  {
    assert xs[..k] == [xs[0]] + xs[1..][..k - 1];
    assert xs[k..] == xs[1..][k - 1..];
  }

  lemma InsertedUpdated<T>(xs: seq<T>, k: nat, x: T, y: T)
    requires k <= |xs|
    ensures InsertedAt(xs, k, x)[k := y] == InsertedAt(xs, k, y)
  {
  }

  lemma DeletedUpdated<T>(xs: seq<T>, k: nat, x: T)
    requires k < |xs|
    ensures DeletedAt(xs[k := x], k) == DeletedAt(xs, k)
  {
  }

  ghost function Elements(xs: seq<nat>): set<nat> {
    set x | x in xs
  }

  lemma {:induction false} DistinctSize(xs: seq<nat>)
    requires Distinct(xs)
    ensures |Elements(xs)| == |xs|
  {
    if xs != [] {
      var rest, last := xs[..|xs| - 1], xs[|xs| - 1];
      DistinctSize(rest);
      assert Elements(xs) == Elements(rest) + {last};
    }
  }

  lemma DeletedTail<T>(xs: seq<T>, k: nat)
    requires 0 < k < |xs|
    ensures DeletedAt(xs, k) == [xs[0]] + DeletedAt(xs[1..], k - 1)
  {
    assert xs[..k] == [xs[0]] + xs[1..][..k - 1];
    assert xs[k + 1..] == xs[1..][k..];
  }
}
