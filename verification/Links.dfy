/** Doubly-linked lists threaded through a pool's storage. A pointer is the index of a
    storage slot, which is how the pool itself addresses its objects; `NULL` is no slot. */
module Links {
  import opened Seqs

  const NULL: int := -1

  datatype Node<+T> = Node(item: T, next: int, prev: int)

  /** `nodes` are the slots of one well-linked list, first to last. */
  ghost predicate Chain<T(!new)>(s: seq<Node<T>>, nodes: seq<nat>) {
    && (forall i :: 0 <= i < |nodes| ==> nodes[i] < |s|)
    && Distinct(nodes)
    && (forall i {:trigger s[nodes[i]]} :: 0 <= i < |nodes| ==> s[nodes[i]].next == At(nodes, i + 1))
    && (forall i {:trigger s[nodes[i]]} :: 0 <= i < |nodes| ==> s[nodes[i]].prev == At(nodes, i - 1))
  }

  ghost function At(nodes: seq<nat>, i: int): int {
    if 0 <= i < |nodes| then nodes[i] else NULL
  }

  ghost function First(nodes: seq<nat>): int {
    At(nodes, 0)
  }

  ghost function Last(nodes: seq<nat>): int {
    At(nodes, |nodes| - 1)
  }

  /** `t` has the links of `s` on the listed slots. */
  ghost predicate SameLinks<T(!new)>(s: seq<Node<T>>, t: seq<Node<T>>, nodes: seq<nat>) {
    && (forall i :: 0 <= i < |nodes| ==> nodes[i] < |s| && nodes[i] < |t|)
    && (forall i {:trigger t[nodes[i]]} :: 0 <= i < |nodes| ==>
          s[nodes[i]].next == t[nodes[i]].next && s[nodes[i]].prev == t[nodes[i]].prev)
  }

  lemma ChainFrame<T(!new)>(s: seq<Node<T>>, t: seq<Node<T>>, nodes: seq<nat>)
    requires Chain(s, nodes) && SameLinks(s, t, nodes)
    ensures Chain(t, nodes)
  {
  }

  lemma LinksAt<T(!new)>(s: seq<Node<T>>, nodes: seq<nat>, k: nat)
    requires Chain(s, nodes) && k < |nodes|
    ensures nodes[k] < |s| && s[nodes[k]].next == At(nodes, k + 1) && s[nodes[k]].prev == At(nodes, k - 1)
    ensures (k == 0 <==> nodes[k] == First(nodes)) && (k == |nodes| - 1 <==> nodes[k] == Last(nodes))
    ensures At(nodes, k + 1) != nodes[k] && At(nodes, k - 1) != nodes[k]
    ensures At(nodes, k + 1) == NULL || 0 <= At(nodes, k + 1) < |s|
    ensures At(nodes, k - 1) == NULL || 0 <= At(nodes, k - 1) < |s|
  {
    assert s[nodes[k]].next == At(nodes, k + 1);
  }

  function SetNext<T>(s: seq<Node<T>>, p: int, q: int): (t: seq<Node<T>>)
    requires p == NULL || 0 <= p < |s|
    ensures |t| == |s|
  {
    if p == NULL then s else s[p := s[p].(next := q)]
  }

  function SetPrev<T>(s: seq<Node<T>>, p: int, q: int): (t: seq<Node<T>>)
    requires p == NULL || 0 <= p < |s|
    ensures |t| == |s|
  {
    if p == NULL then s else s[p := s[p].(prev := q)]
  }

  /** `t` is `s` with the loose slot `p` linked between list positions `k - 1` and `k`. */
  ghost predicate LinkedIn<T(!new)>(s: seq<Node<T>>, nodes: seq<nat>, k: nat, p: nat, item: T, t: seq<Node<T>>) {
    && Chain(s, nodes) && k <= |nodes| && p < |s| && p !in nodes
    && t == SetNext(SetPrev(s[p := Node(item, At(nodes, k), At(nodes, k - 1))], At(nodes, k), p), At(nodes, k - 1), p)
  }

  /** What the loose slot held before does not matter. */
  lemma LinkedInOver<T(!new)>(s: seq<Node<T>>, x: Node<T>, nodes: seq<nat>, k: nat, p: nat, item: T, t: seq<Node<T>>)
    requires p < |s| && Chain(s, nodes) && LinkedIn(s[p := x], nodes, k, p, item, t)
    ensures LinkedIn(s, nodes, k, p, item, t)
  {
    assert s[p := x][p := Node(item, At(nodes, k), At(nodes, k - 1))] ==
           s[p := Node(item, At(nodes, k), At(nodes, k - 1))];
  }

  lemma LinkAt<T(!new)>(s: seq<Node<T>>, nodes: seq<nat>, k: nat, p: nat, item: T, t: seq<Node<T>>)
    requires LinkedIn(s, nodes, k, p, item, t)
    ensures Chain(t, InsertedAt(nodes, k, p))
  {
    var after := InsertedAt(nodes, k, p);
    DistinctInserted(nodes, k, p);
    forall i | 0 <= i < |after|
      ensures after[i] < |t|
      ensures t[after[i]].next == At(after, i + 1) && t[after[i]].prev == At(after, i - 1)
    {
      LinkAtOne(s, nodes, k, p, item, t, i);
    }
  }

  lemma LinkAtOne<T(!new)>(s: seq<Node<T>>, nodes: seq<nat>, k: nat, p: nat, item: T, t: seq<Node<T>>, i: nat)
    requires LinkedIn(s, nodes, k, p, item, t) && i <= |nodes|
    ensures InsertedAt(nodes, k, p)[i] < |t|
    ensures t[InsertedAt(nodes, k, p)[i]].next == At(InsertedAt(nodes, k, p), i + 1)
    ensures t[InsertedAt(nodes, k, p)[i]].prev == At(InsertedAt(nodes, k, p), i - 1)
  {
    AtInserted(nodes, k, p, i - 1);
    AtInserted(nodes, k, p, i);
    AtInserted(nodes, k, p, i + 1);
    if i == k {
      LinkAtNew(s, nodes, k, p, item, t);
    } else {
      LinkAtOther(s, nodes, k, p, item, t, if i < k then i else i - 1);
    }
  }

  lemma AtInserted(nodes: seq<nat>, k: nat, p: nat, i: int)
    requires k <= |nodes|
    ensures At(InsertedAt(nodes, k, p), i) == if i < k then At(nodes, i) else if i == k then p else At(nodes, i - 1)
  {
  }

  lemma LinkAtNew<T(!new)>(s: seq<Node<T>>, nodes: seq<nat>, k: nat, p: nat, item: T, t: seq<Node<T>>)
    requires LinkedIn(s, nodes, k, p, item, t)
    ensures |t| == |s| && t[p] == Node(item, At(nodes, k), At(nodes, k - 1))
  {
  }

  lemma LinkAtOther<T(!new)>(s: seq<Node<T>>, nodes: seq<nat>, k: nat, p: nat, item: T, t: seq<Node<T>>, j: nat)
    requires LinkedIn(s, nodes, k, p, item, t) && j < |nodes|
    ensures |t| == |s| && t[nodes[j]].item == s[nodes[j]].item
    ensures t[nodes[j]].next == if j + 1 == k then p else At(nodes, j + 1)
    ensures t[nodes[j]].prev == if j == k then p else At(nodes, j - 1)
  {
    assert s[nodes[j]].next == At(nodes, j + 1);
    assert s[nodes[j]].prev == At(nodes, j - 1);
  }

  /** `t` is `s` with the neighbours of position `k` linked to each other. */
  ghost predicate LinkedOut<T(!new)>(s: seq<Node<T>>, nodes: seq<nat>, k: nat, t: seq<Node<T>>) {
    && Chain(s, nodes) && k < |nodes|
    && t == SetPrev(SetNext(s, At(nodes, k - 1), At(nodes, k + 1)), At(nodes, k + 1), At(nodes, k - 1))
  }

  /** `LinkedOut` that also clears the links of the slot it takes out. */
  ghost predicate LinkedOutLoose<T(!new)>(s: seq<Node<T>>, nodes: seq<nat>, k: nat, t: seq<Node<T>>) {
    && Chain(s, nodes) && k < |nodes|
    && t == SetPrev(SetNext(s, At(nodes, k - 1), At(nodes, k + 1)), At(nodes, k + 1), At(nodes, k - 1))
            [nodes[k] := Node(s[nodes[k]].item, NULL, NULL)]
  }

  lemma UnlinkAt<T(!new)>(s: seq<Node<T>>, nodes: seq<nat>, k: nat, t: seq<Node<T>>)
    requires LinkedOut(s, nodes, k, t)
    ensures Chain(t, DeletedAt(nodes, k))
  {
    var after := DeletedAt(nodes, k);
    DistinctDeleted(nodes, k);
    forall i | 0 <= i < |after|
      ensures after[i] < |t|
      ensures t[after[i]].next == At(after, i + 1) && t[after[i]].prev == At(after, i - 1)
    {
      UnlinkAtOne(s, nodes, k, t, i);
    }
  }

  lemma UnlinkAtOne<T(!new)>(s: seq<Node<T>>, nodes: seq<nat>, k: nat, t: seq<Node<T>>, i: nat)
    requires LinkedOut(s, nodes, k, t) && i < |nodes| - 1
    ensures var after := DeletedAt(nodes, k);
            && after[i] < |t|
            && t[after[i]].next == At(after, i + 1) && t[after[i]].prev == At(after, i - 1)
  {
    var j := if i < k then i else i + 1;
    assert s[nodes[j]].next == At(nodes, j + 1);
    assert s[nodes[j]].prev == At(nodes, j - 1);
  }

  /** Pointer surgery on one list leaves every item, and every slot outside the list, alone. */
  ghost predicate Untouched<T(!new)>(s: seq<Node<T>>, t: seq<Node<T>>, nodes: seq<nat>, p: int) {
    && |t| == |s|
    && (forall x :: 0 <= x < |s| && x != p ==> t[x].item == s[x].item)
    && (forall x :: 0 <= x < |s| && x != p && x !in nodes ==> t[x] == s[x])
  }

  lemma LinkFrame<T(!new)>(s: seq<Node<T>>, nodes: seq<nat>, k: nat, p: nat, item: T, t: seq<Node<T>>)
    requires LinkedIn(s, nodes, k, p, item, t)
    ensures Untouched(s, t, nodes, p)
  {
  }

  lemma UnlinkFrame<T(!new)>(s: seq<Node<T>>, nodes: seq<nat>, k: nat, t: seq<Node<T>>)
    requires LinkedOut(s, nodes, k, t)
    ensures Untouched(s, t, nodes, NULL)
  {
  }

  ghost predicate SameItems<T(!new)>(s: seq<Node<T>>, t: seq<Node<T>>) {
    |t| == |s| && forall x :: 0 <= x < |s| ==> t[x].item == s[x].item
  }

  /** Taking a slot out and clearing its links is `LinkedOut` followed by a write to the loose slot. */
  ghost function Loosened<T(!new)>(s: seq<Node<T>>, nodes: seq<nat>, k: nat, t: seq<Node<T>>): (r: seq<Node<T>>)
    requires LinkedOutLoose(s, nodes, k, t)
    ensures LinkedOut(s, nodes, k, r) && nodes[k] < |r| && |t| == |r|
    ensures t == r[nodes[k] := Node(s[nodes[k]].item, NULL, NULL)]
    ensures SameItems(s, t)
  {
    SetPrev(SetNext(s, At(nodes, k - 1), At(nodes, k + 1)), At(nodes, k + 1), At(nodes, k - 1))
  }

  lemma UnlinkSize<T(!new)>(s: seq<Node<T>>, nodes: seq<nat>, k: nat, t: seq<Node<T>>)
    requires LinkedOut(s, nodes, k, t)
    ensures |t| == |s|
  {
  }

  lemma LooseChain<T(!new)>(s: seq<Node<T>>, nodes: seq<nat>, k: nat, t: seq<Node<T>>)
    requires LinkedOutLoose(s, nodes, k, t)
    ensures Chain(t, DeletedAt(nodes, k)) && nodes[k] !in DeletedAt(nodes, k) && |t| == |s| && nodes[k] < |s|
    ensures SameItems(s, t)
  {
    var r := Loosened(s, nodes, k, t);
    UnlinkAt(s, nodes, k, r);
    MembersDeleted(nodes, k);
    assert SameLinks(r, t, DeletedAt(nodes, k));
    ChainFrame(r, t, DeletedAt(nodes, k));
  }
}
