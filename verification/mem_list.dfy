/** The list operations of core/lib/list.c on list heads that live in a memory of words: a node is
    the address of its prev word, and its next word follows. */
module MemList {
  type Addr = nat
  type Memory = seq<nat>

  const NULL: nat := 0

  /** The node at place `k`; the head stands at both ends. */
  function At(head: Addr, s: seq<Addr>, k: int): Addr {
    if 0 <= k < |s| then s[k] else head
  }

  predicate Apart(a: Addr, b: Addr) {
    a + 2 <= b || b + 2 <= a
  }

  /** The nodes lie in memory and do not overlap each other or the head. */
  ghost predicate Spaced(m: Memory, head: Addr, s: seq<Addr>) {
    && head + 1 < |m|
    && (forall i :: 0 <= i < |s| ==> s[i] + 1 < |m| && Apart(head, s[i]))
    && (forall i, j :: 0 <= i < j < |s| ==> Apart(s[i], s[j]))
  }

  /** The words of the head and of the nodes `s` link them into one ring, in that order. */
  ghost predicate Ring(m: Memory, head: Addr, s: seq<Addr>) {
    && Spaced(m, head, s)
    && forall i, j :: -1 <= i < |s| && j == i + 1 ==>
         m[At(head, s, i) + 1] == At(head, s, j) && m[At(head, s, j)] == At(head, s, i)
  }

  /** `a` is not a word of one of the nodes. */
  ghost predicate Outside(a: int, nodes: seq<Addr>) {
    a !in nodes && a - 1 !in nodes
  }

  /** Memory is the same but for the two words of the nodes in `nodes`. */
  ghost predicate OnlyAt(m: Memory, m': Memory, nodes: seq<Addr>) {
    |m'| == |m| && forall a :: 0 <= a < |m| && Outside(a, nodes) ==> m'[a] == m[a]
  }

  /** A read or a write of one word; those outside memory do not happen. */
  function Load(m: Memory, a: Addr): nat {
    if a < |m| then m[a] else NULL
  }

  function Store(m: Memory, a: Addr, x: nat): (m': Memory)
    ensures |m'| == |m|
  {
    if a < |m| then m[a := x] else m
  }

  function AddTail(m: Memory, head: Addr, node: Addr): (m': Memory)
    ensures |m'| == |m|
  {
    var last := Load(m, head);
    Store(Store(Store(Store(m, last + 1, node), node + 1, head), node, last), head, node)
  }

  function DelInit(m: Memory, node: Addr): (m': Memory)
    ensures |m'| == |m|
  {
    var next, prev := Load(m, node + 1), Load(m, node);
    var m1 := Store(Store(m, next, prev), prev + 1, next);
    var m2 := Store(Store(m1, node + 1, NULL), node, NULL);
    Store(Store(m2, node + 1, node), node, node)
  }

  lemma RingAt(m: Memory, head: Addr, s: seq<Addr>, k: int)
    requires Ring(m, head, s) && -1 <= k < |s|
    ensures At(head, s, k) + 1 < |m| && At(head, s, k + 1) + 1 < |m|
    ensures m[At(head, s, k) + 1] == At(head, s, k + 1) && m[At(head, s, k + 1)] == At(head, s, k)
  {
  }

  /** The words from `lo` up to but not including `hi` are the same. */
  ghost predicate SameOn(m: Memory, m': Memory, lo: int, hi: int) {
    |m'| == |m| && forall a :: 0 <= a < |m| && lo <= a < hi ==> m'[a] == m[a]
  }

  lemma RingFrame(m: Memory, m': Memory, head: Addr, s: seq<Addr>)
    requires Ring(m, head, s) && SameOn(m, m', head, head + 2)
    requires forall b :: b in s ==> SameOn(m, m', b, b + 2)
    ensures Ring(m', head, s)
  {
    forall i, j | -1 <= i < |s| && j == i + 1
      ensures m'[At(head, s, i) + 1] == At(head, s, j) && m'[At(head, s, j)] == At(head, s, i)
    {
      RingAt(m, head, s, i);
      assert i >= 0 ==> s[i] in s;
      assert j < |s| ==> s[j] in s;
      assert SameOn(m, m', At(head, s, i), At(head, s, i) + 2);
      assert SameOn(m, m', At(head, s, j), At(head, s, j) + 2);
    }
  }

  lemma OnlyAtFrame(m: Memory, m': Memory, nodes: seq<Addr>, lo: int, hi: int)
    requires OnlyAt(m, m', nodes)
    requires forall x :: x in nodes ==> x + 2 <= lo || hi <= x
    ensures SameOn(m, m', lo, hi)
  {
    forall a | 0 <= a < |m| && lo <= a < hi
      ensures m'[a] == m[a]
    {
      assert a in nodes ==> false;
      assert a - 1 in nodes ==> false;
    }
  }

  /** What one word holds after a node was appended behind `last`. */
  lemma AddTailWord(m: Memory, head: Addr, node: Addr, last: Addr, a: nat)
    requires head + 1 < |m| && node + 1 < |m| && last + 1 < |m| && a < |m|
    requires m[head] == last && Apart(head, node) && Apart(last, node) && (last == head || Apart(last, head))
    ensures AddTail(m, head, node)[a] ==
      if a == head || a == last + 1 then node else if a == node then last else if a == node + 1 then head else m[a]
  {
  }

  /** What one word holds after a node between `prev` and `next` was removed. */
  lemma DelInitWord(m: Memory, node: Addr, prev: Addr, next: Addr, a: nat)
    requires node + 1 < |m| && prev + 1 < |m| && next + 1 < |m| && a < |m|
    requires m[node] == prev && m[node + 1] == next
    requires Apart(prev, node) && Apart(next, node) && (prev == next || Apart(prev, next))
    ensures DelInit(m, node)[a] ==
      if a == node || a == node + 1 then node else if a == next then prev else if a == prev + 1 then next else m[a]
  {
  }

  lemma AddLink(m: Memory, head: Addr, s: seq<Addr>, node: Addr, i: int)
    requires Ring(m, head, s) && Spaced(m, head, s + [node]) && -1 <= i <= |s|
    ensures var m', t := AddTail(m, head, node), s + [node];
      && At(head, t, i) + 1 < |m| && At(head, t, i + 1) < |m|
      && m'[At(head, t, i) + 1] == At(head, t, i + 1) && m'[At(head, t, i + 1)] == At(head, t, i)
  {
    hide AddTail, Ring, Spaced;
    var t, last := s + [node], At(head, s, |s| - 1);
    RingAt(m, head, s, |s| - 1);
    RingSpaced(m, head, s);
    PlacesIn(m, head, t);
    LastPlace(m, head, s, node);
    AddTailWord(m, head, node, last, At(head, t, i) + 1);
    AddTailWord(m, head, node, last, At(head, t, i + 1));
    if i + 1 < |s| {
      RingAt(m, head, s, i);
      EarlierPlaces(m, head, s, node, i);
    }
  }

  lemma LastPlace(m: Memory, head: Addr, s: seq<Addr>, node: Addr)
    requires Spaced(m, head, s + [node])
    ensures var last := At(head, s, |s| - 1);
      (s + [node])[|s|] == node && node + 1 < |m| && Apart(head, node) && Apart(last, node) && (last == head || Apart(last, head))
  {
    assert (s + [node])[|s|] == node;
    assert s != [] ==> (s + [node])[|s| - 1] == s[|s| - 1];
  }

  lemma EarlierPlaces(m: Memory, head: Addr, s: seq<Addr>, node: Addr, i: int)
    requires Spaced(m, head, s) && Spaced(m, head, s + [node]) && -1 <= i < |s| - 1
    ensures var (x, y, last) := (At(head, s, i), At(head, s, i + 1), At(head, s, |s| - 1));
      && x + 1 != head && x != last && x + 1 != node && x != node
      && y != head && y != last + 1 && y != node && y != node + 1
  {
    assert (s + [node])[|s|] == node && (s + [node])[i + 1] == s[i + 1];
    assert i >= 0 ==> (s + [node])[i] == s[i];
  }

  lemma PlacesIn(m: Memory, head: Addr, s: seq<Addr>)
    requires Spaced(m, head, s)
    ensures forall i :: -1 <= i <= |s| ==> At(head, s, i) + 1 < |m|
  {
  }

  /** Appending keeps the ring and writes only to its nodes and the new one. */
  lemma RingAddTail(m: Memory, head: Addr, s: seq<Addr>, node: Addr)
    requires Ring(m, head, s) && Spaced(m, head, s + [node])
    ensures Ring(AddTail(m, head, node), head, s + [node])
    ensures OnlyAt(m, AddTail(m, head, node), [head] + (s + [node]))
  {
    hide AddTail;
    var t, m' := s + [node], AddTail(m, head, node);
    forall i, j | -1 <= i < |t| && j == i + 1
      ensures m'[At(head, t, i) + 1] == At(head, t, j) && m'[At(head, t, j)] == At(head, t, i)
    {
      AddLink(m, head, s, node, i);
    }
    AddWrites(m, head, s, node);
  }

  lemma AddWrites(m: Memory, head: Addr, s: seq<Addr>, node: Addr)
    requires Ring(m, head, s) && Spaced(m, head, s + [node])
    ensures OnlyAt(m, AddTail(m, head, node), [head] + (s + [node]))
  {
    hide Spaced;
    RingAt(m, head, s, |s| - 1);
    assert At(head, s, |s| - 1) in [head] + s;
  }

  /** The links around place `i` of the ring that is left when place `k` is taken out. */
  lemma DelLink(m: Memory, head: Addr, s: seq<Addr>, k: nat, i: int)
    requires Ring(m, head, s) && k < |s| && -1 <= i < |s| - 1
    ensures var m', t := DelInit(m, s[k]), s[..k] + s[k+1..];
      && At(head, t, i) + 1 < |m'| && At(head, t, i + 1) < |m'|
      && m'[At(head, t, i) + 1] == At(head, t, i + 1) && m'[At(head, t, i + 1)] == At(head, t, i)
  {
    hide DelInit, Ring, Spaced;
    RingAt(m, head, s, k - 1);
    RingAt(m, head, s, k);
    var t := s[..k] + s[k+1..];
    var a, b := if i < k then i else i + 1, if i + 1 < k then i + 1 else i + 2;
    assert At(head, t, i) == At(head, s, a) && At(head, t, i + 1) == At(head, s, b);
    RingSpaced(m, head, s);
    PlacesIn(m, head, s);
    Neighbours(m, head, s, k);
    DelInitWord(m, s[k], At(head, s, k - 1), At(head, s, k + 1), At(head, s, a) + 1);
    DelInitWord(m, s[k], At(head, s, k - 1), At(head, s, k + 1), At(head, s, b));
    if b == a + 1 {
      RingAt(m, head, s, a);
      OtherPlaces(m, head, s, k, a, b);
    } else {
      Between(m, head, s, k);
    }
  }

  lemma RingSpaced(m: Memory, head: Addr, s: seq<Addr>)
    requires Ring(m, head, s)
    ensures Spaced(m, head, s)
  {
  }

  lemma Neighbours(m: Memory, head: Addr, s: seq<Addr>, k: nat)
    requires Spaced(m, head, s) && k < |s|
    ensures var (prev, next) := (At(head, s, k - 1), At(head, s, k + 1));
      Apart(prev, s[k]) && Apart(next, s[k]) && (prev == next || Apart(prev, next))
  {
  }

  lemma OtherPlaces(m: Memory, head: Addr, s: seq<Addr>, k: nat, a: int, b: int)
    requires Spaced(m, head, s) && k < |s| && -1 <= a < b <= |s| && b == a + 1 && a != k && b != k
    ensures var (x, y, prev, next) := (At(head, s, a), At(head, s, b), At(head, s, k - 1), At(head, s, k + 1));
      && x + 1 != s[k] && x != s[k] && y != s[k] && y != s[k] + 1
      && x + 1 != next && x != prev && y != next && y != prev + 1
  {
  }

  lemma Between(m: Memory, head: Addr, s: seq<Addr>, k: nat)
    requires Spaced(m, head, s) && k < |s|
    ensures var (prev, next) := (At(head, s, k - 1), At(head, s, k + 1)); prev + 1 != next && prev != next + 1
    ensures At(head, s, k - 1) + 1 != s[k] && At(head, s, k - 1) != s[k]
    ensures At(head, s, k + 1) != s[k] && At(head, s, k + 1) != s[k] + 1
  {
  }

  /** Removing the node at place `k` keeps the ring and writes only to it and its neighbours. */
  lemma RingDelInit(m: Memory, head: Addr, s: seq<Addr>, k: nat)
    requires Ring(m, head, s) && k < |s|
    ensures Ring(DelInit(m, s[k]), head, s[..k] + s[k+1..])
    ensures OnlyAt(m, DelInit(m, s[k]), [head] + s)
  {
    hide DelInit, OnlyAt;
    var m', t := DelInit(m, s[k]), s[..k] + s[k+1..];
    SpacedWithout(m, m', head, s, k);
    forall i, j | -1 <= i < |t| && j == i + 1
      ensures m'[At(head, t, i) + 1] == At(head, t, j) && m'[At(head, t, j)] == At(head, t, i)
    {
      DelLink(m, head, s, k, i);
    }
    DelWrites(m, head, s, k);
  }

  lemma SpacedWithout(m: Memory, m': Memory, head: Addr, s: seq<Addr>, k: nat)
    requires Spaced(m, head, s) && k < |s| && |m'| == |m|
    ensures Spaced(m', head, s[..k] + s[k+1..])
  {
  }

  lemma DelWrites(m: Memory, head: Addr, s: seq<Addr>, k: nat)
    requires Ring(m, head, s) && k < |s|
    ensures OnlyAt(m, DelInit(m, s[k]), [head] + s)
  {
    RingAt(m, head, s, k - 1);
    RingAt(m, head, s, k);
    assert forall i :: -1 <= i <= |s| ==> At(head, s, i) in [head] + s;
  }
}
