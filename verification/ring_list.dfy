/** The circular doubly linked lists of core/lib/list.c, against the sequence of their nodes. */
module RingList {
  import opened Sequences

  class ListHead {
    var prev: ListHead?
    var next: ListHead?
  }

  /** The node at place `k`; the head stands at both ends. */
  ghost function At(head: ListHead, s: seq<ListHead>, k: int): ListHead {
    if 0 <= k < |s| then s[k] else head
  }

  /** `head` heads a list of the nodes `s`: each node is linked to the next one, both ways. */
  ghost predicate Ring(head: ListHead, s: seq<ListHead>)
    reads head, s
  {
    && head !in s && Distinct(s)
    && forall i, j :: -1 <= i < |s| && j == i + 1 ==>
         At(head, s, i).next == At(head, s, j) && At(head, s, j).prev == At(head, s, i)
  }

  lemma RingAt(head: ListHead, s: seq<ListHead>, k: int)
    requires Ring(head, s) && -1 <= k < |s|
    ensures At(head, s, k).next == At(head, s, k + 1) && At(head, s, k + 1).prev == At(head, s, k)
  {
  }

  method InitListHead(head: ListHead)
    modifies head
    ensures Ring(head, [])
  {
    head.next := head;
    head.prev := head;
  }

  method ListIsEmpty(head: ListHead, ghost s: seq<ListHead>) returns (r: bool)
    requires Ring(head, s)
    ensures r <==> s == []
  {
    RingAt(head, s, -1);
    r := head.next == head;
  }

  method ListAdd(node: ListHead, head: ListHead, ghost s: seq<ListHead>)
    requires Ring(head, s) && node != head && node !in s
    modifies head`next, node, At(head, s, 0)`prev
    ensures Ring(head, [node] + s)
  {
    RingAt(head, s, -1);
    var first := head.next;
    first.prev := node;
    node.next := first;
    node.prev := head;
    head.next := node;
    ghost var t := [node] + s;
    forall i, j | -1 <= i < |t| && j == i + 1
      ensures At(head, t, i).next == At(head, t, j) && At(head, t, j).prev == At(head, t, i)
    {
      if i >= 1 {
        assert At(head, t, i) == At(head, s, i - 1) && At(head, t, j) == At(head, s, j - 1);
        assert old(At(head, s, i - 1).next) == At(head, s, i);
        assert old(At(head, s, i).prev) == At(head, s, i - 1);
      }
    }
  }

  method ListAddTail(node: ListHead, head: ListHead, ghost s: seq<ListHead>)
    requires Ring(head, s) && node != head && node !in s
    modifies head`prev, node, At(head, s, |s| - 1)`next
    ensures Ring(head, s + [node])
  {
    RingAt(head, s, |s| - 1);
    var last := head.prev;
    last.next := node;
    node.next := head;
    node.prev := last;
    head.prev := node;
    ghost var t := s + [node];
    forall i, j | -1 <= i < |t| && j == i + 1
      ensures At(head, t, i).next == At(head, t, j) && At(head, t, j).prev == At(head, t, i)
    {
      if j < |s| {
        assert old(At(head, s, i).next) == At(head, s, j) && old(At(head, s, j).prev) == At(head, s, i);
      }
    }
  }

  ghost function Without(s: seq<ListHead>, k: nat): seq<ListHead>
    requires k < |s|
  {
    s[..k] + s[k+1..]
  }

  /** Unlinks the node at place `k` and clears its links. */
  method ListDel(node: ListHead, ghost head: ListHead, ghost s: seq<ListHead>, ghost k: nat)
    requires Ring(head, s) && k < |s| && s[k] == node
    modifies node, At(head, s, k - 1)`next, At(head, s, k + 1)`prev
    ensures Ring(head, Without(s, k))
    ensures node.next == null && node.prev == null
  {
    RingAt(head, s, k - 1);
    RingAt(head, s, k);
    var next := node.next;
    var prev := node.prev;
    next.prev := prev;
    prev.next := next;
    node.next := null;
    node.prev := null;
    ghost var t := Without(s, k);
    forall i, j | -1 <= i < |t| && j == i + 1
      ensures At(head, t, i).next == At(head, t, j) && At(head, t, j).prev == At(head, t, i)
    {
      var a, b := if i < k then i else i + 1, if j < k then j else j + 1;
      assert At(head, t, i) == At(head, s, a) && At(head, t, j) == At(head, s, b);
      if b == a + 1 {
        assert old(At(head, s, a).next) == At(head, s, b) && old(At(head, s, b).prev) == At(head, s, a);
      }
    }
  }

  method ListDelInit(node: ListHead, ghost head: ListHead, ghost s: seq<ListHead>, ghost k: nat)
    requires Ring(head, s) && k < |s| && s[k] == node
    modifies node, At(head, s, k - 1)`next, At(head, s, k + 1)`prev
    ensures Ring(head, Without(s, k)) && Ring(node, [])
  {
    ListDel(node, head, s, k);
    InitListHead(node);
  }

  /** Takes the first node; of an empty list, the head itself comes back. */
  method ListPop(head: ListHead, ghost s: seq<ListHead>) returns (target: ListHead)
    requires Ring(head, s)
    modifies head, At(head, s, 0), At(head, s, 1)`prev
    ensures if s == [] then target == head && Ring(head, [])
            else target == s[0] && Ring(head, s[1..]) && Ring(target, [])
  {
    RingAt(head, s, -1);
    target := head.next;
    if target != head {
      ListDelInit(target, head, s, 0);
      assert Without(s, 0) == s[1..];
    } else {
      target.next, target.prev := null, null;
      InitListHead(target);
    }
  }

  /** Two lists share no node. */
  ghost predicate Apart(list: ListHead, l: seq<ListHead>, head: ListHead, s: seq<ListHead>) {
    list != head && list !in s && head !in l && forall x :: x in l ==> x !in s
  }

  /** Moves the nodes `l` of `list` before those of `head`. The head of an emptied `list` keeps
      its old links. */
  method ListAppend(list: ListHead, head: ListHead, ghost l: seq<ListHead>, ghost s: seq<ListHead>)
    requires Ring(list, l) && Ring(head, s) && Apart(list, l, head, s)
    modifies head`next, At(head, s, 0)`prev, if l == [] then {} else {l[0]}, if l == [] then {} else {l[|l|-1]}
    ensures Ring(head, l + s)
  {
    RingAt(list, l, -1);
    RingAt(list, l, |l| - 1);
    RingAt(head, s, -1);
    var empty := ListIsEmpty(list, l);
    if empty {
      assert l + s == s;
      return;
    }
    var hNext := head.next;
    var lNext := list.next;
    var lPrev := list.prev;
    head.next := lNext;
    hNext.prev := lPrev;
    lNext.prev := head;
    lPrev.next := hNext;
    ghost var t := l + s;
    assert forall i :: 0 <= i < |l| ==> l[i] in l && l[i] !in s;
    assert Distinct(t);
    forall i, j | -1 <= i < |t| && j == i + 1
      ensures At(head, t, i).next == At(head, t, j) && At(head, t, j).prev == At(head, t, i)
    {
      if 0 <= i && j < |l| {
        assert old(At(list, l, i).next) == At(list, l, j) && old(At(list, l, j).prev) == At(list, l, i);
      } else if |l| <= i {
        var a, b := i - |l|, j - |l|;
        assert At(head, t, i) == At(head, s, a) && At(head, t, j) == At(head, s, b);
        assert old(At(head, s, a).next) == At(head, s, b) && old(At(head, s, b).prev) == At(head, s, a);
      }
    }
  }

  /** Moves the nodes `l` of `list` behind those of `head`. */
  method ListAppendTail(list: ListHead, head: ListHead, ghost l: seq<ListHead>, ghost s: seq<ListHead>)
    requires Ring(list, l) && Ring(head, s) && Apart(list, l, head, s)
    modifies head`prev, At(head, s, |s| - 1)`next, if l == [] then {} else {l[0]}, if l == [] then {} else {l[|l|-1]}
    ensures Ring(head, s + l)
  {
    RingAt(list, l, -1);
    RingAt(list, l, |l| - 1);
    RingAt(head, s, |s| - 1);
    var empty := ListIsEmpty(list, l);
    if empty {
      assert s + l == s;
      return;
    }
    var hPrev := head.prev;
    var lNext := list.next;
    var lPrev := list.prev;
    head.prev := lPrev;
    hPrev.next := lNext;
    lNext.prev := hPrev;
    lPrev.next := head;
    ghost var t := s + l;
    assert forall i :: 0 <= i < |l| ==> l[i] in l && l[i] !in s;
    assert Distinct(t);
    forall i, j | -1 <= i < |t| && j == i + 1
      ensures At(head, t, i).next == At(head, t, j) && At(head, t, j).prev == At(head, t, i)
    {
      if j < |s| {
        assert old(At(head, s, i).next) == At(head, s, j) && old(At(head, s, j).prev) == At(head, s, i);
      } else if |s| <= i && j < |t| {
        var a, b := i - |s|, j - |s|;
        assert At(head, t, i) == At(list, l, a) && At(head, t, j) == At(list, l, b);
        assert old(At(list, l, a).next) == At(list, l, b) && old(At(list, l, b).prev) == At(list, l, a);
      }
    }
  }

  method ListLength(head: ListHead, ghost s: seq<ListHead>) returns (length: nat)
    requires Ring(head, s)
    ensures length == |s|
  {
    RingAt(head, s, -1);
    RingAt(head, s, |s| - 1);
    if head.next == head.prev && head.next == head {
      return 0;
    }
    length := 1;
    var iter := head.next;
    while iter != head.prev
      invariant 1 <= length <= |s| && iter == s[length - 1]
      decreases |s| - length
    {
      RingAt(head, s, length - 1);
      length := length + 1;
      iter := iter.next;
    }
  }

  /** list_find_element does not answer membership: it is also zero for the last node. */
  method ListFindElement(node: ListHead, head: ListHead, ghost s: seq<ListHead>) returns (r: bool)
    requires Ring(head, s)
    ensures r <==> node in s && node != s[|s|-1]
  {
    RingAt(head, s, -1);
    RingAt(head, s, |s| - 1);
    var next := head.next;
    ghost var k := 0;
    while next != node && next != head.prev
      invariant s != [] ==> 0 <= k < |s| && next == s[k] && node !in s[..k]
      invariant s == [] ==> next == head
      decreases |s| - k
    {
      RingAt(head, s, k);
      k := k + 1;
      next := next.next;
    }
    r := next != head.prev;
  }

  /** The first node that satisfies the test, or null. */
  method ListWalker(head: ListHead, func: ListHead -> bool, ghost s: seq<ListHead>) returns (r: ListHead?)
    requires Ring(head, s)
    ensures r == null ==> forall x :: x in s ==> !func(x)
    ensures r != null ==> exists k :: 0 <= k < |s| && s[k] == r && func(r) && forall i :: 0 <= i < k ==> !func(s[i])
  {
    RingAt(head, s, -1);
    if head.next == head {
      return null;
    }
    var next := head.next;
    ghost var k := 0;
    while next != head
      invariant 0 <= k <= |s| && next == At(head, s, k)
      invariant forall i :: 0 <= i < k ==> !func(s[i])
      decreases |s| - k
    {
      if func(next) {
        return next;
      }
      RingAt(head, s, k);
      k := k + 1;
      next := next.next;
    }
    return null;
  }
}
