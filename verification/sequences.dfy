/** Sequences without duplicates, the abstract value of a linked list. */
module Sequences {
  ghost predicate Distinct<T>(s: seq<T>) {
    forall i, j :: 0 <= i < j < |s| ==> s[i] != s[j]
  }

  /** `s` without the first occurrence of `x`. */
  function Unlink<T(==)>(s: seq<T>, x: T): (r: seq<T>)
    ensures |r| == if x in s then |s| - 1 else |s|
  {
    if s == [] then []
    else if s[0] == x then s[1..]
    else [s[0]] + Unlink(s[1..], x)
  }

  lemma {:induction false} UnlinkMembers<T>(s: seq<T>, x: T)
    requires Distinct(s)
    ensures Distinct(Unlink(s, x))
    ensures forall y :: y in Unlink(s, x) <==> y in s && y != x
  {
    if s != [] && s[0] != x {
      UnlinkMembers(s[1..], x);
      assert forall y :: y in Unlink(s[1..], x) <==> y in s[1..] && y != x;
      assert s[0] !in s[1..];
      assert Unlink(s, x) == [s[0]] + Unlink(s[1..], x);
    }
  }

  /** Removing `x` cuts it out at its place and keeps the order of the rest. */
  lemma {:induction false} UnlinkAt<T>(s: seq<T>, x: T, k: nat)
    requires Distinct(s) && k < |s| && s[k] == x
    ensures Unlink(s, x) == s[..k] + s[k+1..]
  {
    if k > 0 {
      UnlinkAt(s[1..], x, k - 1);
      assert s[..k] == [s[0]] + s[1..][..k-1];
    }
  }

  /** `r` is what is left of `s` when some of its elements are taken out. */
  predicate Subsequence<T(==)>(r: seq<T>, s: seq<T>)
    decreases |s|
  {
    if r == [] then true
    else if s == [] then false
    else (r[0] == s[0] && Subsequence(r[1..], s[1..])) || Subsequence(r, s[1..])
  }

  lemma {:induction false} SubsequenceSelf<T>(s: seq<T>)
    ensures Subsequence(s, s)
  {
    if s != [] {
      SubsequenceSelf(s[1..]);
    }
  }

  lemma {:induction false} SubsequenceTrans<T>(q: seq<T>, r: seq<T>, s: seq<T>)
    requires Subsequence(q, r) && Subsequence(r, s)
    ensures Subsequence(q, s)
    decreases |r| + |s|
  {
    if q != [] && r != [] && s != [] {
      if r[0] == s[0] && Subsequence(r[1..], s[1..]) {
        if q[0] == r[0] && Subsequence(q[1..], r[1..]) {
          SubsequenceTrans(q[1..], r[1..], s[1..]);
        } else {
          SubsequenceTrans(q, r[1..], s[1..]);
        }
      } else {
        SubsequenceTrans(q, r, s[1..]);
      }
    }
  }

  lemma {:induction false} SubsequenceAfter<T>(p: seq<T>, r: seq<T>, s: seq<T>)
    requires Subsequence(r, s)
    ensures Subsequence(p + r, p + s)
  {
    if p == [] {
      assert p + r == r && p + s == s;
    } else {
      SubsequenceAfter(p[1..], r, s);
      assert (p + r)[1..] == p[1..] + r && (p + s)[1..] == p[1..] + s;
    }
  }

  lemma {:induction false} UnlinkSubsequence<T>(s: seq<T>, x: T)
    ensures Subsequence(Unlink(s, x), s)
  {
    if s != [] {
      if s[0] == x {
        SubsequenceSelf(s[1..]);
      } else {
        UnlinkSubsequence(s[1..], x);
      }
    }
  }

  lemma Joined<T>(a: seq<T>, b: seq<T>, c: seq<T>)
    ensures a + b + c == a + (b + c)
  {
  }
}
