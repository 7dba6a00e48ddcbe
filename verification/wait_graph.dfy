/** The graph "p is blocked sending to wait[p]", in which a cycle is a deadlock. */
module WaitGraph {
  type Pid = nat
  type Graph = map<Pid, Pid>

  ghost predicate ReachesIn(g: Graph, a: Pid, b: Pid, n: nat)
    decreases n
  {
    if n == 0 then a == b else a in g && ReachesIn(g, g[a], b, n - 1)
  }

  /** `a` waits for `b`, directly or through others. */
  ghost predicate Reaches(g: Graph, a: Pid, b: Pid) {
    exists n: nat :: n > 0 && ReachesIn(g, a, b, n)
  }

  ghost predicate Acyclic(g: Graph) {
    forall p :: !Reaches(g, p, p)
  }

  lemma {:induction false} Concat(g: Graph, a: Pid, b: Pid, c: Pid, m: nat, n: nat)
    requires ReachesIn(g, a, b, m) && ReachesIn(g, b, c, n)
    ensures ReachesIn(g, a, c, m + n)
    decreases m
  {
    if m > 0 {
      Concat(g, g[a], b, c, m - 1, n);
    }
  }

  /** Paths are unique: the shorter of two from `a` is the beginning of the longer. */
  lemma {:induction false} Split(g: Graph, a: Pid, b: Pid, c: Pid, m: nat, n: nat)
    requires ReachesIn(g, a, b, m) && ReachesIn(g, a, c, n) && m <= n
    ensures ReachesIn(g, b, c, n - m)
    decreases m
  {
    if m > 0 {
      Split(g, g[a], b, c, m - 1, n - 1);
    }
  }

  lemma {:induction false} SubgraphPath(g: Graph, h: Graph, a: Pid, b: Pid, n: nat)
    requires forall p :: p in h ==> p in g && h[p] == g[p]
    requires ReachesIn(h, a, b, n)
    ensures ReachesIn(g, a, b, n)
    decreases n
  {
    if n > 0 {
      SubgraphPath(g, h, h[a], b, n - 1);
    }
  }

  lemma SubgraphAcyclic(g: Graph, h: Graph)
    requires Acyclic(g) && forall p :: p in h ==> p in g && h[p] == g[p]
    ensures Acyclic(h)
  {
    forall p ensures !Reaches(h, p, p) {
      if Reaches(h, p, p) {
        var n: nat :| n > 0 && ReachesIn(h, p, p, n);
        SubgraphPath(g, h, p, p, n);
        assert Reaches(g, p, p);
        assert false;
      }
    }
  }

  /** A path to `s` that may use the new edge out of `s` reaches `s` without it. */
  lemma {:induction false} FirstArrival(g: Graph, s: Pid, d: Pid, a: Pid, n: nat) returns (m: nat)
    requires s !in g && ReachesIn(g[s := d], a, s, n)
    ensures ReachesIn(g, a, s, m)
    decreases n
  {
    if a == s {
      m := 0;
    } else {
      m := FirstArrival(g, s, d, g[a], n - 1);
      m := m + 1;
    }
  }

  /** A path that never stands at `s` before its end does not use the edge out of `s`. */
  lemma {:induction false} AvoidingPath(g: Graph, g': Graph, s: Pid, a: Pid, b: Pid, n: nat)
    requires g == g' - {s} && ReachesIn(g', a, b, n)
    requires forall m: nat :: m < n ==> !ReachesIn(g', a, s, m)
    ensures ReachesIn(g, a, b, n)
    decreases n
  {
    if n > 0 {
      assert !ReachesIn(g', a, s, 0);
      forall m: nat | m < n - 1
        ensures !ReachesIn(g', g'[a], s, m)
      {
        assert !ReachesIn(g', a, s, m + 1);
      }
      AvoidingPath(g, g', s, g'[a], b, n - 1);
    }
  }

  /** Letting `s` wait for `d` closes a cycle exactly when `d` already waits for `s`. */
  lemma AddEdge(g: Graph, s: Pid, d: Pid)
    requires Acyclic(g) && s !in g && s != d
    ensures Acyclic(g[s := d]) <==> !Reaches(g, d, s)
  {
    var g' := g[s := d];
    if Reaches(g, d, s) {
      var n: nat :| n > 0 && ReachesIn(g, d, s, n);
      SubgraphPath(g', g, d, s, n);
      assert ReachesIn(g', s, s, n + 1);
      assert Reaches(g', s, s);
    } else {
      forall p ensures !Reaches(g', p, p) {
        if Reaches(g', p, p) {
          NewCycle(g, s, d, p);
        }
      }
    }
  }

  lemma NewCycle(g: Graph, s: Pid, d: Pid, p: Pid)
    requires Acyclic(g) && s !in g && s != d
    requires Reaches(g[s := d], p, p)
    ensures Reaches(g, d, s)
  {
    var g' := g[s := d];
    var n: nat :| n > 0 && ReachesIn(g', p, p, n);
    if m: nat :| m < n && ReachesIn(g', p, s, m) {
      Split(g', p, s, p, m, n);
      Concat(g', d, p, s, n - m - 1, m);
      var k := FirstArrival(g, s, d, d, n - 1);
      assert k > 0;
    } else {
      AvoidingPath(g, g', s, p, p, n);
      assert Reaches(g, p, p);
    }
  }

  lemma {:induction false} ReachesFromTarget(g: Graph, a: Pid, b: Pid)
    requires a in g
    ensures Reaches(g, a, b) <==> g[a] == b || Reaches(g, g[a], b)
  {
    if Reaches(g, a, b) {
      var n: nat :| n > 0 && ReachesIn(g, a, b, n);
      assert ReachesIn(g, g[a], b, n - 1);
    }
    if g[a] == b {
      assert ReachesIn(g, a, b, 1);
    }
    if Reaches(g, g[a], b) {
      var n: nat :| n > 0 && ReachesIn(g, g[a], b, n);
      assert ReachesIn(g, a, b, n + 1);
    }
  }
}
