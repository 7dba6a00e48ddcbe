/** The steps of sys_free in core/mm/memory.c: a block goes back on its free list, and an arena
    whose blocks are all free goes back to the page layer. */
module HeapFree {
  import opened Sequences
  import opened PageLayer
  import opened MemList
  import opened Heap
  import opened HeapSteps

  // ----- a block goes back

  /** list_add_tail on the free list of the block's descriptor, ++cnt. */
  ghost function Give(h: State, b: Addr): State
    requires Sound(h) && IsBlock(h.arenas, b)
  {
    BlockBounds(h, b);
    var v, c := PageOf(b), PageOf(b) * PAGE + 1;
    var k := h.arenas[v].k;
    var m := AddTail(h.mem, HeadOf(|h.pages.virt|, k), b);
    h.(mem := m[c := m[c] + 1], free := h.free[k := h.free[k] + [b]])
  }

  lemma GiveSpaced(h: State, b: Addr)
    requires Sound(h) && IsBlock(h.arenas, b) && Live(h, b)
    ensures var k := h.arenas[PageOf(b)].k; Spaced(h.mem, HeadOf(|h.pages.virt|, k), h.free[k] + [b])
  {
    hide InArena, Laid, HeaderOk, Mapped, Words;
    var k := h.arenas[PageOf(b)].k;
    var s := h.free[k];
    ListNodes(h, k);
    BlockBounds(h, b);
    forall q | q in s
      ensures MemList.Apart(q, b)
    {
      BlockBounds(h, q);
      PiecesApart(h.pages.virt, h.arenas, q, b);
    }
  }

  lemma GiveLinked(h: State, b: Addr)
    requires Sound(h) && IsBlock(h.arenas, b) && Live(h, b)
    ensures var (g, k, head) := (Give(h, b), h.arenas[PageOf(b)].k, HeadOf(|h.pages.virt|, h.arenas[PageOf(b)].k));
      && Ring(AddTail(h.mem, head, b), head, h.free[k] + [b])
      && ListWrite(h, g.mem, k, h.free[k] + [b], PageOf(b) * PAGE + 1)
      && g.mem[PageOf(b) * PAGE + 1] == h.mem[PageOf(b) * PAGE + 1] + 1
  {
    hide Ring, InArena, AddTail, OnlyAt, Words, Laid, HeaderOk, Mapped, Spaced, Off;
    var v, k := PageOf(b), h.arenas[PageOf(b)].k;
    var s, head := h.free[k], HeadOf(|h.pages.virt|, k);
    BlockBounds(h, b);
    ArenaBounds(h, v);
    ListNodes(h, k);
    GiveSpaced(h, b);
    RingAddTail(h.mem, head, s, b);
    var m := AddTail(h.mem, head, b);
    OnlyAtTouches(h.mem, m, head, s + [b], BlockSize(k), v * PAGE + 1);
    forall q | q in [head] + (s + [b])
      ensures q + 2 <= v * PAGE + 1 || v * PAGE + 2 <= q
    {
      if q != head {
        BlockBounds(h, q);
      }
    }
    OnlyAtFrame(h.mem, m, [head] + (s + [b]), v * PAGE + 1, v * PAGE + 2);
  }

  lemma GiveRing(h: State, b: Addr)
    requires Sound(h) && IsBlock(h.arenas, b) && Live(h, b)
    ensures var k := h.arenas[PageOf(b)].k;
      Ring(Give(h, b).mem, HeadOf(|h.pages.virt|, k), h.free[k] + [b])
  {
    hide Ring, InArena, AddTail, Words, Laid, HeaderOk, ListOk, Mapped, ListWrite;
    var v, k := PageOf(b), h.arenas[PageOf(b)].k;
    var s, head := h.free[k] + [b], HeadOf(|h.pages.virt|, k);
    GiveLinked(h, b);
    BlockBounds(h, b);
    var m, m' := AddTail(h.mem, head, b), Give(h, b).mem;
    forall q | q in s
      ensures SameOn(m, m', q, q + 2)
    {
      if q != b {
        FreeBlock(h, k, q);
      }
      BlockBounds(h, q);
      PieceOffHeader(h.pages.virt, h.arenas, q, v);
    }
    RingFrame(m, m', head, s);
  }

  lemma GiveHeader(h: State, b: Addr, u: nat)
    requires Sound(h) && IsBlock(h.arenas, b) && Live(h, b) && u in h.arenas
    requires Intact(h, Give(h, b).mem, h.arenas[PageOf(b)].k, h.free[h.arenas[PageOf(b)].k] + [b], PageOf(b) * PAGE + 1)
    ensures HeaderOk(Give(h, b).mem, u, h.arenas[u], Give(h, b).free)
  {
    hide Intact, Words, InArena, AddTail, Laid, ListOk, Mapped, ListWrite, Ring, Live;
    var g, k := Give(h, b), h.arenas[PageOf(b)].k;
    BlockBounds(h, b);
    IntactHeader(h, g.mem, k, h.free[k] + [b], PageOf(b) * PAGE + 1, u);
    GiveLinked(h, b);
    CountAppend(h.free[k], [b], u);
    CountOne(b, u);
  }

  lemma CountOne(b: Addr, v: nat)
    ensures CountIn([b], v) == if PageOf(b) == v then 1 else 0
  {
    assert CountIn([b][1..], v) == 0;
  }

  /** A block given back is no longer live; nothing else changes for anyone. */
  lemma GiveOk(h: State, b: Addr)
    requires Sound(h) && IsBlock(h.arenas, b) && Live(h, b)
    ensures var (g, k) := (Give(h, b), h.arenas[PageOf(b)].k);
      && Sound(g) && g.free == h.free[k := h.free[k] + [b]]
      && (forall q: Addr :: Live(g, q) <==> Live(h, q) && q != b)
      && (forall q: Addr :: Live(g, q) ==> SameOn(h.mem, g.mem, q, q + Words(h.arenas, q)))
  {
    hide Ring, InArena, IsLarge, Words, SameOn, AddTail, HeaderOk, Intact, Laid, Mapped, ListWrite;
    var g, k, n := Give(h, b), h.arenas[PageOf(b)].k, |h.pages.virt|;
    BlockBounds(h, b);
    GiveLinked(h, b);
    var s, w := h.free[k] + [b], PageOf(b) * PAGE + 1;
    ListWriteIntact(h, g.mem, k, s, w);
    forall u | u in h.arenas
      ensures (u + 1) * PAGE <= |g.mem| && HeaderOk(g.mem, u, h.arenas[u], g.free)
    {
      IntactHeader(h, g.mem, k, s, w, u);
      GiveHeader(h, b, u);
    }
    ListNodes(h, k);
    forall j | 0 <= j < DESC_CNT
      ensures ListOk(g.mem, n, h.arenas, g.free[j], j)
    {
      if j == k {
        GiveRing(h, b);
      } else {
        OtherList(h, g.mem, k, s, w, j);
      }
    }
    forall q: Addr
      ensures |g.free| == DESC_CNT && (Live(g, q) <==> Live(h, q) && q != b)
      ensures Live(g, q) ==> SameOn(h.mem, g.mem, q, q + Words(h.arenas, q))
    {
      GiveLive(h, b, q);
      if Live(g, q) {
        GiveKeeps(h, g.mem, k, b, w, q);
      }
    }
  }

  lemma GiveLive(h: State, b: Addr, q: Addr)
    requires Sound(h) && IsBlock(h.arenas, b) && Live(h, b)
    ensures |Give(h, b).free| == DESC_CNT && (Live(Give(h, b), q) <==> Live(h, q) && q != b)
  {
    hide Ring, InArena, AddTail, HeaderOk, ListOk, Laid, Mapped;
    BlockBounds(h, b);
  }

  lemma GiveKeeps(h: State, m': Memory, k: nat, b: Addr, w: int, q: Addr)
    requires Sound(h) && k < DESC_CNT && Intact(h, m', k, h.free[k] + [b], w) && Live(h, q) && q != b
    ensures SameOn(h.mem, m', q, q + Words(h.arenas, q))
  {
    hide InArena, IsLarge, Words, SameOn, HeaderOk, ListOk, Laid, Mapped;
    if q in h.free[k] {
      NotLive(h, k, q);
    }
  }

  // ----- the nodes of one page leave a list

  /** The addresses of `s` that are not in page `v`, in order. */
  function Elsewhere(s: seq<Addr>, v: nat): seq<Addr> {
    if s == [] then []
    else if PageOf(s[0]) == v then Elsewhere(s[1..], v)
    else [s[0]] + Elsewhere(s[1..], v)
  }

  lemma {:induction false} ElsewhereMembers(s: seq<Addr>, v: nat)
    ensures forall q :: q in Elsewhere(s, v) <==> q in s && PageOf(q) != v
  {
    hide PageOf;
    if s != [] {
      ElsewhereMembers(s[1..], v);
    }
  }

  lemma {:induction false} ElsewhereDrop(s: seq<Addr>, v: nat, l: nat)
    requires l < |s| && PageOf(s[l]) == v
    ensures Elsewhere(s[..l] + s[l+1..], v) == Elsewhere(s, v)
  {
    hide PageOf;
    if l == 0 {
      assert s[..0] + s[1..] == s[1..];
    } else {
      ElsewhereDrop(s[1..], v, l - 1);
      assert (s[..l] + s[l+1..])[1..] == s[1..][..l-1] + s[1..][l..];
    }
  }

  lemma {:induction false} ElsewhereAll(s: seq<Addr>, v: nat)
    requires forall q :: q in s ==> PageOf(q) != v
    ensures Elsewhere(s, v) == s
  {
    hide PageOf;
    if s != [] {
      ElsewhereAll(s[1..], v);
    }
  }

  lemma {:induction false} CountElsewhere(s: seq<Addr>, v: nat, u: nat)
    requires u != v
    ensures CountIn(Elsewhere(s, v), u) == CountIn(s, u)
  {
    if s != [] {
      CountElsewhere(s[1..], v, u);
      var first := if PageOf(s[0]) == v then [] else [s[0]];
      CountAppend(first, Elsewhere(s[1..], v), u);
      CountOne(s[0], u);
    }
  }

  /** The loop of sys_free that takes the blocks of an arena, from `i` on, out of their list. */
  function DelBlocks(m: Memory, v: nat, k: nat, i: nat): (r: Memory)
    requires k < DESC_CNT
    ensures |r| == |m|
    decreases PerArena(k) - i
  {
    if i >= PerArena(k) then m else DelBlocks(DelInit(m, Block(v, k, i)), v, k, i + 1)
  }

  /** `q` is block `i` of the arena or a later one. */
  ghost predicate InTail(v: nat, k: nat, i: nat, q: Addr)
    requires k < DESC_CNT
  {
    exists j: nat :: i <= j < PerArena(k) && q == Block(v, k, j)
  }

  lemma {:induction false} DelBlocksOk(m: Memory, head: Addr, s: seq<Addr>, v: nat, k: nat, i: nat)
    requires k < DESC_CNT && i <= PerArena(k) && Ring(m, head, s)
    requires forall j: nat :: i <= j < PerArena(k) ==> Block(v, k, j) in s
    requires forall q :: q in s && PageOf(q) == v ==> InTail(v, k, i, q)
    ensures Ring(DelBlocks(m, v, k, i), head, Elsewhere(s, v))
    ensures OnlyAt(m, DelBlocks(m, v, k, i), [head] + s)
    decreases PerArena(k) - i
  {
    hide Ring, DelInit, OnlyAt, Block;
    if i == PerArena(k) {
      ElsewhereAll(s, v);
      SameAnywhere(m, [head] + s);
    } else {
      var b := Block(v, k, i);
      var l: nat :| l < |s| && s[l] == b;
      var t := s[..l] + s[l+1..];
      BlockInPage(v, k, i);
      RingDelInit(m, head, s, l);
      RingDistinct(m, head, s);
      WithoutPlace(s, l);
      ElsewhereDrop(s, v, l);
      forall j: nat | i + 1 <= j < PerArena(k)
        ensures Block(v, k, j) in t
      {
        BlocksDiffer(v, k, i, j);
      }
      forall q | q in t && PageOf(q) == v
        ensures InTail(v, k, i + 1, q)
      {
        var j: nat :| i <= j < PerArena(k) && q == Block(v, k, j);
      }
      DelBlocksOk(DelInit(m, b), head, t, v, k, i + 1);
      OnlyAtSubset(m, DelInit(m, b), DelBlocks(m, v, k, i), [head] + s, [head] + t);
    }
  }

  lemma BlocksDiffer(v: nat, k: nat, i: nat, j: nat)
    requires k < DESC_CNT && i < j
    ensures Block(v, k, i) != Block(v, k, j)
  {
    BlocksApart(v, k, i, j);
  }

  lemma SameAnywhere(m: Memory, nodes: seq<Addr>)
    ensures OnlyAt(m, m, nodes)
  {
  }

  lemma WithoutPlace(s: seq<Addr>, l: nat)
    requires Distinct(s) && l < |s|
    ensures forall q :: q in s[..l] + s[l+1..] <==> q in s && q != s[l]
  {
    var t := s[..l] + s[l+1..];
    forall q | q in s && q != s[l]
      ensures q in t
    {
      var j :| 0 <= j < |s| && s[j] == q;
      assert t[if j < l then j else j - 1] == q;
    }
  }

  lemma OnlyAtSubset(m: Memory, m1: Memory, m2: Memory, a: seq<Addr>, b: seq<Addr>)
    requires OnlyAt(m, m1, a) && OnlyAt(m1, m2, b) && forall q :: q in b ==> q in a
    ensures OnlyAt(m, m2, a)
  {
  }

  // ----- counting decides when all blocks are free

  function OfPage(s: seq<Addr>, v: nat): set<Addr> {
    set b | b in s && PageOf(b) == v
  }

  lemma {:induction false} CountIsSize(s: seq<Addr>, v: nat)
    requires Distinct(s)
    ensures |OfPage(s, v)| == CountIn(s, v)
  {
    if s == [] {
      assert OfPage(s, v) == {};
    } else {
      CountIsSize(s[1..], v);
      assert s[0] !in s[1..];
      assert OfPage(s, v) == OfPage(s[1..], v) + if PageOf(s[0]) == v then {s[0]} else {};
    }
  }

  lemma SubsetOfSameSize<T>(a: set<T>, b: set<T>)
    requires a <= b && |a| == |b|
    ensures a == b
  {
    if x :| x in b && x !in a {
      assert a <= b - {x};
      SubsetSize(a, b - {x});
    }
  }

  lemma SubsetSize<T>(a: set<T>, b: set<T>)
    requires a <= b
    ensures |a| <= |b|
  {
    assert b == a + (b - a);
  }

  /** All blocks of the arena are in `s`. */
  ghost predicate AllOn(v: nat, k: nat, s: seq<Addr>)
    requires k < DESC_CNT
  {
    forall b :: InArena(v, k, b) ==> b in s
  }

  lemma BlocksDistinct(v: nat, k: nat)
    requires k < DESC_CNT
    ensures Distinct(Blocks(v, k, 0))
  {
    hide Block;
    var s := Blocks(v, k, 0);
    forall i, j | 0 <= i < j < |s|
      ensures s[i] != s[j]
    {
      BlocksDiffer(v, k, i, j);
    }
  }

  /** The blocks on the free list are at most those of the arena; with the full count, all. */
  lemma CountBound(h: State, v: nat)
    requires Sound(h) && v in h.arenas && h.arenas[v].Small?
    ensures var k := h.arenas[v].k; k < DESC_CNT && CountIn(h.free[k], v) <= PerArena(k)
    ensures var k := h.arenas[v].k; CountIn(h.free[k], v) == PerArena(k) <==> AllOn(v, k, h.free[k])
  {
    hide Ring, InArena, Laid, Mapped, Blocks;
    var k := h.arenas[v].k;
    assert HeaderOk(h.mem, v, h.arenas[v], h.free);
    var s, all := h.free[k], Blocks(v, k, 0);
    ListNodes(h, k);
    RingDistinct(h.mem, HeadOf(|h.pages.virt|, k), s);
    BlocksIn(v, k);
    BlocksDistinct(v, k);
    CountIsSize(s, v);
    CountIsSize(all, v);
    CountAll(all, v);
    assert OfPage(s, v) <= OfPage(all, v);
    SubsetSize(OfPage(s, v), OfPage(all, v));
    if CountIn(s, v) == PerArena(k) {
      SubsetOfSameSize(OfPage(s, v), OfPage(all, v));
      forall b | InArena(v, k, b)
        ensures b in s
      {
        assert b in OfPage(all, v);
      }
    } else if AllOn(v, k, s) {
      assert OfPage(all, v) <= OfPage(s, v);
      SubsetSize(OfPage(all, v), OfPage(s, v));
    }
  }

  // ----- an arena whose blocks are all free

  lemma ArenaMapped(h: State, v: nat)
    requires Sound(h) && v in h.arenas
    ensures var w := Width(h.arenas[v]);
      && w > 0 && v + w <= |h.pages.virt| && (forall i :: v <= i < v + w ==> h.pages.virt[i])
      && (forall i :: v <= i < v + w ==> i in h.pages.table && h.pages.table[i] < |h.pages.phys|)
  {
    hide HeaderOk, ListOk;
    PageMfreeOk(h.pages, v, Width(h.arenas[v]));
  }

  lemma LaidWithout(virt: seq<bool>, arenas: Arenas, v: nat)
    requires Laid(virt, arenas) && v in arenas
    ensures Laid(SetRun(virt, v, Width(arenas[v]), false), arenas - {v})
  {
  }

  /** list_del_init for each block of the arena, mfree_page. */
  ghost function Reclaim(h: State, v: nat): State
    requires Sound(h) && v in h.arenas && h.arenas[v].Small?
  {
    ArenaMapped(h, v);
    assert HeaderOk(h.mem, v, h.arenas[v], h.free);
    var k := h.arenas[v].k;
    State(DelBlocks(h.mem, v, k, 0), PageMfree(h.pages, v, 1), h.arenas - {v}, h.free[k := Elsewhere(h.free[k], v)])
  }

  lemma FreeInArena(h: State, v: nat, k: nat, q: Addr)
    requires Sound(h) && k < DESC_CNT && q in h.free[k] && PageOf(q) == v
    ensures InTail(v, k, 0, q)
  {
    hide Ring, HeaderOk, Laid, Mapped;
    FreeBlock(h, k, q);
  }

  /** No block of arena `v` is live. */
  ghost predicate AllFree(h: State, v: nat)
    requires Sound(h) && v in h.arenas
  {
    h.arenas[v].Small? && h.arenas[v].k < DESC_CNT && AllOn(v, h.arenas[v].k, h.free[h.arenas[v].k])
  }

  lemma ReclaimWrites(h: State, v: nat)
    requires Sound(h) && v in h.arenas && AllFree(h, v)
    ensures var (r, k) := (Reclaim(h, v), h.arenas[v].k);
      && Ring(r.mem, HeadOf(|h.pages.virt|, k), Elsewhere(h.free[k], v))
      && Intact(h, r.mem, k, h.free[k], v * PAGE + 1)
      && |r.mem| == |h.mem|
  {
    hide Ring, Laid, HeaderOk, Mapped, Covered, OnlyAt, IsBlock, Intact, Touches, Block, InTail, DelBlocks,
      PageMfree, Elsewhere, InArena;
    var k, m := h.arenas[v].k, Reclaim(h, v).mem;
    var head, s := HeadOf(|h.pages.virt|, h.arenas[v].k), h.free[h.arenas[v].k];
    ListNodes(h, k);
    AllBlocksIn(v, k, s);
    forall q | q in s && PageOf(q) == v
      ensures InTail(v, k, 0, q)
    {
      FreeInArena(h, v, k, q);
    }
    DelBlocksOk(h.mem, head, s, v, k, 0);
    OnlyAtTouches(h.mem, m, head, s, BlockSize(k), v * PAGE + 1);
    assert ListWrite(h, m, k, s, v * PAGE + 1);
    ListWriteIntact(h, m, k, s, v * PAGE + 1);
  }

  lemma AllBlocksIn(v: nat, k: nat, s: seq<Addr>)
    requires k < DESC_CNT && AllOn(v, k, s)
    ensures forall j: nat :: j < PerArena(k) ==> Block(v, k, j) in s
  {
    hide Block;
    forall j: nat | j < PerArena(k)
      ensures Block(v, k, j) in s
    {
      assert InArena(v, k, Block(v, k, j));
    }
  }

  lemma ReclaimHeader(h: State, v: nat, u: nat)
    requires Sound(h) && v in h.arenas && AllFree(h, v) && u in h.arenas && u != v
    ensures var r := Reclaim(h, v); (u + 1) * PAGE <= |r.mem| && HeaderOk(r.mem, u, h.arenas[u], r.free)
  {
    hide Ring, Laid, ListOk, Mapped, Covered, Intact, DelBlocks, Elsewhere, PageMfree, AllOn;
    ReclaimWrites(h, v);
    var k, m := h.arenas[v].k, Reclaim(h, v).mem;
    IntactHeader(h, m, k, h.free[k], v * PAGE + 1, u);
    CountElsewhere(h.free[k], v, u);
  }

  lemma ReclaimList(h: State, v: nat, j: nat)
    requires Sound(h) && v in h.arenas && AllFree(h, v) && j < DESC_CNT
    ensures var r := Reclaim(h, v); |r.free| == DESC_CNT && ListOk(r.mem, |h.pages.virt|, r.arenas, r.free[j], j)
  {
    hide Ring, Laid, HeaderOk, Mapped, Covered, Intact, DelBlocks, Elsewhere, PageMfree, AllOn, InArena;
    ReclaimWrites(h, v);
    var r, k := Reclaim(h, v), h.arenas[v].k;
    if j == k {
      ElsewhereMembers(h.free[k], v);
      ListNodes(h, k);
    } else {
      ListNodes(h, k);
      OtherList(h, r.mem, k, h.free[k], v * PAGE + 1, j);
      WiderList(r.mem, |h.pages.virt|, h.arenas, r.arenas, h.free[j], j);
    }
  }

  lemma ReclaimLive(h: State, v: nat, q: Addr)
    requires Sound(h) && v in h.arenas && AllFree(h, v)
    ensures var r := Reclaim(h, v); |r.free| == DESC_CNT && (Live(r, q) <==> Live(h, q))
    ensures var r := Reclaim(h, v); Live(h, q) ==>
      Words(r.arenas, q) == Words(h.arenas, q) && SameOn(h.mem, r.mem, q, q + Words(h.arenas, q))
  {
    hide Ring, Laid, HeaderOk, ListOk, Mapped, Covered, Intact, DelBlocks, Elsewhere, PageMfree, InArena, SameOn;
    ReclaimWrites(h, v);
    var r, k := Reclaim(h, v), h.arenas[v].k;
    ElsewhereMembers(h.free[k], v);
    if Live(h, q) {
      LiveIntact(h, r.mem, k, h.free[k], v * PAGE + 1, q);
    }
  }

  /** Reclaiming an arena without live blocks returns its page and disturbs nobody. */
  lemma ReclaimOk(h: State, v: nat)
    requires Sound(h) && v in h.arenas && AllFree(h, v)
    ensures var r := Reclaim(h, v);
      && Sound(r) && |r.pages.virt| == |h.pages.virt|
      && (forall q: Addr :: Live(r, q) <==> Live(h, q))
      && (forall q: Addr :: Live(h, q) ==>
            Words(r.arenas, q) == Words(h.arenas, q) && SameOn(h.mem, r.mem, q, q + Words(h.arenas, q)))
  {
    hide Ring, HeaderOk, ListOk, Mapped, Covered, Intact, IsBlock, IsLarge, Words, SameOn, Laid, DelBlocks,
      Elsewhere, AllOn, PageMfree;
    var r := Reclaim(h, v);
    ReclaimWrites(h, v);
    ArenaMapped(h, v);
    PageMfreeOk(h.pages, v, 1);
    LaidWithout(h.pages.virt, h.arenas, v);
    MappedSized(r.pages);
    CoveredWithout(h.pages.virt, h.pages.table, r.pages.table, h.arenas, v);
    forall u | u in r.arenas
      ensures (u + 1) * PAGE <= |r.mem| && HeaderOk(r.mem, u, r.arenas[u], r.free)
    {
      ReclaimHeader(h, v, u);
    }
    forall j | 0 <= j < DESC_CNT
      ensures ListOk(r.mem, |h.pages.virt|, r.arenas, r.free[j], j)
    {
      ReclaimList(h, v, j);
    }
    forall q: Addr
      ensures |r.free| == DESC_CNT && (Live(r, q) <==> Live(h, q))
      ensures Live(h, q) ==>
        Words(r.arenas, q) == Words(h.arenas, q) && SameOn(h.mem, r.mem, q, q + Words(h.arenas, q))
    {
      ReclaimLive(h, v, q);
    }
  }

  /** The pages of the other arenas stay backed. */
  lemma CoveredWithout(virt: seq<bool>, table: map<nat, nat>, table': map<nat, nat>, arenas: Arenas, v: nat)
    requires Laid(virt, arenas) && Covered(table, arenas) && v in arenas
    requires forall i :: i in table' <==> i in table && !(v <= i < v + Width(arenas[v]))
    ensures Covered(table', arenas - {v})
  {
  }

  // ----- a large arena goes back

  ghost function FreeLarge(h: State, v: nat): State
    requires Sound(h) && v in h.arenas && h.arenas[v].Large?
  {
    ArenaMapped(h, v);
    h.(pages := PageMfree(h.pages, v, h.arenas[v].cnt), arenas := h.arenas - {v})
  }

  lemma FreeLargeOk(h: State, v: nat)
    requires Sound(h) && v in h.arenas && h.arenas[v].Large?
    ensures var r := FreeLarge(h, v);
      && Sound(r) && |r.pages.virt| == |h.pages.virt|
      && (forall q: Addr :: Live(r, q) <==> Live(h, q) && q != v * PAGE + HEADER)
      && (forall q: Addr :: Live(r, q) ==> Words(r.arenas, q) == Words(h.arenas, q))
  {
    hide Ring, HeaderOk, ListOk, Mapped, Covered, InArena, Words, Laid, PageMfree;
    var r := FreeLarge(h, v);
    ArenaMapped(h, v);
    PageMfreeOk(h.pages, v, h.arenas[v].cnt);
    LaidWithout(h.pages.virt, h.arenas, v);
    MappedSized(r.pages);
    CoveredWithout(h.pages.virt, h.pages.table, r.pages.table, h.arenas, v);
    forall j | 0 <= j < DESC_CNT
      ensures ListOk(h.mem, |h.pages.virt|, r.arenas, h.free[j], j)
    {
      ListNodes(h, j);
      WiderList(h.mem, |h.pages.virt|, h.arenas, r.arenas, h.free[j], j);
    }
    forall q: Addr
      ensures Live(r, q) <==> Live(h, q) && q != v * PAGE + HEADER
      ensures Live(r, q) ==> Words(r.arenas, q) == Words(h.arenas, q)
    {
      FreeLargeLive(h, v, q);
    }
  }

  lemma FreeLargeLive(h: State, v: nat, q: Addr)
    requires Sound(h) && v in h.arenas && h.arenas[v].Large?
    ensures var r := FreeLarge(h, v); Live(r, q) <==> Live(h, q) && q != v * PAGE + HEADER
    ensures var r := FreeLarge(h, v); Live(r, q) ==> Words(r.arenas, q) == Words(h.arenas, q)
  {
    hide Ring, HeaderOk, ListOk, Mapped, Covered, InArena, Laid, PageMfree;
    assert PageOf(v * PAGE + HEADER) == v;
  }
}
