/** sys_malloc and sys_free of core/mm/memory.c for the kernel pool: what one call does. */
module HeapCalls {
  import opened Bitmap
  import opened PageLayer
  import opened MemList
  import opened Heap
  import opened HeapSteps
  import opened HeapFree

  // ----- sizes

  /** The smallest descriptor whose blocks hold `size` bytes. */
  function SizeClass(size: nat): (k: nat)
    requires size <= 1024
    ensures k < DESC_CNT && size <= 4 * BlockSize(k)
    ensures k > 0 ==> 4 * BlockSize(k - 1) < size
  {
    if size <= 16 then 0 else if size <= 32 then 1 else if size <= 64 then 2 else if size <= 128 then 3
    else if size <= 256 then 4 else if size <= 512 then 5 else 6
  }

  /** The pages of a large arena: DIV_ROUND_UP of the size with its header. */
  function PageCount(size: nat): (cnt: nat)
    ensures size <= 4 * (cnt * PAGE - HEADER) < size + 4 * PAGE
  {
    (size + 4 * HEADER + (4 * PAGE - 1)) / (4 * PAGE)
  }

  // ----- the calls

  ghost function SysMalloc(h: State, size: nat, poolSize: nat): (State, Addr)
    requires Sound(h)
  {
    if !(0 < size < poolSize) then (h, NULL)
    else if size > 1024 then MallocLarge(h, PageCount(size))
    else
      var k := SizeClass(size);
      if h.free[k] != [] then (Take(h, k), h.free[k][0])
      else
        GrowOk(h, k);
        var (g, ok) := Grow(h, k);
        if ok then (Take(g, k), g.free[k][0]) else (g, NULL)
  }

  ghost function SysFree(h: State, p: Addr): State
    requires Inv(h) && Live(h, p)
  {
    var v := PageOf(p);
    if h.arenas[v].Large? then FreeLarge(h, v)
    else
      GiveOk(h, p);
      var g := Give(h, p);
      var k := h.arenas[v].k;
      if CountIn(g.free[k], v) == PerArena(k) then Reclaim(g, v) else g
  }

  /** The pages a call asks the page layer for. */
  function PagesNeeded(free: FreeLists, size: nat): nat
    requires |free| == DESC_CNT
  {
    if size > 1024 then PageCount(size) else if free[SizeClass(size)] == [] then 1 else 0
  }

  /** The call needs pages and cannot have them. */
  ghost predicate NoRoom(h: State, size: nat)
    requires Sound(h)
  {
    PagesNeeded(h.free, size) > 0 && NoPages(h, PagesNeeded(h.free, size))
  }

  /** The pages were there, but not the frames to back all of them. */
  ghost predicate FailsMidway(h: State, size: nat, poolSize: nat)
    requires Sound(h)
  {
    0 < size < poolSize && PagesNeeded(h.free, size) > 0 && RunsOutOfFrames(h.pages, PagesNeeded(h.free, size))
  }

  /** The words of `p` hold the same. */
  ghost predicate SameContents(h: State, h': State, p: Addr)
    requires IsPiece(h.arenas, p)
  {
    IsPiece(h'.arenas, p) && Words(h'.arenas, p) == Words(h.arenas, p)
    && SameOn(h.mem, h'.mem, p, p + Words(h.arenas, p))
  }

  // ----- sys_malloc

  /** Every small arena but perhaps the one at page `v` has a live block. */
  ghost predicate BusyBut(h: State, v: int)
    requires Sound(h)
  {
    forall u :: u in h.arenas && h.arenas[u].Small? && u != v ==>
      CountIn(h.free[h.arenas[u].k], u) < PerArena(h.arenas[u].k)
  }

  lemma TakeInv(h: State, k: nat)
    requires Sound(h) && k < DESC_CNT && h.free[k] != [] && BusyBut(h, PageOf(h.free[k][0]))
    ensures Inv(Take(h, k))
  {
    hide Ring, HeaderOk, ListOk, Mapped, Covered, IsBlock, IsLarge, Words, Laid, SameOn;
    TakeOk(h, k);
    FreeBlock(h, k, h.free[k][0]);
    var t, v := Take(h, k), PageOf(h.free[k][0]);
    forall u | u in t.arenas && t.arenas[u].Small?
      ensures t.arenas[u].k < DESC_CNT && CountIn(t.free[t.arenas[u].k], u) < PerArena(t.arenas[u].k)
    {
      ArenaKind(h, u);
      TakeCount(h, k, u);
      if u == v {
        ArenaKind(h, v);
        CountBound(h, v);
      }
    }
  }

  lemma ArenaKind(h: State, u: nat)
    requires Sound(h) && u in h.arenas
    ensures h.arenas[u].Small? ==> h.arenas[u].k < DESC_CNT
  {
    assert HeaderOk(h.mem, u, h.arenas[u], h.free);
  }

  lemma TakeCount(h: State, k: nat, u: nat)
    requires Sound(h) && k < DESC_CNT && h.free[k] != []
    ensures CountIn(h.free[k], u) == CountIn(h.free[k][1..], u) + if PageOf(h.free[k][0]) == u then 1 else 0
  {
  }

  lemma MallocSmall(h: State, k: nat)
    requires Inv(h) && k < DESC_CNT && h.free[k] != []
    ensures var (r, p) := (Take(h, k), h.free[k][0]);
      && Inv(r) && p != NULL && !Live(h, p) && Live(r, p) && Words(r.arenas, p) == BlockSize(k)
      && ZeroOn(r.mem, p, p + BlockSize(k))
      && (forall q: Addr :: Live(r, q) <==> Live(h, q) || q == p)
      && (forall q: Addr :: Live(h, q) ==> SameContents(h, r, q))
  {
    hide Ring, HeaderOk, ListOk, Mapped, Covered, IsBlock, IsLarge, Words, Laid, SameOn, Take;
    TakeInv(h, k);
    TakeOk(h, k);
    BlockBounds(h, h.free[k][0]);
    SameArenas(h, k);
  }

  lemma SameArenas(h: State, k: nat)
    requires Sound(h) && k < DESC_CNT && h.free[k] != []
    ensures Take(h, k).arenas == h.arenas
  {
  }

  lemma GrowBusy(h: State, k: nat)
    requires Inv(h) && k < DESC_CNT && h.free[k] == [] && Grow(h, k).1 && Sound(Grow(h, k).0)
    ensures var g := Grow(h, k).0;
      g.free[k] != [] && BusyBut(g, PageOf(g.free[k][0])) && PageOf(g.free[k][0]) == PageMalloc(h.pages, 1).1
  {
    hide Ring, ListOk, Mapped, Covered, Laid, Grow, PageMalloc, PageWrite, Intact, Blocks, Fit;
    GrowWrites(h, k);
    var g, v := Grow(h, k).0, PageMalloc(h.pages, 1).1;
    BlocksIn(v, k);
    forall u | u in g.arenas && g.arenas[u].Small? && u != v
      ensures g.arenas[u].k < DESC_CNT && CountIn(g.free[g.arenas[u].k], u) < PerArena(g.arenas[u].k)
    {
      ArenaKind(h, u);
      CountNone(g.free[k], u);
    }
  }

  /** From a heap that has just grown: the block is new, and all that was live is untouched. */
  lemma MallocGrown(h: State, k: nat)
    requires Inv(h) && k < DESC_CNT && h.free[k] == [] && Grow(h, k).1
    requires Sound(Grow(h, k).0) && Grow(h, k).0.free[k] != []
    ensures var (g, r, p) := (Grow(h, k).0, Take(Grow(h, k).0, k), Grow(h, k).0.free[k][0]);
      && Inv(r) && p != NULL && !Live(h, p) && Live(r, p) && Words(r.arenas, p) == BlockSize(k)
      && ZeroOn(r.mem, p, p + BlockSize(k))
      && (forall q: Addr :: Live(r, q) <==> Live(h, q) || q == p)
      && (forall q: Addr :: Live(h, q) ==> SameContents(h, r, q))
  {
    hide Ring, HeaderOk, ListOk, Mapped, Covered, IsBlock, IsLarge, Words, Laid, SameOn, Take, Grow, Fit;
    GrowOk(h, k);
    GrowBusy(h, k);
    var g, b := Grow(h, k).0, Grow(h, k).0.free[k][0];
    TakeInv(g, k);
    TakeOk(g, k);
    BlockBounds(g, b);
    SameArenas(g, k);
    forall q: Addr | Live(h, q)
      ensures SameContents(h, Take(g, k), q)
    {
      SameOnTwice(h.mem, g.mem, Take(g, k).mem, q, q + Words(h.arenas, q));
    }
  }

  lemma SameOnTwice(m: Memory, m1: Memory, m2: Memory, lo: int, hi: int)
    requires SameOn(m, m1, lo, hi) && SameOn(m1, m2, lo, hi)
    ensures SameOn(m, m2, lo, hi)
  {
  }

  lemma MallocBig(h: State, cnt: nat)
    requires Inv(h) && cnt > 0 && MallocLarge(h, cnt).1 != NULL
    ensures var (r, p) := MallocLarge(h, cnt);
      && Inv(r) && !Live(h, p) && Live(r, p) && Words(r.arenas, p) == cnt * PAGE - HEADER
      && ZeroOn(r.mem, p, p + Words(r.arenas, p))
      && (forall q: Addr :: Live(r, q) <==> Live(h, q) || q == p)
      && (forall q: Addr :: Live(h, q) ==> SameContents(h, r, q))
  {
    hide Ring, HeaderOk, ListOk, Mapped, Covered, IsBlock, IsLarge, Words, Laid, SameOn, MallocLarge, Fit;
    LargeOk(h, cnt);
    var r := MallocLarge(h, cnt).0;
    forall u | u in r.arenas && r.arenas[u].Small?
      ensures r.arenas[u].k < DESC_CNT && CountIn(r.free[r.arenas[u].k], u) < PerArena(r.arenas[u].k)
    {
      ArenaKind(h, u);
    }
  }

  /** sys_malloc returns NULL exactly for a size that is zero or not below the pool's and when the
      pages it needs cannot be had; it then changes nothing, except that it loses the pages and frames
      it had taken exactly when the frames ran out midway. Otherwise it returns a new block, large
      enough and all zero. It never disturbs a live block. */
  lemma MallocOk(h: State, size: nat, poolSize: nat)
    requires Inv(h)
    ensures var (r, p) := SysMalloc(h, size, poolSize);
      && Inv(r)
      && (p == NULL <==> size == 0 || size >= poolSize || NoRoom(h, size))
      && (p == NULL ==> r == h.(pages := r.pages) && (r == h <==> !FailsMidway(h, size, poolSize)))
      && (p != NULL ==>
            && !Live(h, p) && Live(r, p) && size <= 4 * Words(r.arenas, p)
            && ZeroOn(r.mem, p, p + Words(r.arenas, p)))
      && (forall q: Addr :: Live(r, q) <==> Live(h, q) || (p != NULL && q == p))
      && (forall q: Addr :: Live(h, q) ==> SameContents(h, r, q))
  {
    hide Sound, Live, IsPiece, Words, SameContents, Take, Grow, MallocLarge, BusyBut, Fit, RunsOutOfFrames;
    ListPerDescriptor(h);
    if !(0 < size < poolSize) {
      SameHeapContents(h);
    } else if size > 1024 {
      LargeOk(h, PageCount(size));
      if MallocLarge(h, PageCount(size)).1 != NULL {
        MallocBig(h, PageCount(size));
      } else {
        FailedMalloc(h, PageCount(size));
      }
    } else {
      var k := SizeClass(size);
      if h.free[k] != [] {
        MallocSmall(h, k);
      } else {
        GrowOk(h, k);
        if Grow(h, k).1 {
          MallocGrown(h, k);
        } else {
          FailedMalloc(h, 1);
        }
      }
    }
  }

  lemma SameHeapContents(h: State)
    requires Sound(h)
    ensures forall q: Addr :: Live(h, q) ==> SameContents(h, h, q)
  {
    hide IsBlock, IsLarge, Words;
  }

  /** What a failed malloc_page leaves: all is as before but perhaps the pages. */
  lemma FailedMalloc(h: State, cnt: nat)
    requires Inv(h) && cnt > 0 && NoPages(h, cnt)
    ensures var r := h.(pages := PageMalloc(h.pages, cnt).0);
      && Inv(r) && (r == h <==> !RunsOutOfFrames(h.pages, cnt))
      && (forall q: Addr :: Live(r, q) <==> Live(h, q))
      && (forall q: Addr :: Live(h, q) ==> SameContents(h, r, q))
  {
    hide Ring, HeaderOk, ListOk, Mapped, Covered, IsBlock, IsLarge, Words, Laid, PageMalloc, Fit;
    FailedPages(h, cnt);
    NewPages(h, cnt);
  }

  lemma ListPerDescriptor(h: State)
    requires Sound(h)
    ensures |h.free| == DESC_CNT
  {
  }

  // ----- sys_free

  /** Some block of the arena at page `v` other than `p` is live. */
  ghost predicate OtherLive(h: State, v: nat, p: Addr)
    requires Sound(h)
  {
    exists q: Addr :: q != p && PageOf(q) == v && Live(h, q)
  }

  lemma GiveBusy(h: State, p: Addr)
    requires Inv(h) && IsBlock(h.arenas, p) && Live(h, p) && Sound(Give(h, p))
    ensures BusyBut(Give(h, p), PageOf(p))
  {
    hide Ring, ListOk, Mapped, Covered, Laid, InArena, AddTail, Live;
    var g, k := Give(h, p), h.arenas[PageOf(p)].k;
    BlockBounds(h, p);
    forall u | u in g.arenas && g.arenas[u].Small? && u != PageOf(p)
      ensures g.arenas[u].k < DESC_CNT && CountIn(g.free[g.arenas[u].k], u) < PerArena(g.arenas[u].k)
    {
      ArenaKind(h, u);
      CountAppend(h.free[k], [p], u);
      CountOne(p, u);
    }
  }

  /** The arena of a small block is all free exactly when no other block of it is live. */
  lemma LastBlock(h: State, p: Addr)
    requires Inv(h) && IsBlock(h.arenas, p) && Live(h, p) && Sound(Give(h, p))
    ensures var (g, v) := (Give(h, p), PageOf(p)); v in g.arenas && (AllFree(g, v) <==> !OtherLive(h, v, p))
    ensures var (g, v, k) := (Give(h, p), PageOf(p), h.arenas[PageOf(p)].k);
      && CountIn(g.free[k], v) <= PerArena(k) && (CountIn(g.free[k], v) == PerArena(k) <==> AllFree(g, v))
  {
    hide Ring, HeaderOk, ListOk, Mapped, Covered, Laid, InArena, Give;
    GiveOk(h, p);
    GiveArenas(h, p);
    var g, v, k := Give(h, p), PageOf(p), h.arenas[PageOf(p)].k;
    CountBound(g, v);
    if OtherLive(h, v, p) {
      var q: Addr :| q != p && PageOf(q) == v && Live(h, q);
      assert Live(g, q);
    } else {
      forall b | InArena(v, k, b)
        ensures b in g.free[k]
      {
        InArenaPage(v, k, b);
        LiveOrFree(g, v, b);
      }
    }
  }

  lemma LiveOrFree(h: State, v: nat, b: Addr)
    requires Sound(h) && v in h.arenas && h.arenas[v].Small? && h.arenas[v].k < DESC_CNT
    requires InArena(v, h.arenas[v].k, b) && PageOf(b) == v
    ensures Live(h, b) || b in h.free[h.arenas[v].k]
  {
  }

  lemma InArenaPage(v: nat, k: nat, b: Addr)
    requires k < DESC_CNT && InArena(v, k, b)
    ensures PageOf(b) == v
  {
    var i: nat :| i < PerArena(k) && b == Block(v, k, i);
    BlockInPage(v, k, i);
  }

  lemma GiveArenas(h: State, p: Addr)
    requires Sound(h) && IsBlock(h.arenas, p)
    ensures Give(h, p).arenas == h.arenas && Give(h, p).pages == h.pages
  {
  }

  lemma ReclaimInv(h: State, v: nat)
    requires Sound(h) && v in h.arenas && AllFree(h, v) && BusyBut(h, v)
    ensures Inv(Reclaim(h, v))
  {
    hide Ring, HeaderOk, ListOk, Mapped, Covered, Laid, AllOn, Words, SameOn, IsBlock, IsLarge;
    ReclaimOk(h, v);
    var r, k := Reclaim(h, v), h.arenas[v].k;
    forall u | u in r.arenas && r.arenas[u].Small?
      ensures r.arenas[u].k < DESC_CNT && CountIn(r.free[r.arenas[u].k], u) < PerArena(r.arenas[u].k)
    {
      ArenaKind(h, u);
      CountElsewhere(h.free[k], v, u);
    }
  }

  lemma FreeSmall(h: State, p: Addr)
    requires Inv(h) && Live(h, p) && IsBlock(h.arenas, p)
    ensures FreeEffect(h, SysFree(h, p), p)
  {
    hide Sound, Words, SameOn, InArena, Give, Reclaim, CountIn, OtherLive, AllFree;
    var v := PageOf(p);
    GiveOk(h, p);
    GiveArenas(h, p);
    BlockKind(h, p);
    LastBlock(h, p);
    GiveBusy(h, p);
    var g := Give(h, p);
    if AllFree(g, v) {
      ReclaimOk(g, v);
      ReclaimInv(g, v);
      ReclaimState(g, v);
      forall q: Addr | Live(h, q) && q != p
        ensures SameContents(h, Reclaim(g, v), q)
      {
        assert Live(g, q);
        SameOnTwice(h.mem, g.mem, Reclaim(g, v).mem, q, q + Words(h.arenas, q));
        LivePiece(Reclaim(g, v), q);
      }
    } else {
      BusyInv(g, v);
    }
  }

  /** What sys_free does: `p` is live no more, the rest keeps its contents, and the pages of the
      arena go back exactly when `p` was its last live block. */
  ghost predicate FreeEffect(h: State, r: State, p: Addr)
    requires Sound(h) && Live(h, p)
  {
    && var v := PageOf(p);
    && Inv(r)
    && (forall q: Addr :: Live(r, q) <==> Live(h, q) && q != p)
    && (forall q: Addr :: Live(h, q) && q != p ==> SameContents(h, r, q))
    && (v in r.arenas <==> OtherLive(h, v, p))
    && (v in r.arenas ==> r.pages == h.pages && r.arenas == h.arenas)
    && (v !in r.arenas ==> r.arenas == h.arenas - {v} && GivenBack(h, r, v))
  }

  /** mfree_page took back the pages of the arena at `v`. */
  ghost predicate GivenBack(h: State, r: State, v: nat)
    requires Sound(h)
  {
    v in h.arenas && (ArenaMapped(h, v); r.pages == PageMfree(h.pages, v, Width(h.arenas[v])))
  }

  lemma BlockKind(h: State, p: Addr)
    requires Sound(h) && IsBlock(h.arenas, p)
    ensures PageOf(p) in h.arenas && h.arenas[PageOf(p)].Small? && h.arenas[PageOf(p)].k < DESC_CNT
    ensures |h.free| == DESC_CNT
  {
  }

  lemma LivePiece(h: State, q: Addr)
    requires Sound(h) && Live(h, q)
    ensures IsPiece(h.arenas, q)
  {
  }

  lemma BusyInv(h: State, v: nat)
    requires Sound(h) && BusyBut(h, v) && v in h.arenas && h.arenas[v].Small?
    requires h.arenas[v].k < DESC_CNT && CountIn(h.free[h.arenas[v].k], v) < PerArena(h.arenas[v].k)
    ensures Inv(h)
  {
  }

  lemma ReclaimState(h: State, v: nat)
    requires Sound(h) && v in h.arenas && h.arenas[v].Small?
    ensures Reclaim(h, v).arenas == h.arenas - {v} && GivenBack(h, Reclaim(h, v), v)
  {
  }

  lemma FreeBig(h: State, p: Addr)
    requires Inv(h) && Live(h, p) && !IsBlock(h.arenas, p)
    ensures FreeEffect(h, SysFree(h, p), p)
  {
    hide Words, Laid, Mapped, Covered, HeaderOk, ListOk, InArena;
    var v := PageOf(p);
    FreeLargeOk(h, v);
    var r := FreeLarge(h, v);
    forall u | u in r.arenas && r.arenas[u].Small?
      ensures r.arenas[u].k < DESC_CNT && CountIn(r.free[r.arenas[u].k], u) < PerArena(r.arenas[u].k)
    {
      ArenaKind(h, u);
    }
  }

  /** sys_free keeps the invariant and does what it should. */
  lemma FreeOk(h: State, p: Addr)
    requires Inv(h) && Live(h, p)
    ensures FreeEffect(h, SysFree(h, p), p)
  {
    hide Sound, Live, FreeEffect, SysFree, IsBlock;
    if IsBlock(h.arenas, p) {
      FreeSmall(h, p);
    } else {
      FreeBig(h, p);
    }
  }

  // ----- which block, and what becomes of the free lists

  /** Blocks of `words` words are the smallest that a descriptor has for `size` bytes. */
  predicate SmallestFor(words: int, size: nat) {
    size <= 4 * words && (words == 4 || 2 * words < size)
  }

  lemma ClassIsSmallest(size: nat)
    requires size <= 1024
    ensures SmallestFor(BlockSize(SizeClass(size)), size)
  {
  }

  /** What a request of at most 1024 bytes gets: a block of the smallest size that holds it. It is the
      front of the free list of that size, and no other list changes; if that is empty, the first block
      of a new arena on the lowest clear page, whose other blocks are listed by address. */
  lemma SmallBlock(h: State, size: nat, poolSize: nat)
    requires Inv(h) && size <= 1024 && SysMalloc(h, size, poolSize).1 != NULL
    ensures |h.free| == DESC_CNT
    ensures var (r, p) := SysMalloc(h, size, poolSize);
      var v := PageOf(p);
      && v in r.arenas && r.arenas[v].Small? && r.arenas[v].k < DESC_CNT
      && var k := r.arenas[v].k;
      && SmallestFor(BlockSize(k), size) && IsPiece(r.arenas, p) && Words(r.arenas, p) == BlockSize(k)
      && (h.free[k] != [] ==>
            p == h.free[k][0] && r.free == h.free[k := h.free[k][1..]] && r.arenas == h.arenas && r.pages == h.pages)
      && (h.free[k] == [] ==>
            && v == Fit(h.pages.virt, 1) && v !in h.arenas && r.arenas == h.arenas[v := Small(k)]
            && p == Block(v, k, 0) && r.free == h.free[k := Blocks(v, k, 0)[1..]])
  {
    hide Inv, Live, SameContents, IsPiece, Words, Grow;
    MallocOk(h, size, poolSize);
    InvSound(h);
    ListPerDescriptor(h);
    var k := SizeClass(size);
    ClassIsSmallest(size);
    if h.free[k] != [] {
      TakenBlock(h, k);
    } else {
      GrownBlock(h, k);
    }
  }

  lemma InvSound(h: State)
    requires Inv(h)
    ensures Sound(h)
  {
  }

  lemma TakenBlock(h: State, k: nat)
    requires Sound(h) && k < DESC_CNT && h.free[k] != []
    ensures var (r, p) := (Take(h, k), h.free[k][0]);
      && PageOf(p) in h.arenas && h.arenas[PageOf(p)] == Small(k) && IsPiece(h.arenas, p) && Words(h.arenas, p) == BlockSize(k)
      && r.arenas == h.arenas && r.pages == h.pages && r.free == h.free[k := h.free[k][1..]]
  {
    hide Ring, Laid, HeaderOk, ListOk, Mapped, Covered, InArena;
    FreeBlock(h, k, h.free[k][0]);
  }

  lemma GrownBlock(h: State, k: nat)
    requires Inv(h) && k < DESC_CNT && h.free[k] == [] && Grow(h, k).1
    ensures Sound(Grow(h, k).0) && Grow(h, k).0.free[k] != []
    ensures var g := Grow(h, k).0;
      var (r, p) := (Take(g, k), g.free[k][0]);
      var v := PageOf(p);
      && v == Fit(h.pages.virt, 1) && v !in h.arenas && r.arenas == h.arenas[v := Small(k)]
      && p == Block(v, k, 0) && r.free == h.free[k := Blocks(v, k, 0)[1..]]
      && IsPiece(r.arenas, p) && Words(r.arenas, p) == BlockSize(k)
  {
    hide Ring, Laid, HeaderOk, ListOk, Mapped, Covered, InArena, PageWrite, Intact, Take, PageMalloc, Grow, Blocks;
    InvSound(h);
    GrowOk(h, k);
    GrowWrites(h, k);
    LowestPage(h, 1);
    TakenBlock(Grow(h, k).0, k);
    BlockInPage(PageMalloc(h.pages, 1).1, k, 0);
  }

  lemma LowestPage(h: State, cnt: nat)
    requires Sound(h) && cnt > 0 && PageMalloc(h.pages, cnt).1 != NOT_FOUND
    ensures PageMalloc(h.pages, cnt).1 == Fit(h.pages.virt, cnt)
  {
  }

  /** What a larger request gets: an arena of its own, on the lowest clear run of just as many pages as
      size and header need. The free lists stay as they are. */
  lemma LargeBlock(h: State, size: nat, poolSize: nat)
    requires Inv(h) && size > 1024 && SysMalloc(h, size, poolSize).1 != NULL
    ensures var (r, p) := SysMalloc(h, size, poolSize);
      var v := PageOf(p);
      && v in r.arenas && r.arenas[v].Large?
      && var cnt := r.arenas[v].cnt;
      && 4 * PAGE * (cnt - 1) < size + 4 * HEADER <= 4 * PAGE * cnt
      && v == Fit(h.pages.virt, cnt) && v !in h.arenas && r.arenas == h.arenas[v := Large(cnt)]
      && p == v * PAGE + HEADER && r.free == h.free
  {
    hide Ring, Laid, HeaderOk, ListOk, Mapped, Covered, PageMalloc, MallocLarge, Intact, Live, IsBlock, IsLarge;
    InvSound(h);
    var cnt := PageCount(size);
    LargeWrites(h, cnt);
    NewPages(h, cnt);
    LargeOk(h, cnt);
    LowestPage(h, cnt);
  }

  lemma {:induction false} ElsewhereWith(s: seq<Addr>, p: Addr, v: nat)
    requires PageOf(p) == v
    ensures Elsewhere(s + [p], v) == Elsewhere(s, v)
  {
    if s == [] {
      assert [p][1..] == [];
    } else {
      ElsewhereWith(s[1..], p, v);
      assert (s + [p])[1..] == s[1..] + [p];
    }
  }

  /** What sys_free does to the free lists: a small block goes to the end of its own list; if its arena
      goes back, all blocks of that leave the list and the others stay in order. */
  lemma FreedLists(h: State, p: Addr)
    requires Inv(h) && Live(h, p)
    ensures |h.free| == DESC_CNT && PageOf(p) in h.arenas
    ensures var (r, v) := (SysFree(h, p), PageOf(p));
      match h.arenas[v]
      case Large(_) => r.free == h.free
      case Small(k) =>
        k < DESC_CNT && r.free == h.free[k := if v in r.arenas then h.free[k] + [p] else Elsewhere(h.free[k], v)]
  {
    hide Ring, Laid, HeaderOk, ListOk, Mapped, Covered, InArena, AddTail, DelBlocks, PageMfree, CountIn, Elsewhere;
    InvSound(h);
    GiveOkIf(h, p);
    var v := PageOf(p);
    if h.arenas[v].Small? {
      ElsewhereWith(h.free[h.arenas[v].k], p, v);
    }
  }

  lemma GiveOkIf(h: State, p: Addr)
    requires Inv(h) && Live(h, p)
    ensures PageOf(p) in h.arenas && |h.free| == DESC_CNT
    ensures h.arenas[PageOf(p)].Small? ==> IsBlock(h.arenas, p) && Sound(Give(h, p))
  {
    hide Ring, Laid, HeaderOk, ListOk, Mapped, Covered, InArena, Give;
    if IsBlock(h.arenas, p) {
      GiveOk(h, p);
    }
  }
}
