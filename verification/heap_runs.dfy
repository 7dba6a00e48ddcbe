/** Runs of the kernel heap of core/mm/memory.c: calls of sys_malloc and sys_free, and the owners of
    live blocks writing into them. */
module HeapRuns {
  import opened Bitmap
  import opened Sequences
  import opened PageLayer
  import opened MemList
  import opened Heap
  import opened HeapSteps
  import opened HeapFree
  import opened HeapCalls

  // ----- bookkeeping

  /** The blocks of the small arena at page `v` that are not on its free list. */
  ghost function LiveIn(h: State, v: nat): set<Addr>
    requires Sound(h) && v in h.arenas && h.arenas[v].Small?
  {
    ArenaKind(h, v);
    var k := h.arenas[v].k;
    set b | b in Blocks(v, k, 0) && b !in h.free[k]
  }

  /** cnt is the number of free blocks of the arena, each on the list once; with the live ones they
      make up the arena, and there is always a live one. */
  lemma Bookkeeping(h: State, v: nat)
    requires Inv(h) && v in h.arenas && h.arenas[v].Small?
    ensures var k := h.arenas[v].k;
      && k < DESC_CNT && Distinct(h.free[k]) && (v + 1) * PAGE <= |h.mem|
      && h.mem[v * PAGE + 1] == CountIn(h.free[k], v) == |OfPage(h.free[k], v)|
      && h.mem[v * PAGE + 1] + |LiveIn(h, v)| == PerArena(k)
      && LiveIn(h, v) != {}
      && forall b: Addr :: b in LiveIn(h, v) <==> Live(h, b) && PageOf(b) == v
  {
    hide Ring, Laid, Mapped, Covered, ListOk, InArena, Blocks;
    ArenaKind(h, v);
    var k := h.arenas[v].k;
    var s, all := h.free[k], Blocks(v, k, 0);
    ListNodes(h, k);
    RingDistinct(h.mem, HeadOf(|h.pages.virt|, k), s);
    BlocksIn(v, k);
    BlocksDistinct(v, k);
    CountIsSize(s, v);
    CountIsSize(all, v);
    CountAll(all, v);
    assert OfPage(all, v) == OfPage(s, v) + LiveIn(h, v);
    assert OfPage(s, v) !! LiveIn(h, v);
  }

  // ----- sys_free undoes sys_malloc

  /** Pages and arenas are the same, and so is each free list but for its order. */
  ghost predicate SameHeap(h: State, h': State) {
    && h'.pages == h.pages && h'.arenas == h.arenas && |h'.free| == |h.free|
    && forall k :: 0 <= k < |h.free| ==> multiset(h'.free[k]) == multiset(h.free[k])
  }

  lemma UndoTake(h: State, k: nat)
    requires Sound(h) && k < DESC_CNT && h.free[k] != [] && Inv(Take(h, k)) && Live(Take(h, k), h.free[k][0])
    requires CountIn(h.free[k], PageOf(h.free[k][0])) < PerArena(k)
    ensures SameHeap(h, SysFree(Take(h, k), h.free[k][0]))
  {
    hide Ring, Laid, Mapped, Covered, ListOk, InArena, HeaderOk, DelInit, Zero, AddTail, CountIn;
    var s, b := h.free[k], h.free[k][0];
    FreeBlock(h, k, b);
    TakeCount(h, k, PageOf(b));
    CountAppend(s[1..], [b], PageOf(b));
    CountOne(b, PageOf(b));
    GiveOk(Take(h, k), b);
    assert s == [b] + s[1..];
  }

  lemma {:induction false} ElsewhereNone(s: seq<Addr>, v: nat)
    requires forall q :: q in s ==> PageOf(q) == v
    ensures Elsewhere(s, v) == []
  {
    if s != [] {
      ElsewhereNone(s[1..], v);
    }
  }

  lemma UndoGrow(h: State, k: nat)
    requires Inv(h) && k < DESC_CNT && h.free[k] == [] && Grow(h, k).1
    requires Sound(Grow(h, k).0) && Grow(h, k).0.free[k] != []
    requires var (g, p) := (Grow(h, k).0, Grow(h, k).0.free[k][0]); Inv(Take(g, k)) && Live(Take(g, k), p)
    ensures var (g, p) := (Grow(h, k).0, Grow(h, k).0.free[k][0]); SameHeap(h, SysFree(Take(g, k), p))
  {
    hide Ring, Laid, Mapped, Covered, ListOk, InArena, HeaderOk, DelInit, Zero, AddTail, CountIn, Grow, PageMalloc,
      PageMfree, Blocks, Intact, PageWrite, Elsewhere, DelBlocks;
    GrowWrites(h, k);
    var g, v := Grow(h, k).0, PageMalloc(h.pages, 1).1;
    var s, b := Blocks(v, k, 0), g.free[k][0];
    BlocksIn(v, k);
    FreeBlock(g, k, b);
    CountAll(s, v);
    TakeCount(g, k, v);
    CountAppend(s[1..], [b], v);
    CountOne(b, v);
    var t := Take(g, k);
    GiveOk(t, b);
    MfreeUndoesMalloc(h.pages, 1, g.pages, v);
    ElsewhereNone(s[1..] + [b], v);
    assert h.arenas[v := Small(k)] - {v} == h.arenas;
  }

  lemma UndoLarge(h: State, cnt: nat)
    requires Inv(h) && cnt > 0 && MallocLarge(h, cnt).1 != NULL
    requires var (g, p) := MallocLarge(h, cnt); Inv(g) && Live(g, p)
    ensures var (g, p) := MallocLarge(h, cnt); SameHeap(h, SysFree(g, p))
  {
    hide Ring, Laid, Mapped, Covered, ListOk, IsBlock, HeaderOk, PageMalloc, PageMfree, Intact, MallocLarge, Fit,
      ZeroOn, SetRun, FreeRun;
    SizedPages(h);
    LargeWrites(h, cnt);
    var (g, p) := MallocLarge(h, cnt);
    var v := PageMalloc(h.pages, cnt).1;
    NewPages(h, cnt);
    MfreeUndoesMalloc(h.pages, cnt, g.pages, v);
    assert PageOf(p) == v;
    assert g.arenas - {v} == h.arenas;
    assert SysFree(g, p) == FreeLarge(g, v);
  }

  lemma SizedPages(h: State)
    requires Sound(h)
    ensures Sized(h.pages) && Mapped(h.pages)
  {
  }

  /** A block that is freed right after it was got leaves the heap as it was, up to the order of
      one free list. */
  lemma FreeUndoesMalloc(h: State, size: nat, poolSize: nat)
    requires Inv(h) && SysMalloc(h, size, poolSize).1 != NULL
    ensures var (r, p) := SysMalloc(h, size, poolSize); Inv(r) && Live(r, p) && SameHeap(h, SysFree(r, p))
  {
    hide Sound, Live, IsPiece, Words, SameContents, Take, Grow, MallocLarge, BusyBut, Fit, SameHeap, SysFree;
    MallocOk(h, size, poolSize);
    if size > 1024 {
      UndoLarge(h, PageCount(size));
    } else {
      var k := SizeClass(size);
      ListPerDescriptor(h);
      if h.free[k] != [] {
        ListBusy(h, k);
        UndoTake(h, k);
      } else {
        GrowOk(h, k);
        UndoGrow(h, k);
      }
    }
  }

  lemma ListBusy(h: State, k: nat)
    requires Inv(h) && k < DESC_CNT && h.free[k] != []
    ensures CountIn(h.free[k], PageOf(h.free[k][0])) < PerArena(k)
  {
    FreeBlock(h, k, h.free[k][0]);
  }

  // ----- an owner writes into its block

  ghost function WriteTo(h: State, q: Addr, i: nat, x: nat): State
    requires Sound(h) && Live(h, q) && i < Words(h.arenas, q)
  {
    h.(mem := Store(h.mem, q + i, x))
  }

  lemma OneWord(m: Memory, a: nat, x: nat, lo: int, hi: int)
    requires !(lo <= a < hi)
    ensures SameOn(m, Store(m, a, x), lo, hi)
  {
  }

  lemma WriteHeader(h: State, q: Addr, i: nat, x: nat, v: nat)
    requires Sound(h) && Live(h, q) && i < Words(h.arenas, q) && v in h.arenas
    ensures HeaderOk(Store(h.mem, q + i, x), v, h.arenas[v], h.free)
  {
    hide Ring, ListOk, Mapped, Words, IsBlock, IsLarge;
    PieceOffHeader(h.pages.virt, h.arenas, q, v);
    assert HeaderOk(h.mem, v, h.arenas[v], h.free);
  }

  lemma WriteList(h: State, q: Addr, i: nat, x: nat, k: nat)
    requires Sound(h) && Live(h, q) && i < Words(h.arenas, q) && k < DESC_CNT
    ensures ListOk(Store(h.mem, q + i, x), |h.pages.virt|, h.arenas, h.free[k], k)
  {
    hide Ring, Mapped, Words, InArena, HeaderOk, SameOn, Laid, Store;
    var m, head := h.mem, HeadOf(|h.pages.virt|, k);
    PieceBounds(h.arenas, q);
    PieceOnArena(h.arenas, q);
    ArenaBounds(h, PageOf(q));
    ListNodes(h, k);
    forall b | b in h.free[k]
      ensures SameOn(m, Store(m, q + i, x), b, b + 2)
    {
      NotLive(h, k, b);
      BlockBounds(h, b);
      PiecesApart(h.pages.virt, h.arenas, q, b);
      OneWord(m, q + i, x, b, b + 2);
    }
    OneWord(m, q + i, x, head, head + 2);
    RingFrame(m, Store(m, q + i, x), head, h.free[k]);
  }

  lemma WrittenWord(h: State, q: Addr, i: nat, x: nat)
    requires Sound(h) && Live(h, q) && i < Words(h.arenas, q)
    ensures q + i < |h.mem| && WriteTo(h, q, i, x) == h.(mem := h.mem[q + i := x])
  {
    hide Ring, HeaderOk, Mapped, Covered, Words, IsBlock, IsLarge, Laid, ListOk;
    PieceBounds(h.arenas, q);
    PieceOnArena(h.arenas, q);
    ArenaBounds(h, PageOf(q));
  }

  /** Whatever an owner writes inside its block is there afterwards, the heap stays well formed and all
      other words, so those of the other live blocks, are as they were. */
  lemma WriteOk(h: State, q: Addr, i: nat, x: nat)
    requires Inv(h) && Live(h, q) && i < Words(h.arenas, q)
    ensures var r := WriteTo(h, q, i, x);
      && Inv(r) && (forall p: Addr :: Live(r, p) <==> Live(h, p))
      && (forall p: Addr :: Live(h, p) && p != q ==> SameContents(h, r, p))
    ensures q + i < |h.mem| && WriteTo(h, q, i, x) == h.(mem := h.mem[q + i := x])
  {
    WrittenWord(h, q, i, x);
    hide Ring, ListOk, HeaderOk, Mapped, Words, IsBlock, IsLarge, SameOn, Store;
    var r := WriteTo(h, q, i, x);
    forall v | v in h.arenas
      ensures HeaderOk(r.mem, v, h.arenas[v], h.free)
    {
      WriteHeader(h, q, i, x, v);
    }
    forall k | 0 <= k < DESC_CNT
      ensures ListOk(r.mem, |h.pages.virt|, h.arenas, h.free[k], k)
    {
      WriteList(h, q, i, x, k);
    }
    forall p: Addr | Live(h, p) && p != q
      ensures SameContents(h, r, p)
    {
      PiecesApart(h.pages.virt, h.arenas, p, q);
      OneWord(h.mem, q + i, x, p, p + Words(h.arenas, p));
    }
  }

  // ----- the other clients of the pool

  /** get_kernel_page: a run of zeroed pages for a client that is not the allocator. */
  ghost function KernelPages(h: State, cnt: nat): (State, nat)
    requires Sound(h) && cnt > 0
  {
    NewPages(h, cnt);
    var (q, v) := PageMalloc(h.pages, cnt);
    if v == NOT_FOUND then (h.(pages := q), v)
    else (h.(mem := Zero(h.mem, v * PAGE, cnt * PAGE), pages := q), v)
  }

  /** The run touches no arena. */
  ghost predicate OffArenas(arenas: Arenas, v: nat, cnt: nat) {
    forall u :: u in arenas ==> u + Width(arenas[u]) <= v || v + cnt <= u
  }

  lemma KernelPagesWrite(h: State, cnt: nat, k: nat)
    requires Sound(h) && cnt > 0 && KernelPages(h, cnt).1 != NOT_FOUND && k < DESC_CNT
    ensures Intact(h, KernelPages(h, cnt).0.mem, k, [], -1)
    ensures OffArenas(h.arenas, KernelPages(h, cnt).1, cnt)
  {
    hide Laid, HeaderOk, ListOk, Mapped, Covered, Intact, PageMalloc, Fit;
    NewPages(h, cnt);
    var (r, v) := KernelPages(h, cnt);
    forall u | u in h.arenas
      ensures u + Width(h.arenas[u]) <= v || v + cnt <= u
    {
      RunOffArena(h.pages.virt, h.arenas, u, v, cnt);
    }
    forall a | 0 <= a < |h.mem| && Off(a, [v * PAGE], cnt * PAGE)
      ensures r.mem[a] == h.mem[a]
    {
      assert v * PAGE in [v * PAGE];
    }
    PageWriteIntact(h, r.mem, k, v, cnt);
  }

  /** Pages for another client are off every arena; no live block notices. */
  lemma KernelPagesOk(h: State, cnt: nat)
    requires Inv(h) && cnt > 0
    ensures var (r, v) := KernelPages(h, cnt);
      && Inv(r) && (v == NOT_FOUND <==> NoPages(h, cnt))
      && r.arenas == h.arenas && r.free == h.free
      && (v != NOT_FOUND ==>
            && OffArenas(r.arenas, v, cnt) && ZeroOn(r.mem, v * PAGE, (v + cnt) * PAGE)
            && FreeRun(h.pages.virt, v, cnt) && r.pages.virt == SetRun(h.pages.virt, v, cnt, true)
            && forall i :: v <= i < v + cnt ==> i in r.pages.table)
      && (forall q: Addr :: Live(r, q) <==> Live(h, q))
      && (forall q: Addr :: Live(h, q) ==> SameContents(h, r, q))
  {
    hide Ring, HeaderOk, ListOk, Mapped, IsBlock, IsLarge, Words, PageMalloc, Fit, Intact, SameOn, OffArenas;
    NewPages(h, cnt);
    var (r, v) := KernelPages(h, cnt);
    if v == NOT_FOUND {
      FailedMalloc(h, cnt);
    } else {
      KernelPagesWrite(h, cnt, 0);
      forall u | u in h.arenas
        ensures HeaderOk(r.mem, u, h.arenas[u], h.free)
      {
        SameHeader(h, r.mem, u);
      }
      forall j | 0 <= j < DESC_CNT
        ensures ListOk(r.mem, |h.pages.virt|, h.arenas, h.free[j], j)
      {
        var k := if j == 0 then 1 else 0;
        KernelPagesWrite(h, cnt, k);
        OtherList(h, r.mem, k, [], -1, j);
      }
      forall q: Addr | Live(h, q)
        ensures SameContents(h, r, q)
      {
        LiveIntact(h, r.mem, 0, [], -1, q);
      }
    }
  }

  lemma SameHeader(h: State, m': Memory, u: nat)
    requires Sound(h) && u in h.arenas && Intact(h, m', 0, [], -1)
    ensures HeaderOk(m', u, h.arenas[u], h.free)
  {
    hide Intact, Laid, ListOk, Mapped, Covered;
    IntactHeader(h, m', 0, [], -1, u);
    assert HeaderOk(h.mem, u, h.arenas[u], h.free);
  }

  /** mfree_page of pages that belong to no arena. */
  ghost function FreePages(h: State, v: nat, cnt: nat): State
    requires Sound(h) && cnt > 0 && forall i :: v <= i < v + cnt ==> i in h.pages.table
  {
    PageMfreeOk(h.pages, v, cnt);
    h.(pages := PageMfree(h.pages, v, cnt))
  }

  lemma FreePagesOk(h: State, v: nat, cnt: nat)
    requires Inv(h) && cnt > 0 && OffArenas(h.arenas, v, cnt)
    requires forall i :: v <= i < v + cnt ==> i in h.pages.table
    ensures v + cnt <= |h.pages.virt|
    ensures var r := FreePages(h, v, cnt);
      && Inv(r) && r == h.(pages := r.pages) && r.pages.virt == SetRun(h.pages.virt, v, cnt, false)
      && (forall i :: i in r.pages.table <==> i in h.pages.table && !(v <= i < v + cnt))
      && (forall f: nat :: f < |h.pages.phys| && h.pages.phys[f] && f < |r.pages.phys| && !r.pages.phys[f] ==>
            Backs(h.pages.table, v, cnt, f))
      && (forall f: nat :: f < |r.pages.phys| && Backs(h.pages.table, v, cnt, f) ==> !r.pages.phys[f])
  {
    hide Ring, HeaderOk, ListOk, Mapped, PageMfree;
    PageMfreeOk(h.pages, v, cnt);
    var r := FreePages(h, v, cnt);
    MappedSized(r.pages);
    assert Laid(r.pages.virt, h.arenas);
  }

  /** put_page takes a frame of the kernel pool for a page table of user addresses. */
  ghost function TakeFrame(h: State): State
    requires Sound(h)
  {
    var f := Fit(h.pages.phys, 1);
    if f == NOT_FOUND then h else h.(pages := h.pages.(phys := h.pages.phys[f := true]))
  }

  lemma TakeFrameOk(h: State)
    requires Inv(h)
    ensures var (r, f) := (TakeFrame(h), Fit(h.pages.phys, 1));
      && Inv(r) && r == h.(pages := h.pages.(phys := r.pages.phys))
      && (Clear(h.pages.phys) == 0 ==> r == h)
      && (Clear(h.pages.phys) > 0 ==>
            f !in Stray(h.pages) && Stray(r.pages) == Stray(h.pages) + {f} && Clear(r.pages.phys) == Clear(h.pages.phys) - 1)
  {
    hide Ring, HeaderOk, ListOk, Laid, Covered, Clear;
    FitOne(h.pages.phys);
    var f := Fit(h.pages.phys, 1);
    if f != NOT_FOUND {
      ClearUpdate(h.pages.phys, f);
      assert InUse(h.pages.phys[f := true]) == InUse(h.pages.phys) + {f};
      assert f !in h.pages.table.Values;
    }
  }

  /** free_phy_page gives it back. */
  function GiveFrame(h: State, f: nat): State
    requires f < |h.pages.phys|
  {
    h.(pages := h.pages.(phys := h.pages.phys[f := false]))
  }

  lemma GiveFrameOk(h: State, f: nat)
    requires Inv(h) && f in Stray(h.pages)
    ensures var r := GiveFrame(h, f);
      Inv(r) && r == h.(pages := h.pages.(phys := r.pages.phys)) && Stray(r.pages) == Stray(h.pages) - {f}
  {
    hide Ring, HeaderOk, ListOk, Laid, Covered;
    assert forall v :: v in h.pages.table ==> h.pages.table[v] in h.pages.table.Values;
  }

  // ----- runs

  /** A call of the allocator, a write of an owner into its block, or another client at work. */
  datatype Call =
    | Malloc(size: nat)
    | Free(p: Addr)
    | Write(q: Addr, i: nat, x: nat)
    | GetPages(cnt: nat)
    | ReturnPages(v: nat, cnt: nat)
    | GetFrame
    | ReturnFrame(f: nat)

  /** Only live blocks are freed and written to, and clients return only what is not the allocator's. */
  ghost predicate Allowed(h: State, c: Call)
    requires Sound(h)
  {
    match c
    case Malloc(_) => true
    case Free(p) => Live(h, p)
    case Write(q, i, _) => Live(h, q) && i < Words(h.arenas, q)
    case GetPages(cnt) => cnt > 0
    case ReturnPages(v, cnt) =>
      cnt > 0 && OffArenas(h.arenas, v, cnt) && forall i :: v <= i < v + cnt ==> i in h.pages.table
    case GetFrame => true
    case ReturnFrame(f) => f in Stray(h.pages)
  }

  ghost function Do(h: State, c: Call, poolSize: nat): State
    requires Inv(h) && Allowed(h, c)
  {
    match c
    case Malloc(size) => SysMalloc(h, size, poolSize).0
    case Free(p) => SysFree(h, p)
    case Write(q, i, x) => WriteTo(h, q, i, x)
    case GetPages(cnt) => KernelPages(h, cnt).0
    case ReturnPages(v, cnt) => FreePages(h, v, cnt)
    case GetFrame => TakeFrame(h)
    case ReturnFrame(f) => GiveFrame(h, f)
  }

  lemma DoOk(h: State, c: Call, poolSize: nat)
    requires Inv(h) && Allowed(h, c)
    ensures Inv(Do(h, c, poolSize))
  {
    hide Sound, Live, IsPiece, Words, SameOn, SysMalloc, SysFree, FreePages, TakeFrame, GiveFrame;
    match c
    case Malloc(size) => MallocOk(h, size, poolSize);
    case Free(p) => FreeOk(h, p);
    case Write(q, i, x) => WriteOk(h, q, i, x);
    case GetPages(cnt) => KernelPagesOk(h, cnt);
    case ReturnPages(v, cnt) => FreePagesOk(h, v, cnt);
    case GetFrame => TakeFrameOk(h);
    case ReturnFrame(f) => GiveFrameOk(h, f);
  }

  /** A step that changes nothing but the page layer changes no block. */
  lemma OnlyPages(h: State, pages: Pages, q: Addr)
    requires Inv(h) && Live(h, q)
    ensures IsPiece(h.arenas, q) && Live(h.(pages := pages), q) && SameContents(h, h.(pages := pages), q)
  {
    hide IsBlock, IsLarge, Words;
  }

  lemma DoKeeps(h: State, c: Call, poolSize: nat, q: Addr)
    requires Inv(h) && Allowed(h, c) && Live(h, q) && c != Free(q) && !(c.Write? && c.q == q)
    ensures Inv(Do(h, c, poolSize)) && Live(Do(h, c, poolSize), q)
    ensures IsPiece(h.arenas, q) && SameContents(h, Do(h, c, poolSize), q)
  {
    hide Sound, IsBlock, IsLarge, Words, SysMalloc, SysFree, SameOn;
    DoOk(h, c, poolSize);
    SameMemory(h.mem, q, q + Words(h.arenas, q));
    match c
    case Malloc(size) => MallocOk(h, size, poolSize);
    case Free(p) => FreeOk(h, p);
    case Write(p, i, x) => WriteOk(h, p, i, x);
    case GetPages(cnt) => KernelPagesOk(h, cnt);
    case _ => OnlyPages(h, Do(h, c, poolSize).pages, q);
  }

  lemma SameMemory(m: Memory, lo: int, hi: int)
    ensures SameOn(m, m, lo, hi)
  {
  }

  ghost predicate Leads(h: State, calls: seq<Call>, poolSize: nat, h': State)
    requires Inv(h)
    decreases |calls|
  {
    if calls == [] then h' == h
    else
      && Allowed(h, calls[0])
      && (DoOk(h, calls[0], poolSize); Leads(Do(h, calls[0], poolSize), calls[1..], poolSize, h'))
  }

  /** No call of the run frees `q` or writes into it. */
  predicate LeavesAlone(calls: seq<Call>, q: Addr) {
    forall c :: c in calls ==> c != Free(q) && !(c.Write? && c.q == q)
  }

  /** Over any run, a block that its owner neither frees nor writes to stays live, keeps its size
      and keeps every word. */
  lemma {:induction false} ContentsKept(h: State, calls: seq<Call>, poolSize: nat, h': State, q: Addr)
    requires Inv(h) && Leads(h, calls, poolSize, h') && Live(h, q) && LeavesAlone(calls, q)
    ensures Inv(h') && Live(h', q) && IsPiece(h.arenas, q) && SameContents(h, h', q)
    decreases |calls|
  {
    hide Inv, Live, Words, IsBlock, IsLarge, Do, Allowed, SameOn;
    LivePieceOf(h, q);
    if calls == [] {
      SameMemory(h.mem, q, q + Words(h.arenas, q));
    } else {
      assert calls[0] in calls && forall c :: c in calls[1..] ==> c in calls;
      var g := Do(h, calls[0], poolSize);
      DoKeeps(h, calls[0], poolSize, q);
      ContentsKept(g, calls[1..], poolSize, h', q);
      SameOnTwice(h.mem, g.mem, h'.mem, q, q + Words(h.arenas, q));
    }
  }

  lemma LivePieceOf(h: State, q: Addr)
    requires Inv(h) && Live(h, q)
    ensures IsPiece(h.arenas, q)
  {
  }

  // ----- the first state

  /** INIT_LIST_HEAD on the free lists of the descriptors from `k` on. */
  function InitLists(m: Memory, n: nat, k: nat): (r: Memory)
    requires k <= DESC_CNT
    ensures |r| == |m|
    decreases DESC_CNT - k
  {
    if k == DESC_CNT then m
    else InitLists(Store(Store(m, HeadOf(n, k) + 1, HeadOf(n, k)), HeadOf(n, k), HeadOf(n, k)), n, k + 1)
  }

  /** The heap that mem_init leaves: no page in use, seven empty free lists. */
  ghost function Start(m: Memory, n: nat): State {
    State(InitLists(m, n, 0), Pages(seq(n, _ => false), seq(n, _ => false), map[]), map[], [[], [], [], [], [], [], []])
  }

  lemma {:induction false} InitListsOk(m: Memory, n: nat, k: nat)
    requires k <= DESC_CNT && |m| == n * PAGE + 2 * DESC_CNT
    ensures forall j: nat :: k <= j < DESC_CNT ==> Ring(InitLists(m, n, k), HeadOf(n, j), [])
    ensures SameOn(m, InitLists(m, n, k), 0, HeadOf(n, k))
    decreases DESC_CNT - k
  {
    hide Ring, Store, SameOn;
    if k == DESC_CNT {
      SameMemory(m, 0, HeadOf(n, k));
    } else {
      var head := HeadOf(n, k);
      var m1 := Store(Store(m, head + 1, head), head, head);
      FreshHead(m, head);
      InitListsOk(m1, n, k + 1);
      SameOnPart(m1, InitLists(m, n, k), 0, HeadOf(n, k + 1), head, head + 2);
      RingFrame(m1, InitLists(m, n, k), head, []);
      SameOnPart(m1, InitLists(m, n, k), 0, HeadOf(n, k + 1), 0, head);
      SameOnTwice(m, m1, InitLists(m, n, k), 0, head);
    }
  }

  /** INIT_LIST_HEAD makes an empty ring and writes nowhere else. */
  lemma FreshHead(m: Memory, head: Addr)
    requires head + 1 < |m|
    ensures var m1 := Store(Store(m, head + 1, head), head, head); Ring(m1, head, []) && SameOn(m, m1, 0, head)
  {
  }

  lemma NoPageInUse(n: nat)
    requires n < NOT_FOUND
    ensures var p := Pages(seq(n, _ => false), seq(n, _ => false), map[]);
      Sized(p) && Mapped(p) && Laid(p.virt, map[]) && Covered(p.table, map[])
  {
  }

  /** The start is well formed and nothing is live in it. */
  lemma StartOk(m: Memory, n: nat)
    requires n < NOT_FOUND && |m| == n * PAGE + 2 * DESC_CNT
    ensures Inv(Start(m, n)) && forall q: Addr :: !Live(Start(m, n), q)
  {
    hide Ring, Mapped, Covered, Laid, HeaderOk, IsBlock, InitLists;
    InitListsOk(m, n, 0);
    NoPageInUse(n);
    var h := Start(m, n);
    forall k | 0 <= k < DESC_CNT
      ensures h.free[k] == [] && ListOk(h.mem, n, h.arenas, h.free[k], k)
    {
    }
    forall q: Addr
      ensures !Live(h, q)
    {
      NothingLive(h, q);
    }
  }

  lemma NothingLive(h: State, q: Addr)
    requires |h.free| == DESC_CNT && h.arenas == map[]
    ensures !Live(h, q)
  {
  }

  lemma {:induction false} RunOk(h: State, calls: seq<Call>, poolSize: nat, h': State)
    requires Inv(h) && Leads(h, calls, poolSize, h')
    ensures Inv(h')
    decreases |calls|
  {
    hide Inv, Do, Allowed;
    if calls != [] {
      DoOk(h, calls[0], poolSize);
      RunOk(Do(h, calls[0], poolSize), calls[1..], poolSize, h');
    }
  }

  /** In every state that a run from the start leads to, two live blocks share no word, none of them
      shares one with an arena header or a free block, and all their words lie on pages in use. */
  lemma AlwaysSeparate(m: Memory, n: nat, calls: seq<Call>, poolSize: nat, h: State, p: Addr)
    requires n < NOT_FOUND && |m| == n * PAGE + 2 * DESC_CNT
    requires (StartOk(m, n); Leads(Start(m, n), calls, poolSize, h))
    requires |h.free| == DESC_CNT && Live(h, p)
    ensures IsPiece(h.arenas, p)
    ensures forall q: Addr :: Live(h, q) && q != p ==> !Overlap(p, Words(h.arenas, p), q, Words(h.arenas, q))
    ensures forall v :: v in h.arenas ==> !Overlap(p, Words(h.arenas, p), v * PAGE, HEADER)
    ensures forall k, b :: 0 <= k < DESC_CNT && b in h.free[k] ==>
      IsBlock(h.arenas, b) && !Overlap(p, Words(h.arenas, p), b, Words(h.arenas, b))
    ensures forall a :: p <= a < p + Words(h.arenas, p) ==> a / PAGE < |h.pages.virt| && h.pages.virt[a / PAGE]
  {
    hide Leads, Live, IsBlock, IsLarge, Overlap, Words, Start;
    StartOk(m, n);
    RunOk(Start(m, n), calls, poolSize, h);
    Separation(h, p);
    LivePieceOf(h, p);
  }
}
