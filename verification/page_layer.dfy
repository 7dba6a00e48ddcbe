/** The page layer of core/mm/memory.c for one pool: a bitmap of virtual pages, a bitmap of page
    frames, and the page table between them. Pages and frames are numbered from the start of the
    pool. */
module PageLayer {
  import opened Bitmap

  /** `table` maps each present virtual page to its frame. */
  datatype Pages = Pages(virt: seq<bool>, phys: seq<bool>, table: map<nat, nat>)

  // ----- first fit as a function

  ghost function FitFrom(bits: seq<bool>, s: nat, cnt: nat): (r: nat)
    requires |bits| < NOT_FOUND && cnt > 0
    ensures r == NOT_FOUND ==> forall t: nat :: s <= t ==> !FreeRun(bits, t, cnt)
    ensures r != NOT_FOUND ==> s <= r && FreeRun(bits, r, cnt) && forall t: nat :: s <= t < r ==> !FreeRun(bits, t, cnt)
    decreases |bits| - s
  {
    if s + cnt > |bits| then NOT_FOUND
    else if FreeRun(bits, s, cnt) then s
    else FitFrom(bits, s + 1, cnt)
  }

  /** What find_block_bitmap returns. */
  ghost function Fit(bits: seq<bool>, cnt: nat): (r: nat)
    requires |bits| < NOT_FOUND && cnt > 0
    ensures FirstFit(bits, cnt, r)
  {
    FitFrom(bits, 0, cnt)
  }

  lemma FitUnique(bits: seq<bool>, cnt: nat, r: nat)
    requires |bits| < NOT_FOUND && cnt > 0 && FirstFit(bits, cnt, r)
    ensures r == Fit(bits, cnt)
  {
    var f := Fit(bits, cnt);
    if r != NOT_FOUND && f != NOT_FOUND {
      assert !(r < f) && !(f < r);
    }
  }

  // ----- the operations

  function SetRun(bits: seq<bool>, start: nat, cnt: nat, value: bool): (r: seq<bool>)
    requires start + cnt <= |bits|
    ensures |r| == |bits|
    ensures forall i :: 0 <= i < |bits| ==> r[i] == if start <= i < start + cnt then value else bits[i]
  {
    bits[..start] + seq(cnt, _ => value) + bits[start+cnt..]
  }

  /** The loop of malloc_page: a frame for each page from `v` on, until the frames run out. */
  ghost function MapPages(p: Pages, v: nat, cnt: nat): (Pages, bool)
    requires |p.phys| < NOT_FOUND
    decreases cnt
  {
    if cnt == 0 then (p, true)
    else
      var f := Fit(p.phys, 1);
      if f == NOT_FOUND then (p, false)
      else MapPages(p.(phys := p.phys[f := true], table := p.table[v := f]), v + 1, cnt - 1)
  }

  ghost function PageMalloc(p: Pages, cnt: nat): (Pages, nat)
    requires |p.virt| < NOT_FOUND && |p.phys| < NOT_FOUND && cnt > 0
  {
    var start := Fit(p.virt, cnt);
    if start == NOT_FOUND then (p, NOT_FOUND)
    else
      var (q, ok) := MapPages(p.(virt := SetRun(p.virt, start, cnt, true)), start, cnt);
      (q, if ok then start else NOT_FOUND)
  }

  /** The loop of mfree_page. */
  function UnmapPages(p: Pages, v: nat, cnt: nat): Pages
    requires forall i :: v <= i < v + cnt ==> i in p.table && p.table[i] < |p.phys|
    decreases cnt
  {
    if cnt == 0 then p
    else UnmapPages(p.(phys := p.phys[p.table[v] := false], table := p.table - {v}), v + 1, cnt - 1)
  }

  function PageMfree(p: Pages, v: nat, cnt: nat): Pages
    requires v + cnt <= |p.virt|
    requires forall i :: v <= i < v + cnt ==> i in p.table && p.table[i] < |p.phys|
  {
    UnmapPages(p.(virt := SetRun(p.virt, v, cnt, false)), v, cnt)
  }

  // ----- the invariant

  ghost predicate Sized(p: Pages) {
    |p.virt| < NOT_FOUND && |p.phys| < NOT_FOUND
  }

  /** The table is injective and maps virtual pages in use to frames in use. Frames in use that
      back no page of the pool are those put_page takes for page tables of user addresses. */
  ghost predicate Mapped(p: Pages) {
    && Sized(p)
    && (forall v :: v in p.table ==> v < |p.virt| && p.virt[v] && p.table[v] < |p.phys| && p.phys[p.table[v]])
    && (forall v, w :: v in p.table && w in p.table && v != w ==> p.table[v] != p.table[w])
  }

  /** Every virtual page in use is mapped. */
  ghost predicate Paired(p: Pages) {
    Mapped(p) && forall v :: 0 <= v < |p.virt| && p.virt[v] ==> v in p.table
  }

  lemma MappedSized(p: Pages)
    requires Mapped(p)
    ensures Sized(p)
  {
  }

  lemma MapOne(p: Pages, v: nat)
    requires Mapped(p) && v < |p.virt| && p.virt[v] && v !in p.table
    requires Fit(p.phys, 1) != NOT_FOUND
    ensures var f := Fit(p.phys, 1); Mapped(p.(phys := p.phys[f := true], table := p.table[v := f]))
  {
    var f := Fit(p.phys, 1);
    var q := p.(phys := p.phys[f := true], table := p.table[v := f]);
    assert !p.phys[f];
    assert forall w :: w in p.table ==> p.table[w] != f;
  }

  // ----- counting clear bits

  function Clear(bits: seq<bool>): nat {
    if bits == [] then 0 else (if bits[|bits|-1] then 0 else 1) + Clear(bits[..|bits|-1])
  }

  lemma {:induction false} ClearUpdate(bits: seq<bool>, f: nat)
    requires f < |bits| && !bits[f]
    ensures Clear(bits[f := true]) == Clear(bits) - 1 && Clear(bits) > 0
  {
    var n := |bits| - 1;
    if f == n {
      assert bits[f := true][..n] == bits[..n];
    } else {
      ClearUpdate(bits[..n], f);
      assert bits[f := true][..n] == bits[..n][f := true];
    }
  }

  lemma {:induction false} ClearNone(bits: seq<bool>)
    requires |bits| < NOT_FOUND
    ensures Clear(bits) == 0 <==> forall i :: 0 <= i < |bits| ==> bits[i]
  {
    if bits != [] {
      ClearNone(bits[..|bits|-1]);
    }
  }

  lemma FitOne(bits: seq<bool>)
    requires |bits| < NOT_FOUND
    ensures Fit(bits, 1) == NOT_FOUND <==> Clear(bits) == 0
    ensures Fit(bits, 1) != NOT_FOUND ==> Fit(bits, 1) < |bits| && !bits[Fit(bits, 1)]
  {
    ClearNone(bits);
    if Fit(bits, 1) == NOT_FOUND {
      forall i: nat | i < |bits|
        ensures bits[i]
      {
        assert !FreeRun(bits, i, 1);
      }
    } else {
      assert !bits[Fit(bits, 1)];
    }
  }

  // ----- malloc_page

  /** What the mapping loop leaves behind: it adds the pages it got to, which are all of them
      exactly when there are frames enough. */
  lemma {:induction false} MapPagesOk(p: Pages, v: nat, cnt: nat)
    requires Sized(p) && Mapped(p) && v + cnt <= |p.virt|
    requires forall i :: v <= i < v + cnt ==> p.virt[i] && i !in p.table
    ensures var (q, ok) := MapPages(p, v, cnt);
      && Mapped(q) && q.virt == p.virt && |q.phys| == |p.phys|
      && (ok <==> cnt <= Clear(p.phys))
      && (forall i :: i in p.table ==> i in q.table && q.table[i] == p.table[i])
      && (forall i :: i in q.table ==> i in p.table || v <= i < v + cnt)
      && (forall i :: v <= i < v + cnt ==> (i in q.table <==> i - v < Clear(p.phys)))
    decreases cnt
  {
    hide Mapped, Clear, Fit;
    if cnt > 0 {
      FitOne(p.phys);
      var f := Fit(p.phys, 1);
      if f != NOT_FOUND {
        MapOne(p, v);
        ClearUpdate(p.phys, f);
        MapPagesOk(p.(phys := p.phys[f := true], table := p.table[v := f]), v + 1, cnt - 1);
      }
    }
  }

  /** Frame `f` backs one of the pages of the run. */
  ghost predicate Backs(table: map<nat, nat>, v: nat, cnt: nat, f: nat) {
    exists i :: v <= i < v + cnt && i in table && table[i] == f
  }

  lemma BacksFirst(table: map<nat, nat>, v: nat, cnt: nat, f: nat)
    requires cnt > 0
    ensures Backs(table, v, cnt, f) <==> (v in table && table[v] == f) || Backs(table, v + 1, cnt - 1, f)
  {
    if Backs(table, v, cnt, f) && !(v in table && table[v] == f) {
      var i :| v <= i < v + cnt && i in table && table[i] == f;
      assert v + 1 <= i;
    }
    if Backs(table, v + 1, cnt - 1, f) {
      var i :| v + 1 <= i < v + 1 + (cnt - 1) && i in table && table[i] == f;
      assert v <= i < v + cnt;
    }
  }

  /** The loop takes just the frames that back its pages, and they were free. */
  lemma {:induction false} MapFrames(p: Pages, v: nat, cnt: nat)
    requires Sized(p) && Mapped(p) && v + cnt <= |p.virt|
    requires forall i :: v <= i < v + cnt ==> p.virt[i] && i !in p.table
    ensures var q := MapPages(p, v, cnt).0;
      && |q.phys| == |p.phys|
      && forall f: nat :: f < |p.phys| ==>
           && (q.phys[f] <==> p.phys[f] || Backs(q.table, v, cnt, f))
           && !(p.phys[f] && Backs(q.table, v, cnt, f))
    decreases cnt
  {
    hide Mapped, Clear, Fit, Backs;
    if cnt == 0 {
      forall f: nat
        ensures !Backs(p.table, v, 0, f)
      {
        BacksNone(p.table, v, 0, f);
      }
    } else {
      FitOne(p.phys);
      var g := Fit(p.phys, 1);
      if g == NOT_FOUND {
        forall f: nat
          ensures !Backs(p.table, v, cnt, f)
        {
          BacksNone(p.table, v, cnt, f);
        }
      } else {
        var p1 := p.(phys := p.phys[g := true], table := p.table[v := g]);
        MapOne(p, v);
        MapFrames(p1, v + 1, cnt - 1);
        MapPagesOk(p1, v + 1, cnt - 1);
        var q := MapPages(p1, v + 1, cnt - 1).0;
        forall f: nat
          ensures Backs(q.table, v, cnt, f) <==> f == g || Backs(q.table, v + 1, cnt - 1, f)
        {
          BacksFirst(q.table, v, cnt, f);
        }
      }
    }
  }

  lemma BacksNone(table: map<nat, nat>, v: nat, cnt: nat, f: nat)
    requires forall i :: v <= i < v + cnt ==> i !in table
    ensures !Backs(table, v, cnt, f)
  {
  }

  /** A run that malloc_page looks for exists, but the frames to back it do not. */
  ghost predicate RunsOutOfFrames(p: Pages, cnt: nat)
    requires Sized(p) && cnt > 0
  {
    Fit(p.virt, cnt) != NOT_FOUND && Clear(p.phys) < cnt
  }

  /** malloc_page keeps every page in use backed by a frame exactly when it does not run out of
      frames midway: it does not undo what it did before it fails. When it succeeds, the pages it
      returns are new, lie together and are mapped, and nothing else changes. */
  lemma PageMallocOk(p: Pages, cnt: nat)
    requires Mapped(p) && cnt > 0
    ensures var (q, start) := PageMalloc(p, cnt);
      && Mapped(q) && |q.virt| == |p.virt| && |q.phys| == |p.phys|
      && (start == NOT_FOUND <==> Fit(p.virt, cnt) == NOT_FOUND || RunsOutOfFrames(p, cnt))
      && (Fit(p.virt, cnt) == NOT_FOUND ==> q == p)
      && (Fit(p.virt, cnt) != NOT_FOUND ==>
            && FreeRun(p.virt, Fit(p.virt, cnt), cnt)
            && q.virt == SetRun(p.virt, Fit(p.virt, cnt), cnt, true)
            && (forall i :: i in p.table ==> i in q.table && q.table[i] == p.table[i]))
      && (start != NOT_FOUND ==>
            && start == Fit(p.virt, cnt)
            && (forall i :: i in q.table <==> i in p.table || start <= i < start + cnt))
    ensures Paired(p) ==> (Paired(PageMalloc(p, cnt).0) <==> !RunsOutOfFrames(p, cnt))
  {
    hide Clear, Mapped;
    MappedSized(p);
    var start := Fit(p.virt, cnt);
    if start != NOT_FOUND {
      var p1 := p.(virt := SetRun(p.virt, start, cnt, true));
      MappedWider(p, p1);
      MapPagesOk(p1, start, cnt);
      var (q, ok) := MapPages(p1, start, cnt);
      if !ok {
        assert q.virt[start + Clear(p.phys)] && start + Clear(p.phys) !in q.table;
      }
    }
  }

  lemma MallocFrames(p: Pages, cnt: nat)
    requires Mapped(p) && cnt > 0 && PageMalloc(p, cnt).1 != NOT_FOUND
    ensures var (q, start) := PageMalloc(p, cnt);
      && |q.phys| == |p.phys|
      && forall f: nat :: f < |p.phys| ==>
           && (q.phys[f] <==> p.phys[f] || Backs(q.table, start, cnt, f))
           && !(p.phys[f] && Backs(q.table, start, cnt, f))
  {
    hide Mapped, Backs, Clear;
    MappedSized(p);
    PageMallocOk(p, cnt);
    var start := Fit(p.virt, cnt);
    var p1 := p.(virt := SetRun(p.virt, start, cnt, true));
    MappedWider(p, p1);
    MapFrames(p1, start, cnt);
  }

  lemma MappedWider(p: Pages, q: Pages)
    requires Mapped(p) && q.phys == p.phys && q.table == p.table && |q.virt| == |p.virt|
    requires forall v :: 0 <= v < |p.virt| && p.virt[v] ==> q.virt[v]
    ensures Mapped(q)
    ensures forall v :: v in p.table ==> v < |p.virt| && p.virt[v]
  {
  }

  /** Two clear virtual pages, one clear frame: the failed call leaves both pages taken. */
  lemma FailedMallocLeaks() returns (p: Pages)
    ensures Mapped(p) && Paired(p) && PageMalloc(p, 2).1 == NOT_FOUND && !Paired(PageMalloc(p, 2).0)
    ensures PageMalloc(p, 2).0.virt == [true, true] && PageMalloc(p, 2).0.phys == [true]
  {
    p := Pages([false, false], [false], map[]);
    assert FreeRun(p.virt, 0, 2) && FreeRun(p.phys, 0, 1);
    assert Clear([]) == 0 && [false][..0] == [];
    assert Clear(p.phys) == 1;
    PageMallocOk(p, 2);
    var p1 := p.(virt := SetRun(p.virt, 0, 2, true));
    assert Fit(p.virt, 2) == 0 && Fit(p.phys, 1) == 0;
    var p2 := p1.(phys := [true], table := map[0 := 0]);
    assert p1.phys[0 := true] == [true];
    assert !FreeRun(p2.phys, 0, 1);
    assert MapPages(p2, 1, 1) == (p2, false);
    assert MapPages(p1, 0, 2) == (p2, false);
  }

  // ----- mfree_page

  lemma UnmapOne(p: Pages, v: nat)
    requires Mapped(p) && v in p.table
    ensures p.table[v] < |p.phys| && Mapped(p.(phys := p.phys[p.table[v] := false], table := p.table - {v}))
  {
  }

  ghost predicate InRange(p: Pages) {
    forall v :: v in p.table ==> p.table[v] < |p.phys|
  }

  lemma MappedInRange(p: Pages)
    requires Mapped(p)
    ensures InRange(p)
  {
  }

  lemma {:induction false} UnmapPagesOk(p: Pages, v: nat, cnt: nat)
    requires Mapped(p) && InRange(p) && forall i :: v <= i < v + cnt ==> i in p.table
    ensures var q := UnmapPages(p, v, cnt);
      && Mapped(q) && q.virt == p.virt && |q.phys| == |p.phys|
      && (forall i :: i in q.table <==> i in p.table && !(v <= i < v + cnt))
      && (forall i :: i in q.table ==> q.table[i] == p.table[i])
    decreases cnt
  {
    hide Mapped;
    if cnt > 0 {
      UnmapOne(p, v);
      UnmapPagesOk(p.(phys := p.phys[p.table[v] := false], table := p.table - {v}), v + 1, cnt - 1);
    }
  }

  lemma {:induction false} UnmapFrames(p: Pages, v: nat, cnt: nat)
    requires Mapped(p) && InRange(p) && forall i :: v <= i < v + cnt ==> i in p.table
    ensures |UnmapPages(p, v, cnt).phys| == |p.phys|
    ensures forall f: nat :: f < |p.phys| ==>
      (UnmapPages(p, v, cnt).phys[f] <==> p.phys[f] && !Backs(p.table, v, cnt, f))
    decreases cnt
  {
    hide Mapped, Backs;
    if cnt == 0 {
      forall f: nat
        ensures !Backs(p.table, v, 0, f)
      {
        BacksNone(p.table, v, 0, f);
      }
    } else {
      UnmapOne(p, v);
      var p1 := p.(phys := p.phys[p.table[v] := false], table := p.table - {v});
      UnmapFrames(p1, v + 1, cnt - 1);
      forall f: nat
        ensures Backs(p.table, v, cnt, f) <==> f == p.table[v] || Backs(p1.table, v + 1, cnt - 1, f)
      {
        BacksFirst(p.table, v, cnt, f);
        BacksBehind(p.table, v, cnt, f);
      }
    }
  }

  lemma BacksBehind(table: map<nat, nat>, v: nat, cnt: nat, f: nat)
    requires cnt > 0
    ensures Backs(table - {v}, v + 1, cnt - 1, f) <==> Backs(table, v + 1, cnt - 1, f)
  {
    if Backs(table, v + 1, cnt - 1, f) {
      var i :| v + 1 <= i < v + 1 + (cnt - 1) && i in table && table[i] == f;
      assert i in table - {v};
    }
  }

  /** Freeing mapped pages unmaps them, gives back their frames and touches nothing else. */
  lemma PageMfreeOk(p: Pages, v: nat, cnt: nat)
    requires Mapped(p) && forall i :: v <= i < v + cnt ==> i in p.table
    ensures v + cnt <= |p.virt| || cnt == 0
    ensures forall i :: v <= i < v + cnt ==> p.table[i] < |p.phys|
    ensures cnt > 0 ==> var q := PageMfree(p, v, cnt);
      && Mapped(q) && q.virt == SetRun(p.virt, v, cnt, false) && |q.phys| == |p.phys|
      && (forall i :: i in q.table <==> i in p.table && !(v <= i < v + cnt))
      && (forall i :: i in q.table ==> q.table[i] == p.table[i])
      && (forall f: nat :: f < |p.phys| ==> (q.phys[f] <==> p.phys[f] && !Backs(p.table, v, cnt, f)))
      && (Paired(p) ==> Paired(q))
  {
    if cnt > 0 {
      assert v + cnt - 1 in p.table;
      MappedInRange(p);
      UnmapPagesOk(p, v, cnt);
      UnmapFrames(p, v, cnt);
      UnmapRun(p, SetRun(p.virt, v, cnt, false), v, cnt);
      NarrowMapped(UnmapPages(p, v, cnt), PageMfree(p, v, cnt));
    }
  }

  /** The loop does not look at the virtual bitmap. */
  lemma {:induction false} UnmapRun(p: Pages, virt: seq<bool>, v: nat, cnt: nat)
    requires forall i :: v <= i < v + cnt ==> i in p.table && p.table[i] < |p.phys|
    ensures UnmapPages(p.(virt := virt), v, cnt) == UnmapPages(p, v, cnt).(virt := virt)
    decreases cnt
  {
    if cnt > 0 {
      UnmapRun(p.(phys := p.phys[p.table[v] := false], table := p.table - {v}), virt, v + 1, cnt - 1);
    }
  }

  lemma NarrowMapped(p: Pages, q: Pages)
    requires Mapped(p) && q == p.(virt := q.virt) && |q.virt| == |p.virt|
    requires forall v :: v in p.table ==> v < |q.virt| && q.virt[v]
    ensures Mapped(q)
  {
  }

  /** What malloc_page gave, mfree_page takes back exactly. */
  lemma MfreeUndoesMalloc(p: Pages, cnt: nat, q: Pages, start: nat)
    requires Mapped(p) && cnt > 0 && PageMalloc(p, cnt) == (q, start) && start != NOT_FOUND
    ensures start + cnt <= |q.virt| && forall i :: start <= i < start + cnt ==> i in q.table && q.table[i] < |q.phys|
    ensures PageMfree(q, start, cnt) == p
  {
    hide Mapped, PageMalloc, PageMfree, Fit, Clear, Backs;
    PageMallocOk(p, cnt);
    MallocFrames(p, cnt);
    PageMfreeOk(q, start, cnt);
    var r := PageMfree(q, start, cnt);
    MappedWider(p, p);
    assert r.virt == p.virt;
    SameTable(p, q, r, start, cnt);
    assert r.phys == p.phys;
  }

  lemma SameTable(p: Pages, q: Pages, r: Pages, start: nat, cnt: nat)
    requires forall i :: i in p.table ==> !(start <= i < start + cnt)
    requires forall i :: i in q.table <==> i in p.table || start <= i < start + cnt
    requires forall i :: i in p.table ==> q.table[i] == p.table[i]
    requires forall i :: i in r.table <==> i in q.table && !(start <= i < start + cnt)
    requires forall i :: i in r.table ==> r.table[i] == q.table[i]
    ensures r.table == p.table
  {
  }

  // ----- a pool with as many frames as virtual pages

  function InUse(bits: seq<bool>): set<nat> {
    set i: nat | i < |bits| && bits[i]
  }

  lemma {:induction false} ClearAndInUse(bits: seq<bool>)
    ensures Clear(bits) + |InUse(bits)| == |bits|
  {
    if bits == [] {
      assert InUse(bits) == {};
    } else {
      var n := |bits| - 1;
      ClearAndInUse(bits[..n]);
      assert InUse(bits) == InUse(bits[..n]) + if bits[n] then {n} else {};
    }
  }

  lemma {:induction false} InjectiveSize(t: map<nat, nat>)
    requires forall v, w :: v in t && w in t && v != w ==> t[v] != t[w]
    ensures |t.Values| == |t.Keys|
    decreases |t|
  {
    if t == map[] {
      assert t.Values == {};
    } else {
      var v :| v in t;
      var rest := t - {v};
      InjectiveSize(rest);
      assert t[v] !in rest.Values;
      assert t.Keys == rest.Keys + {v} && v !in rest.Keys;
      assert t.Values == rest.Values + {t[v]};
    }
  }

  lemma {:induction false} RunIsClear(bits: seq<bool>, start: nat, cnt: nat)
    requires FreeRun(bits, start, cnt)
    ensures Clear(bits) >= cnt
    decreases |bits|
  {
    if bits != [] && cnt > 0 {
      var n := |bits| - 1;
      RunIsClear(bits[..n], start, if start + cnt == |bits| then cnt - 1 else cnt);
    }
  }

  /** The frames in use that back no page of the pool. */
  function Stray(p: Pages): set<nat> {
    InUse(p.phys) - p.table.Values
  }

  /** In a pool whose two bitmaps have the same length, as mem_pool_init makes the kernel pool,
      malloc_page fails midway exactly when the frames that back no page are too many. While every
      frame in use backs a page it never does. */
  lemma EqualSizes(p: Pages, cnt: nat)
    requires Mapped(p) && Paired(p) && |p.virt| == |p.phys| && cnt > 0
    ensures RunsOutOfFrames(p, cnt) <==> Fit(p.virt, cnt) != NOT_FOUND && Clear(p.virt) < cnt + |Stray(p)|
    ensures Stray(p) == {} ==> !RunsOutOfFrames(p, cnt)
  {
    ClearAndInUse(p.virt);
    ClearAndInUse(p.phys);
    InjectiveSize(p.table);
    assert p.table.Keys == InUse(p.virt);
    assert p.table.Values <= InUse(p.phys);
    if Fit(p.virt, cnt) != NOT_FOUND {
      RunIsClear(p.virt, Fit(p.virt, cnt), cnt);
    }
  }

  /** One frame taken for a page table is enough: two virtual pages are clear and equal bitmaps
      leave one frame for them. */
  lemma PageTableStarves() returns (p: Pages)
    ensures Paired(p) && |p.virt| == |p.phys| && |Stray(p)| == 1
    ensures RunsOutOfFrames(p, 2) && !Paired(PageMalloc(p, 2).0)
  {
    p := Pages([false, false], [true, false], map[]);
    assert FreeRun(p.virt, 0, 2);
    assert InUse(p.phys) == {0};
    assert Clear([]) == 0 && [true][..0] == [] && [true, false][..1] == [true];
    assert Clear([true]) == 0 && Clear(p.phys) == 1;
    PageMallocOk(p, 2);
  }

  // ----- the pool

  class Pool {
    const virt: Map
    const phys: Map
    var table: map<nat, nat>

    ghost predicate Valid()
    {
      virt.Valid() && phys.Valid() && virt.bits != phys.bits
    }

    ghost function Abs(): Pages
      requires Valid()
      reads this, virt.bits, phys.bits
    {
      Pages(virt.Bits(), phys.Bits(), table)
    }

    constructor (virt: Map, phys: Map)
      requires virt.Valid() && phys.Valid() && virt.bits != phys.bits
      modifies virt.bits, phys.bits
      ensures Valid() && this.virt == virt && this.phys == phys
      ensures Abs() == Pages(seq(|virt.Bits()|, _ => false), seq(|phys.Bits()|, _ => false), map[])
    {
      this.virt, this.phys, table := virt, phys, map[];
      new;
      virt.InitBitmap();
      phys.InitBitmap();
    }

    method GetFreePage() returns (f: nat)
      requires Valid()
      modifies phys.bits
      ensures f == Fit(old(phys.Bits()), 1)
      ensures phys.Bits() == if f == NOT_FOUND then old(phys.Bits()) else old(phys.Bits())[f := true]
    {
      f := phys.FindBlock(1);
      FitUnique(phys.Bits(), 1, f);
      if f != NOT_FOUND {
        phys.SetValue(f, true);
      }
    }

    method SetVirtual(start: nat, cnt: nat, value: bool)
      requires Valid() && start + cnt <= |virt.Bits()|
      modifies virt.bits
      ensures virt.Bits() == SetRun(old(virt.Bits()), start, cnt, value)
    {
      for i := 0 to cnt
        invariant virt.Bits() == SetRun(old(virt.Bits()), start, i, value)
      {
        virt.SetValue(start + i, value);
      }
    }

    method GetFreeVaddress(cnt: nat) returns (start: nat)
      requires Valid() && cnt > 0
      modifies virt.bits
      ensures start == Fit(old(virt.Bits()), cnt)
      ensures virt.Bits() == if start == NOT_FOUND then old(virt.Bits()) else SetRun(old(virt.Bits()), start, cnt, true)
    {
      start := virt.FindBlock(cnt);
      FitUnique(virt.Bits(), cnt, start);
      if start != NOT_FOUND {
        SetVirtual(start, cnt, true);
      }
    }

    method MallocPage(cnt: nat) returns (start: nat)
      requires Valid() && cnt > 0
      modifies this, virt.bits, phys.bits
      ensures (Abs(), start) == PageMalloc(old(Abs()), cnt)
    {
      hide Fit, FitFrom, FirstFit, FreeRun, BitsOf, SetRun;
      start := GetFreeVaddress(cnt);
      if start == NOT_FOUND {
        return;
      }
      ghost var whole := MapPages(Abs(), start, cnt);
      var left, v := cnt, start;
      while left > 0
        invariant left <= cnt && MapPages(Abs(), v, left) == whole
      {
        left := left - 1;
        var f := GetFreePage();
        if f == NOT_FOUND {
          return NOT_FOUND;
        }
        table := table[v := f];
        v := v + 1;
      }
    }

    method MfreePage(v: nat, cnt: nat)
      requires Valid() && v + cnt <= |virt.Bits()|
      requires forall i :: v <= i < v + cnt ==> i in table && table[i] < |phys.Bits()|
      modifies this, virt.bits, phys.bits
      ensures Abs() == PageMfree(old(Abs()), v, cnt)
    {
      hide Fit, FitFrom, FirstFit, FreeRun, SetRun;
      SetVirtual(v, cnt, false);
      ghost var whole := UnmapPages(Abs(), v, cnt);
      for i := 0 to cnt
        invariant forall j :: v + i <= j < v + cnt ==> j in table && table[j] < |phys.Bits()|
        invariant UnmapPages(Abs(), v + i, cnt - i) == whole
      {
        phys.SetValue(table[v + i], false);
        table := table - {v + i};
      }
    }
  }
}
