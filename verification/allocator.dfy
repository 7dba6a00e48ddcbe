/** The allocator of core/mm/memory.c as it works in place on memory: sys_malloc and sys_free over
    the page layer, with the free lists inside the free blocks. */
module Allocator {
  import opened Bitmap
  import opened PageLayer
  import opened MemList
  import opened Heap
  import opened HeapSteps
  import opened HeapFree
  import opened HeapCalls
  import opened HeapRuns

  lemma EmptyList(h: State, k: nat)
    requires Sound(h) && k < DESC_CNT
    ensures Load(h.mem, HeadOf(|h.pages.virt|, k) + 1) == (if h.free[k] == [] then HeadOf(|h.pages.virt|, k) else h.free[k][0])
    ensures h.free[k] != [] ==> h.free[k][0] != HeadOf(|h.pages.virt|, k)
  {
    hide IsBlock, Laid, HeaderOk, Mapped;
    ListNodes(h, k);
    RingAt(h.mem, HeadOf(|h.pages.virt|, k), h.free[k], -1);
  }

  lemma PerArenaInBytes(k: nat)
    requires k < DESC_CNT
    ensures 4 * (PAGE - HEADER) / (4 * BlockSize(k)) == PerArena(k)
  {
  }

  class KernelHeap {
    const mem: array<nat>
    const pool: Pool
    const pages: nat
    const poolSize: nat
    var blockSize: seq<nat>  // block_size of each descriptor, in bytes
    var perArena: seq<nat>   // blocks_per_arena of each descriptor
    ghost var arenas: Arenas
    ghost var free: FreeLists

    /** What block_desc_init leaves in the descriptors besides their free lists. */
    ghost predicate Described()
      reads this
    {
      && |blockSize| == |perArena| == DESC_CNT
      && forall k :: 0 <= k < DESC_CNT ==> blockSize[k] == 4 * BlockSize(k) && perArena[k] == PerArena(k)
    }

    ghost predicate Valid()
      reads this
    {
      && Described()
      && pool.Valid() && pages == 8 * pool.virt.length
      && (mem as object) != pool.virt.bits && (mem as object) != pool.phys.bits && (this as object) != pool
    }

    ghost function Abs(): State
      requires pool.Valid()
      reads this, mem, pool, pool.virt.bits, pool.phys.bits
    {
      State(mem[..], pool.Abs(), arenas, free)
    }

    /** mem_init for the kernel pool: no page is in use yet. */
    constructor (mem: array<nat>, pool: Pool, pages: nat, poolSize: nat)
      requires (mem as object) != pool.virt.bits && (mem as object) != pool.phys.bits
      requires pool.Valid() && pages == 8 * pool.virt.length && mem.Length == pages * PAGE + 2 * DESC_CNT
      requires pool.Abs() == Pages(seq(pages, _ => false), seq(pages, _ => false), map[])
      modifies mem
      ensures Valid() && Abs() == Start(old(mem[..]), pages)
      ensures this.mem == mem && this.pool == pool && this.pages == pages && this.poolSize == poolSize
    {
      this.mem, this.pool, this.pages, this.poolSize := mem, pool, pages, poolSize;
      blockSize, perArena := [], [];
      arenas, free := map[], [[], [], [], [], [], [], []];
      new;
      BlockDescInit();
    }

    // ----- words, lists and memset

    method Read(a: Addr) returns (x: nat)
      ensures x == Load(mem[..], a)
    {
      x := if a < mem.Length then mem[a] else NULL;
    }

    method Write(a: Addr, x: nat)
      modifies mem
      ensures mem[..] == Store(old(mem[..]), a, x)
    {
      if a < mem.Length {
        mem[a] := x;
      }
    }

    method ListAddTail(node: Addr, head: Addr)
      modifies mem
      ensures mem[..] == AddTail(old(mem[..]), head, node)
    {
      hide Store, Load;
      var last := Read(head);
      Write(last + 1, node);
      Write(node + 1, head);
      Write(node, last);
      Write(head, node);
    }

    method ListDelInit(node: Addr)
      modifies mem
      ensures mem[..] == DelInit(old(mem[..]), node)
    {
      hide Store, Load;
      var next := Read(node + 1);
      var prev := Read(node);
      Write(next, prev);
      Write(prev + 1, next);
      Write(node + 1, NULL);
      Write(node, NULL);
      Write(node + 1, node);
      Write(node, node);
    }

    method ListPop(head: Addr) returns (target: Addr)
      modifies mem
      ensures target == Load(old(mem[..]), head + 1)
      ensures mem[..] == DelInit(old(mem[..]), target)
    {
      target := Read(head + 1);
      ListDelInit(target);
    }

    method Memset(start: Addr, len: nat)
      requires start + len <= mem.Length
      modifies mem
      ensures mem[..] == Zero(old(mem[..]), start, len)
    {
      for i := 0 to len
        invariant forall a :: 0 <= a < mem.Length ==> mem[a] == if start <= a < start + i then 0 else old(mem[a])
      {
        mem[start + i] := 0;
      }
    }

    method BlockDescInit()
      modifies this, mem
      ensures mem[..] == InitLists(old(mem[..]), pages, 0) && Described()
      ensures arenas == old(arenas) && free == old(free)
    {
      hide Store;
      ghost var whole := InitLists(mem[..], pages, 0);
      var size := 16;
      blockSize, perArena := [], [];
      for k := 0 to DESC_CNT
        invariant InitLists(mem[..], pages, k) == whole
        invariant arenas == old(arenas) && free == old(free)
        invariant k < DESC_CNT ==> size == 4 * BlockSize(k)
        invariant |blockSize| == |perArena| == k
        invariant forall j :: 0 <= j < k ==> blockSize[j] == 4 * BlockSize(j) && perArena[j] == PerArena(j)
      {
        blockSize := blockSize + [size];
        perArena := perArena + [4 * (PAGE - HEADER) / size];
        PerArenaInBytes(k);
        Write(HeadOf(pages, k) + 1, HeadOf(pages, k));
        Write(HeadOf(pages, k), HeadOf(pages, k));
        size := 2 * size;
      }
    }

    // ----- sys_malloc

    method NewArena(k: nat) returns (ok: bool)
      requires Valid() && Sound(Abs()) && k < DESC_CNT && free[k] == []
      modifies this, mem, pool, pool.virt.bits, pool.phys.bits
      ensures Valid() && (Abs(), ok) == Grow(old(Abs()), k)
    {
      hide Store, AddTail, PageMalloc, Laid, Ring, HeaderOk, ListOk, Mapped, Covered, Fit, FreeRun, SetRun, BitsOf;
      NewPages(Abs(), 1);
      var v := pool.MallocPage(1);
      if v == NOT_FOUND {
        return false;
      }
      Memset(v * PAGE, PAGE);
      ghost var zeroed := mem[..];
      mem[v * PAGE] := k + 1;
      mem[v * PAGE + 2] := 0;
      mem[v * PAGE + 1] := perArena[k];
      assert mem[..] == Headed(zeroed, v, k + 1, PerArena(k), 0);
      ghost var whole := AddBlocks(mem[..], HeadOf(pages, k), v, k, 0);
      for i := 0 to perArena[k]
        modifies mem
        invariant AddBlocks(mem[..], HeadOf(pages, k), v, k, i) == whole
      {
        ListAddTail(Block(v, k, i), HeadOf(pages, k));
      }
      arenas := arenas[v := Small(k)];
      free := free[k := free[k] + Blocks(v, k, 0)];
      ok := true;
    }

    method PopBlock(k: nat) returns (b: Addr)
      requires Valid() && Sound(Abs()) && k < DESC_CNT && free[k] != []
      modifies this, mem
      ensures Valid() && b == old(free[k][0]) && Abs() == Take(old(Abs()), k)
    {
      hide Store, DelInit, Laid, HeaderOk, ListOk, Mapped, Covered, InArena, Ring, CountIn, Blocks;
      FreeBlock(Abs(), k, free[k][0]);
      BlockBounds(Abs(), free[k][0]);
      EmptyList(Abs(), k);
      var size := blockSize[k] / 4;
      assert size == BlockSize(k);
      b := ListPop(HeadOf(pages, k));
      Memset(b, size);
      var a: nat := PageOf(b);
      mem[a * PAGE + 1] := Decremented(mem[a * PAGE + 1]);
      free := free[k := free[k][1..]];
    }

    method LargeArena(cnt: nat) returns (p: Addr)
      requires Valid() && Sound(Abs()) && cnt > 0
      modifies this, mem, pool, pool.virt.bits, pool.phys.bits
      ensures Valid() && (Abs(), p) == MallocLarge(old(Abs()), cnt)
    {
      hide PageMalloc, Laid, Ring, HeaderOk, ListOk, Mapped, Covered, Fit, FreeRun, SetRun, BitsOf;
      NewPages(Abs(), cnt);
      var v := pool.MallocPage(cnt);
      if v == NOT_FOUND {
        return NULL;
      }
      Memset(v * PAGE, PAGE * cnt);
      mem[v * PAGE] := NULL;
      mem[v * PAGE + 1] := cnt;
      mem[v * PAGE + 2] := 1;
      arenas := arenas[v := Large(cnt)];
      p := v * PAGE + HEADER;
    }

    /** The first descriptor whose blocks are large enough. */
    method FindDesc(size: nat) returns (k: nat)
      requires Described() && size <= 1024
      ensures k == SizeClass(size)
    {
      k := 0;
      while k < DESC_CNT && size > blockSize[k]
        invariant k <= DESC_CNT && (k > 0 ==> size > 4 * BlockSize(k - 1))
      {
        k := k + 1;
      }
    }

    method SysMalloc(size: nat) returns (p: Addr)
      requires Valid() && Inv(Abs())
      modifies this, mem, pool, pool.virt.bits, pool.phys.bits
      ensures Valid() && (Abs(), p) == HeapCalls.SysMalloc(old(Abs()), size, poolSize)
    {
      hide Take, Grow, MallocLarge, Live, NoRoom, Words;
      if !(0 < size < poolSize) {
        return NULL;
      }
      if size > 1024 {
        p := LargeArena(PageCount(size));
      } else {
        var k := FindDesc(size);
        EmptyList(Abs(), k);
        var first := Read(HeadOf(pages, k) + 1);
        if first == HeadOf(pages, k) {
          GrowOk(Abs(), k);
          var ok := NewArena(k);
          if !ok {
            return NULL;
          }
        }
        p := PopBlock(k);
      }
    }

    // ----- sys_free

    method PushBlock(b: Addr, k: nat)
      requires Valid() && Sound(Abs()) && IsBlock(arenas, b) && Live(Abs(), b) && k == arenas[PageOf(b)].k
      modifies this, mem
      ensures Valid() && Abs() == Give(old(Abs()), b)
    {
      hide AddTail, Laid, HeaderOk, ListOk, Mapped, Covered, InArena, Ring;
      BlockBounds(Abs(), b);
      ListAddTail(b, HeadOf(pages, k));
      var a: nat := PageOf(b);
      mem[a * PAGE + 1] := mem[a * PAGE + 1] + 1;
      free := free[k := free[k] + [b]];
    }

    method ReleaseArena(v: nat, k: nat)
      requires Valid() && Sound(Abs()) && v in arenas && arenas[v] == Small(k) && k < DESC_CNT
      modifies this, mem, pool, pool.virt.bits, pool.phys.bits
      ensures Valid() && Abs() == Reclaim(old(Abs()), v)
    {
      hide DelInit, Laid, HeaderOk, ListOk, Mapped, Covered, Ring, PageMfree;
      ArenaMapped(Abs(), v);
      ghost var whole := DelBlocks(mem[..], v, k, 0);
      for i := 0 to perArena[k]
        modifies mem
        invariant DelBlocks(mem[..], v, k, i) == whole
      {
        ListDelInit(Block(v, k, i));
      }
      pool.MfreePage(v, 1);
      free := free[k := Elsewhere(free[k], v)];
      arenas := arenas - {v};
    }

    method SysFree(p: Addr)
      requires Valid() && Inv(Abs()) && Live(Abs(), p)
      modifies this, mem, pool, pool.virt.bits, pool.phys.bits
      ensures Valid() && Abs() == HeapCalls.SysFree(old(Abs()), p)
    {
      hide Give, Reclaim, FreeLarge, Words, InArena, Laid, Mapped, Covered, ListOk, CountIn;
      var a: nat := PageOf(p);
      assert HeaderOk(mem[..], a, arenas[a], free);
      var desc, large := mem[a * PAGE], mem[a * PAGE + 2];
      assert large == 0 || large == 1;
      if desc == NULL && large == 1 {
        ReleaseLarge(a);
      } else {
        GiveOk(Abs(), p);
        GiveArenas(Abs(), p);
        BlockKind(Abs(), p);
        var k := desc - 1;
        PushBlock(p, k);
        assert HeaderOk(mem[..], a, arenas[a], free);
        if mem[a * PAGE + 1] == perArena[k] {
          ReleaseArena(a, k);
        }
      }
    }

    method ReleaseLarge(v: nat)
      requires Valid() && Sound(Abs()) && v in arenas && arenas[v].Large?
      modifies this, pool, pool.virt.bits, pool.phys.bits
      ensures Valid() && Abs() == FreeLarge(old(Abs()), v)
    {
      hide Laid, ListOk, Mapped, Covered, PageMfree;
      ArenaMapped(Abs(), v);
      assert HeaderOk(mem[..], v, arenas[v], free);
      pool.MfreePage(v, mem[v * PAGE + 1]);
      arenas := arenas - {v};
    }
  }

  /** mem_pool_init and block_desc_init for a kernel pool of `bytes` times eight pages: from cleared
      bitmaps of equal length to a heap in which calls may begin. */
  method MemInit(mem: array<nat>, virt: array<bv8>, phys: array<bv8>, bytes: nat, poolSize: nat) returns (heap: KernelHeap)
    requires virt != phys && bytes < virt.Length && bytes < phys.Length && 8 * bytes < NOT_FOUND
    requires mem.Length == 8 * bytes * PAGE + 2 * DESC_CNT
    requires (mem as object) != virt && (mem as object) != phys
    modifies mem, virt, phys
    ensures fresh(heap) && fresh(heap.pool) && heap.pool.virt.bits == virt && heap.pool.phys.bits == phys
    ensures heap.Valid() && heap.mem == mem && heap.poolSize == poolSize
    ensures heap.Abs() == Start(old(mem[..]), 8 * bytes) && Inv(heap.Abs())
  {
    var virtMap := new Map(virt, bytes);
    var physMap := new Map(phys, bytes);
    var pool := new Pool(virtMap, physMap);
    heap := new KernelHeap(mem, pool, 8 * bytes, poolSize);
    StartOk(old(mem[..]), 8 * bytes);
  }
}
