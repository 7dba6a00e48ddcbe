/** The block allocator of core/mm/memory.c for the kernel pool, on a memory of 4-byte words.
    Word 0 is the start of the pool; behind its pages lie the free-list heads of the seven block
    descriptors. */
module Heap {
  import opened PageLayer
  import opened MemList

  const PAGE: nat := 1024     // PG_SIZE in words
  const HEADER: nat := 3      // sizeof(struct arena) in words: desc, cnt, large
  const DESC_CNT: nat := 7

  // ----- the geometry of arenas

  /** block_size of descriptor `k`, in words. */
  function BlockSize(k: nat): (n: nat)
    requires k < DESC_CNT
    ensures n >= 4
  {
    if k == 0 then 4 else if k == 1 then 8 else if k == 2 then 16 else if k == 3 then 32
    else if k == 4 then 64 else if k == 5 then 128 else 256
  }

  /** blocks_per_arena of descriptor `k`. */
  function PerArena(k: nat): (n: nat)
    requires k < DESC_CNT
    ensures n > 0
  {
    (PAGE - HEADER) / BlockSize(k)
  }

  /** arena2block: block `i` of the arena at page `v`. */
  function Block(v: nat, k: nat, i: nat): Addr
    requires k < DESC_CNT
  {
    v * PAGE + HEADER + i * BlockSize(k)
  }

  /** block2arena: the page of an address, which masking finds. */
  function PageOf(b: Addr): nat {
    b / PAGE
  }

  lemma BlockInPage(v: nat, k: nat, i: nat)
    requires k < DESC_CNT && i < PerArena(k)
    ensures v * PAGE + HEADER <= Block(v, k, i) && Block(v, k, i) + BlockSize(k) <= (v + 1) * PAGE
    ensures PageOf(Block(v, k, i)) == v
  {
    var n := BlockSize(k);
    assert PerArena(k) * n <= PAGE - HEADER;
    MulMono(i + 1, PerArena(k), n);
    assert (i + 1) * n == i * n + n;
  }

  lemma MulMono(a: nat, b: nat, n: nat)
    requires a <= b
    ensures a * n <= b * n
  {
  }

  /** Two blocks of one arena do not overlap. */
  lemma BlocksApart(v: nat, k: nat, i: nat, j: nat)
    requires k < DESC_CNT && i < j
    ensures Block(v, k, i) + BlockSize(k) <= Block(v, k, j)
  {
    MulMono(i + 1, j, BlockSize(k));
    assert (i + 1) * BlockSize(k) == i * BlockSize(k) + BlockSize(k);
  }

  // ----- the state

  datatype Arena = Small(k: nat) | Large(cnt: nat)

  type Arenas = map<nat, Arena>
  type FreeLists = seq<seq<Addr>>

  /** `arenas` says what each page that starts an arena is used for, and `free` is what the free
      list of each descriptor holds; both can be read off the memory. */
  datatype State = State(mem: Memory, pages: Pages, arenas: Arenas, free: FreeLists)

  function Width(a: Arena): nat {
    if a.Small? then 1 else a.cnt
  }

  /** The free_list of descriptor `k`. */
  function HeadOf(n: nat, k: nat): Addr {
    n * PAGE + 2 * k
  }

  ghost predicate InArena(v: nat, k: nat, b: Addr)
    requires k < DESC_CNT
  {
    exists i: nat :: i < PerArena(k) && b == Block(v, k, i)
  }

  /** `b` is a block of a small arena, free or not. */
  ghost predicate IsBlock(arenas: Arenas, b: Addr) {
    var v := PageOf(b);
    v in arenas && arenas[v].Small? && arenas[v].k < DESC_CNT && InArena(v, arenas[v].k, b)
  }

  /** How many of the addresses lie in page `v`. */
  function CountIn(s: seq<Addr>, v: nat): nat {
    if s == [] then 0 else (if PageOf(s[0]) == v then 1 else 0) + CountIn(s[1..], v)
  }

  // ----- the invariant

  /** Arenas lie on pages in use and do not overlap. */
  ghost predicate Laid(virt: seq<bool>, arenas: Arenas) {
    && (forall v :: v in arenas ==> Width(arenas[v]) > 0 && v + Width(arenas[v]) <= |virt|)
    && (forall v, i :: v in arenas && v <= i < v + Width(arenas[v]) ==> virt[i])
    && (forall v, w :: v in arenas && w in arenas && v < w ==> v + Width(arenas[v]) <= w)
  }

  /** The pages of arenas are backed by frames. Other pages in use need not be: a malloc_page that
      runs out of frames midway leaves some behind. */
  ghost predicate Covered(table: map<nat, nat>, arenas: Arenas) {
    forall v, i :: v in arenas && v <= i < v + Width(arenas[v]) ==> i in table
  }

  /** The header words of an arena. For a small one, desc points to descriptor `k` and cnt counts
      its blocks on the free list. */
  ghost predicate HeaderOk(mem: Memory, v: nat, a: Arena, free: FreeLists)
    requires |free| == DESC_CNT && (v + 1) * PAGE <= |mem|
  {
    var w := v * PAGE;
    match a
    case Small(k) => k < DESC_CNT && mem[w] == k + 1 && mem[w + 1] == CountIn(free[k], v) && mem[w + 2] == 0
    case Large(cnt) => mem[w] == NULL && mem[w + 1] == cnt && mem[w + 2] == 1
  }

  ghost predicate ListOk(mem: Memory, n: nat, arenas: Arenas, s: seq<Addr>, k: nat)
    requires k < DESC_CNT
  {
    && Ring(mem, HeadOf(n, k), s)
    && forall b :: b in s ==> IsBlock(arenas, b) && arenas[PageOf(b)] == Small(k)
  }

  /** The part of the invariant that also holds between taking or giving a block and looking
      whether an arena is all free. */
  ghost predicate Sound(h: State) {
    var n := |h.pages.virt|;
    && Sized(h.pages) && Mapped(h.pages) && Covered(h.pages.table, h.arenas)
    && |h.mem| == n * PAGE + 2 * DESC_CNT && |h.free| == DESC_CNT
    && Laid(h.pages.virt, h.arenas)
    && (forall v :: v in h.arenas ==> (v + 1) * PAGE <= |h.mem| && HeaderOk(h.mem, v, h.arenas[v], h.free))
    && (forall k :: 0 <= k < DESC_CNT ==> ListOk(h.mem, n, h.arenas, h.free[k], k))
  }

  ghost predicate Inv(h: State) {
    && Sound(h)
    && forall v :: v in h.arenas && h.arenas[v].Small? ==> CountIn(h.free[h.arenas[v].k], v) < PerArena(h.arenas[v].k)
  }

  // ----- live blocks and their separation

  ghost predicate IsLarge(arenas: Arenas, b: Addr) {
    PageOf(b) in arenas && arenas[PageOf(b)].Large? && b == PageOf(b) * PAGE + HEADER
  }

  /** A block of a small arena, free or not, or the body of a large one. */
  ghost predicate IsPiece(arenas: Arenas, b: Addr) {
    IsBlock(arenas, b) || IsLarge(arenas, b)
  }

  /** The usable words of a piece. */
  ghost function Words(arenas: Arenas, b: Addr): int
    requires IsPiece(arenas, b)
  {
    var a := arenas[PageOf(b)];
    if a.Small? then BlockSize(a.k) else a.cnt * PAGE - HEADER
  }

  /** `b` was handed out and not given back. */
  ghost predicate Live(h: State, b: Addr)
    requires |h.free| == DESC_CNT
  {
    || (IsBlock(h.arenas, b) && b !in h.free[h.arenas[PageOf(b)].k])
    || IsLarge(h.arenas, b)
  }

  ghost predicate Overlap(a: int, n: int, b: int, m: int) {
    a < b + m && b < a + n
  }

  lemma PieceBounds(arenas: Arenas, b: Addr)
    requires IsPiece(arenas, b)
    ensures var v := PageOf(b); v * PAGE + HEADER <= b && b + Words(arenas, b) <= (v + Width(arenas[v])) * PAGE
  {
    var v := PageOf(b);
    if IsBlock(arenas, b) {
      var k := arenas[v].k;
      var i: nat :| i < PerArena(k) && b == Block(v, k, i);
      BlockInPage(v, k, i);
    }
  }

  lemma PiecesApart(virt: seq<bool>, arenas: Arenas, p: Addr, q: Addr)
    requires Laid(virt, arenas) && IsPiece(arenas, p) && IsPiece(arenas, q) && p != q
    ensures !Overlap(p, Words(arenas, p), q, Words(arenas, q))
  {
    PieceBounds(arenas, p);
    PieceBounds(arenas, q);
    var v, w := PageOf(p), PageOf(q);
    if v == w && IsBlock(arenas, p) {
      var k := arenas[v].k;
      var i: nat :| i < PerArena(k) && p == Block(v, k, i);
      var j: nat :| j < PerArena(k) && q == Block(v, k, j);
      if i < j {
        BlocksApart(v, k, i, j);
      } else if j < i {
        BlocksApart(v, k, j, i);
      }
    }
  }

  lemma PieceOffHeader(virt: seq<bool>, arenas: Arenas, p: Addr, v: nat)
    requires Laid(virt, arenas) && IsPiece(arenas, p) && v in arenas
    ensures !Overlap(p, Words(arenas, p), v * PAGE, HEADER)
  {
    PieceBounds(arenas, p);
  }

  /** Any two live blocks lie apart, on pages in use, and apart from every arena header and every
      free block. */
  lemma Separation(h: State, p: Addr)
    requires Inv(h) && Live(h, p)
    ensures forall q: nat :: Live(h, q) && q != p ==> !Overlap(p, Words(h.arenas, p), q, Words(h.arenas, q))
    ensures forall v :: v in h.arenas ==> !Overlap(p, Words(h.arenas, p), v * PAGE, HEADER)
    ensures forall k, b :: 0 <= k < DESC_CNT && b in h.free[k] ==>
      IsBlock(h.arenas, b) && !Overlap(p, Words(h.arenas, p), b, Words(h.arenas, b))
    ensures forall a :: p <= a < p + Words(h.arenas, p) ==> a / PAGE < |h.pages.virt| && h.pages.virt[a / PAGE]
  {
    hide IsBlock, IsLarge, Words, Overlap;
    var arenas := h.arenas;
    forall q: nat | Live(h, q) && q != p
      ensures !Overlap(p, Words(arenas, p), q, Words(arenas, q))
    {
      PiecesApart(h.pages.virt, arenas, p, q);
    }
    forall v | v in arenas
      ensures !Overlap(p, Words(arenas, p), v * PAGE, HEADER)
    {
      PieceOffHeader(h.pages.virt, arenas, p, v);
    }
    forall k, b | 0 <= k < DESC_CNT && b in h.free[k]
      ensures IsBlock(arenas, b) && !Overlap(p, Words(arenas, p), b, Words(arenas, b))
    {
      FreeBlock(h, k, b);
      NotLive(h, k, b);
      PiecesApart(h.pages.virt, arenas, p, b);
    }
    PieceBounds(arenas, p);
    PieceOnArena(arenas, p);
  }

  lemma PieceOnArena(arenas: Arenas, p: Addr)
    requires IsPiece(arenas, p)
    ensures PageOf(p) in arenas
  {
  }

  lemma FreeBlock(h: State, k: nat, b: Addr)
    requires Sound(h) && k < DESC_CNT && b in h.free[k]
    ensures IsBlock(h.arenas, b) && h.arenas[PageOf(b)] == Small(k)
  {
    assert ListOk(h.mem, |h.pages.virt|, h.arenas, h.free[k], k);
  }

  lemma NotLive(h: State, k: nat, b: Addr)
    requires Sound(h) && k < DESC_CNT && b in h.free[k]
    ensures !Live(h, b)
  {
    FreeBlock(h, k, b);
  }
}
