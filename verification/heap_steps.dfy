/** sys_malloc and sys_free of core/mm/memory.c as functions from state to state, and what they
    keep. */
module HeapSteps {
  import opened Bitmap
  import opened Sequences
  import opened PageLayer
  import opened MemList
  import opened Heap

  // ----- the operations

  function Zero(m: Memory, start: nat, len: nat): (r: Memory)
    requires start + len <= |m|
    ensures |r| == |m|
    ensures forall a :: 0 <= a < |m| ==> r[a] == if start <= a < start + len then 0 else m[a]
  {
    m[..start] + seq(len, _ => 0) + m[start+len..]
  }

  /** Adds the blocks of an arena from `i` on to the list of `head`. */
  function AddBlocks(m: Memory, head: Addr, v: nat, k: nat, i: nat): (r: Memory)
    requires k < DESC_CNT
    ensures |r| == |m|
    decreases PerArena(k) - i
  {
    if i >= PerArena(k) then m else AddBlocks(AddTail(m, head, Block(v, k, i)), head, v, k, i + 1)
  }

  function Blocks(v: nat, k: nat, i: nat): (s: seq<Addr>)
    requires k < DESC_CNT && i <= PerArena(k)
    ensures |s| == PerArena(k) - i && forall j :: 0 <= j < |s| ==> s[j] == Block(v, k, i + j)
  {
    seq<Addr>(PerArena(k) - i, (j: int) requires 0 <= j => Block(v, k, i + j))
  }

  /** The header of the arena at page `v`: desc, cnt and large. */
  function Headed(m: Memory, v: nat, desc: nat, cnt: nat, large: nat): (r: Memory)
    requires (v + 1) * PAGE <= |m|
    ensures |r| == |m|
  {
    m[v * PAGE := desc][v * PAGE + 1 := cnt][v * PAGE + 2 := large]
  }

  /** A fresh arena for descriptor `k` on the zeroed page `v`. */
  function FormatSmall(m: Memory, n: nat, v: nat, k: nat): (r: Memory)
    requires k < DESC_CNT && (v + 1) * PAGE <= |m|
    ensures |r| == |m|
  {
    AddBlocks(Headed(Zero(m, v * PAGE, PAGE), v, k + 1, PerArena(k), 0), HeadOf(n, k), v, k, 0)
  }

  function FormatLarge(m: Memory, v: nat, cnt: nat): (r: Memory)
    requires cnt > 0 && (v + cnt) * PAGE <= |m|
    ensures |r| == |m|
  {
    Headed(Zero(m, v * PAGE, cnt * PAGE), v, NULL, cnt, 1)
  }

  // ----- counting

  lemma {:induction false} CountAppend(s: seq<Addr>, t: seq<Addr>, v: nat)
    ensures CountIn(s + t, v) == CountIn(s, v) + CountIn(t, v)
  {
    if s == [] {
      assert s + t == t;
    } else {
      CountAppend(s[1..], t, v);
      assert (s + t)[1..] == s[1..] + t;
    }
  }

  lemma {:induction false} CountNone(s: seq<Addr>, v: nat)
    requires forall b :: b in s ==> PageOf(b) != v
    ensures CountIn(s, v) == 0
  {
    if s != [] {
      CountNone(s[1..], v);
    }
  }

  lemma {:induction false} CountAll(s: seq<Addr>, v: nat)
    requires forall i :: 0 <= i < |s| ==> PageOf(s[i]) == v
    ensures CountIn(s, v) == |s|
  {
    if s != [] {
      CountAll(s[1..], v);
    }
  }

  // ----- a new arena

  lemma BlocksSpaced(m: Memory, n: nat, v: nat, k: nat, i: nat)
    requires k < DESC_CNT && i <= PerArena(k) && v < n && |m| == n * PAGE + 2 * DESC_CNT
    ensures Spaced(m, HeadOf(n, k), Blocks(v, k, 0)[..i])
  {
    var s := Blocks(v, k, 0)[..i];
    forall j | 0 <= j < i
      ensures s[j] + 1 < |m| && s[j] + 2 <= HeadOf(n, k)
    {
      BlockInPage(v, k, j);
    }
    forall j, l | 0 <= j < l < i
      ensures MemList.Apart(s[j], s[l])
    {
      BlocksApart(v, k, j, l);
    }
  }

  lemma {:induction false} AddBlocksOk(m: Memory, n: nat, v: nat, k: nat, i: nat)
    requires k < DESC_CNT && i <= PerArena(k) && v < n && |m| == n * PAGE + 2 * DESC_CNT
    requires Ring(m, HeadOf(n, k), Blocks(v, k, 0)[..i])
    ensures var m' := AddBlocks(m, HeadOf(n, k), v, k, i);
      Ring(m', HeadOf(n, k), Blocks(v, k, 0)) && OnlyAt(m, m', [HeadOf(n, k)] + Blocks(v, k, 0))
    decreases PerArena(k) - i
  {
    var head, s := HeadOf(n, k), Blocks(v, k, 0);
    if i < PerArena(k) {
      BlocksSpaced(m, n, v, k, i + 1);
      assert s[..i+1] == s[..i] + [Block(v, k, i)];
      RingAddTail(m, head, s[..i], Block(v, k, i));
      AddBlocksOk(AddTail(m, head, Block(v, k, i)), n, v, k, i + 1);
      OnlyAtTwice(m, AddTail(m, head, Block(v, k, i)), AddBlocks(m, head, v, k, i), [head] + s[..i+1], [head] + s);
    } else {
      assert s[..i] == s;
    }
  }

  lemma OnlyAtTwice(m: Memory, m1: Memory, m2: Memory, a: seq<Addr>, b: seq<Addr>)
    requires OnlyAt(m, m1, a) && OnlyAt(m1, m2, b) && a <= b
    ensures OnlyAt(m, m2, b)
  {
    forall x: int | Outside(x, b) ensures Outside(x, a) {
    }
  }

  /** The words from `lo` up to but not including `hi` are zero. */
  ghost predicate ZeroOn(m: Memory, lo: nat, hi: int) {
    forall a :: lo <= a < hi ==> a < |m| && m[a] == 0
  }

  // ----- what an operation writes

  ghost predicate Off(a: int, s: seq<Addr>, size: nat) {
    forall b :: b in s ==> !(b <= a < b + size)
  }

  /** Only the list head at `head`, `size` words at each address of `s`, and word `w` changed. */
  ghost predicate Touches(m: Memory, m': Memory, head: Addr, s: seq<Addr>, size: nat, w: int) {
    && |m'| == |m|
    && forall a :: 0 <= a < |m| && !(head <= a < head + 2) && a != w && Off(a, s, size) ==> m'[a] == m[a]
  }

  lemma TouchesFrame(m: Memory, m': Memory, head: Addr, s: seq<Addr>, size: nat, w: int, lo: int, hi: int)
    requires Touches(m, m', head, s, size, w)
    requires hi <= head || head + 2 <= lo
    requires !(lo <= w < hi)
    requires forall b :: b in s ==> b + size <= lo || hi <= b
    ensures SameOn(m, m', lo, hi)
  {
    forall a | 0 <= a < |m| && lo <= a < hi
      ensures m'[a] == m[a]
    {
      assert Off(a, s, size);
    }
  }

  /** Everything of the heap is as it was but for list `k`, the pieces in `s` and the word `w`. */
  ghost predicate Intact(h: State, m': Memory, k: nat, s: seq<Addr>, w: int)
    requires Sound(h)
  {
    var m, n := h.mem, |h.pages.virt|;
    && |m'| == |m|
    && (forall q: Addr :: IsPiece(h.arenas, q) && q !in s ==> SameOn(m, m', q, q + Words(h.arenas, q)))
    && (forall j: nat :: j < DESC_CNT && j != k ==> SameOn(m, m', HeadOf(n, j), HeadOf(n, j) + 2))
    && (forall v :: v in h.arenas ==>
          && m'[v * PAGE] == m[v * PAGE] && m'[v * PAGE + 2] == m[v * PAGE + 2]
          && (v * PAGE + 1 != w ==> m'[v * PAGE + 1] == m[v * PAGE + 1]))
  }

  lemma BlockBounds(h: State, b: Addr)
    requires Sound(h) && IsBlock(h.arenas, b)
    ensures var v, k := PageOf(b), h.arenas[PageOf(b)].k;
      && v * PAGE + HEADER <= b && b + BlockSize(k) <= (v + 1) * PAGE && v < |h.pages.virt|
      && IsPiece(h.arenas, b) && Words(h.arenas, b) == BlockSize(k)
  {
    PieceBounds(h.arenas, b);
  }

  lemma ArenaBounds(h: State, v: nat)
    requires Sound(h) && v in h.arenas
    ensures (v + 1) * PAGE <= |h.pages.virt| * PAGE && h.pages.virt[v]
    ensures (v + Width(h.arenas[v])) * PAGE <= |h.pages.virt| * PAGE
  {
  }

  // ----- writing to the blocks of one list

  /** `s` holds blocks of descriptor `k`, and `w` is the counter of an arena. */
  ghost predicate ListWrite(h: State, m': Memory, k: nat, s: seq<Addr>, w: int)
    requires Sound(h)
  {
    && k < DESC_CNT && Touches(h.mem, m', HeadOf(|h.pages.virt|, k), s, BlockSize(k), w)
    && (exists v :: v in h.arenas && w == v * PAGE + 1)
    && forall b :: b in s ==> IsBlock(h.arenas, b) && h.arenas[PageOf(b)] == Small(k)
  }

  lemma ListWritePiece(h: State, m': Memory, k: nat, s: seq<Addr>, w: int, q: Addr)
    requires Sound(h) && ListWrite(h, m', k, s, w) && IsPiece(h.arenas, q) && q !in s
    ensures SameOn(h.mem, m', q, q + Words(h.arenas, q))
  {
    hide IsBlock, IsLarge, Words, Touches, SameOn;
    var v :| v in h.arenas && w == v * PAGE + 1;
    var hi := q + Words(h.arenas, q);
    PieceBounds(h.arenas, q);
    PieceOnArena(h.arenas, q);
    ArenaBounds(h, PageOf(q));
    PieceOffHeader(h.pages.virt, h.arenas, q, v);
    forall b | b in s
      ensures b + BlockSize(k) <= q || hi <= b
    {
      BlockBounds(h, b);
      PiecesApart(h.pages.virt, h.arenas, q, b);
      WordsPositive(h.arenas, q);
    }
    TouchesFrame(h.mem, m', HeadOf(|h.pages.virt|, k), s, BlockSize(k), w, q, hi);
  }

  lemma WordsPositive(arenas: Arenas, q: Addr)
    requires IsPiece(arenas, q) && Width(arenas[PageOf(q)]) > 0
    ensures Words(arenas, q) > 2
  {
  }

  lemma ListWriteHead(h: State, m': Memory, k: nat, s: seq<Addr>, w: int, j: nat)
    requires Sound(h) && ListWrite(h, m', k, s, w) && j < DESC_CNT && j != k
    ensures SameOn(h.mem, m', HeadOf(|h.pages.virt|, j), HeadOf(|h.pages.virt|, j) + 2)
  {
    hide IsBlock, Touches, SameOn;
    var v :| v in h.arenas && w == v * PAGE + 1;
    ArenaBounds(h, v);
    forall b | b in s
      ensures b + BlockSize(k) <= HeadOf(|h.pages.virt|, j)
    {
      BlockBounds(h, b);
    }
    var head := HeadOf(|h.pages.virt|, j);
    TouchesFrame(h.mem, m', HeadOf(|h.pages.virt|, k), s, BlockSize(k), w, head, head + 2);
  }

  lemma ListWriteHeader(h: State, m': Memory, k: nat, s: seq<Addr>, w: int, u: nat, i: nat)
    requires Sound(h) && ListWrite(h, m', k, s, w) && u in h.arenas && i < HEADER && u * PAGE + i != w
    ensures m'[u * PAGE + i] == h.mem[u * PAGE + i]
  {
    hide IsBlock, Touches;
    ArenaBounds(h, u);
    forall b | b in s
      ensures b + BlockSize(k) <= u * PAGE || u * PAGE + HEADER <= b
    {
      BlockBounds(h, b);
    }
    TouchesFrame(h.mem, m', HeadOf(|h.pages.virt|, k), s, BlockSize(k), w, u * PAGE + i, u * PAGE + i + 1);
  }

  lemma ListWriteLength(h: State, m': Memory, k: nat, s: seq<Addr>, w: int)
    requires Sound(h) && ListWrite(h, m', k, s, w)
    ensures |m'| == |h.mem|
  {
  }

  lemma ListWriteIntact(h: State, m': Memory, k: nat, s: seq<Addr>, w: int)
    requires Sound(h) && ListWrite(h, m', k, s, w)
    ensures Intact(h, m', k, s, w)
  {
    hide IsPiece, Words, SameOn, Touches, Laid, HeaderOk, ListOk, Mapped;
    ListWriteLength(h, m', k, s, w);
    forall q: Addr | IsPiece(h.arenas, q) && q !in s
      ensures SameOn(h.mem, m', q, q + Words(h.arenas, q))
    {
      ListWritePiece(h, m', k, s, w, q);
    }
    forall j: nat | j < DESC_CNT && j != k
      ensures SameOn(h.mem, m', HeadOf(|h.pages.virt|, j), HeadOf(|h.pages.virt|, j) + 2)
    {
      ListWriteHead(h, m', k, s, w, j);
    }
    forall u | u in h.arenas
      ensures m'[u * PAGE] == h.mem[u * PAGE] && m'[u * PAGE + 2] == h.mem[u * PAGE + 2]
      ensures u * PAGE + 1 != w ==> m'[u * PAGE + 1] == h.mem[u * PAGE + 1]
    {
      var v :| v in h.arenas && w == v * PAGE + 1;
      ListWriteHeader(h, m', k, s, w, u, 0);
      ListWriteHeader(h, m', k, s, w, u, 2);
      if u * PAGE + 1 != w {
        ListWriteHeader(h, m', k, s, w, u, 1);
      }
    }
  }

  /** The lists of the other descriptors survive. */
  lemma OtherList(h: State, m': Memory, k: nat, s: seq<Addr>, w: int, j: nat)
    requires Sound(h) && Intact(h, m', k, s, w) && j < DESC_CNT && j != k
    requires forall b :: b in s ==> IsBlock(h.arenas, b) && h.arenas[PageOf(b)] == Small(k)
    ensures ListOk(m', |h.pages.virt|, h.arenas, h.free[j], j)
  {
    hide IsBlock, Ring, SameOn;
    forall b | b in h.free[j]
      ensures SameOn(h.mem, m', b, b + 2)
    {
      FreeBlock(h, j, b);
      BlockBounds(h, b);
      SameOnPart(h.mem, m', b, b + BlockSize(j), b, b + 2);
    }
    RingFrame(h.mem, m', HeadOf(|h.pages.virt|, j), h.free[j]);
  }

  lemma SameOnPart(m: Memory, m': Memory, lo: int, hi: int, lo': int, hi': int)
    requires SameOn(m, m', lo, hi) && lo <= lo' && hi' <= hi
    ensures SameOn(m, m', lo', hi')
  {
  }

  // ----- taking a block off a free list

  /** list_pop on the free list of `k`, memset of the block, --cnt. */
  ghost function Take(h: State, k: nat): State
    requires Sound(h) && k < DESC_CNT && h.free[k] != []
  {
    FreeBlock(h, k, h.free[k][0]);
    BlockBounds(h, h.free[k][0]);
    var b, c := h.free[k][0], PageOf(h.free[k][0]) * PAGE + 1;
    var m := Zero(DelInit(h.mem, b), b, BlockSize(k));
    h.(mem := m[c := Decremented(m[c])], free := h.free[k := h.free[k][1..]])
  }

  // A uint_32 less one.
  function Decremented(x: nat): nat {
    if x == 0 then 0xffff_ffff else x - 1
  }

  lemma ListNodes(h: State, k: nat)
    requires Sound(h) && k < DESC_CNT
    ensures Ring(h.mem, HeadOf(|h.pages.virt|, k), h.free[k])
    ensures forall b :: b in h.free[k] ==> IsBlock(h.arenas, b) && h.arenas[PageOf(b)] == Small(k)
  {
    assert ListOk(h.mem, |h.pages.virt|, h.arenas, h.free[k], k);
  }

  lemma OnlyAtTouches(m: Memory, m': Memory, head: Addr, s: seq<Addr>, size: nat, w: int)
    requires OnlyAt(m, m', [head] + s) && size >= 2
    ensures Touches(m, m', head, s, size, w)
  {
    forall a | 0 <= a < |m| && !(head <= a < head + 2) && a != w && Off(a, s, size)
      ensures m'[a] == m[a]
    {
      assert Outside(a, [head] + s);
    }
  }

  lemma TakeWrites(h: State, k: nat)
    requires Sound(h) && k < DESC_CNT && h.free[k] != []
    ensures ListWrite(h, Take(h, k).mem, k, h.free[k], PageOf(h.free[k][0]) * PAGE + 1)
  {
    hide Ring, IsBlock, DelInit, OnlyAt;
    ListNodes(h, k);
    var b := h.free[k][0];
    var head := HeadOf(|h.pages.virt|, k);
    RingDelInit(h.mem, head, h.free[k], 0);
    OnlyAtTouches(h.mem, DelInit(h.mem, b), head, h.free[k], BlockSize(k), PageOf(b) * PAGE + 1);
    FreeBlock(h, k, b);
    BlockBounds(h, b);
    ArenaBounds(h, PageOf(b));
  }

  /** After the unlinking only the block and the counter are written. */
  lemma TakeSame(h: State, k: nat, lo: nat, hi: nat)
    requires Sound(h) && k < DESC_CNT && h.free[k] != []
    requires var b := h.free[k][0];
      && (hi <= b || b + BlockSize(k) <= lo)
      && (hi <= PageOf(b) * PAGE || PageOf(b) * PAGE + HEADER <= lo)
    ensures SameOn(DelInit(h.mem, h.free[k][0]), Take(h, k).mem, lo, hi)
  {
    hide IsBlock, DelInit, Words, Laid, HeaderOk, ListOk, Mapped;
    var b := h.free[k][0];
    FreeBlock(h, k, b);
    BlockBounds(h, b);
  }

  lemma TakeRing(h: State, k: nat)
    requires Sound(h) && k < DESC_CNT && h.free[k] != []
    ensures Ring(Take(h, k).mem, HeadOf(|h.pages.virt|, k), h.free[k][1..])
  {
    hide Ring, IsBlock, DelInit, OnlyAt, Words, SameOn, Take, Laid, HeaderOk, Mapped;
    ListNodes(h, k);
    var s, b := h.free[k], h.free[k][0];
    var head := HeadOf(|h.pages.virt|, k);
    RingDelInit(h.mem, head, s, 0);
    assert s[..0] + s[1..] == s[1..];
    BlockBounds(h, b);
    FreeBlock(h, k, b);
    var m, m' := DelInit(h.mem, b), Take(h, k).mem;
    RingDistinct(h.mem, head, s);
    forall q | q in s[1..]
      ensures SameOn(m, m', q, q + 2)
    {
      assert q in s;
      FreeBlock(h, k, q);
      BlockBounds(h, q);
      PiecesApart(h.pages.virt, h.arenas, q, b);
      PieceOffHeader(h.pages.virt, h.arenas, q, PageOf(b));
      TakeSame(h, k, q, q + 2);
    }
    TakeSame(h, k, head, head + 2);
    RingFrame(m, m', head, s[1..]);
  }

  lemma RingDistinct(m: Memory, head: Addr, s: seq<Addr>)
    requires Ring(m, head, s)
    ensures Distinct(s)
    ensures s != [] ==> forall q :: q in s[1..] ==> q != s[0]
  {
  }

  lemma TakeHeader(h: State, k: nat, v: nat)
    requires Sound(h) && k < DESC_CNT && h.free[k] != [] && v in h.arenas
    requires Intact(h, Take(h, k).mem, k, h.free[k], PageOf(h.free[k][0]) * PAGE + 1)
    ensures HeaderOk(Take(h, k).mem, v, h.arenas[v], Take(h, k).free)
  {
    hide Intact, Words, IsBlock, DelInit, Laid, ListOk, Mapped, Zero;
    var b, m := h.free[k][0], Take(h, k).mem;
    FreeBlock(h, k, b);
    BlockBounds(h, b);
    IntactHeader(h, m, k, h.free[k], PageOf(b) * PAGE + 1, v);
    TakeCounter(h, k);
    assert CountIn(h.free[k], v) == (if PageOf(b) == v then 1 else 0) + CountIn(h.free[k][1..], v);
  }

  lemma IntactHeader(h: State, m': Memory, k: nat, s: seq<Addr>, w: int, v: nat)
    requires Sound(h) && Intact(h, m', k, s, w) && v in h.arenas
    ensures |m'| == |h.mem| && (v + 1) * PAGE <= |m'|
    ensures m'[v * PAGE] == h.mem[v * PAGE] && m'[v * PAGE + 2] == h.mem[v * PAGE + 2]
    ensures v * PAGE + 1 != w ==> m'[v * PAGE + 1] == h.mem[v * PAGE + 1]
  {
  }

  lemma TakeCounter(h: State, k: nat)
    requires Sound(h) && k < DESC_CNT && h.free[k] != []
    ensures var v := PageOf(h.free[k][0]);
      v in h.arenas && (v + 1) * PAGE <= |h.mem| && Take(h, k).mem[v * PAGE + 1] == Decremented(h.mem[v * PAGE + 1])
  {
    hide Ring, IsBlock, Words, DelInit, OnlyAt, HeaderOk, Off;
    var b, s := h.free[k][0], h.free[k];
    var head, c := HeadOf(|h.pages.virt|, k), PageOf(b) * PAGE + 1;
    FreeBlock(h, k, b);
    BlockBounds(h, b);
    ArenaBounds(h, PageOf(b));
    ListNodes(h, k);
    RingDelInit(h.mem, head, s, 0);
    forall q | q in [head] + s
      ensures q + 2 <= c || c + 1 <= q
    {
      if q in s {
        BlockBounds(h, q);
      }
    }
    OnlyAtFrame(h.mem, DelInit(h.mem, b), [head] + s, c, c + 1);
    var m := Zero(DelInit(h.mem, b), b, BlockSize(k));
    assert m[c] == DelInit(h.mem, b)[c] == h.mem[c];
    assert Take(h, k).mem == m[c := Decremented(m[c])];
  }

  /** A popped block becomes live and zero; nothing else changes for anyone. */
  lemma TakeOk(h: State, k: nat)
    requires Sound(h) && k < DESC_CNT && h.free[k] != []
    ensures var (t, b) := (Take(h, k), h.free[k][0]);
      && Sound(t) && !Live(h, b) && IsBlock(h.arenas, b) && h.arenas[PageOf(b)] == Small(k)
      && (forall q: Addr :: Live(t, q) <==> Live(h, q) || q == b)
      && ZeroOn(t.mem, b, b + BlockSize(k))
      && (forall q: Addr :: Live(h, q) ==> SameOn(h.mem, t.mem, q, q + Words(h.arenas, q)))
  {
    hide Ring, IsBlock, IsLarge, Words, SameOn, DelInit, HeaderOk, Intact;
    var t, b, s := Take(h, k), h.free[k][0], h.free[k];
    var n := |h.pages.virt|;
    FreeBlock(h, k, b);
    BlockBounds(h, b);
    TakeWrites(h, k);
    var w := PageOf(b) * PAGE + 1;
    ListWriteIntact(h, t.mem, k, s, w);
    forall v | v in h.arenas
      ensures HeaderOk(t.mem, v, h.arenas[v], t.free)
    {
      TakeHeader(h, k, v);
    }
    ListNodes(h, k);
    forall j | 0 <= j < DESC_CNT
      ensures ListOk(t.mem, n, h.arenas, t.free[j], j)
    {
      if j == k {
        TakeRing(h, k);
      } else {
        OtherList(h, t.mem, k, s, w, j);
      }
    }
    RingDistinct(h.mem, HeadOf(n, k), s);
    forall q: Addr | Live(h, q)
      ensures SameOn(h.mem, t.mem, q, q + Words(h.arenas, q))
    {
      LiveIntact(h, t.mem, k, s, w, q);
    }
    TakeLive(h, k);
    TakeZero(h, k);
  }

  lemma LiveIntact(h: State, m': Memory, k: nat, s: seq<Addr>, w: int, q: Addr)
    requires Sound(h) && Intact(h, m', k, s, w) && k < DESC_CNT && Live(h, q)
    requires s == h.free[k] || s == []
    ensures SameOn(h.mem, m', q, q + Words(h.arenas, q))
  {
    hide IsBlock, IsLarge, Words, SameOn, HeaderOk;
    if q in h.free[k] {
      NotLive(h, k, q);
    }
  }

  lemma TakeLive(h: State, k: nat)
    requires Sound(h) && k < DESC_CNT && h.free[k] != []
    ensures !Live(h, h.free[k][0]) && |Take(h, k).free| == DESC_CNT
    ensures forall q: Addr :: Live(Take(h, k), q) <==> Live(h, q) || q == h.free[k][0]
  {
    hide Ring, HeaderOk, InArena;
    var s := h.free[k];
    ListNodes(h, k);
    RingDistinct(h.mem, HeadOf(|h.pages.virt|, k), s);
    NotLive(h, k, s[0]);
    FreeBlock(h, k, s[0]);
    assert forall q :: q in s <==> q == s[0] || q in s[1..];
  }

  lemma TakeZero(h: State, k: nat)
    requires Sound(h) && k < DESC_CNT && h.free[k] != []
    ensures var b := h.free[k][0]; ZeroOn(Take(h, k).mem, b, b + BlockSize(k))
  {
    hide Ring, IsBlock, Words, DelInit, HeaderOk;
    var b := h.free[k][0];
    FreeBlock(h, k, b);
    BlockBounds(h, b);
    var m, c := Zero(DelInit(h.mem, b), b, BlockSize(k)), PageOf(b) * PAGE + 1;
    assert Take(h, k).mem == m[c := Decremented(m[c])];
  }

  // ----- taking pages for a new arena

  /** No free run of `cnt` pages, or not enough frames to back it. */
  ghost predicate NoPages(h: State, cnt: nat)
    requires Sound(h) && cnt > 0
  {
    Fit(h.pages.virt, cnt) == NOT_FOUND || RunsOutOfFrames(h.pages, cnt)
  }

  /** What malloc_page does for the heap. */
  lemma NewPages(h: State, cnt: nat)
    requires Sound(h) && cnt > 0
    ensures var (q, v) := PageMalloc(h.pages, cnt);
      && (v == NOT_FOUND <==> NoPages(h, cnt))
      && (q == h.pages <==> Fit(h.pages.virt, cnt) == NOT_FOUND)
      && Sized(q) && Mapped(q) && |q.virt| == |h.pages.virt|
      && (forall i :: i in h.pages.table ==> i in q.table)
      && (v != NOT_FOUND ==>
            && FreeRun(h.pages.virt, v, cnt) && q.virt == SetRun(h.pages.virt, v, cnt, true)
            && (forall i :: v <= i < v + cnt ==> i in q.table)
            && v + cnt <= |h.pages.virt|)
  {
    hide Mapped, Laid, HeaderOk, ListOk, MapPages, Covered;
    PageMallocOk(h.pages, cnt);
    MappedSized(PageMalloc(h.pages, cnt).0);
    if Fit(h.pages.virt, cnt) != NOT_FOUND {
      assert !h.pages.virt[Fit(h.pages.virt, cnt)] && PageMalloc(h.pages, cnt).0.virt[Fit(h.pages.virt, cnt)];
    }
  }

  /** A malloc_page that fails, midway or not, costs no arena and no block anything. */
  lemma FailedPages(h: State, cnt: nat)
    requires Sound(h) && cnt > 0 && NoPages(h, cnt)
    ensures Sound(h.(pages := PageMalloc(h.pages, cnt).0))
  {
    hide Mapped, HeaderOk, ListOk, MapPages, Clear;
    NewPages(h, cnt);
    PageMallocOk(h.pages, cnt);
    var q := PageMalloc(h.pages, cnt).0;
    assert Laid(q.virt, h.arenas);
  }

  /** A run of clear pages lies apart from every arena. */
  lemma RunOffArena(virt: seq<bool>, arenas: Arenas, u: nat, v: nat, cnt: nat)
    requires Laid(virt, arenas) && FreeRun(virt, v, cnt) && cnt > 0 && u in arenas
    ensures u + Width(arenas[u]) <= v || v + cnt <= u
  {
    var free, taken := !virt[v], virt[u];
    assert free && taken;
  }

  lemma LaidWith(virt: seq<bool>, arenas: Arenas, v: nat, a: Arena)
    requires Laid(virt, arenas) && Width(a) > 0 && FreeRun(virt, v, Width(a))
    ensures v !in arenas && Laid(SetRun(virt, v, Width(a), true), arenas[v := a])
  {
    forall u | u in arenas
      ensures u + Width(arenas[u]) <= v || v + Width(a) <= u
    {
      RunOffArena(virt, arenas, u, v, Width(a));
    }
  }

  lemma CoveredWith(table: map<nat, nat>, table': map<nat, nat>, arenas: Arenas, v: nat, a: Arena)
    requires Covered(table, arenas) && v !in arenas
    requires forall i :: i in table ==> i in table'
    requires forall i :: v <= i < v + Width(a) ==> i in table'
    ensures Covered(table', arenas[v := a])
  {
  }

  /** The run of pages from `v` on was written to, and so was perhaps the head of list `k`. */
  ghost predicate PageWrite(h: State, m': Memory, k: nat, v: nat, cnt: nat)
    requires Sound(h)
  {
    && k < DESC_CNT && cnt > 0 && FreeRun(h.pages.virt, v, cnt)
    && Touches(h.mem, m', HeadOf(|h.pages.virt|, k), [v * PAGE], cnt * PAGE, -1)
  }

  lemma PageWriteSame(h: State, m': Memory, k: nat, v: nat, cnt: nat, lo: int, hi: int)
    requires Sound(h) && PageWrite(h, m', k, v, cnt) && 0 <= lo
    requires hi <= v * PAGE || (v + cnt) * PAGE <= lo
    requires hi <= HeadOf(|h.pages.virt|, k) || HeadOf(|h.pages.virt|, k) + 2 <= lo
    ensures SameOn(h.mem, m', lo, hi)
  {
    hide Touches, Covered, Mapped, Laid, HeaderOk, ListOk, SameOn;
    assert (v + cnt) * PAGE == v * PAGE + cnt * PAGE;
    TouchesFrame(h.mem, m', HeadOf(|h.pages.virt|, k), [v * PAGE], cnt * PAGE, -1, lo, hi);
  }

  lemma PageWriteArena(h: State, m': Memory, k: nat, v: nat, cnt: nat, u: nat)
    requires Sound(h) && PageWrite(h, m', k, v, cnt) && u in h.arenas
    ensures SameOn(h.mem, m', u * PAGE, (u + Width(h.arenas[u])) * PAGE)
  {
    hide Touches, Covered, Mapped, HeaderOk, ListOk, SameOn, Laid;
    RunOffArena(h.pages.virt, h.arenas, u, v, cnt);
    ArenaBounds(h, u);
    PageWriteSame(h, m', k, v, cnt, u * PAGE, (u + Width(h.arenas[u])) * PAGE);
  }

  lemma PageWriteIntact(h: State, m': Memory, k: nat, v: nat, cnt: nat)
    requires Sound(h) && PageWrite(h, m', k, v, cnt)
    ensures Intact(h, m', k, [], -1)
  {
    hide IsPiece, Words, SameOn, PageWrite, Laid, HeaderOk, ListOk, Mapped;
    PageWriteBounds(h, m', k, v, cnt);
    forall q: Addr | IsPiece(h.arenas, q)
      ensures SameOn(h.mem, m', q, q + Words(h.arenas, q))
    {
      PieceBounds(h.arenas, q);
      PieceOnArena(h.arenas, q);
      var u := PageOf(q);
      PageWriteArena(h, m', k, v, cnt, u);
      SameOnPart(h.mem, m', u * PAGE, (u + Width(h.arenas[u])) * PAGE, q, q + Words(h.arenas, q));
    }
    forall j: nat | j < DESC_CNT && j != k
      ensures SameOn(h.mem, m', HeadOf(|h.pages.virt|, j), HeadOf(|h.pages.virt|, j) + 2)
    {
      PageWriteSame(h, m', k, v, cnt, HeadOf(|h.pages.virt|, j), HeadOf(|h.pages.virt|, j) + 2);
    }
    forall u | u in h.arenas
      ensures m'[u * PAGE] == h.mem[u * PAGE]
      ensures m'[u * PAGE + 1] == h.mem[u * PAGE + 1] && m'[u * PAGE + 2] == h.mem[u * PAGE + 2]
    {
      PageWriteArena(h, m', k, v, cnt, u);
      HeaderWords(h, m', u);
    }
  }

  lemma HeaderWords(h: State, m': Memory, u: nat)
    requires Sound(h) && u in h.arenas
    requires SameOn(h.mem, m', u * PAGE, (u + Width(h.arenas[u])) * PAGE)
    ensures m'[u * PAGE] == h.mem[u * PAGE]
    ensures m'[u * PAGE + 1] == h.mem[u * PAGE + 1] && m'[u * PAGE + 2] == h.mem[u * PAGE + 2]
  {
    ArenaBounds(h, u);
  }

  lemma PageWriteBounds(h: State, m': Memory, k: nat, v: nat, cnt: nat)
    requires Sound(h) && PageWrite(h, m', k, v, cnt)
    ensures |m'| == |h.mem| && k < DESC_CNT && (v + cnt) * PAGE <= |h.pages.virt| * PAGE
  {
  }

  // ----- a new arena of small blocks

  /** The page is zeroed and gets its header; the ring of `k` gets its blocks. */
  lemma FormatSmallOk(m: Memory, n: nat, v: nat, k: nat)
    requires k < DESC_CNT && v < n && |m| == n * PAGE + 2 * DESC_CNT && Ring(m, HeadOf(n, k), [])
    ensures var m' := FormatSmall(m, n, v, k);
      && Touches(m, m', HeadOf(n, k), [v * PAGE], PAGE, -1)
      && Ring(m', HeadOf(n, k), Blocks(v, k, 0))
      && m'[v * PAGE] == k + 1 && m'[v * PAGE + 1] == PerArena(k) && m'[v * PAGE + 2] == 0
  {
    hide Ring, AddBlocks, OnlyAt, Block, SameOn;
    var head := HeadOf(n, k);
    var m1 := Headed(Zero(m, v * PAGE, PAGE), v, k + 1, PerArena(k), 0);
    var m', s := FormatSmall(m, n, v, k), Blocks(v, k, 0);
    HeadedOk(m, v, 1, k + 1, PerArena(k), 0);
    SameOnPart(m, m1, (v + 1) * PAGE, |m|, head, head + 2);
    RingFrame(m, m1, head, []);
    assert s[..0] == [];
    AddBlocksOk(m1, n, v, k, 0);
    assert m' == AddBlocks(m1, head, v, k, 0);
    forall a | 0 <= a < |m| && !(head <= a < head + 2) && Off(a, [v * PAGE], PAGE)
      ensures m'[a] == m[a]
    {
      assert v * PAGE in [v * PAGE];
      OffBlocks(n, v, k, a);
      OnlyAtOne(m1, m', [head] + s, a);
      SameOnOne(m, m1, v, a);
    }
    OffBlocks(n, v, k, v * PAGE);
    OffBlocks(n, v, k, v * PAGE + 1);
    OffBlocks(n, v, k, v * PAGE + 2);
    OnlyAtOne(m1, m', [head] + s, v * PAGE);
    OnlyAtOne(m1, m', [head] + s, v * PAGE + 1);
    OnlyAtOne(m1, m', [head] + s, v * PAGE + 2);
  }

  lemma OnlyAtOne(m: Memory, m': Memory, nodes: seq<Addr>, a: nat)
    requires OnlyAt(m, m', nodes) && a < |m| && Outside(a, nodes)
    ensures |m'| == |m| && m'[a] == m[a]
  {
  }

  lemma SameOnOne(m: Memory, m': Memory, v: nat, a: nat)
    requires SameOn(m, m', 0, v * PAGE) && SameOn(m, m', (v + 1) * PAGE, |m|)
    requires a < |m| && !(v * PAGE <= a < v * PAGE + PAGE)
    ensures m'[a] == m[a]
  {
  }

  /** The links that the blocks of page `v` carry lie behind the header and inside the page. */
  lemma OffBlocks(n: nat, v: nat, k: nat, a: nat)
    requires k < DESC_CNT && v < n && !(HeadOf(n, k) <= a < HeadOf(n, k) + 2)
    requires a < v * PAGE + HEADER || a >= (v + 1) * PAGE
    ensures Outside(a, [HeadOf(n, k)] + Blocks(v, k, 0))
  {
    hide Block, HeadOf;
    var s := Blocks(v, k, 0);
    forall i | 0 <= i < |s|
      ensures s[i] != a && s[i] != a - 1
    {
      BlockInPage(v, k, i);
    }
  }

  /** Zeroing `cnt` pages and writing a header writes nowhere else. */
  lemma HeadedOk(m: Memory, v: nat, cnt: nat, desc: nat, c: nat, large: nat)
    requires cnt > 0 && (v + cnt) * PAGE <= |m|
    ensures var m1 := Headed(Zero(m, v * PAGE, cnt * PAGE), v, desc, c, large);
      && SameOn(m, m1, 0, v * PAGE) && SameOn(m, m1, (v + cnt) * PAGE, |m|)
      && m1[v * PAGE] == desc && m1[v * PAGE + 1] == c && m1[v * PAGE + 2] == large
      && ZeroOn(m1, v * PAGE + HEADER, (v + cnt) * PAGE)
  {
  }

  /** A new arena for the empty list of `k`, if there is a page for it. */
  ghost function Grow(h: State, k: nat): (State, bool)
    requires Sound(h) && k < DESC_CNT
  {
    NewPages(h, 1);
    var (q, v) := PageMalloc(h.pages, 1);
    if v == NOT_FOUND then (h.(pages := q), false)
    else
      var m := FormatSmall(h.mem, |h.pages.virt|, v, k);
      (State(m, q, h.arenas[v := Small(k)], h.free[k := h.free[k] + Blocks(v, k, 0)]), true)
  }

  lemma GrowWrites(h: State, k: nat)
    requires Sound(h) && k < DESC_CNT && h.free[k] == [] && Grow(h, k).1
    ensures var (g, v) := (Grow(h, k).0, PageMalloc(h.pages, 1).1);
      && v !in h.arenas && v < |h.pages.virt| && PageWrite(h, g.mem, k, v, 1) && Intact(h, g.mem, k, [], -1)
      && g.arenas == h.arenas[v := Small(k)] && g.free == h.free[k := Blocks(v, k, 0)]
      && g.pages == PageMalloc(h.pages, 1).0 && |g.mem| == |h.mem|
      && Ring(g.mem, HeadOf(|h.pages.virt|, k), g.free[k])
      && g.mem[v * PAGE] == k + 1 && g.mem[v * PAGE + 1] == PerArena(k) && g.mem[v * PAGE + 2] == 0
  {
    hide Ring, Laid, HeaderOk, Mapped, Covered, FormatSmall, Intact, Touches, PageMalloc;
    NewPages(h, 1);
    var v := PageMalloc(h.pages, 1).1;
    ListNodes(h, k);
    FormatSmallOk(h.mem, |h.pages.virt|, v, k);
    LaidWith(h.pages.virt, h.arenas, v, Small(k));
    PageWriteIntact(h, Grow(h, k).0.mem, k, v, 1);
    assert [] + Blocks(v, k, 0) == Blocks(v, k, 0);
  }

  lemma GrowHeader(h: State, k: nat, u: nat)
    requires Sound(h) && k < DESC_CNT && h.free[k] == [] && Grow(h, k).1 && u in Grow(h, k).0.arenas
    ensures var g := Grow(h, k).0; (u + 1) * PAGE <= |g.mem| && HeaderOk(g.mem, u, g.arenas[u], g.free)
  {
    hide Ring, Laid, Mapped, Covered, FormatSmall, PageWrite, PageMalloc, Grow, Intact, IsBlock, Blocks;
    GrowWrites(h, k);
    var g, v := Grow(h, k).0, PageMalloc(h.pages, 1).1;
    BlocksIn(v, k);
    if u == v {
      CountAll(Blocks(v, k, 0), v);
    } else {
      CountNone(Blocks(v, k, 0), u);
      CountNone([], u);
      IntactHeader(h, g.mem, k, [], -1, u);
    }
  }

  lemma BlocksIn(v: nat, k: nat)
    requires k < DESC_CNT
    ensures |Blocks(v, k, 0)| == PerArena(k)
    ensures forall i :: 0 <= i < PerArena(k) ==> PageOf(Blocks(v, k, 0)[i]) == v
    ensures forall b :: b in Blocks(v, k, 0) ==> PageOf(b) == v && InArena(v, k, b)
    ensures forall b :: InArena(v, k, b) ==> b in Blocks(v, k, 0)
  {
    hide Block;
    var s := Blocks(v, k, 0);
    forall i | 0 <= i < PerArena(k)
      ensures PageOf(s[i]) == v
    {
      BlockInPage(v, k, i);
    }
    forall b | InArena(v, k, b)
      ensures b in s
    {
      var i: nat :| i < PerArena(k) && b == Block(v, k, i);
      assert s[i] == b;
    }
  }

  lemma WiderList(m: Memory, n: nat, arenas: Arenas, arenas': Arenas, s: seq<Addr>, j: nat)
    requires j < DESC_CNT && ListOk(m, n, arenas, s, j)
    requires forall b :: b in s ==> PageOf(b) in arenas' && arenas'[PageOf(b)] == arenas[PageOf(b)]
    ensures ListOk(m, n, arenas', s, j)
  {
    hide Ring, InArena;
  }

  lemma GrowList(h: State, k: nat, j: nat)
    requires Sound(h) && k < DESC_CNT && h.free[k] == [] && Grow(h, k).1 && j < DESC_CNT
    ensures var g := Grow(h, k).0; |g.free| == DESC_CNT && ListOk(g.mem, |h.pages.virt|, g.arenas, g.free[j], j)
  {
    hide Ring, Laid, HeaderOk, Mapped, Covered, FormatSmall, PageWrite, PageMalloc, Grow, Intact, InArena, Blocks;
    GrowWrites(h, k);
    var g, v := Grow(h, k).0, PageMalloc(h.pages, 1).1;
    BlocksIn(v, k);
    if j != k {
      OtherList(h, g.mem, k, [], -1, j);
      WiderList(g.mem, |h.pages.virt|, h.arenas, g.arenas, h.free[j], j);
    }
  }

  lemma GrowLive(h: State, k: nat, q: Addr)
    requires Sound(h) && k < DESC_CNT && h.free[k] == [] && Grow(h, k).1
    ensures var g := Grow(h, k).0; |g.free| == DESC_CNT && (Live(g, q) <==> Live(h, q))
    ensures var g := Grow(h, k).0; Live(h, q) ==>
      Words(g.arenas, q) == Words(h.arenas, q) && SameOn(h.mem, g.mem, q, q + Words(h.arenas, q))
  {
    hide Ring, Laid, HeaderOk, Mapped, Covered, FormatSmall, PageWrite, PageMalloc, Grow, Intact, InArena, Blocks,
      SameOn;
    GrowWrites(h, k);
    var g, v := Grow(h, k).0, PageMalloc(h.pages, 1).1;
    BlocksIn(v, k);
    if Live(h, q) {
      LiveIntact(h, g.mem, k, [], -1, q);
    }
  }

  /** Growing hands nothing out: it adds a page of free blocks. */
  lemma GrowOk(h: State, k: nat)
    requires Sound(h) && k < DESC_CNT && h.free[k] == []
    ensures !Grow(h, k).1 <==> NoPages(h, 1)
    ensures !Grow(h, k).1 ==> Grow(h, k).0 == h.(pages := PageMalloc(h.pages, 1).0) && Sound(Grow(h, k).0)
    ensures Grow(h, k).1 ==>
      var g := Grow(h, k).0;
      && Sound(g) && g.free[k] != [] && |g.pages.virt| == |h.pages.virt|
      && (forall q: Addr :: Live(g, q) <==> Live(h, q))
      && (forall q: Addr :: Live(h, q) ==>
            Words(g.arenas, q) == Words(h.arenas, q) && SameOn(h.mem, g.mem, q, q + Words(h.arenas, q)))
  {
    hide Ring, HeaderOk, ListOk, Mapped, FormatSmall, PageWrite, PageMalloc, Intact, IsBlock, IsLarge, Words, SameOn,
      Laid;
    NewPages(h, 1);
    if !Grow(h, k).1 {
      FailedPages(h, 1);
    } else {
      GrowWrites(h, k);
      var g, v := Grow(h, k).0, PageMalloc(h.pages, 1).1;
      LaidWith(h.pages.virt, h.arenas, v, Small(k));
      CoveredWith(h.pages.table, g.pages.table, h.arenas, v, Small(k));
      forall u | u in g.arenas
        ensures (u + 1) * PAGE <= |g.mem| && HeaderOk(g.mem, u, g.arenas[u], g.free)
      {
        GrowHeader(h, k, u);
      }
      forall j | 0 <= j < DESC_CNT
        ensures ListOk(g.mem, |h.pages.virt|, g.arenas, g.free[j], j)
      {
        GrowList(h, k, j);
      }
      forall q: Addr
        ensures Live(g, q) <==> Live(h, q)
        ensures Live(h, q) ==>
          Words(g.arenas, q) == Words(h.arenas, q) && SameOn(h.mem, g.mem, q, q + Words(h.arenas, q))
      {
        GrowLive(h, k, q);
      }
    }
  }

  // ----- a large arena

  lemma FormatLargeOk(m: Memory, n: nat, v: nat, cnt: nat, k: nat)
    requires cnt > 0 && k < DESC_CNT && v + cnt <= n && |m| == n * PAGE + 2 * DESC_CNT
    ensures var m' := FormatLarge(m, v, cnt);
      && Touches(m, m', HeadOf(n, k), [v * PAGE], cnt * PAGE, -1)
      && m'[v * PAGE] == NULL && m'[v * PAGE + 1] == cnt && m'[v * PAGE + 2] == 1
      && ZeroOn(m', v * PAGE + HEADER, (v + cnt) * PAGE)
  {
    hide HeadOf, Headed, Zero;
    HeadedOk(m, v, cnt, NULL, cnt, 1);
    var m' := FormatLarge(m, v, cnt);
    forall a | 0 <= a < |m| && Off(a, [v * PAGE], cnt * PAGE)
      ensures m'[a] == m[a]
    {
      assert v * PAGE in [v * PAGE];
    }
  }

  /** malloc_page, memset and the header of an arena of `cnt` pages. */
  ghost function MallocLarge(h: State, cnt: nat): (State, Addr)
    requires Sound(h) && cnt > 0
  {
    NewPages(h, cnt);
    var (q, v) := PageMalloc(h.pages, cnt);
    if v == NOT_FOUND then (h.(pages := q), NULL)
    else (State(FormatLarge(h.mem, v, cnt), q, h.arenas[v := Large(cnt)], h.free), v * PAGE + HEADER)
  }

  lemma LargeWrites(h: State, cnt: nat)
    requires Sound(h) && cnt > 0 && MallocLarge(h, cnt).1 != NULL
    ensures var (g, v) := (MallocLarge(h, cnt).0, PageMalloc(h.pages, cnt).1);
      && v !in h.arenas && v + cnt <= |h.pages.virt|
      && (forall k: nat :: k < DESC_CNT ==> Intact(h, g.mem, k, [], -1))
      && g.arenas == h.arenas[v := Large(cnt)] && g.free == h.free && |g.mem| == |h.mem|
      && g.pages == PageMalloc(h.pages, cnt).0 && MallocLarge(h, cnt).1 == v * PAGE + HEADER
      && g.mem[v * PAGE] == NULL && g.mem[v * PAGE + 1] == cnt && g.mem[v * PAGE + 2] == 1
      && ZeroOn(g.mem, v * PAGE + HEADER, (v + cnt) * PAGE)
  {
    hide Ring, Laid, HeaderOk, ListOk, Mapped, Covered, FormatLarge, Intact, Touches, PageMalloc;
    NewPages(h, cnt);
    var v := PageMalloc(h.pages, cnt).1;
    LaidWith(h.pages.virt, h.arenas, v, Large(cnt));
    forall k: nat | k < DESC_CNT
      ensures Intact(h, MallocLarge(h, cnt).0.mem, k, [], -1)
    {
      FormatLargeOk(h.mem, |h.pages.virt|, v, cnt, k);
      PageWriteIntact(h, MallocLarge(h, cnt).0.mem, k, v, cnt);
    }
    FormatLargeOk(h.mem, |h.pages.virt|, v, cnt, 0);
  }

  lemma LargeHeader(h: State, cnt: nat, u: nat)
    requires Sound(h) && cnt > 0 && MallocLarge(h, cnt).1 != NULL && u in MallocLarge(h, cnt).0.arenas
    ensures var g := MallocLarge(h, cnt).0; (u + 1) * PAGE <= |g.mem| && HeaderOk(g.mem, u, g.arenas[u], g.free)
  {
    hide Ring, Laid, ListOk, Mapped, Covered, PageMalloc, MallocLarge, Intact;
    LargeWrites(h, cnt);
    var g, v := MallocLarge(h, cnt).0, PageMalloc(h.pages, cnt).1;
    if u != v {
      IntactHeader(h, g.mem, 0, [], -1, u);
    }
  }

  lemma LargeList(h: State, cnt: nat, j: nat)
    requires Sound(h) && cnt > 0 && MallocLarge(h, cnt).1 != NULL && j < DESC_CNT
    ensures var g := MallocLarge(h, cnt).0; ListOk(g.mem, |h.pages.virt|, g.arenas, h.free[j], j)
  {
    hide Ring, Laid, HeaderOk, Mapped, Covered, PageMalloc, MallocLarge, Intact, InArena;
    LargeWrites(h, cnt);
    var g := MallocLarge(h, cnt).0;
    OtherList(h, g.mem, if j == 0 then 1 else 0, [], -1, j);
    WiderList(g.mem, |h.pages.virt|, h.arenas, g.arenas, h.free[j], j);
  }

  lemma LargeLive(h: State, cnt: nat, q: Addr)
    requires Sound(h) && cnt > 0 && MallocLarge(h, cnt).1 != NULL
    ensures var (g, p) := MallocLarge(h, cnt);
      && |g.free| == DESC_CNT && !Live(h, p) && IsPiece(g.arenas, p) && Words(g.arenas, p) == cnt * PAGE - HEADER
      && (Live(g, q) <==> Live(h, q) || q == p)
    ensures var g := MallocLarge(h, cnt).0; Live(h, q) ==>
      Words(g.arenas, q) == Words(h.arenas, q) && SameOn(h.mem, g.mem, q, q + Words(h.arenas, q))
  {
    hide Ring, Laid, HeaderOk, ListOk, Mapped, Covered, PageMalloc, MallocLarge, Intact, InArena, SameOn;
    LargeWrites(h, cnt);
    var g, v := MallocLarge(h, cnt).0, PageMalloc(h.pages, cnt).1;
    assert PageOf(v * PAGE + HEADER) == v;
    if Live(h, q) {
      LiveIntact(h, g.mem, 0, [], -1, q);
    }
  }

  lemma LargeOk(h: State, cnt: nat)
    requires Sound(h) && cnt > 0
    ensures MallocLarge(h, cnt).1 == NULL <==> NoPages(h, cnt)
    ensures MallocLarge(h, cnt).1 == NULL ==>
      MallocLarge(h, cnt).0 == h.(pages := PageMalloc(h.pages, cnt).0) && Sound(MallocLarge(h, cnt).0)
    ensures MallocLarge(h, cnt).1 != NULL ==>
      var (g, p) := MallocLarge(h, cnt);
      && Sound(g) && g.free == h.free && |g.pages.virt| == |h.pages.virt|
      && PageOf(p) !in h.arenas && g.arenas == h.arenas[PageOf(p) := Large(cnt)]
      && !Live(h, p) && IsPiece(g.arenas, p) && Words(g.arenas, p) == cnt * PAGE - HEADER
      && (forall q: Addr :: Live(g, q) <==> Live(h, q) || q == p)
      && ZeroOn(g.mem, p, p + Words(g.arenas, p))
      && (forall q: Addr :: Live(h, q) ==>
            Words(g.arenas, q) == Words(h.arenas, q) && SameOn(h.mem, g.mem, q, q + Words(h.arenas, q)))
  {
    hide Ring, HeaderOk, ListOk, Mapped, PageMalloc, Intact, IsBlock, IsLarge, Words, SameOn, Laid, FormatLarge;
    NewPages(h, cnt);
    if MallocLarge(h, cnt).1 == NULL {
      FailedPages(h, cnt);
    } else {
      LargeWrites(h, cnt);
      var (g, p) := MallocLarge(h, cnt);
      var v := PageMalloc(h.pages, cnt).1;
      LaidWith(h.pages.virt, h.arenas, v, Large(cnt));
      CoveredWith(h.pages.table, g.pages.table, h.arenas, v, Large(cnt));
      LargeLive(h, cnt, p);
      assert PageOf(p) == v;
      forall u | u in g.arenas
        ensures (u + 1) * PAGE <= |g.mem| && HeaderOk(g.mem, u, g.arenas[u], g.free)
      {
        LargeHeader(h, cnt, u);
      }
      forall j | 0 <= j < DESC_CNT
        ensures ListOk(g.mem, |h.pages.virt|, g.arenas, g.free[j], j)
      {
        LargeList(h, cnt, j);
      }
      forall q: Addr
        ensures Live(g, q) <==> Live(h, q) || q == p
        ensures Live(h, q) ==>
          Words(g.arenas, q) == Words(h.arenas, q) && SameOn(h.mem, g.mem, q, q + Words(h.arenas, q))
      {
        LargeLive(h, cnt, q);
      }
    }
  }
}
