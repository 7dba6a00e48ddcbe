/** The slots of the five-level timing wheel of core/frog/timer.c: which list a timer may be on, and
    what the steps of the wheel do to that. */
module TimerSlots {
  import opened FlatTimers
  import opened Sequences

  const TVN_SIZE: nat := 64
  const TVR_SIZE: nat := 256

  /** The list heads that `timer->list` can hang on: a slot of one of the vectors tv1..tv5
      (levels 0..4), or the list `queued` of run_timer_list. */
  datatype ListHead = Vec(level: nat, slot: nat) | Queued

  function Size(level: nat): nat { if level == 0 then TVR_SIZE else TVN_SIZE }

  predicate IsHead(h: ListHead) {
    h.Queued? || (h.level < NOOF_TVECS && h.slot < Size(h.level))
  }

  type Lists = map<ListHead, seq<Timer>>
  type Places = map<Timer, ListHead>

  // ----- where timers sit

  /** `place` is the inverse of `lists`: each linked timer is on exactly one list, once. */
  ghost predicate Linked(lists: Lists, place: Places) {
    && (forall h :: h in lists <==> IsHead(h))
    && (forall h, i :: h in lists && 0 <= i < |lists[h]| ==> lists[h][i] in place && place[lists[h][i]] == h)
    && (forall h, i, j :: h in lists && 0 <= i < j < |lists[h]| ==> lists[h][i] != lists[h][j])
    && (forall t :: t in place ==> place[t] in lists && t in lists[place[t]])
  }

  /** The number of the slot, counted without wrapping, that level `n` cascades next. Within
      an iteration the levels below `done` have been cascaded already. */
  function NextBlock(now: nat, n: nat, done: nat): nat
    requires n < NOOF_TVECS
  {
    var u := Unit(n);
    if n < done then now / u + 1 else (now + u - 1) / u
  }

  /** A timer due at `d` may sit on the list `h`. */
  ghost predicate Fits(s: Flat, h: ListHead, d: nat, expires: nat, done: nat)
    requires IsHead(h)
  {
    match h
    case Queued => d == DueTick(s.Clock(), expires)
    case Vec(n, slot) =>
      if n == 0 then s.now <= d < s.now + TVR_SIZE && slot == d % TVR_SIZE
      else
        && d % WORD == expires
        && NextBlock(s.now, n, done) <= d / Unit(n) < NextBlock(s.now, n, done) + TVN_SIZE
        && slot == d / Unit(n) % TVN_SIZE
  }

  ghost predicate Scheduled(s: Flat, place: Places, expires: map<Timer, nat>, done: nat) {
    && place.Keys == s.due.Keys
    && (forall t :: t in place ==>
      t in expires && expires[t] < WORD && IsHead(place[t]) && Fits(s, place[t], s.due[t], expires[t], done))
  }

  ghost predicate Indexed(index: seq<nat>, now: nat, done: nat) {
    && |index| == NOOF_TVECS
    && index[0] == now % TVR_SIZE
    && (forall n :: 1 <= n < NOOF_TVECS ==> index[n] == NextBlock(now, n, done) % TVN_SIZE)
  }

  // ----- the placement computed by internal_add_timer

  /** The list chosen for a timer when `running` is not set. */
  function Target(index0: nat, jiffies: nat, expires: nat): (h: ListHead)
    ensures h.Vec?
  {
    var idx := (expires - jiffies) % WORD;
    if idx < 0x100 then Vec(0, expires % TVR_SIZE)
    else if idx < 0x4000 then Vec(1, expires / 0x100 % TVN_SIZE)
    else if idx < 0x10_0000 then Vec(2, expires / 0x4000 % TVN_SIZE)
    else if idx < 0x400_0000 then Vec(3, expires / 0x10_0000 % TVN_SIZE)
    else if idx >= HALF then Vec(0, index0)
    else Vec(4, expires / 0x400_0000 % TVN_SIZE)
  }

  lemma MulBounds(g: int, u: int)
    requires 0 < u
    ensures g > 0 ==> g * u >= u
    ensures g < 0 ==> g * u <= -u
  {
    if g > 0 {
      assert (g - 1) * u >= 0;
    } else if g < 0 {
      assert (-g - 1) * u >= 0;
    }
  }

  lemma QuotientsAgree(a: int, q: int, u: int, r: int)
    requires 0 < u && -u < r < u && a * u == q * u + r
    ensures a == q
  {
    assert (a - q) * u == r;
    MulBounds(a - q, u);
  }

  lemma Regroup(k: nat, c: nat, u: nat)
    ensures k * (64 * c * u) == 64 * (k * c) * u
  {
  }

  lemma QuotientShift(e: nat, q: nat, u: nat)
    requires u > 0
    ensures (q * u + e) / u == q + e / u
  {
    var x := q * u + e;
    assert x == x / u * u + x % u && e == e / u * u + e % u;
    assert (q + e / u) * u == q * u + e / u * u;
    QuotientsAgree(x / u, q + e / u, u, e % u - x % u);
  }

  /** Adding a multiple of a whole turn does not change a slot number. */
  lemma SlotPeriodic(e: nat, k: nat, u: nat, c: nat, turns: nat)
    requires u > 0 && turns == 64 * c * u
    ensures (k * turns + e) / u % 64 == e / u % 64
  {
    Regroup(k, c, u);
    var q, r := k * c, e / u;
    QuotientShift(e, 64 * q, u);
    assert (64 * q + r) % 64 == r % 64;
  }

  /** The slot number at any level depends only on the low 32 bits of the tick. */
  lemma SlotOfLowBits(d: nat, expires: nat, n: nat)
    requires expires < WORD && d % WORD == expires
    requires n < NOOF_TVECS
    ensures d / Unit(n) % TVN_SIZE == expires / Unit(n) % TVN_SIZE
    ensures d % TVR_SIZE == expires % TVR_SIZE
  {
    hide Unit, TurnsOf;
    var k := d / WORD;
    assert d == k * WORD + expires;
    LowByte(d, expires);
    SlotPeriodic(expires, k, Unit(n), TurnsOf(n), WORD);
  }

  /** How often level `n` turns while 32 bits of ticks go by. */
  function TurnsOf(n: nat): (c: nat)
    requires n < NOOF_TVECS
    ensures 64 * c * Unit(n) == WORD
  {
    if n == 0 then 0x400_0000
    else if n == 1 then 0x4_0000
    else if n == 2 then 0x1000
    else if n == 3 then 0x40
    else 1
  }

  lemma LowByte(d: nat, expires: nat)
    requires expires < WORD && d % WORD == expires
    ensures d % TVR_SIZE == expires % TVR_SIZE
  {
    var k := d / WORD;
    assert d == k * 0x100_0000 * 0x100 + expires;
  }

  /** The 32-bit clock is as good as the full one for the distance to an expiry. */
  lemma SameDistance(expires: nat, now: nat)
    ensures (expires - now % WORD) % WORD == (expires - now) % WORD
  {
    var k := now / WORD;
    assert expires - now % WORD == (expires - now) + k * WORD;
  }

  /** A due tick at least one and less than 64 slot widths ahead lies within one turn of level `n`. */
  lemma WithinTurn(now: nat, d: nat, n: nat, done: nat)
    requires 1 <= n < NOOF_TVECS && Unit(n) <= d - now < TVN_SIZE * Unit(n)
    ensures NextBlock(now, n, done) <= d / Unit(n) < NextBlock(now, n, done) + TVN_SIZE
  {
    if n == 1 {
    } else if n == 2 {
    } else if n == 3 {
    }
  }

  /** A timer placed by internal_add_timer sits where its due tick asks, however many of the
      levels have been cascaded in this iteration. */
  lemma TargetFits(s: Flat, index: seq<nat>, expires: nat, done: nat)
    requires !s.firing && expires < WORD && done <= NOOF_TVECS
    requires |index| == NOOF_TVECS && index[0] == s.now % TVR_SIZE
    ensures IsHead(Target(index[0], s.now % WORD, expires))
    ensures Fits(s, Target(index[0], s.now % WORD, expires), DueTick(s.now, expires), expires, done)
  {
    var d := DueTick(s.now, expires);
    SameDistance(expires, s.now);
    hide NextBlock;
    var n := Target(index[0], s.now % WORD, expires).level;
    if (expires - s.now) % WORD < HALF {
      SlotOfLowBits(d, expires, n);
      if n > 0 {
        WithinTurn(s.now, d, n, done);
      }
    }
  }

  /** The same of the list that internal_add_timer chooses, `queued` while timers are being run. */
  lemma ChoiceFits(s: Flat, index: seq<nat>, expires: Word, done: nat)
    requires Indexed(index, s.now, done) && done <= NOOF_TVECS
    ensures var h := if s.firing then Queued else Target(index[0], s.now % WORD, expires);
      IsHead(h) && Fits(s, h, DueTick(s.Clock(), expires), expires, done)
  {
    if !s.firing {
      TargetFits(s, index, expires, done);
    }
  }

  // ----- moving to the next tick

  /** Which levels an iteration at tick `now` cascades: those whose slot width divides it. */
  predicate Wraps(now: nat, n: nat)
    requires n < NOOF_TVECS
  {
    now % Unit(n) == 0
  }

  lemma WrapsDown(now: nat, n: nat, m: nat)
    requires n <= m < NOOF_TVECS && Wraps(now, m)
    ensures Wraps(now, n)
  {
    if n < m {
      var q := now / Unit(m);
      assert now == q * Unit(m);
      assert Unit(m) == 64 * Unit(m-1) || Unit(m) == 256 * Unit(m-1);
      if Unit(m) == 64 * Unit(m-1) {
        MultipleWraps(now, 64 * q, Unit(m-1));
      } else {
        MultipleWraps(now, 256 * q, Unit(m-1));
      }
      WrapsDown(now, n, m - 1);
    }
  }

  lemma MultipleWraps(x: nat, q: nat, u: nat)
    requires u > 0 && x == q * u
    ensures x % u == 0 && x / u == q
  {
    assert x == x / u * u + x % u;
    QuotientsAgree(x / u, q, u, -(x % u));
  }

  /** At a tick that `n` does not divide, its next block is the one after the current. */
  lemma BlockUnmoved(now: nat, n: nat)
    requires n < NOOF_TVECS && !Wraps(now, n)
    ensures (now + Unit(n) - 1) / Unit(n) == now / Unit(n) + 1
  {
    var u := Unit(n);
    var x := now + u - 1;
    assert now == now / u * u + now % u;
    assert x == x / u * u + x % u;
    QuotientsAgree(x / u, now / u + 1, u, now % u - 1 - x % u);
  }

  /** Levels from `n` on need no cascade once level `n` does not wrap. */
  lemma NoFurtherCascade(s: Flat, index: seq<nat>, place: Places, expires: map<Timer, nat>, n: nat)
    requires 1 <= n < NOOF_TVECS && !Wraps(s.now, n)
    requires Indexed(index, s.now, n) && Scheduled(s, place, expires, n)
    ensures Indexed(index, s.now, NOOF_TVECS) && Scheduled(s, place, expires, NOOF_TVECS)
  {
    forall m: nat | n <= m < NOOF_TVECS
      ensures NextBlock(s.now, m, n) == NextBlock(s.now, m, NOOF_TVECS)
    {
      if Wraps(s.now, m) {
        WrapsDown(s.now, n, m);
      }
      BlockUnmoved(s.now, m);
    }
  }

  lemma SameResidue(a: nat, b: nat)
    requires a % TVN_SIZE == b % TVN_SIZE && b <= a < b + TVN_SIZE
    ensures a == b
  {
  }

  /** A timer in the slot being cascaded is due within that slot's ticks. */
  lemma DueInSlot(s: Flat, n: nat, d: nat, expires: nat)
    requires 1 <= n < NOOF_TVECS && Wraps(s.now, n) && expires < WORD
    requires Fits(s, Vec(n, NextBlock(s.now, n, n) % TVN_SIZE), d, expires, n)
    ensures s.now <= d < s.now + Unit(n)
    ensures (expires - s.now) % WORD == d - s.now && DueTick(s.now, expires) == d
  {
    hide Unit, DueTick;
    BlockOfWrap(s.now, n);
    SameResidue(d / Unit(n), s.now / Unit(n));
    SameBlock(d, s.now, Unit(n));
    UnitBound(n);
    WordDistance(d, expires, s.now);
    DueAt(s.now, d, expires);
  }

  lemma SameBlock(d: nat, now: nat, u: nat)
    requires u > 0 && now % u == 0 && d / u == now / u
    ensures now <= d < now + u
  {
    assert d == d / u * u + d % u && now == now / u * u;
  }

  lemma UnitBound(n: nat)
    requires n < NOOF_TVECS
    ensures Unit(n) <= 0x400_0000
  {
  }

  lemma WordDistance(d: nat, expires: nat, now: nat)
    requires d % WORD == expires && now <= d < now + WORD
    ensures (expires - now) % WORD == d - now
  {
    var k := d / WORD;
    assert expires - now == (d - now) - k * WORD;
  }

  lemma DueAt(now: nat, d: nat, expires: nat)
    requires (expires - now) % WORD == d - now && d - now < HALF
    ensures DueTick(now, expires) == d
  {
  }

  lemma BlockOfWrap(now: nat, n: nat)
    requires 1 <= n < NOOF_TVECS && Wraps(now, n)
    ensures NextBlock(now, n, n) == now / Unit(n)
    ensures NextBlock(now, n, n + 1) == now / Unit(n) + 1
  {
    var u := Unit(n);
    MultipleWraps(now, now / u, u);
    QuotientsAgree((now + u - 1) / u, now / u, u, (u - 1) - (now + u - 1) % u);
  }

  lemma FitsAfterCascade(s: Flat, h: ListHead, d: nat, expires: nat, n: nat)
    requires 1 <= n < NOOF_TVECS && Wraps(s.now, n) && IsHead(h) && Fits(s, h, d, expires, n)
    requires h != Vec(n, NextBlock(s.now, n, n) % TVN_SIZE)
    ensures Fits(s, h, d, expires, n + 1)
  {
    BlockOfWrap(s.now, n);
  }

  /** Cascading the slot `NextBlock` of level `n` leaves every timer where level `n + 1`
      expects it, once that slot is empty. */
  lemma CascadeDone(s: Flat, index: seq<nat>, place: Places, expires: map<Timer, nat>, n: nat)
    requires 1 <= n < NOOF_TVECS && Wraps(s.now, n)
    requires Indexed(index, s.now, n) && Scheduled(s, place, expires, n)
    requires forall t :: t in place ==> place[t] != Vec(n, index[n])
    ensures Indexed(index[n := (index[n] + 1) % TVN_SIZE], s.now, n + 1)
    ensures Scheduled(s, place, expires, n + 1)
  {
    hide Fits, Unit, NextBlock, Wraps;
    NextIndex(s.now, n);
    forall t | t in place
      ensures Fits(s, place[t], s.due[t], expires[t], n + 1)
    {
      FitsAfterCascade(s, place[t], s.due[t], expires[t], n);
    }
  }

  lemma NextIndex(now: nat, n: nat)
    requires 1 <= n < NOOF_TVECS && Wraps(now, n)
    ensures NextBlock(now, n, n + 1) % TVN_SIZE == (NextBlock(now, n, n) % TVN_SIZE + 1) % TVN_SIZE
    ensures forall m: nat :: 1 <= m < NOOF_TVECS && m != n ==> NextBlock(now, m, n + 1) == NextBlock(now, m, n)
  {
    hide NextBlock, Unit;
    BlockOfWrap(now, n);
    NextSlot(NextBlock(now, n, n));
    OtherBlocks(now, n);
  }

  lemma NextSlot(q: nat)
    ensures (q + 1) % TVN_SIZE == (q % TVN_SIZE + 1) % TVN_SIZE
    ensures (q + 1) % TVN_SIZE == 1 <==> q % TVN_SIZE == 0
  {
  }

  lemma OtherBlocks(now: nat, n: nat)
    requires 1 <= n < NOOF_TVECS
    ensures forall m: nat :: 1 <= m < NOOF_TVECS && m != n ==> NextBlock(now, m, n + 1) == NextBlock(now, m, n)
  {
    hide Unit;
  }

  /** With all levels cascaded, the timers due now are exactly those in the current slot of tv1. */
  lemma CurrentSlot(s: Flat, h: ListHead, d: nat, expires: nat)
    requires IsHead(h) && Fits(s, h, d, expires, NOOF_TVECS) && s.firing
    ensures d == s.now <==> h == Vec(0, s.now % TVR_SIZE)
  {
    if h.Vec? && h.level > 0 && d == s.now {
      assert false;
    }
  }

  lemma NextBlockAdvances(now: nat, n: nat)
    requires 1 <= n < NOOF_TVECS
    ensures NextBlock(now + 1, n, 1) == NextBlock(now, n, NOOF_TVECS)
  {
    var u := Unit(n);
    assert now == now / u * u + now % u;
    assert now + u == (now + u) / u * u + (now + u) % u;
    QuotientsAgree((now + u) / u, now / u + 1, u, now % u - (now + u) % u);
  }

  lemma FitsNextTick(s: Flat, h: ListHead, d: nat, expires: nat)
    requires IsHead(h) && Fits(s, h, d, expires, NOOF_TVECS)
    requires s.firing && d != s.now
    ensures Fits(Step(s, End), h, d, expires, 1)
  {
    if h.Vec? && h.level > 0 {
      NextBlockAdvances(s.now, h.level);
    }
  }

  /** Once no timer is due now, the wheel is set up for the next tick. */
  lemma NextTick(s: Flat, index: seq<nat>, place: Places, expires: map<Timer, nat>)
    requires Indexed(index, s.now, NOOF_TVECS) && Scheduled(s, place, expires, NOOF_TVECS)
    requires s.firing && Enabled(s, End)
    ensures Indexed(index[0 := (index[0] + 1) % TVR_SIZE], s.now + 1, 1)
    ensures Scheduled(Step(s, End), place, expires, 1)
  {
    forall n: nat | 1 <= n < NOOF_TVECS
      ensures NextBlock(s.now + 1, n, 1) == NextBlock(s.now, n, NOOF_TVECS)
    {
      NextBlockAdvances(s.now, n);
    }
    forall t | t in place
      ensures Fits(Step(s, End), place[t], s.due[t], expires[t], 1)
    {
      FitsNextTick(s, place[t], s.due[t], expires[t]);
    }
  }

  // ----- linking and unlinking one timer

  lemma HeadLinked(lists: Lists, place: Places, h: ListHead)
    requires Linked(lists, place)
    ensures Queued in lists && (IsHead(h) ==> h in lists)
    ensures h in lists ==> forall t :: t in lists[h] ==> t in place && place[t] == h
    ensures h in lists && lists[h] == [] ==> forall t :: t in place ==> place[t] != h
  {
  }

  lemma LinkTail(lists: Lists, place: Places, h: ListHead, t: Timer)
    requires Linked(lists, place) && IsHead(h) && t !in place
    ensures Linked(lists[h := lists[h] + [t]], place[t := h])
  {
  }

  lemma LinkRemove(lists: Lists, place: Places, t: Timer)
    requires Linked(lists, place) && t in place
    ensures Linked(lists[place[t] := Unlink(lists[place[t]], t)], place - {t})
  {
    hide Unlink;
    assert Distinct(lists[place[t]]);
    UnlinkMembers(lists[place[t]], t);
    var lists' := lists[place[t] := Unlink(lists[place[t]], t)];
    forall h, i | h in lists' && 0 <= i < |lists'[h]|
      ensures lists'[h][i] in place - {t} && place[lists'[h][i]] == h
    {
      assert lists'[h][i] in lists[h];
    }
  }

  lemma ScheduledWithout(s: Flat, place: Places, expires: map<Timer, nat>, done: nat, t: Timer)
    requires Scheduled(s, place, expires, done)
    ensures Scheduled(s.(due := s.due - {t}), place - {t}, expires, done)
  {
    forall x | x in place - {t}
      ensures Fits(s.(due := s.due - {t}), place[x], s.due[x], expires[x], done)
    {
      assert Fits(s, place[x], s.due[x], expires[x], done);
    }
  }

  lemma ScheduledWith(s: Flat, place: Places, expires: map<Timer, nat>, done: nat, t: Timer, h: ListHead, e: Word)
    requires Scheduled(s, place, expires, done) && t !in place
    requires IsHead(h) && Fits(s, h, DueTick(s.Clock(), e), e, done)
    ensures Scheduled(s.(due := s.due[t := DueTick(s.Clock(), e)]), place[t := h], expires[t := e], done)
  {
    var s' := s.(due := s.due[t := DueTick(s.Clock(), e)]);
    forall x | x in place
      ensures Fits(s', place[x], s.due[x], expires[x], done)
    {
      assert Fits(s, place[x], s.due[x], expires[x], done);
    }
    assert Fits(s', h, s'.due[t], e, done);
  }

  /** How timers were armed has no part in where they may sit. */
  lemma ScheduledSame(s: Flat, s': Flat, place: Places, expires: map<Timer, nat>, done: nat)
    requires Scheduled(s, place, expires, done)
    requires s'.now == s.now && s'.firing == s.firing && s'.due == s.due
    ensures Scheduled(s', place, expires, done)
  {
    forall t | t in place
      ensures Fits(s', place[t], s'.due[t], expires[t], done)
    {
      assert Fits(s, place[t], s.due[t], expires[t], done);
    }
  }

  /** Re-adding a cascaded timer moves it to a lower level and keeps its due tick. */
  lemma RequeueFits(s: Flat, index: seq<nat>, place: Places, expires: map<Timer, nat>, n: nat, t: Timer)
    requires 1 <= n < NOOF_TVECS && !s.firing && Wraps(s.now, n)
    requires Indexed(index, s.now, n) && Scheduled(s, place, expires, n)
    requires t in place && place[t] == Vec(n, index[n])
    ensures var h := Target(index[0], s.now % WORD, expires[t]);
      IsHead(h) && h != Queued && h.level < n && Scheduled(s, (place - {t})[t := h], expires, n)
    ensures t in expires && |index| == NOOF_TVECS && index[0] < TVR_SIZE
  {
    hide NextBlock, Unit, Target, DueTick, Fits;
    DueInSlot(s, n, s.due[t], expires[t]);
    var h := Target(index[0], s.now % WORD, expires[t]);
    LowerLevel(s.now, index[0], expires[t], n);
    ScheduledWithout(s, place, expires, n, t);
    var s' := s.(due := s.due - {t});
    TargetFits(s', index, expires[t], n);
    ScheduledWith(s', place - {t}, expires, n, t, h, expires[t]);
    assert s'.(due := s'.due[t := DueTick(s'.Clock(), expires[t])]) == s;
    assert expires[t := expires[t]] == expires;
  }

  lemma LowerLevel(now: nat, index0: nat, expires: nat, n: nat)
    requires 1 <= n < NOOF_TVECS
    requires expires < WORD && (expires - now) % WORD < Unit(n)
    ensures var h := Target(index0, now % WORD, expires); h.Vec? && h.level < n
  {
    SameDistance(expires, now);
  }

  /** The loop test of run_timer_list: after its cascade the index of level `n` is 1 exactly
      when the level above has reached a slot boundary too. */
  lemma IndexTest(now: nat, n: nat)
    requires 1 <= n < NOOF_TVECS - 1 && Wraps(now, n)
    ensures NextBlock(now, n, n + 1) % TVN_SIZE == 1 <==> Wraps(now, n + 1)
  {
    hide Unit, NextBlock;
    var u, q := Unit(n), now / Unit(n);
    BlockOfWrap(now, n);
    NextSlot(q);
    WiderUnit(n);
    assert now == q * u;
    ModOfMultiple(q, u);
    MulBounds(q % 64, u);
  }

  lemma WiderUnit(n: nat)
    requires 1 <= n < NOOF_TVECS - 1
    ensures Unit(n + 1) == 64 * Unit(n)
  {
  }

  lemma ModOfMultiple(q: nat, u: nat)
    requires u > 0
    ensures q * u % (64 * u) == q % 64 * u
  {
    var a, r, w, x := q / 64, q % 64, 64 * u, q * u;
    assert x == a * w + r * u by {
      assert q == 64 * a + r;
      assert (64 * a + r) * u == a * (64 * u) + r * u;
    }
    assert r * u < w by {
      MulBounds(64 - r, u);
      assert (64 - r) * u == w - r * u;
    }
    assert r * u >= 0;
    assert x == x / w * w + x % w;
    QuotientsAgree(x / w, a, w, r * u - x % w);
  }

  /** Setting run_timer_list_running changes no placement while `queued` is empty. */
  lemma BeginFiring(s: Flat, lists: Lists, place: Places, expires: map<Timer, nat>)
    requires Linked(lists, place) && lists[Queued] == []
    requires Scheduled(s, place, expires, NOOF_TVECS)
    ensures Scheduled(Step(s, Begin), place, expires, NOOF_TVECS)
  {
    forall t | t in place
      ensures Fits(Step(s, Begin), place[t], s.due[t], expires[t], NOOF_TVECS)
    {
      assert Fits(s, place[t], s.due[t], expires[t], NOOF_TVECS);
      assert t in lists[place[t]];
    }
  }

  /** An empty current slot of tv1 means that nothing is due now. */
  lemma NothingDue(s: Flat, lists: Lists, place: Places, expires: map<Timer, nat>)
    requires Linked(lists, place) && lists[Vec(0, s.now % TVR_SIZE)] == []
    requires s.firing && Scheduled(s, place, expires, NOOF_TVECS)
    ensures Enabled(s, End)
  {
    forall t | t in s.due
      ensures s.due[t] != s.now
    {
      CurrentSlot(s, place[t], s.due[t], expires[t]);
      assert t in lists[place[t]];
    }
  }

  /** A timer drained from `queued` is placed by the due tick it was given when armed. */
  lemma DrainFits(s: Flat, index: seq<nat>, place: Places, expires: map<Timer, nat>, t: Timer)
    requires !s.firing
    requires Indexed(index, s.now, 1) && Scheduled(s, place, expires, 1)
    requires t in place && place[t] == Queued
    ensures var h := Target(index[0], s.now % WORD, expires[t]);
      IsHead(h) && h != Queued && Scheduled(s, (place - {t})[t := h], expires, 1)
    ensures t in expires && |index| == NOOF_TVECS && index[0] < TVR_SIZE
  {
    hide NextBlock, Unit, Target, DueTick;
    TargetFits(s, index, expires[t], 1);
    var h := Target(index[0], s.now % WORD, expires[t]);
    assert Fits(s, Queued, s.due[t], expires[t], 1);
    ScheduledWithout(s, place, expires, 1, t);
    var s' := s.(due := s.due - {t});
    ScheduledWith(s', place - {t}, expires, 1, t, h, expires[t]);
    assert s'.(due := s'.due[t := DueTick(s'.Clock(), expires[t])]) == s;
    assert expires[t := expires[t]] == expires;
  }

  // ----- the order within a slot

  function ExpiryOf(expires: map<Timer, nat>, t: Timer): nat {
    if t in expires then expires[t] else 0
  }

  function Pushed(lists: Lists, h: ListHead, t: Timer): Lists {
    lists[h := (if h in lists then lists[h] else []) + [t]]
  }

  /** The timers `s` linked one after the other where internal_add_timer puts them. */
  function Distribute(lists: Lists, s: seq<Timer>, index0: nat, jiffies: nat, expires: map<Timer, nat>): Lists
    decreases |s|
  {
    if s == [] then lists
    else Distribute(Pushed(lists, Target(index0, jiffies, ExpiryOf(expires, s[0])), s[0]), s[1..], index0, jiffies, expires)
  }

  /** Those of the timers `s` that go to `h`, in order. */
  function BoundFor(h: ListHead, s: seq<Timer>, index0: nat, jiffies: nat, expires: map<Timer, nat>): seq<Timer> {
    if s == [] then []
    else
      var rest := BoundFor(h, s[1..], index0, jiffies, expires);
      if Target(index0, jiffies, ExpiryOf(expires, s[0])) == h then [s[0]] + rest else rest
  }

  lemma DistributeNone(lists: Lists, index0: nat, jiffies: nat, expires: map<Timer, nat>)
    ensures Distribute(lists, [], index0, jiffies, expires) == lists
  {
  }

  /** Timers are FIFO within a slot: those moved to a slot come behind those already there, and
      among themselves in the order they had. */
  lemma {:induction false} DistributeAppends(lists: Lists, s: seq<Timer>, index0: nat, jiffies: nat,
      expires: map<Timer, nat>, h: ListHead)
    requires h in lists
    ensures var r := Distribute(lists, s, index0, jiffies, expires);
      h in r && r[h] == lists[h] + BoundFor(h, s, index0, jiffies, expires)
    decreases |s|
  {
    hide Target, ExpiryOf;
    if s != [] {
      DistributeAppends(Pushed(lists, Target(index0, jiffies, ExpiryOf(expires, s[0])), s[0]), s[1..], index0, jiffies, expires, h);
    }
  }

  /** Moving the first timer of the list at `src` leaves what is still to be done the same. */
  lemma DistributeStep(lists: Lists, src: ListHead, index0: nat, jiffies: nat, expires: map<Timer, nat>)
    requires src in lists && lists[src] != []
    requires Target(index0, jiffies, ExpiryOf(expires, lists[src][0])) != src
    ensures var t := lists[src][0];
      var lists' := Pushed(lists[src := lists[src][1..]], Target(index0, jiffies, ExpiryOf(expires, t)), t);
      && src in lists'
      && Distribute(lists'[src := []], lists'[src], index0, jiffies, expires)
        == Distribute(lists[src := []], lists[src], index0, jiffies, expires)
  {
    hide Target, ExpiryOf;
    var t, h := lists[src][0], Target(index0, jiffies, ExpiryOf(expires, lists[src][0]));
    assert Pushed(lists[src := lists[src][1..]], h, t)[src := []] == Pushed(lists[src := []], h, t);
  }

  /** The number of iterations run_timer_list makes from tick `now`. */
  function TicksToRun(ticks: nat, now: nat): nat {
    var ahead := (ticks - now) % WORD;
    if ahead < HALF then ahead + 1 else 0
  }

  lemma TicksLeft(ticks: nat, now: nat)
    ensures (ticks - now % WORD) % WORD == (ticks - now) % WORD
    ensures TicksToRun(ticks, now) > 0 ==> TicksToRun(ticks, now + 1) == TicksToRun(ticks, now) - 1
  {
    SameDistance(ticks, now);
  }

  /** When the counters agree, one tick is run, and counting it makes them agree again. */
  lemma OneTick(now: nat)
    ensures TicksToRun(now % WORD, now) == 1 && (now % WORD + 1) % WORD == (now + 1) % WORD
  {
    var k := now / WORD;
    assert now == k * WORD + now % WORD;
  }
}
