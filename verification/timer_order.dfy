/** The order in which the lists of the timing wheel hold timers that are due in the same tick. */
module TimerOrder {
  import opened FlatTimers
  import opened Sequences
  import opened TimerSlots

  ghost predicate Precedes(s: seq<Timer>, a: Timer, b: Timer) {
    exists i, j :: 0 <= i < j < |s| && s[i] == a && s[j] == b
  }

  /** The wheel will get to `a` before it gets to `b`. */
  ghost predicate Before(lists: Lists, place: Places, a: Timer, b: Timer)
    requires a in place && b in place
  {
    && place[a].Vec? && place[b].Vec?
    && (place[a].level < place[b].level
        || (place[a] == place[b] && place[a] in lists && Precedes(lists[place[a]], a, b)))
  }

  /** The tick at which the slot of level `m` that covers `d` is cascaded. */
  function CascadeTick(d: nat, m: nat): nat
    requires m < NOOF_TVECS
  {
    d / Unit(m) * Unit(m)
  }

  /** That cascade is over; within an iteration the levels below `done` have been cascaded. */
  predicate Passed(d: nat, m: nat, now: nat, done: nat)
    requires m < NOOF_TVECS
  {
    CascadeTick(d, m) < now || (CascadeTick(d, m) == now && m < done)
  }

  /** A timer armed at `clock` for tick `d` is on level `n`: it was armed early enough for that level,
      and of the higher levels it was armed early enough for, it has been cascaded down. */
  ghost predicate Descended(clock: nat, d: nat, n: nat, now: nat, done: nat) {
    && clock <= now
    && (1 <= n < NOOF_TVECS ==> clock + Unit(n) <= d)
    && (forall m :: n < m < NOOF_TVECS && clock + Unit(m) <= d ==> Passed(d, m, now, done))
  }

  ghost predicate Aged(s: Flat, h: ListHead, t: Timer, done: nat)
    requires t in s.armed && t in s.due
  {
    && s.armed[t].stamp < s.stamp
    && match h
       case Queued => s.armed[t].clock == s.Clock()
       case Vec(n, _) => Descended(s.armed[t].clock, s.due[t], n, s.now, done)
  }

  /** Two pending timers that are due in the same tick. */
  ghost predicate SameTick(s: Flat, a: Timer, b: Timer) {
    a in s.armed && b in s.armed && a in s.due && b in s.due && a != b && s.due[a] == s.due[b]
  }

  /** The lists hold timers of one tick in the order in which they are to be called. */
  ghost predicate Sorted(s: Flat, lists: Lists, place: Places) {
    forall a, b :: a in place && b in place && SameTick(s, a, b) && Before(lists, place, a, b) ==>
      First(s.armed[a], s.armed[b], s.due[a])
  }

  predicate Earlier(s: Flat, a: Timer, b: Timer) {
    a in s.armed && b in s.armed && s.armed[a].stamp < s.armed[b].stamp
  }

  /** Timers armed by callbacks stand in `queued` in the order in which they were armed, and were
      armed after all others. */
  ghost predicate QueuedLast(s: Flat, lists: Lists, place: Places) {
    && Queued in lists
    && (forall a, b :: a in place && b in place && place[a].Vec? && place[b] == Queued ==> Earlier(s, a, b))
    && (forall i, j :: 0 <= i < j < |lists[Queued]| ==> Earlier(s, lists[Queued][i], lists[Queued][j]))
  }

  ghost predicate AllAged(s: Flat, place: Places, done: nat) {
    && s.armed.Keys == s.due.Keys == place.Keys
    && forall t :: t in place ==> Aged(s, place[t], t, done)
  }

  ghost predicate Ordered(s: Flat, lists: Lists, place: Places, done: nat) {
    AllAged(s, place, done) && Sorted(s, lists, place) && QueuedLast(s, lists, place)
  }

  // ----- arithmetic of levels

  /** `n` is the level for a timer due `x` ticks from now. */
  predicate LevelFor(x: nat, n: nat) {
    && n < NOOF_TVECS
    && (n > 0 ==> Unit(n) <= x)
    && (forall m :: n < m < NOOF_TVECS ==> x < Unit(m))
  }

  lemma TargetLevel(index0: nat, now: nat, expires: nat)
    requires expires < WORD
    ensures var h := Target(index0, now % WORD, expires); LevelFor(DueTick(now, expires) - now, h.level)
  {
    SameDistance(expires, now);
    assert Unit(1) == 0x100 && Unit(2) == 0x4000 && Unit(3) == 0x10_0000 && Unit(4) == 0x400_0000;
  }

  lemma CascadeTickBounds(d: nat, m: nat)
    requires m < NOOF_TVECS
    ensures CascadeTick(d, m) <= d < CascadeTick(d, m) + Unit(m)
  {
    assert d == d / Unit(m) * Unit(m) + d % Unit(m);
  }

  /** A timer that `Fits` has not missed the cascade of its slot. */
  lemma NotMissed(s: Flat, h: ListHead, d: nat, expires: nat, done: nat)
    requires IsHead(h) && h.Vec? && h.level > 0 && Fits(s, h, d, expires, done)
    ensures s.now <= CascadeTick(d, h.level)
    ensures h.level < done ==> s.now < CascadeTick(d, h.level)
  {
    hide Target;
    var u, q := Unit(h.level), d / Unit(h.level);
    assert s.now == s.now / u * u + s.now % u;
    if h.level < done {
      MulBounds(q - s.now / u, u);
      assert (q - s.now / u) * u == q * u - s.now / u * u;
    } else {
      var c := (s.now + u - 1) / u;
      assert s.now + u - 1 == c * u + (s.now + u - 1) % u;
      MulBounds(q - c, u);
      assert (q - c) * u == q * u - c * u;
    }
  }

  /** A timer linked at `now` on level `n` meets an older one for the same tick that is on level `m`:
      on the same level it comes behind it, otherwise it has overtaken it. */
  lemma Landing(now: nat, d: nat, clock: nat, m: nat, n: nat)
    requires now <= d && m < NOOF_TVECS && LevelFor(d - now, n)
    requires Descended(clock, d, m, now, 1) && (m > 0 ==> now <= CascadeTick(d, m))
    ensures m >= n && (Overtakes(clock, now, d) <==> m > n)
  {
    hide Unit;
    if m < n {
      assert Passed(d, n, now, 1);
      CascadeTickBounds(d, n);
    }
    if m > n {
      assert clock + Unit(m) <= d < now + Unit(m) && now <= d / Unit(m) * Unit(m);
    } else {
      forall k | 1 <= k < NOOF_TVECS && clock + Unit(k) <= d < now + Unit(k)
        ensures d / Unit(k) * Unit(k) < now
      {
        UnitsGrow(k, n);
        assert k > n ==> Passed(d, k, now, 1);
      }
    }
  }

  lemma UnitsGrow(a: nat, b: nat)
    requires a < NOOF_TVECS && b < NOOF_TVECS
    ensures a <= b ==> Unit(a) <= Unit(b)
    ensures a < b ==> 64 * Unit(a) <= Unit(b)
  {
  }

  // ----- sequences

  /** The place in `s` of what stands at `i` once place `k` is cut out. */
  function Uncut(k: nat, i: nat): nat {
    if i < k then i else i + 1
  }

  lemma CutAt(s: seq<Timer>, k: nat, i: nat)
    requires k < |s| && i < |s| - 1
    ensures |s[..k] + s[k+1..]| == |s| - 1 && (s[..k] + s[k+1..])[i] == s[Uncut(k, i)]
  {
  }

  lemma UnlinkPrecedes(s: seq<Timer>, x: Timer, a: Timer, b: Timer)
    requires Distinct(s) && Precedes(Unlink(s, x), a, b)
    ensures Precedes(s, a, b)
  {
    hide Unlink;
    if x in s {
      var k :| 0 <= k < |s| && s[k] == x;
      UnlinkAt(s, x, k);
      var r := Unlink(s, x);
      var i, j :| 0 <= i < j < |r| && r[i] == a && r[j] == b;
      CutAt(s, k, i);
      CutAt(s, k, j);
      assert Uncut(k, i) < Uncut(k, j);
    } else {
      UnlinkNone(s, x);
    }
  }

  lemma {:induction false} UnlinkNone(s: seq<Timer>, x: Timer)
    requires x !in s
    ensures Unlink(s, x) == s
  {
    if s != [] {
      UnlinkNone(s[1..], x);
    }
  }

  lemma AppendPrecedes(s: seq<Timer>, x: Timer, a: Timer, b: Timer)
    requires Precedes(s + [x], a, b)
    ensures Precedes(s, a, b) || (a in s && b == x)
  {
    var r := s + [x];
    var i, j :| 0 <= i < j < |r| && r[i] == a && r[j] == b;
    if j < |s| {
      assert s[i] == a && s[j] == b;
    } else {
      assert s[i] == a;
    }
  }

  // ----- a timer leaves

  lemma BeforeUnlinked(lists: Lists, place: Places, t: Timer, a: Timer, b: Timer)
    requires Linked(lists, place) && t in place && a in place - {t} && b in place - {t}
    requires Before(lists[place[t] := Unlink(lists[place[t]], t)], place - {t}, a, b)
    ensures Before(lists, place, a, b)
  {
    if place[a] == place[b] == place[t] {
      UnlinkPrecedes(lists[place[t]], t, a, b);
    }
  }

  lemma OnItsList(lists: Lists, place: Places, t: Timer)
    requires Linked(lists, place) && t in place
    ensures place[t] in lists && t in lists[place[t]]
  {
  }

  lemma AgedWithout(s: Flat, h: ListHead, t: Timer, x: Timer, done: nat)
    requires x in s.armed && x in s.due && Aged(s, h, x, done) && x != t
    ensures var r := Without(s, t); x in r.armed && x in r.due && Aged(r, h, x, done)
  {
  }

  lemma OrderedWithout(s: Flat, lists: Lists, place: Places, done: nat, t: Timer)
    requires Linked(lists, place) && t in place && Ordered(s, lists, place, done)
    ensures Ordered(Without(s, t), lists[place[t] := Unlink(lists[place[t]], t)], place - {t}, done)
  {
    hide Linked, Before, First, Aged, Unlink, QueuedLast;
    OnItsList(lists, place, t);
    var r, lists', place' := Without(s, t), lists[place[t] := Unlink(lists[place[t]], t)], place - {t};
    forall x | x in place'
      ensures Aged(r, place'[x], x, done)
    {
      AgedWithout(s, place[x], t, x, done);
    }
    forall a, b | a in place' && b in place' && SameTick(r, a, b) && Before(lists', place', a, b)
      ensures First(r.armed[a], r.armed[b], r.due[a])
    {
      BeforeUnlinked(lists, place, t, a, b);
      assert SameTick(s, a, b);
    }
    QueuedWithout(s, lists, place, t);
  }

  lemma EarlierWithout(s: Flat, t: Timer, a: Timer, b: Timer)
    requires Earlier(s, a, b) && a != t && b != t
    ensures Earlier(Without(s, t), a, b)
  {
  }

  lemma QueuedWithout(s: Flat, lists: Lists, place: Places, t: Timer)
    requires Linked(lists, place) && t in place && QueuedLast(s, lists, place)
    ensures QueuedLast(Without(s, t), lists[place[t] := Unlink(lists[place[t]], t)], place - {t})
  {
    hide Earlier, Unlink, Without;
    HeadLinked(lists, place, place[t]);
    var q, r := lists[Queued], lists[place[t] := Unlink(lists[place[t]], t)][Queued];
    forall i, j | 0 <= i < j < |r|
      ensures Earlier(Without(s, t), r[i], r[j])
    {
      if place[t] == Queued {
        var k :| 0 <= k < |q| && q[k] == t;
        UnlinkAt(q, t, k);
        CutAt(q, k, i);
        CutAt(q, k, j);
        assert Earlier(s, q[Uncut(k, i)], q[Uncut(k, j)]);
        EarlierWithout(s, t, r[i], r[j]);
      } else {
        assert place[q[i]] == Queued && place[q[j]] == Queued;
        EarlierWithout(s, t, r[i], r[j]);
      }
    }
    forall a, b | a in place - {t} && b in place - {t} && place[a].Vec? && place[b] == Queued
      ensures Earlier(Without(s, t), a, b)
    {
      EarlierWithout(s, t, a, b);
    }
  }

  // ----- a timer is linked on a slot

  /** The newcomer `t` on the list `h` comes behind the older ones for the same tick that are on the
      same level, and before those that are above. */
  lemma LandingOrder(s: Flat, g: ListHead, expires: nat, h: ListHead, t: Timer, a: Timer)
    requires !s.firing && t in s.armed && t in s.due && s.armed[t].clock == s.now <= s.due[t]
    requires h.Vec? && LevelFor(s.due[t] - s.now, h.level)
    requires IsHead(g) && g.Vec? && SameTick(s, a, t) && s.armed[a].stamp < s.armed[t].stamp
    requires Aged(s, g, a, 1) && Fits(s, g, s.due[a], expires, 1)
    ensures h.level <= g.level
    ensures First(s.armed[a], s.armed[t], s.due[t]) <==> h.level == g.level
    ensures First(s.armed[t], s.armed[a], s.due[t]) <==> h.level < g.level
  {
    hide Fits, Overtakes, Descended, LevelFor;
    if g.level > 0 {
      NotMissed(s, g, s.due[a], expires, 1);
    }
    Landing(s.now, s.due[t], s.armed[a].clock, g.level, h.level);
  }

  /** The lists after `t`, which was on none, is appended to the list `h`; `s` counts it already. */
  lemma SortedWith(s: Flat, lists: Lists, place: Places, expires: map<Timer, nat>, h: ListHead, t: Timer)
    requires Linked(lists, place) && t !in place && IsHead(h) && h.Vec?
    requires Sorted(s, lists, place)
    requires forall a :: a in place && place[a].Vec? && SameTick(s, a, t) ==>
      && h.level <= place[a].level
      && (h.level == place[a].level ==> First(s.armed[a], s.armed[t], s.due[t]))
      && (h.level < place[a].level ==> First(s.armed[t], s.armed[a], s.due[t]))
    ensures Sorted(s, lists[h := lists[h] + [t]], place[t := h])
  {
    hide First;
    var lists', place' := lists[h := lists[h] + [t]], place[t := h];
    forall a, b | a in place' && b in place' && SameTick(s, a, b) && Before(lists', place', a, b)
      ensures First(s.armed[a], s.armed[b], s.due[a])
    {
      BeforeWith(lists, place, h, t, a, b);
      if b == t {
        assert SameTick(s, a, t);
      } else if a == t {
        assert SameTick(s, b, t);
      }
    }
  }

  lemma BeforeWith(lists: Lists, place: Places, h: ListHead, t: Timer, a: Timer, b: Timer)
    requires Linked(lists, place) && t !in place && IsHead(h) && h.Vec?
    requires a in place[t := h] && b in place[t := h] && a != b
    requires Before(lists[h := lists[h] + [t]], place[t := h], a, b)
    ensures a != t && b != t ==> Before(lists, place, a, b)
    ensures b == t ==> a in place && place[a].Vec? && place[a].level <= h.level
    ensures a == t ==> b in place && place[b].Vec? && h.level < place[b].level
  {
    if place[t := h][a] == h && place[t := h][b] == h {
      AppendPrecedes(lists[h], t, a, b);
    }
  }

  /** `s` counts the timer `t`, which is on no list yet but is about to be linked on a slot. */
  ghost predicate Arriving(s: Flat, lists: Lists, place: Places, expires: map<Timer, nat>, t: Timer) {
    && !s.firing && t !in place && s.armed.Keys == s.due.Keys == place.Keys + {t}
    && s.armed[t].clock == s.now <= s.due[t] && s.armed[t].stamp < s.stamp
    && (forall x :: x in place ==> IsHead(place[x]) && x in expires && Fits(s, place[x], s.due[x], expires[x], 1))
    && (forall x :: x in place ==> Aged(s, place[x], x, 1))
    && Sorted(s, lists, place) && QueuedLast(s, lists, place)
    && (forall x :: x in place && place[x].Vec? ==> Earlier(s, x, t))
    && (forall x :: x in place && place[x] == Queued ==> Earlier(s, t, x))
  }

  lemma LinkOrdered(s: Flat, lists: Lists, place: Places, expires: map<Timer, nat>, h: ListHead, t: Timer)
    requires Linked(lists, place) && IsHead(h) && h.Vec? && Arriving(s, lists, place, expires, t)
    requires LevelFor(s.due[t] - s.now, h.level)
    ensures Ordered(s, lists[h := lists[h] + [t]], place[t := h], 1)
  {
    hide Linked, First, Fits, Aged, Before, LevelFor;
    HeadLinked(lists, place, h);
    forall a | a in place && place[a].Vec? && SameTick(s, a, t)
      ensures h.level <= place[a].level
      ensures h.level == place[a].level ==> First(s.armed[a], s.armed[t], s.due[t])
      ensures h.level < place[a].level ==> First(s.armed[t], s.armed[a], s.due[t])
    {
      LandingOrder(s, place[a], expires[a], h, t, a);
    }
    SortedWith(s, lists, place, expires, h, t);
    NewcomerAged(s, h, t);
  }

  lemma NewcomerAged(s: Flat, h: ListHead, t: Timer)
    requires t in s.armed && t in s.due && h.Vec? && s.now <= s.due[t] && LevelFor(s.due[t] - s.now, h.level)
    requires s.armed[t].clock == s.now && s.armed[t].stamp < s.stamp
    ensures Aged(s, h, t, 1)
  {
  }

  /** add_timer between two ticks. */
  lemma OrderedArm(s: Flat, lists: Lists, place: Places, expires: map<Timer, nat>, index0: nat, t: Timer, e: Word)
    requires Linked(lists, place) && Scheduled(s, place, expires, 1) && Ordered(s, lists, place, 1)
    requires !s.firing && t !in place && lists[Queued] == []
    requires IsHead(Target(index0, s.now % WORD, e))
    ensures var h := Target(index0, s.now % WORD, e);
      Ordered(Armed(s, t, e), lists[h := lists[h] + [t]], place[t := h], 1)
  {
    hide Linked, First, Fits, Aged, Before, LevelFor, Target, DueTick;
    var h, r := Target(index0, s.now % WORD, e), Armed(s, t, e);
    HeadLinked(lists, place, h);
    HeadLinked(lists, place, Queued);
    TargetLevel(index0, s.now, e);
    forall x | x in place
      ensures Fits(r, place[x], r.due[x], expires[x], 1) && Aged(r, place[x], x, 1) && Earlier(r, x, t)
    {
      StillAged(s, place[x], expires[x], t, e, x, 1);
    }
    SortedArmed(s, lists, place, t, e);
    assert QueuedLast(r, lists, place);
    LinkOrdered(r, lists, place, expires, h, t);
  }

  lemma StillAged(s: Flat, h: ListHead, expires: nat, t: Timer, e: Word, x: Timer, done: nat)
    requires x in s.armed && x in s.due && x != t && IsHead(h)
    requires Aged(s, h, x, done) && Fits(s, h, s.due[x], expires, done)
    ensures var r := Armed(s, t, e);
      x in r.armed && x in r.due && Aged(r, h, x, done) && Fits(r, h, r.due[x], expires, done) && Earlier(r, x, t)
  {
  }

  lemma SortedArmed(s: Flat, lists: Lists, place: Places, t: Timer, e: Word)
    requires Sorted(s, lists, place) && t !in place
    ensures Sorted(Armed(s, t, e), lists, place)
  {
    hide First, Before, DueTick;
    var r := Armed(s, t, e);
    forall a, b | a in place && b in place && SameTick(r, a, b) && Before(lists, place, a, b)
      ensures First(r.armed[a], r.armed[b], r.due[a])
    {
      assert SameTick(s, a, b);
    }
  }

  /** add_timer from a callback. */
  lemma OrderedQueue(s: Flat, lists: Lists, place: Places, expires: map<Timer, nat>, done: nat, t: Timer, e: Word)
    requires Linked(lists, place) && Scheduled(s, place, expires, done) && Ordered(s, lists, place, done)
    requires s.firing && t !in place
    ensures Ordered(Armed(s, t, e), lists[Queued := lists[Queued] + [t]], place[t := Queued], done)
  {
    hide Linked, First, Fits, Aged, DueTick, Before, Sorted, QueuedLast;
    var r := Armed(s, t, e);
    forall x | x in place
      ensures Aged(r, place[x], x, done) && Earlier(r, x, t)
    {
      StillAged(s, place[x], expires[x], t, e, x, done);
    }
    QueuedAged(s, t, e, done);
    SortedArmed(s, lists, place, t, e);
    HeadLinked(lists, place, Queued);
    SortedQueue(r, lists, place, t);
    QueuedArmed(s, lists, place, t, e);
  }

  lemma SortedQueue(s: Flat, lists: Lists, place: Places, t: Timer)
    requires Sorted(s, lists, place) && t !in place && Queued in lists
    ensures Sorted(s, lists[Queued := lists[Queued] + [t]], place[t := Queued])
  {
    hide First;
    var lists', place' := lists[Queued := lists[Queued] + [t]], place[t := Queued];
    forall a, b | a in place' && b in place' && SameTick(s, a, b) && Before(lists', place', a, b)
      ensures First(s.armed[a], s.armed[b], s.due[a])
    {
      assert Before(lists, place, a, b);
    }
  }

  lemma QueuedArmed(s: Flat, lists: Lists, place: Places, t: Timer, e: Word)
    requires Linked(lists, place) && QueuedLast(s, lists, place) && t !in place
    requires forall x :: x in place ==> Earlier(Armed(s, t, e), x, t)
    ensures QueuedLast(Armed(s, t, e), lists[Queued := lists[Queued] + [t]], place[t := Queued])
  {
    hide DueTick;
    var r, q := Armed(s, t, e), lists[Queued];
    forall i, j | 0 <= i < j < |q + [t]|
      ensures Earlier(r, (q + [t])[i], (q + [t])[j])
    {
      assert q[i] in place;
      if j < |q| {
        assert Earlier(s, q[i], q[j]) && q[j] in place;
      }
    }
    forall a, b | a in place[t := Queued] && b in place[t := Queued] && place[t := Queued][a].Vec? && place[t := Queued][b] == Queued
      ensures Earlier(r, a, b)
    {
      if b != t {
        assert Earlier(s, a, b);
      }
    }
  }

  lemma QueuedAged(s: Flat, t: Timer, e: Word, done: nat)
    ensures Aged(Armed(s, t, e), Queued, t, done)
  {
  }

  /** The first timer of `queued` is moved to its slot. */
  lemma OrderedDrain(s: Flat, lists: Lists, place: Places, expires: map<Timer, nat>, index0: nat)
    requires Linked(lists, place) && Scheduled(s, place, expires, 1) && Ordered(s, lists, place, 1) && !s.firing
    requires Queued in lists && lists[Queued] != [] && lists[Queued][0] in place && place[lists[Queued][0]] == Queued
    requires lists[Queued][0] in expires && IsHead(Target(index0, s.now % WORD, expires[lists[Queued][0]]))
    ensures var t := lists[Queued][0];
      var h, lists1 := Target(index0, s.now % WORD, expires[t]), lists[Queued := Unlink(lists[Queued], t)];
      h in lists1 && Ordered(s, lists1[h := lists1[h] + [t]], (place - {t})[t := h], 1)
  {
    hide Linked, First, Fits, Aged, Before, LevelFor, Target, DueTick, Sorted, QueuedLast, Unlink, Earlier;
    var q, t := lists[Queued], lists[Queued][0];
    var lists1, place1 := lists[Queued := Unlink(lists[Queued], t)], place - {t};
    OrderedWithout(s, lists, place, 1, t);
    LinkRemove(lists, place, t);
    PutBack(s, lists1, place1, t);
    DueFromQueue(s, expires[t], t);
    TargetLevel(index0, s.now, expires[t]);
    HeadLinked(lists1, place1, Target(index0, s.now % WORD, expires[t]));
    FrontOfQueue(s, lists, place);
    LinkOrdered(s, lists1, place1, expires, Target(index0, s.now % WORD, expires[t]), t);
  }

  /** What holds without `t` also holds when `t` is counted but on no list. */
  lemma PutBack(s: Flat, lists: Lists, place: Places, t: Timer)
    requires t !in place && Sorted(Without(s, t), lists, place) && QueuedLast(Without(s, t), lists, place)
    requires forall x :: x in place ==> x in Without(s, t).armed && x in Without(s, t).due && Aged(Without(s, t), place[x], x, 1)
    ensures Sorted(s, lists, place) && QueuedLast(s, lists, place)
    ensures forall x :: x in place ==> x in s.armed && x in s.due && Aged(s, place[x], x, 1)
  {
    hide Before, First;
    forall a, b | a in place && b in place && SameTick(s, a, b) && Before(lists, place, a, b)
      ensures First(s.armed[a], s.armed[b], s.due[a])
    {
      assert SameTick(Without(s, t), a, b);
    }
    forall i, j | 0 <= i < j < |lists[Queued]|
      ensures Earlier(s, lists[Queued][i], lists[Queued][j])
    {
      assert Earlier(Without(s, t), lists[Queued][i], lists[Queued][j]);
    }
    forall a, b | a in place && b in place && place[a].Vec? && place[b] == Queued
      ensures Earlier(s, a, b)
    {
      assert Earlier(Without(s, t), a, b);
    }
  }

  lemma DueFromQueue(s: Flat, expires: nat, t: Timer)
    requires t in s.armed && t in s.due && !s.firing && Aged(s, Queued, t, 1) && Fits(s, Queued, s.due[t], expires, 1)
    ensures s.armed[t].clock == s.now <= s.due[t] == DueTick(s.now, expires) && s.armed[t].stamp < s.stamp
  {
    hide DueTick;
  }

  lemma FrontOfQueue(s: Flat, lists: Lists, place: Places)
    requires Linked(lists, place) && QueuedLast(s, lists, place) && lists[Queued] != []
    ensures var t := lists[Queued][0];
      && t in place && place[t] == Queued
      && (forall x :: x in place && place[x].Vec? ==> Earlier(s, x, t))
      && (forall x :: x in place && place[x] == Queued && x != t ==> Earlier(s, t, x))
  {
    hide Earlier;
    var q := lists[Queued];
    forall x | x in place && place[x] == Queued && x != q[0]
      ensures Earlier(s, q[0], x)
    {
      var j :| 0 <= j < |q| && q[j] == x;
    }
  }

  // ----- the clock

  lemma OrderedBegin(s: Flat, lists: Lists, place: Places)
    requires Linked(lists, place) && Ordered(s, lists, place, NOOF_TVECS) && lists[Queued] == [] && !s.firing
    ensures Ordered(Step(s, Begin), lists, place, NOOF_TVECS)
  {
    hide Before, First, Descended;
    HeadLinked(lists, place, Queued);
    var r := Step(s, Begin);
    forall t | t in place
      ensures Aged(r, place[t], t, NOOF_TVECS)
    {
      assert Aged(s, place[t], t, NOOF_TVECS);
    }
    SameOrder(s, r, lists, place);
  }

  lemma OrderedEnd(s: Flat, lists: Lists, place: Places)
    requires Ordered(s, lists, place, NOOF_TVECS) && s.firing
    ensures Ordered(Step(s, End), lists, place, 1)
  {
    hide Before, First, CascadeTick;
    var r := Step(s, End);
    forall t | t in place
      ensures Aged(r, place[t], t, 1)
    {
      assert Aged(s, place[t], t, NOOF_TVECS);
    }
    SameOrder(s, r, lists, place);
  }

  lemma SameOrder(s: Flat, r: Flat, lists: Lists, place: Places)
    requires Sorted(s, lists, place) && QueuedLast(s, lists, place) && r.armed == s.armed && r.due == s.due
    ensures Sorted(r, lists, place) && QueuedLast(r, lists, place)
  {
    hide Before, First;
    forall a, b | a in place && b in place && SameTick(r, a, b) && Before(lists, place, a, b)
      ensures First(r.armed[a], r.armed[b], r.due[a])
    {
      assert SameTick(s, a, b);
    }
    assert forall a, b :: Earlier(s, a, b) ==> Earlier(r, a, b);
  }

  lemma OrderedLater(s: Flat, lists: Lists, place: Places, done: nat, done': nat)
    requires Ordered(s, lists, place, done) && done <= done'
    ensures Ordered(s, lists, place, done')
  {
    hide Before, First, CascadeTick, Sorted, QueuedLast;
    forall t | t in place
      ensures Aged(s, place[t], t, done')
    {
      assert Aged(s, place[t], t, done);
    }
  }

  /** The first timer of the slot being run goes before all others that are due now. */
  lemma FrontGoesFirst(s: Flat, lists: Lists, place: Places, expires: map<Timer, nat>)
    requires Linked(lists, place) && Scheduled(s, place, expires, NOOF_TVECS)
    requires Ordered(s, lists, place, NOOF_TVECS) && s.firing
    requires var h := Vec(0, s.now % TVR_SIZE); h in lists && lists[h] != []
    ensures GoesFirst(s, lists[Vec(0, s.now % TVR_SIZE)][0])
  {
    hide First, Fits, Aged;
    var h := Vec(0, s.now % TVR_SIZE);
    var t := lists[h][0];
    assert t in place && place[t] == h;
    forall u | u in s.due && u in s.armed && u != t && s.due[u] == s.now
      ensures First(s.armed[t], s.armed[u], s.now)
    {
      CurrentSlot(s, place[u], s.due[u], expires[u]);
      CurrentSlot(s, place[t], s.due[t], expires[t]);
      FrontPrecedes(lists[h], u);
      assert SameTick(s, t, u) && Before(lists, place, t, u);
    }
  }

  lemma FrontPrecedes(q: seq<Timer>, u: Timer)
    requires u in q && u != q[0]
    ensures Precedes(q, q[0], u)
  {
  }

  // ----- a cascade

  lemma MultipleOf(now: nat, d: nat, u: nat)
    requires u > 0 && now % u == 0
    ensures now < d / u * u ==> now + u <= d
    ensures now <= d < now + u ==> d / u * u == now
  {
    var a, q := now / u, d / u;
    assert now == a * u && d == q * u + d % u;
    MulBounds(q - a, u);
    assert (q - a) * u == q * u - a * u;
  }

  /** A timer below the level being cascaded is at least one slot width of its level from its tick. */
  lemma NotBelow(s: Flat, n: nat, g: ListHead, d: nat, expires: nat, k: nat)
    requires 1 <= n < NOOF_TVECS && Wraps(s.now, n) && s.now <= d && LevelFor(d - s.now, k)
    requires IsHead(g) && g.Vec? && g.level < n && Fits(s, g, d, expires, n)
    ensures g.level <= k
  {
    hide Fits, Unit;
    if g.level > 0 {
      NotMissed(s, g, d, expires, n);
      WrapsDown(s.now, g.level, n);
      MultipleOf(s.now, d, Unit(g.level));
    }
  }

  lemma MovedAged(clock: nat, d: nat, n: nat, now: nat, k: nat)
    requires 1 <= n < NOOF_TVECS && Wraps(now, n) && now <= d < now + Unit(n) && LevelFor(d - now, k) && k < n
    requires Descended(clock, d, n, now, n)
    ensures Descended(clock, d, k, now, n + 1)
  {
    hide Unit;
    forall m | k < m < NOOF_TVECS && clock + Unit(m) <= d
      ensures Passed(d, m, now, n + 1)
    {
      if m <= n {
        WrapsDown(now, m, n);
        MultipleOf(now, d, Unit(m));
      } else {
        assert Passed(d, m, now, n);
      }
    }
  }

  lemma {:induction false} InBoundFor(h: ListHead, q: seq<Timer>, index0: nat, jiffies: nat,
      expires: map<Timer, nat>, t: Timer)
    ensures t in BoundFor(h, q, index0, jiffies, expires) <==> t in q && Target(index0, jiffies, ExpiryOf(expires, t)) == h
  {
    hide Target, ExpiryOf;
    if q != [] {
      InBoundFor(h, q[1..], index0, jiffies, expires, t);
    }
  }

  lemma {:induction false} BoundForPrecedes(h: ListHead, q: seq<Timer>, index0: nat, jiffies: nat,
      expires: map<Timer, nat>, a: Timer, b: Timer)
    requires Precedes(BoundFor(h, q, index0, jiffies, expires), a, b)
    ensures Precedes(q, a, b)
  {
    hide Target, ExpiryOf;
    if q != [] {
      var rest, all := BoundFor(h, q[1..], index0, jiffies, expires), BoundFor(h, q, index0, jiffies, expires);
      var i, j :| 0 <= i < j < |all| && all[i] == a && all[j] == b;
      InBoundFor(h, q[1..], index0, jiffies, expires, b);
      if all == rest || i > 0 {
        var o := if all == rest then 0 else 1;
        assert rest[i - o] == a && rest[j - o] == b;
        BoundForPrecedes(h, q[1..], index0, jiffies, expires, a, b);
        var i', j' :| 0 <= i' < j' < |q[1..]| && q[1..][i'] == a && q[1..][j'] == b;
        assert q[i' + 1] == a && q[j' + 1] == b;
      } else {
        assert rest[j - 1] == b;
        var j' :| 0 <= j' < |q[1..]| && q[1..][j'] == b;
        assert q[0] == a && q[j' + 1] == b;
      }
    }
  }

  lemma ConcatPrecedes(p: seq<Timer>, q: seq<Timer>, a: Timer, b: Timer)
    requires Precedes(p + q, a, b)
    ensures Precedes(p, a, b) || Precedes(q, a, b) || (a in p && b in q)
  {
    var r := p + q;
    var i, j :| 0 <= i < j < |r| && r[i] == a && r[j] == b;
    if j < |p| {
      assert p[i] == a && p[j] == b;
    } else if i >= |p| {
      assert q[i - |p|] == a && q[j - |p|] == b;
    } else {
      assert p[i] == a && q[j - |p|] == b;
    }
  }

  function CascadeHead(now: nat, n: nat): ListHead
    requires n < NOOF_TVECS
  {
    Vec(n, NextBlock(now, n, n) % TVN_SIZE)
  }

  /** A cascade of level `n` at a state of the table, with the lists and places before and after. */
  datatype Cascade = Cascade(
    s: Flat, lists: Lists, place: Places, expires: map<Timer, nat>, n: nat, index0: nat, lists': Lists, place': Places)

  /** The cascade of level `n` takes the lists and places to `lists'` and `place'`. */
  ghost predicate Cascaded(c: Cascade) {
    && 1 <= c.n < NOOF_TVECS && !c.s.firing && Wraps(c.s.now, c.n)
    && Linked(c.lists, c.place) && Scheduled(c.s, c.place, c.expires, c.n)
    && Linked(c.lists', c.place') && c.place'.Keys == c.place.Keys
    && var head := CascadeHead(c.s.now, c.n);
    && head in c.lists && IsHead(head)
    && c.lists' == Distribute(c.lists[head := []], c.lists[head], c.index0, c.s.now % WORD, c.expires)
  }

  /** What one list holds afterwards. */
  lemma CascadedList(c: Cascade, g: ListHead)
    requires Cascaded(c) && IsHead(g)
    ensures var head := CascadeHead(c.s.now, c.n);
      && g in c.lists && g in c.lists'
      && c.lists'[g] == (if g == head then [] else c.lists[g]) + BoundFor(g, c.lists[head], c.index0, c.s.now % WORD, c.expires)
  {
    hide Scheduled, Distribute, BoundFor, Target, NextBlock;
    var Cascade(s, lists, place, expires, n, index0, lists', place') := c;
    HeadLinked(lists, place, g);
    var head := CascadeHead(s.now, n);
    DistributeAppends(lists[head := []], lists[head], index0, s.now % WORD, expires, g);
  }

  /** A timer in the slot that is cascaded is due within one slot width, and goes to the level for that. */
  lemma MovedTimer(c: Cascade, t: Timer)
    requires Cascaded(c) && t in c.place && c.place[t] == CascadeHead(c.s.now, c.n)
    requires c.index0 == c.s.now % TVR_SIZE
    ensures t in c.s.due && c.s.now <= c.s.due[t] < c.s.now + Unit(c.n)
    ensures var h := Target(c.index0, c.s.now % WORD, ExpiryOf(c.expires, t));
      && IsHead(h) && h.Vec? && h.level < c.n && LevelFor(c.s.due[t] - c.s.now, h.level)
      && c.place'[t] == h
  {
    hide Linked, Distribute, BoundFor, Target, NextBlock, Unit, DueTick, Fits;
    var Cascade(s, lists, place, expires, n, index0, lists', place') := c;
    var head, h := CascadeHead(s.now, n), Target(index0, s.now % WORD, ExpiryOf(expires, t));
    DueInSlot(s, n, s.due[t], expires[t]);
    LowerLevel(s.now, index0, expires[t], n);
    TargetLevel(index0, s.now, expires[t]);
    TargetIsHead(index0, s.now, expires[t]);
    OnItsList(lists, place, t);
    CascadedList(c, h);
    InBoundFor(h, lists[head], index0, s.now % WORD, expires, t);
    HeadLinked(lists', place', h);
  }

  lemma TargetIsHead(index0: nat, now: nat, expires: nat)
    requires index0 < TVR_SIZE
    ensures IsHead(Target(index0, now % WORD, expires))
  {
  }

  /** All others stay where they are. */
  lemma UnmovedTimer(c: Cascade, t: Timer)
    requires Cascaded(c) && t in c.place && c.place[t] != CascadeHead(c.s.now, c.n)
    ensures c.place'[t] == c.place[t] && IsHead(c.place[t]) && t in c.s.due
    ensures t in c.expires && Fits(c.s, c.place[t], c.s.due[t], c.expires[t], c.n)
  {
    hide Linked, Distribute, BoundFor, Target, NextBlock, Fits;
    var Cascade(s, lists, place, expires, n, index0, lists', place') := c;
    OnItsList(lists, place, t);
    CascadedList(c, place[t]);
    HeadLinked(lists', place', place[t]);
  }

  lemma SlotOfTick(s: Flat, n: nat, g: ListHead, d: nat, e1: nat, e2: nat)
    requires 1 <= n < NOOF_TVECS && IsHead(g) && g.Vec? && g.level == n && IsHead(CascadeHead(s.now, n))
    requires Fits(s, g, d, e1, n) && Fits(s, CascadeHead(s.now, n), d, e2, n)
    ensures g == CascadeHead(s.now, n)
  {
    hide NextBlock, Unit;
  }

  lemma LevelForUnique(x: nat, a: nat, b: nat)
    requires LevelFor(x, a) && LevelFor(x, b)
    ensures a == b
  {
    hide Unit;
  }

  /** Two timers for the same tick that end up on the same list. */
  lemma SameListBefore(c: Cascade, a: Timer, b: Timer)
    requires Cascaded(c) && c.index0 == c.s.now % TVR_SIZE
    requires a in c.place && b in c.place && c.place'[a].Vec? && c.place'[a] == c.place'[b] && c.place'[a] in c.lists'
    requires Precedes(c.lists'[c.place'[a]], a, b)
    ensures Before(c.lists, c.place, a, b)
  {
    hide Linked, Scheduled, Distribute, BoundFor, Target, NextBlock, Unit, LevelFor, Precedes;
    var Cascade(s, lists, place, expires, n, index0, lists', place') := c;
    var head, g := CascadeHead(s.now, n), place'[a];
    var q := lists[head];
    ListIsHead(lists', place', g);
    CascadedList(c, g);
    HeadLinked(lists, place, g);
    HeadLinked(lists, place, head);
    var stay, moved := if g == head then [] else lists[g], BoundFor(g, q, index0, s.now % WORD, expires);
    ConcatPrecedes(stay, moved, a, b);
    if Precedes(stay, a, b) {
      PrecedesMembers(stay, a, b);
    } else if Precedes(moved, a, b) {
      BoundForPrecedes(g, q, index0, s.now % WORD, expires, a, b);
      PrecedesMembers(q, a, b);
    } else {
      InBoundFor(g, q, index0, s.now % WORD, expires, b);
      MovedTimer(c, b);
    }
  }

  lemma ListIsHead(lists: Lists, place: Places, g: ListHead)
    requires Linked(lists, place) && g in lists
    ensures IsHead(g)
  {
  }

  lemma PrecedesMembers(q: seq<Timer>, a: Timer, b: Timer)
    requires Precedes(q, a, b)
    ensures a in q && b in q
  {
  }

  /** Two timers for the same tick that end up on different levels. */
  lemma LowerLevelBefore(c: Cascade, a: Timer, b: Timer)
    requires Cascaded(c) && c.index0 == c.s.now % TVR_SIZE
    requires a in c.place && b in c.place && SameTick(c.s, a, b)
    requires c.place'[a].Vec? && c.place'[b].Vec? && c.place'[a].level < c.place'[b].level
    ensures Before(c.lists, c.place, a, b)
  {
    hide Linked, Scheduled, Distribute, Target, NextBlock, Unit, Fits, LevelFor;
    var Cascade(s, lists, place, expires, n, index0, lists', place') := c;
    var head := CascadeHead(s.now, n);
    if place[b] == head {
      MovedTimer(c, b);
      if place[a] == head {
        MovedTimer(c, a);
        LevelForUnique(s.due[a] - s.now, place'[a].level, place'[b].level);
      } else {
        UnmovedTimer(c, a);
      }
    } else {
      UnmovedTimer(c, b);
      if place[a] == head {
        MovedTimer(c, a);
        OnHead(s, place, expires, n, a);
        if place[b].level < n {
          NotBelow(s, n, place[b], s.due[b], expires[b], place'[a].level);
        } else if place[b].level == n {
          SlotOfTick(s, n, place[b], s.due[b], expires[b], expires[a]);
        }
      } else {
        UnmovedTimer(c, a);
      }
    }
  }

  lemma OnHead(s: Flat, place: Places, expires: map<Timer, nat>, n: nat, t: Timer)
    requires 1 <= n < NOOF_TVECS && Scheduled(s, place, expires, n) && t in place && place[t] == CascadeHead(s.now, n)
    ensures t in s.due && t in expires && IsHead(CascadeHead(s.now, n))
    ensures Fits(s, CascadeHead(s.now, n), s.due[t], expires[t], n)
  {
    hide NextBlock;
  }

  /** A cascade puts no timer before another for the same tick that it was behind. */
  lemma CascadeBefore(c: Cascade, a: Timer, b: Timer)
    requires Cascaded(c) && c.index0 == c.s.now % TVR_SIZE
    requires a in c.place && b in c.place && a in c.place' && b in c.place'
    requires SameTick(c.s, a, b) && Before(c.lists', c.place', a, b)
    ensures Before(c.lists, c.place, a, b)
  {
    hide Cascaded, Precedes;
    var Cascade(s, lists, place, expires, n, index0, lists', place') := c;
    if place'[a].level < place'[b].level {
      LowerLevelBefore(c, a, b);
    } else {
      SameListBefore(c, a, b);
    }
  }

  lemma CascadeAged(c: Cascade, t: Timer)
    requires Cascaded(c) && c.index0 == c.s.now % TVR_SIZE
    requires t in c.place && t in c.s.armed && t in c.s.due && Aged(c.s, c.place[t], t, c.n)
    ensures t in c.place' && Aged(c.s, c.place'[t], t, c.n + 1)
  {
    hide Linked, Scheduled, Distribute, Target, NextBlock, Unit, Fits, LevelFor, Descended;
    var Cascade(s, lists, place, expires, n, index0, lists', place') := c;
    if place[t] == CascadeHead(s.now, n) {
      MovedTimer(c, t);
      MovedAged(s.armed[t].clock, s.due[t], n, s.now, place'[t].level);
    } else {
      UnmovedTimer(c, t);
      LaterAged(s, place[t], t, n);
    }
  }

  lemma LaterAged(s: Flat, h: ListHead, t: Timer, n: nat)
    requires t in s.armed && t in s.due && Aged(s, h, t, n)
    ensures Aged(s, h, t, n + 1)
  {
    hide CascadeTick;
  }

  lemma SortedCascade(c: Cascade)
    requires Cascaded(c) && c.index0 == c.s.now % TVR_SIZE && Sorted(c.s, c.lists, c.place)
    ensures Sorted(c.s, c.lists', c.place')
  {
    hide Before, First, Cascaded, Linked;
    CascadedKeys(c);
    forall a, b | a in c.place' && b in c.place' && SameTick(c.s, a, b) && Before(c.lists', c.place', a, b)
      ensures First(c.s.armed[a], c.s.armed[b], c.s.due[a])
    {
      CascadeBefore(c, a, b);
    }
  }

  /** cascade_timers keeps the order. */
  lemma OrderedCascade(c: Cascade)
    requires Cascaded(c) && c.index0 == c.s.now % TVR_SIZE
    requires Ordered(c.s, c.lists, c.place, c.n) && Queued in c.lists' && c.lists[Queued] == c.lists'[Queued]
    ensures Ordered(c.s, c.lists', c.place', c.n + 1)
  {
    hide Sorted, Aged, QueuedLast, Cascaded, Linked;
    CascadedKeys(c);
    forall t | t in c.place'
      ensures Aged(c.s, c.place'[t], t, c.n + 1)
    {
      CascadeAged(c, t);
    }
    SortedCascade(c);
    QueuedCascade(c);
  }

  lemma CascadedKeys(c: Cascade)
    requires Cascaded(c)
    ensures c.place'.Keys == c.place.Keys && Linked(c.lists, c.place) && Linked(c.lists', c.place') && c.n < NOOF_TVECS
  {
  }

  lemma QueuedCascade(c: Cascade)
    requires Cascaded(c)
    requires QueuedLast(c.s, c.lists, c.place) && Queued in c.lists' && c.lists[Queued] == c.lists'[Queued]
    ensures QueuedLast(c.s, c.lists', c.place')
  {
    hide Earlier, Cascaded;
    var Cascade(s, lists, place, expires, n, index0, lists', place') := c;
    CascadedKeys(c);
    forall b | b in place
      ensures place'[b] == Queued <==> place[b] == Queued
    {
      InQueue(lists, place, b);
      InQueue(lists', place', b);
    }
    hide Linked;
    forall a, b | a in place' && b in place' && place'[a].Vec? && place'[b] == Queued
      ensures Earlier(s, a, b)
    {
      assert place[b] == Queued && place[a] != Queued;
    }
  }

  lemma InQueue(lists: Lists, place: Places, b: Timer)
    requires Linked(lists, place) && b in place
    ensures Queued in lists && (place[b] == Queued <==> b in lists[Queued])
  {
  }
}
