/** The five-level timing wheel of core/frog/timer.c and the interrupt that drives it. */
module TimerWheel {
  import opened FlatTimers
  import opened Sequences
  import opened TimerSlots
  import opened TimerOrder

  // ----- the wheel

  /** What a callback may do to timers. */
  datatype Op = AddOp(timer: Timer, expires: Word) | DelOp(timer: Timer)

  function EventOf(op: Op): Event {
    match op
    case AddOp(t, e) => Add(t, e)
    case DelOp(t) => Del(t)
  }

  /** What a callback or another thread does, as events. */
  function EventsOf(ops: seq<Op>): seq<Event> {
    if ops == [] then [] else EventsOf(ops[..|ops|-1]) + [EventOf(ops[|ops|-1])]
  }

  lemma {:induction false} EventsAt(ops: seq<Op>)
    ensures |EventsOf(ops)| == |ops| && forall i :: 0 <= i < |ops| ==> EventsOf(ops)[i] == EventOf(ops[i])
  {
    if ops != [] {
      EventsAt(ops[..|ops|-1]);
    }
  }

  /** The events of the calls from place `from` of the log on: each timer fires, then its callback does
      what it does. `callbacks(j)` is what the callback of call `j` does. */
  function Fired(callbacks: nat -> seq<Op>, calls: seq<Call>, from: nat): seq<Event> {
    if |calls| <= from then []
    else
      var j := |calls| - 1;
      Fired(callbacks, calls[..j], from) + ([Fire(calls[j].timer)] + EventsOf(callbacks(j)))
  }

  /** The events of a tick in which the calls from place `from` of the log on are made. */
  function TickEvents(callbacks: nat -> seq<Op>, calls: seq<Call>, from: nat): seq<Event> {
    [Begin] + Fired(callbacks, calls, from) + [End]
  }

  predicate Within(ends: seq<nat>, n: nat) {
    forall i :: 0 <= i < |ends| ==> ends[i] <= n
  }

  /** The events of several ticks; `ends` says how long the log is after each. */
  function TicksEvents(callbacks: nat -> seq<Op>, calls: seq<Call>, from: nat, ends: seq<nat>): seq<Event>
    requires Within(ends, |calls|)
  {
    if ends == [] then []
    else
      var n := |ends| - 1;
      TicksEvents(callbacks, calls, from, ends[..n])
      + TickEvents(callbacks, calls[..ends[n]], if n == 0 then from else ends[n-1])
  }

  lemma NoTicks(callbacks: nat -> seq<Op>, calls: seq<Call>)
    ensures TicksEvents(callbacks, calls, |calls|, []) == []
  {
  }

  /** A tick more, up to the end of the log. */
  lemma OneMoreTick(callbacks: nat -> seq<Op>, before: seq<Call>, calls: seq<Call>, from: nat, ends: seq<nat>)
    requires before <= calls && Within(ends, |before|) && |before| == if ends == [] then from else ends[|ends|-1]
    ensures Within(ends + [|calls|], |calls|)
    ensures TicksEvents(callbacks, calls, from, ends + [|calls|])
      == TicksEvents(callbacks, before, from, ends) + TickEvents(callbacks, calls, |before|)
  {
    hide TickEvents;
    TicksPrefix(callbacks, before, calls, from, ends);
    assert (ends + [|calls|])[..|ends|] == ends && calls[..|calls|] == calls;
  }

  lemma {:induction false} TicksPrefix(callbacks: nat -> seq<Op>, before: seq<Call>, calls: seq<Call>, from: nat,
      ends: seq<nat>)
    requires before <= calls && Within(ends, |before|)
    ensures TicksEvents(callbacks, calls, from, ends) == TicksEvents(callbacks, before, from, ends)
  {
    hide TickEvents;
    if ends != [] {
      var n := |ends| - 1;
      TicksPrefix(callbacks, before, calls, from, ends[..n]);
      assert calls[..ends[n]] == before[..ends[n]];
    }
  }

  predicate Spared(ops: seq<Op>, t: Timer) {
    forall op :: op in ops ==> op.timer != t
  }

  lemma OneMoreOp(ops: seq<Op>, i: nat)
    requires i < |ops|
    ensures EventsOf(ops[..i+1]) == EventsOf(ops[..i]) + [EventOf(ops[i])]
  {
    assert ops[..i+1][..i] == ops[..i];
  }

  lemma OneMoreCall(callbacks: nat -> seq<Op>, calls: seq<Call>, c: Call, from: nat, r: seq<Event>)
    requires from <= |calls|
    ensures r + Fired(callbacks, calls, from) + ([Fire(c.timer)] + EventsOf(callbacks(|calls|)))
      == r + Fired(callbacks, calls + [c], from)
  {
    assert (calls + [c])[..|calls|] == calls;
  }

  lemma SparedEvents(r: seq<Event>, ops: seq<Op>, t: Timer)
    requires Spared(ops, t)
    ensures LeftAlone(r + EventsOf(ops), |r|, t)
  {
    EventsAt(ops);
  }

  /** No callback arms or deletes `t`. */
  ghost predicate Spares(callbacks: nat -> seq<Op>, t: Timer) {
    forall n :: Spared(callbacks(n), t)
  }

  /** The events from place `i` on arm and delete only timers that a callback arms or deletes. */
  ghost predicate OnlyBy(callbacks: nat -> seq<Op>, tr: seq<Event>, i: nat) {
    forall t :: Spares(callbacks, t) ==> LeftAlone(tr, i, t)
  }

  lemma OnlyByJoined(callbacks: nat -> seq<Op>, r: seq<Event>, tr: seq<Event>, i: nat)
    requires OnlyBy(callbacks, r, i) && OnlyBy(callbacks, tr, |r|) && r <= tr && i <= |r|
    ensures OnlyBy(callbacks, tr, i)
  {
    forall t | Spares(callbacks, t)
      ensures LeftAlone(tr, i, t)
    {
      assert LeftAlone(r, i, t) && LeftAlone(tr, |r|, t);
    }
  }

  lemma {:induction false} OnlyByFired(callbacks: nat -> seq<Op>, calls: seq<Call>, from: nat)
    ensures OnlyBy(callbacks, Fired(callbacks, calls, from), 0)
    decreases |calls|
  {
    hide OnlyBy;
    if |calls| <= from {
      OnlyByNone(callbacks, []);
    } else {
      var j := |calls| - 1;
      OnlyByFired(callbacks, calls[..j], from);
      OnlyByCallback(callbacks, Fired(callbacks, calls[..j], from), calls[j].timer, j);
    }
  }

  lemma OnlyByCallback(callbacks: nat -> seq<Op>, r: seq<Event>, t: Timer, j: nat)
    requires OnlyBy(callbacks, r, 0)
    ensures OnlyBy(callbacks, r + ([Fire(t)] + EventsOf(callbacks(j))), 0)
  {
    forall u | Spares(callbacks, u)
      ensures LeftAlone(r + ([Fire(t)] + EventsOf(callbacks(j))), 0, u)
    {
      assert Spared(callbacks(j), u) && LeftAlone(r, 0, u);
      SparedEvents([Fire(t)], callbacks(j), u);
    }
  }

  lemma OnlyByTick(callbacks: nat -> seq<Op>, r: seq<Event>, calls: seq<Call>, from: nat)
    ensures OnlyBy(callbacks, r + TickEvents(callbacks, calls, from), |r|)
  {
    hide Fired;
    OnlyByFired(callbacks, calls, from);
    var evs := Fired(callbacks, calls, from);
    forall u | Spares(callbacks, u)
      ensures LeftAlone(r + ([Begin] + evs + [End]), |r|, u)
    {
      assert LeftAlone(evs, 0, u);
    }
  }

  lemma {:induction false} OnlyByTicks(callbacks: nat -> seq<Op>, r: seq<Event>, calls: seq<Call>, from: nat,
      ends: seq<nat>)
    requires Within(ends, |calls|)
    ensures OnlyBy(callbacks, r + TicksEvents(callbacks, calls, from, ends), |r|)
  {
    hide OnlyBy, TickEvents;
    if ends == [] {
      OnlyByNone(callbacks, r);
      assert r + [] == r;
    } else {
      var n := |ends| - 1;
      var evs := TicksEvents(callbacks, calls, from, ends[..n]);
      var start := if n == 0 then from else ends[n-1];
      OnlyByTicks(callbacks, r, calls, from, ends[..n]);
      OnlyByTick(callbacks, r + evs, calls[..ends[n]], start);
      OnlyByJoined(callbacks, r + evs, r + evs + TickEvents(callbacks, calls[..ends[n]], start), |r|);
      Joined(r, evs, TickEvents(callbacks, calls[..ends[n]], start));
    }
  }

  lemma OnlyByNone(callbacks: nat -> seq<Op>, tr: seq<Event>)
    ensures OnlyBy(callbacks, tr, |tr|)
  {
  }

  const MAX_SCHEDULE_TIMEOUT: int := HALF - 1

  /** How schedule_timeout sleeps: for good, not at all, or until a tick. */
  datatype Sleep = Untimed | Awake | Until(expire: Word)

  /** What is left of a timeout that ends at `expire`: the signed 32-bit difference, or 0. */
  function TicksLeftUntil(expire: nat, ticks: nat): nat {
    if (expire - ticks) % WORD < HALF then (expire - ticks) % WORD else 0
  }

  /** `jiffies` is the low part of one of the `count` ticks from `now` on. */
  predicate TickIn(jiffies: nat, now: nat, count: nat) {
    jiffies < WORD && (jiffies - now) % WORD < count
  }

  lemma TickBetween(n: nat, now: nat, end: nat)
    requires now <= n < end
    ensures TickIn(n % WORD, now, end - now)
  {
    var k, x := n / WORD, n - now;
    assert n % WORD - now == x - k * WORD;
    assert (n % WORD - now) % WORD == x % WORD;
  }

  function TimersOf(calls: seq<Call>): seq<Timer> {
    if calls == [] then [] else TimersOf(calls[..|calls|-1]) + [calls[|calls|-1].timer]
  }

  lemma TimersSnoc(calls: seq<Call>, c: Call)
    ensures TimersOf(calls + [c]) == TimersOf(calls) + [c.timer]
  {
    assert (calls + [c])[..|calls|] == calls;
  }

  lemma {:induction false} SubsequenceShorter(r: seq<Timer>, s: seq<Timer>)
    requires Subsequence(r, s)
    ensures |r| <= |s|
    decreases |s|
  {
    if r != [] {
      if r[0] == s[0] && Subsequence(r[1..], s[1..]) {
        SubsequenceShorter(r[1..], s[1..]);
      } else {
        SubsequenceShorter(r, s[1..]);
      }
    }
  }

  /** The calls since the log was `log` are those of timers of `slot`, front to back, and `rest` is what
      may still be called of it. */
  predicate CalledSoFar(log: seq<Call>, calls: seq<Call>, rest: seq<Timer>, slot: seq<Timer>) {
    log <= calls && Subsequence(TimersOf(calls[|log|..]) + rest, slot)
  }

  lemma NoneCalled(log: seq<Call>, slot: seq<Timer>)
    ensures CalledSoFar(log, log, slot, slot)
  {
    hide Subsequence;
    SubsequenceSelf(slot);
    assert log[|log|..] == [] && TimersOf([]) + slot == slot;
  }

  lemma NextCalled(log: seq<Call>, calls: seq<Call>, c: Call, rest: seq<Timer>, left: seq<Timer>, slot: seq<Timer>)
    requires CalledSoFar(log, calls, rest, slot) && rest != [] && c.timer == rest[0] && Subsequence(left, rest[1..])
    ensures CalledSoFar(log, calls + [c], left, slot) && |left| < |rest|
  {
    hide Subsequence, TimersOf;
    var called := calls[|log|..];
    assert (calls + [c])[|log|..] == called + [c];
    TimersSnoc(called, c);
    SubsequenceShorter(left, rest[1..]);
    SubsequenceAfter(TimersOf(called) + [rest[0]], left, rest[1..]);
    assert TimersOf(called) + [rest[0]] + rest[1..] == TimersOf(called) + rest;
    SubsequenceTrans(TimersOf(called) + [rest[0]] + left, TimersOf(called) + rest, slot);
  }

  lemma AllCalled(log: seq<Call>, calls: seq<Call>, slot: seq<Timer>)
    requires CalledSoFar(log, calls, [], slot)
    ensures log <= calls && Subsequence(TimersOf(calls[|log|..]), slot)
  {
    hide Subsequence;
    assert TimersOf(calls[|log|..]) + [] == TimersOf(calls[|log|..]);
  }

  lemma QueueFront(q: seq<Timer>)
    requires q != []
    ensures Unlink(q, q[0]) == q[1..]
  {
  }

  lemma SameWord(x: int, y: int, k: int)
    requires x == y + k * WORD
    ensures x % WORD == y % WORD
  {
    assert x == (y / WORD + k) * WORD + y % WORD;
  }

  lemma DueInRange(clock: nat, d: nat)
    requires clock <= d < clock + HALF
    ensures DueTick(clock, d % WORD) == d
  {
    SameWord(d % WORD - clock, d - clock, -(d / WORD));
  }

  lemma DueAfter(now: nat, timeout: nat)
    requires timeout < HALF
    ensures DueTick(now, (timeout + now % WORD) % WORD) == now + timeout
  {
    SameWord(timeout + now % WORD, now + timeout, -(now / WORD));
    DueInRange(now, now + timeout);
  }

  class Wheel {
    var ticks: nat
    var timerJiffies: nat
    var index: seq<nat>           // tvecs[n]->index
    var lists: Lists              // every list head, with the timers linked on it in order
    var place: Places             // the list that timer->list is linked on; absent for null links
    var expires: map<Timer, nat>  // timer->expires
    var running: bool             // run_timer_list_running is set
    var calls: seq<Call>          // the calls of timer->function so far
    ghost var trace: seq<Event>
    ghost var flat: Flat

    ghost predicate Inv(done: nat)
      reads this
    {
      && ticks < WORD && timerJiffies == flat.now % WORD
      && Legal(trace) && flat == Run(trace) && running == flat.firing && calls == CallsOf(trace)
      && Indexed(index, flat.now, done)
      && Linked(lists, place)
      && Scheduled(flat, place, expires, done)
    }

    ghost predicate InOrder(done: nat)
      reads this
    {
      Ordered(flat, lists, place, done)
    }

    /** The invariant of the loop of run_timer_list, which also holds between its calls. */
    ghost predicate Valid()
      reads this
    {
      Inv(1) && InOrder(1) && !running && lists[Queued] == []
    }

    /** The slot of tv1 whose timers are called next. */
    ghost function Current(): seq<Timer>
      reads this
    {
      if |index| > 0 && Vec(0, index[0]) in lists then lists[Vec(0, index[0])] else []
    }

    ghost method Record(e: Event)
      requires Legal(trace) && flat == Run(trace) && Enabled(flat, e)
      modifies `trace, `flat
      ensures trace == old(trace) + [e] && flat == Step(old(flat), e)
      ensures Legal(trace) && flat == Run(trace)
      ensures CallsOf(trace) == CallsOf(old(trace)) + CallOf(old(flat), e)
    {
      RunSnoc(trace, e);
      CallsSnoc(trace, e);
      trace, flat := trace + [e], Step(flat, e);
    }

    constructor ()
      ensures Valid() && trace == [] && ticks == timerJiffies
    {
      ticks, timerJiffies, index, running, calls := 0, 0, [0, 0, 0, 0, 0], false, [];
      place, expires := map[], map[];
      trace, flat := [], INITIAL;
      var heads: Lists := map[Queued := []];
      for i := 0 to TVN_SIZE
        invariant forall h :: h in heads <==> h == Queued || (h.Vec? && 1 <= h.level < NOOF_TVECS && h.slot < i)
        invariant forall h :: h in heads ==> heads[h] == []
      {
        heads := heads[Vec(4, i) := []][Vec(3, i) := []][Vec(2, i) := []][Vec(1, i) := []];
      }
      for i := 0 to TVR_SIZE
        invariant forall h :: h in heads <==>
          h == Queued || (h.Vec? && 1 <= h.level < NOOF_TVECS && h.slot < TVN_SIZE) || (h.Vec? && h.level == 0 && h.slot < i)
        invariant forall h :: h in heads ==> heads[h] == []
      {
        heads := heads[Vec(0, i) := []];
      }
      lists := heads;
    }

    method InternalAddTimer(t: Timer)
      requires t !in place && Linked(lists, place) && t in expires
      requires |index| == NOOF_TVECS && index[0] < TVR_SIZE
      modifies `lists, `place
      ensures var h := if running then Queued else Target(index[0], timerJiffies, expires[t]);
        IsHead(h) && lists == old(lists)[h := old(lists)[h] + [t]] && place == old(place)[t := h]
      ensures Linked(lists, place)
    {
      var h := if running then Queued else Target(index[0], timerJiffies, expires[t]);
      LinkTail(lists, place, h, t);
      lists := lists[h := lists[h] + [t]];
      place := place[t := h];
    }

    method DetachTimer(t: Timer) returns (ret: bool)
      requires Linked(lists, place)
      modifies `lists, `place
      ensures ret == (t in old(place))
      ensures place == old(place) - {t}
      ensures lists == if ret then old(lists)[old(place)[t] := Unlink(old(lists)[old(place)[t]], t)] else old(lists)
      ensures Linked(lists, place)
    {
      if t !in place {
        return false;
      }
      LinkRemove(lists, place, t);
      lists := lists[place[t] := Unlink(lists[place[t]], t)];
      place := place - {t};
      return true;
    }

    /** Timers are added between two ticks, or by callbacks. */
    ghost predicate Settled(done: nat)
      reads this
    {
      running || (done == 1 && Queued in lists && lists[Queued] == [])
    }

    /** add_timer, called with timer->expires set to `e`. An armed timer is left alone. */
    method AddTimer(t: Timer, e: Word, ghost done: nat)
      requires Inv(done) && InOrder(done) && Settled(done) && done <= NOOF_TVECS
      modifies `lists, `place, `expires, `trace, `flat
      ensures Inv(done) && InOrder(done) && trace == old(trace) + [Add(t, e)]
      ensures flat == Step(old(flat), Add(t, e))
      ensures running ==> Current() == old(Current())
      ensures !running ==> lists[Queued] == old(lists)[Queued]
    {
      hide Legal, Run, NextBlock, Unit, Target, DueTick, Scheduled, Ordered, Linked;
      ArmTimer(t, e, done);
      Record(Add(t, e));
    }

    method ArmTimer(t: Timer, e: Word, ghost done: nat)
      requires Linked(lists, place) && Scheduled(flat, place, expires, done) && Indexed(index, flat.now, done)
      requires InOrder(done) && Settled(done)
      requires running == flat.firing && timerJiffies == flat.now % WORD && done <= NOOF_TVECS
      modifies `lists, `place, `expires
      ensures Linked(lists, place) && Scheduled(Step(flat, Add(t, e)), place, expires, done)
      ensures Ordered(Step(flat, Add(t, e)), lists, place, done)
      ensures running ==> Current() == old(Current())
      ensures !running ==> lists[Queued] == old(lists)[Queued]
    {
      hide NextBlock, Unit, Target, DueTick, Fits, Linked, Ordered;
      KnownPlace(t, done);
      if t !in place {
        ChoiceFits(flat, index, e, done);
        var h := if running then Queued else Target(index[0], timerJiffies, e);
        ScheduledWith(flat, place, expires, done, t, h, e);
        ScheduledSame(flat.(due := flat.due[t := DueTick(flat.Clock(), e)]), Armed(flat, t, e), place[t := h], expires[t := e], done);
        if running {
          OrderedQueue(flat, lists, place, expires, done, t, e);
        } else {
          OrderedArm(flat, lists, place, expires, index[0], t, e);
        }
        HeadLinked(lists, place, Queued);
        hide Scheduled, Indexed;
        expires := expires[t := e];
        InternalAddTimer(t);
      }
    }

    lemma KnownPlace(t: Timer, done: nat)
      requires Scheduled(flat, place, expires, done)
      ensures t in place <==> t in flat.due
    {
    }

    /** del_timer takes the timer off whatever list it is on and leaves the others as they were. */
    method DelTimer(t: Timer, ghost done: nat) returns (ret: bool)
      requires Inv(done) && InOrder(done)
      modifies `lists, `place, `trace, `flat
      ensures Inv(done) && InOrder(done) && trace == old(trace) + [Del(t)]
      ensures flat == Step(old(flat), Del(t))
      ensures ret <==> t in old(flat).due
      ensures lists == if ret then old(lists)[old(place)[t] := Unlink(old(lists)[old(place)[t]], t)] else old(lists)
    {
      hide Legal, Run, NextBlock, Fits, Linked, Ordered, Unlink;
      ScheduledWithout(flat, place, expires, done, t);
      ScheduledSame(flat.(due := flat.due - {t}), Without(flat, t), place - {t}, expires, done);
      KnownPlace(t, done);
      if t in place {
        OrderedWithout(flat, lists, place, done, t);
      } else {
        NothingLeaves(t, done);
      }
      hide Scheduled;
      ret := DetachTimer(t);
      Record(Del(t));
    }

    lemma NothingLeaves(t: Timer, done: nat)
      requires InOrder(done) && t !in place
      ensures Without(flat, t) == flat && place - {t} == place
    {
      assert t !in flat.due && t !in flat.armed;
      assert flat.due - {t} == flat.due && flat.armed - {t} == flat.armed;
    }

    /** What unlinking a timer leaves of the current slot. */
    lemma CurrentWithout(before: Lists, at: Places, t: Timer)
      requires |index| > 0 && Vec(0, index[0]) in before && (t in at ==> at[t] in before)
      requires lists == if t in at then before[at[t] := Unlink(before[at[t]], t)] else before
      ensures Subsequence(Current(), before[Vec(0, index[0])])
    {
      UnlinkSubsequence(before[Vec(0, index[0])], t);
      SubsequenceSelf(before[Vec(0, index[0])]);
    }

    /** A callback: any sequence of arming and deleting timers. It takes timers out of the current slot
        at most. */
    method RunCallback(ops: seq<Op>)
      requires Inv(NOOF_TVECS) && InOrder(NOOF_TVECS) && running
      modifies `lists, `place, `expires, `trace, `flat
      ensures Inv(NOOF_TVECS) && InOrder(NOOF_TVECS)
      ensures flat.now == old(flat.now) && running == flat.firing
      ensures trace == old(trace) + EventsOf(ops)
      ensures Subsequence(Current(), old(Current()))
    {
      hide Legal, Run, Scheduled, Linked, Ordered, Unlink, Subsequence, EventsOf;
      SubsequenceSelf(Current());
      EventsAt(ops[..0]);
      for i := 0 to |ops|
        invariant Inv(NOOF_TVECS) && InOrder(NOOF_TVECS) && flat.now == old(flat.now)
        invariant trace == old(trace) + EventsOf(ops[..i])
        invariant Subsequence(Current(), old(Current()))
      {
        ghost var slot := Current();
        OneMoreOp(ops, i);
        Joined(old(trace), EventsOf(ops[..i]), [EventOf(ops[i])]);
        match ops[i]
        case AddOp(t, e) => AddTimer(t, e, NOOF_TVECS);
        case DelOp(t) =>
          DeleteInTick(t);
          SubsequenceTrans(Current(), slot, old(Current()));
      }
      assert ops[..|ops|] == ops;
    }

    method DeleteInTick(t: Timer)
      requires Inv(NOOF_TVECS) && InOrder(NOOF_TVECS) && running
      modifies `lists, `place, `trace, `flat
      ensures Inv(NOOF_TVECS) && InOrder(NOOF_TVECS) && flat.now == old(flat.now) && trace == old(trace) + [Del(t)]
      ensures Subsequence(Current(), old(Current()))
    {
      hide Legal, Run, Scheduled, Linked, Ordered, Unlink, Subsequence;
      SlotLinked();
      ghost var before, at := lists, place;
      OnItsListIf(t);
      KnownPlace(t, NOOF_TVECS);
      var _ := DelTimer(t, NOOF_TVECS);
      CurrentWithout(before, at, t);
    }

    lemma OnItsListIf(t: Timer)
      requires Linked(lists, place)
      ensures t in place ==> place[t] in lists
    {
    }

    /** The body of the loop of cascade_timers. */
    method Requeue(n: nat, t: Timer)
      requires 1 <= n < NOOF_TVECS && Inv(n) && !running && Wraps(flat.now, n)
      requires t in place && place[t] == Vec(n, index[n])
      modifies `lists, `place
      ensures Inv(n) && lists[Queued] == old(lists)[Queued]
      ensures lists[Vec(n, index[n])] == Unlink(old(lists)[Vec(n, index[n])], t)
      ensures var h := Target(index[0], timerJiffies, ExpiryOf(expires, t));
        h != Vec(n, index[n]) && lists == Pushed(old(lists)[Vec(n, index[n]) := Unlink(old(lists)[Vec(n, index[n])], t)], h, t)
    {
      hide Scheduled, Linked, NextBlock, Target, Wraps;
      RequeueFits(flat, index, place, expires, n, t);
      var _ := DetachTimer(t);
      InternalAddTimer(t);
    }

    /** Redistributes the current slot of level `n` over the levels below. */
    method CascadeTimers(n: nat)
      requires 1 <= n < NOOF_TVECS && Inv(n) && InOrder(n) && !running && Wraps(flat.now, n)
      modifies `lists, `place, `index
      ensures Inv(n + 1) && InOrder(n + 1) && Queued in lists && lists[Queued] == old(lists)[Queued]
      ensures index == old(index)[n := (old(index)[n] + 1) % TVN_SIZE]
      ensures Vec(n, old(index)[n]) in old(lists)
      ensures var head := Vec(n, old(index)[n]);
        lists == Distribute(old(lists)[head := []], old(lists)[head], index[0], timerJiffies, expires)
    {
      hide Linked, Scheduled, Legal, Run, NextBlock, Fits, Target, CallsOf, Distribute, Pushed, Ordered;
      var head := Vec(n, index[n]);
      HeadLinked(lists, place, head);
      ghost var whole := Distribute(lists[head := []], lists[head], index[0], timerJiffies, expires);
      ghost var lists0, place0 := lists, place;
      while lists[head] != []
        invariant Inv(n) && head in lists && Queued in lists
        invariant lists[Queued] == old(lists)[Queued] && index == old(index)
        invariant Distribute(lists[head := []], lists[head], index[0], timerJiffies, expires) == whole
        decreases |lists[head]|
      {
        HeadLinked(lists, place, head);
        ghost var before := lists;
        Requeue(n, lists[head][0]);
        DistributeStep(before, head, index[0], timerJiffies, expires);
        HeadLinked(lists, place, head);
      }
      HeadLinked(lists, place, head);
      DistributeNone(lists[head := []], index[0], timerJiffies, expires);
      CascadeDone(flat, index, place, expires, n);
      assert lists[head := []] == lists;
      KeepsOrder(lists0, place0, n);
      lists := lists[head := []];
      index := index[n := (index[n] + 1) % TVN_SIZE];
    }

    /** The cascade that is about to be completed keeps the order. */
    lemma KeepsOrder(lists0: Lists, place0: Places, n: nat)
      requires 1 <= n < NOOF_TVECS && Inv(n) && !running && Wraps(flat.now, n) && Vec(n, index[n]) in lists0
      requires Linked(lists0, place0) && Scheduled(flat, place0, expires, n) && Ordered(flat, lists0, place0, n)
      requires Queued in lists && Queued in lists0 && lists0[Queued] == lists[Queued]
      requires lists == Distribute(lists0[Vec(n, index[n]) := []], lists0[Vec(n, index[n])], index[0], timerJiffies, expires)
      ensures Ordered(flat, lists, place, n + 1)
    {
      hide Legal, Run, CallsOf, NextBlock, Ordered, Distribute, Fits;
      ListIsHead(lists0, place0, Vec(n, index[n]));
      OrderedCascade(Cascade(flat, lists0, place0, expires, n, index[0], lists, place));
    }

    /** The cascades at the head of an iteration of run_timer_list. */
    method CascadeLevels()
      requires Valid()
      modifies `lists, `place, `index
      ensures Inv(NOOF_TVECS) && InOrder(NOOF_TVECS) && lists[Queued] == [] && flat == old(flat)
    {
      hide Scheduled, Linked, Ordered, Distribute, Legal, Run, CallsOf;
      if index[0] != 0 {
        NoFurtherCascade(flat, index, place, expires, 1);
        OrderedLater(flat, lists, place, 1, NOOF_TVECS);
        return;
      }
      var n := 1;
      CascadeTimers(n);
      while index[n] == 1 && n + 1 < NOOF_TVECS
        invariant 1 <= n < NOOF_TVECS && Inv(n + 1) && InOrder(n + 1)
        invariant Queued in lists && lists[Queued] == []
        invariant Wraps(flat.now, n) && flat == old(flat)
      {
        IndexTest(flat.now, n);
        n := n + 1;
        CascadeTimers(n);
      }
      if n + 1 < NOOF_TVECS {
        IndexTest(flat.now, n);
        NoFurtherCascade(flat, index, place, expires, n + 1);
        OrderedLater(flat, lists, place, n + 1, NOOF_TVECS);
      }
    }

    /** Unlinks the first timer of the current slot, as a call of it is about to begin. */
    method TakeTimer() returns (t: Timer)
      requires Inv(NOOF_TVECS) && InOrder(NOOF_TVECS) && running && Current() != []
      modifies `lists, `place, `calls, `trace, `flat
      ensures t == old(Current())[0] && Current() == old(Current())[1..]
      ensures Inv(NOOF_TVECS) && InOrder(NOOF_TVECS) && running && flat == Step(old(flat), Fire(t))
      ensures flat.now == old(flat.now)
      ensures trace == old(trace) + [Fire(t)] && calls == old(calls) + [Call(t, timerJiffies)]
    {
      hide Run, Legal, CallsOf, Ordered, Linked, Enabled, Unlink, Scheduled;
      SlotLinked();
      t := lists[Vec(0, index[0])][0];
      FrontEnabled();
      FrontLeaves();
      QueueFront(lists[Vec(0, index[0])]);
      var _ := DetachTimer(t);
      Record(Fire(t));
      calls := calls + [Call(t, timerJiffies)];
    }

    lemma FrontLeaves()
      requires Inv(NOOF_TVECS) && InOrder(NOOF_TVECS) && running && Current() != []
      ensures var t := Current()[0];
        && t in place && place[t] in lists && Scheduled(Without(flat, t), place - {t}, expires, NOOF_TVECS)
        && Ordered(Without(flat, t), lists[place[t] := Unlink(lists[place[t]], t)], place - {t}, NOOF_TVECS)
    {
      hide Fits, Run, Legal, CallsOf, NextBlock, Ordered, Linked, Unlink;
      SlotLinked();
      var t := lists[Vec(0, index[0])][0];
      ScheduledWithout(flat, place, expires, NOOF_TVECS, t);
      ScheduledSame(flat.(due := flat.due - {t}), Without(flat, t), place - {t}, expires, NOOF_TVECS);
      OrderedWithout(flat, lists, place, NOOF_TVECS, t);
    }

    lemma FrontEnabled()
      requires Inv(NOOF_TVECS) && InOrder(NOOF_TVECS) && running && Current() != []
      ensures Enabled(flat, Fire(Current()[0]))
    {
      hide Fits, Run, Legal, CallsOf, NextBlock, GoesFirst, Ordered, Linked, Size, Unit;
      SlotLinked();
      var t := lists[Vec(0, index[0])][0];
      CurrentSlot(flat, place[t], flat.due[t], expires[t]);
      FrontGoesFirst(flat, lists, place, expires);
    }

    /** Calls the first timer of the current slot. Its callback does all it does, and nothing else. */
    method FireTimer(callbacks: nat -> seq<Op>)
      requires Inv(NOOF_TVECS) && InOrder(NOOF_TVECS) && running && Current() != []
      modifies `lists, `place, `expires, `calls, `trace, `flat
      ensures Inv(NOOF_TVECS) && InOrder(NOOF_TVECS) && running && flat.now == old(flat.now)
      ensures calls == old(calls) + [Call(old(Current())[0], timerJiffies)]
      ensures Subsequence(Current(), old(Current())[1..])
      ensures trace == old(trace) + ([Fire(old(Current())[0])] + EventsOf(callbacks(|old(calls)|)))
    {
      hide Linked, Indexed, Scheduled, Run, Legal, CallsOf, Ordered, Subsequence, EventsOf, Step, DueTick;
      var t := TakeTimer();
      RunCallback(callbacks(|calls| - 1));
      Joined(old(trace), [Fire(t)], EventsOf(callbacks(|old(calls)|)));
    }

    /** The `repeat` loop: runs the current slot dry, front to back, without the timers that callbacks
        take out of it; callbacks never extend it. */
    method FireCurrent(callbacks: nat -> seq<Op>)
      requires Inv(NOOF_TVECS) && InOrder(NOOF_TVECS) && running
      modifies `lists, `place, `expires, `calls, `trace, `flat
      ensures Inv(NOOF_TVECS) && InOrder(NOOF_TVECS) && running && flat.now == old(flat.now)
      ensures old(calls) <= calls && Subsequence(TimersOf(calls[|old(calls)|..]), old(Current()))
      ensures trace == old(trace) + Fired(callbacks, calls, |old(calls)|)
      ensures Current() == []
    {
      hide Scheduled, Linked, Indexed, Run, Legal, CallsOf, Size, Ordered, Subsequence, EventsOf, Fired, CalledSoFar;
      ghost var slot, log := Current(), calls;
      NoneFired(callbacks, calls, |log|);
      NoneCalled(log, slot);
      SlotLinked();
      while lists[Vec(0, index[0])] != []
        invariant Inv(NOOF_TVECS) && InOrder(NOOF_TVECS) && running && flat.now == old(flat.now)
        invariant |index| == NOOF_TVECS && Vec(0, index[0]) in lists
        invariant CalledSoFar(log, calls, Current(), slot) && |log| <= |calls|
        invariant trace == old(trace) + Fired(callbacks, calls, |log|)
        decreases |Current()|
      {
        ghost var rest, before := Current(), calls;
        FireTimer(callbacks);
        OneMoreCall(callbacks, before, Call(rest[0], timerJiffies), |log|, old(trace));
        NextCalled(log, before, Call(rest[0], timerJiffies), rest, Current(), slot);
        SlotLinked();
      }
      AllCalled(log, calls, slot);
    }

    lemma SlotLinked()
      requires Inv(NOOF_TVECS)
      ensures |index| == NOOF_TVECS && Vec(0, index[0]) in lists
      ensures forall t :: t in lists[Vec(0, index[0])] ==> t in place && place[t] == Vec(0, index[0])
    {
      hide Scheduled, Run, Legal, CallsOf;
      HeadLinked(lists, place, Vec(0, index[0]));
    }

    /** Re-adds the timers armed by callbacks, after the clock has moved on. */
    method DrainQueued()
      requires Inv(1) && InOrder(1) && !running
      modifies `lists, `place
      ensures Valid() && Queued in old(lists)
      ensures lists == Distribute(old(lists)[Queued := []], old(lists)[Queued], index[0], timerJiffies, expires)
    {
      hide Scheduled, Target, Legal, Run, CallsOf, Fits, NextBlock, Distribute, Size, Linked, Ordered, Unlink;
      HeadLinked(lists, place, Queued);
      ghost var whole := Distribute(lists[Queued := []], lists[Queued], index[0], timerJiffies, expires);
      while lists[Queued] != []
        invariant Inv(1) && InOrder(1) && !running && Queued in lists
        invariant Distribute(lists[Queued := []], lists[Queued], index[0], timerJiffies, expires) == whole
        decreases |lists[Queued]|
      {
        var t := lists[Queued][0];
        HeadLinked(lists, place, Queued);
        DrainFits(flat, index, place, expires, t);
        OrderedDrain(flat, lists, place, expires, index[0]);
        QueueFront(lists[Queued]);
        DistributeStep(lists, Queued, index[0], timerJiffies, expires);
        var _ := DetachTimer(t);
        InternalAddTimer(t);
      }
      DistributeNone(lists[Queued := []], index[0], timerJiffies, expires);
      assert lists[Queued := []] == lists;
    }

    /** run_timer_list_running is set: the current slot begins to be run. */
    method BeginTick()
      requires Inv(NOOF_TVECS) && InOrder(NOOF_TVECS) && !running && lists[Queued] == []
      modifies `running, `trace, `flat
      ensures Inv(NOOF_TVECS) && InOrder(NOOF_TVECS) && running
      ensures flat.now == old(flat.now) && trace == old(trace) + [Begin]
    {
      hide Linked, Legal, Run, NextBlock, CallsOf, Indexed, Scheduled, Ordered;
      OrderedBegin(flat, lists, place);
      BeginFiring(flat, lists, place, expires);
      Record(Begin);
      running := true;
    }

    /** The current slot is empty: the clock moves on. */
    method EndTick()
      requires Inv(NOOF_TVECS) && InOrder(NOOF_TVECS) && running && Current() == []
      modifies `timerJiffies, `index, `running, `trace, `flat
      ensures Inv(1) && InOrder(1) && !running && flat.now == old(flat.now) + 1 && trace == old(trace) + [End]
    {
      hide Linked, Legal, Run, NextBlock, CallsOf, Enabled, Scheduled, Ordered;
      SlotLinked();
      OrderedEnd(flat, lists, place);
      NothingDue(flat, lists, place, expires);
      NextTick(flat, index, place, expires);
      running := false;
      Record(End);
      timerJiffies := (timerJiffies + 1) % WORD;
      index := index[0 := (index[0] + 1) % TVR_SIZE];
    }

    /** One iteration of the loop of run_timer_list. */
    method RunOneTick(callbacks: nat -> seq<Op>)
      requires Valid()
      modifies `timerJiffies, `index, `lists, `place, `expires, `running, `calls, `trace, `flat
      ensures Valid() && flat.now == old(flat.now) + 1
      ensures old(calls) <= calls && trace == old(trace) + TickEvents(callbacks, calls, |old(calls)|)
    {
      hide Scheduled, Linked, Legal, Run, CallsOf, Distribute, Ordered, TimersOf, Subsequence, Fired;
      CascadeLevels();
      BeginTick();
      FireCurrent(callbacks);
      EndTick();
      DrainQueued();
    }

    /** Runs every tick up to and including `ticks`, or none when the signed difference of the
        two 32-bit counters is negative. */
    method RunTimerList(callbacks: nat -> seq<Op>) returns (ghost ends: seq<nat>)
      requires Valid()
      modifies `timerJiffies, `index, `lists, `place, `expires, `running, `calls, `trace, `flat
      ensures Valid() && old(trace) <= trace && OnlyBy(callbacks, trace, |old(trace)|)
      ensures flat.now == old(flat.now) + TicksToRun(ticks, old(flat.now))
      ensures old(calls) <= calls && |ends| == TicksToRun(ticks, old(flat.now)) && Within(ends, |calls|)
      ensures ends != [] ==> ends[|ends|-1] == |calls|
      ensures trace == old(trace) + TicksEvents(callbacks, calls, |old(calls)|, ends)
      ensures forall j :: |old(calls)| <= j < |calls| ==>
        TickIn(calls[j].jiffies, old(flat.now), TicksToRun(ticks, old(flat.now)))
    {
      hide Scheduled, Linked, Legal, Run, Indexed, Ordered, CallsOf, OnlyBy, TickEvents, TicksEvents, Fired;
      ends := [];
      NoTicks(callbacks, calls);
      TicksLeft(ticks, flat.now);
      while (ticks - timerJiffies) % WORD < HALF
        invariant Valid()
        invariant old(calls) <= calls && Within(ends, |calls|)
        invariant |calls| == if ends == [] then |old(calls)| else ends[|ends|-1]
        invariant |ends| + TicksToRun(ticks, flat.now) == TicksToRun(ticks, old(flat.now))
        invariant trace == old(trace) + TicksEvents(callbacks, calls, |old(calls)|, ends)
        invariant flat.now + TicksToRun(ticks, flat.now) == old(flat.now) + TicksToRun(ticks, old(flat.now))
        invariant (ticks - timerJiffies) % WORD == (ticks - flat.now) % WORD
        decreases TicksToRun(ticks, flat.now)
      {
        ghost var evs, log := TicksEvents(callbacks, calls, |old(calls)|, ends), calls;
        RunOneTick(callbacks);
        OneMoreTick(callbacks, log, calls, |old(calls)|, ends);
        ends := ends + [|calls|];
        Joined(old(trace), evs, TickEvents(callbacks, calls, |log|));
        TicksLeft(ticks, flat.now - 1);
        TicksLeft(ticks, flat.now);
      }
      OnlyByTicks(callbacks, old(trace), calls, |old(calls)|, ends);
      NewCalls(old(trace), old(flat.now));
    }

    /** The calls made since the point `log` of the run carry the ticks run since. */
    lemma NewCalls(log: seq<Event>, now: nat)
      requires Valid() && log <= trace && now == Run(log).now <= flat.now
      ensures CallsOf(log) <= calls
      ensures forall j :: |CallsOf(log)| <= j < |calls| ==> TickIn(calls[j].jiffies, now, flat.now - now)
    {
      hide Scheduled, Linked, Legal, Run, Indexed, Ordered, CallsOf;
      assert trace[..|log|] == log;
      CallsPrefix(trace, |log|);
      forall j | |CallsOf(log)| <= j < |calls|
        ensures TickIn(calls[j].jiffies, now, flat.now - now)
      {
        var n := CallsWindow(trace, |log|, j);
        TickBetween(n, now, flat.now);
      }
    }

    /** The clock interrupt runs exactly the tick numbered `ticks`, then counts it. */
    method Inthandler20(callbacks: nat -> seq<Op>)
      requires Valid() && ticks == timerJiffies
      modifies `ticks, `timerJiffies, `index, `lists, `place, `expires, `running, `calls, `trace, `flat
      ensures Valid() && ticks == timerJiffies
      ensures old(trace) <= trace && flat.now == old(flat.now) + 1
      ensures ticks == (old(ticks) + 1) % WORD
      ensures old(calls) <= calls && forall j :: |old(calls)| <= j < |calls| ==> calls[j].jiffies == old(ticks)
      ensures trace == old(trace) + TickEvents(callbacks, calls, |old(calls)|) && OnlyBy(callbacks, trace, |old(trace)|)
    {
      hide Scheduled, Linked, Legal, Run, Indexed, CallsOf, TicksToRun, Ordered, OnlyBy, TickEvents;
      OneTick(flat.now);
      ghost var ends := RunTimerList(callbacks);
      assert ends[..0] == [] && calls[..|calls|] == calls;
      assert trace == old(trace) + ([] + TickEvents(callbacks, calls, |old(calls)|));
      ticks := (ticks + 1) % WORD;
    }

    /** The part of schedule_timeout before it sleeps. */
    method ArmTimeout(t: Timer, timeout: int) returns (sleep: Sleep)
      requires Valid() && ticks == timerJiffies && t !in place && -(HALF as int) <= timeout < HALF
      modifies `lists, `place, `expires, `trace, `flat
      ensures Valid() && flat.now == old(flat.now)
      ensures timeout == MAX_SCHEDULE_TIMEOUT ==> sleep == Untimed && trace == old(trace)
      ensures timeout < 0 ==> sleep == Awake && trace == old(trace)
      ensures 0 <= timeout < MAX_SCHEDULE_TIMEOUT ==>
        && sleep == Until((timeout + ticks) % WORD) && trace == old(trace) + [Add(t, sleep.expire)]
        && flat.due == old(flat).due[t := old(flat).now + timeout]
    {
      hide Linked, Legal, Run, Indexed, Fits, Ordered;
      if timeout == MAX_SCHEDULE_TIMEOUT {
        return Untimed;
      }
      if timeout < 0 {
        return Awake;
      }
      var expire := (timeout + ticks) % WORD;
      DueAfter(flat.now, timeout);
      hide DueTick;
      KnownPlace(t, 1);
      HeadLinked(lists, place, Queued);
      AddTimer(t, expire, 1);
      sleep := Until(expire);
    }

    /** The part of schedule_timeout after it wakes: the ticks still left, or none. */
    method FinishTimeout(t: Timer, timeout: int, sleep: Sleep) returns (left: int)
      requires Valid() && (sleep == Untimed ==> timeout == MAX_SCHEDULE_TIMEOUT) && (sleep == Awake ==> timeout < 0)
      modifies `lists, `place, `trace, `flat
      ensures Valid() && flat.now == old(flat.now)
      ensures sleep.Until? ==> trace == old(trace) + [Del(t)] && t !in flat.due
      ensures !sleep.Until? ==> trace == old(trace)
      ensures left == match sleep
        case Untimed => timeout
        case Awake => 0
        case Until(expire) => TicksLeftUntil(expire, ticks)
    {
      hide Legal, Run, Indexed, Fits, Linked, Ordered, Unlink;
      match sleep
      case Untimed => left := timeout;
      case Awake => left := 0;
      case Until(expire) =>
        KeepsQueueEmpty(t);
        var _ := DelTimer(t, 1);
        left := TicksLeftUntil(expire, ticks);
    }

    /** Other threads arm and delete timers, between two interrupts. */
    method OtherThreads(ops: seq<Op>)
      requires Valid()
      modifies `lists, `place, `expires, `trace, `flat
      ensures Valid() && flat.now == old(flat.now)
      ensures trace == old(trace) + EventsOf(ops)
    {
      hide Legal, Run, Scheduled, Indexed, Linked, Ordered, Unlink, CallsOf, EventsOf;
      EventsAt(ops[..0]);
      for i := 0 to |ops|
        invariant Valid() && flat.now == old(flat.now)
        invariant trace == old(trace) + EventsOf(ops[..i])
      {
        HeadLinked(lists, place, Queued);
        OneMoreOp(ops, i);
        match ops[i]
        case AddOp(t, e) => AddTimer(t, e, 1);
        case DelOp(t) =>
          KeepsQueueEmpty(t);
          var _ := DelTimer(t, 1);
      }
      assert ops[..|ops|] == ops;
    }

    lemma KeepsQueueEmpty(t: Timer)
      requires Linked(lists, place) && lists[Queued] == []
      ensures t in place ==> place[t] != Queued && place[t] in lists
    {
    }
  }

  /** Exact firing on the wheel. A timer that was armed when idle, with an expiry less than 2^31
      ticks ahead, and not deleted up to a point `n` at which the clock is past its due tick, has had
      its function called: in the first tick from its arming whose low 32 bits are its expiry, and in
      the whole run not again unless it was armed again. */
  lemma FiresExactly(w: Wheel, t: Timer, i: nat, n: nat) returns (k: nat)
    requires w.Valid() && i < n <= |w.trace| && w.trace[i].Add? && w.trace[i].timer == t
    requires t !in Run(w.trace[..i]).due
    requires (w.trace[i].expires - Run(w.trace[..i]).Clock()) % WORD < HALF
    requires forall m :: i < m < n ==> w.trace[m] != Del(t)
    requires Run(w.trace[..n]).now > DueTick(Run(w.trace[..i]).Clock(), w.trace[i].expires)
    ensures i < k < n && w.trace[k] == Fire(t)
    ensures |CallsOf(w.trace[..k])| < |w.calls|
    ensures w.calls[|CallsOf(w.trace[..k])|] == Call(t, w.trace[i].expires)
    ensures forall c :: Run(w.trace[..i]).Clock() <= c < Run(w.trace[..k]).now ==> c % WORD != w.trace[i].expires
    ensures forall m :: i < m < |w.trace| && m != k && w.trace[m] == Fire(t) ==>
      m > k && exists a :: k < a < m && w.trace[a].Add? && w.trace[a].timer == t
  {
    hide Run, Legal, CallsOf, Linked, Indexed, Scheduled, DueTick;
    k := ExactFiring(w.trace, t, i, n);
    InRangeExpiryIsExact(Run(w.trace[..i]).Clock(), w.trace[i].expires);
    CallAt(w.trace, k);
  }

  /** A timer whose expiry is already past when it is armed is called in the tick that its arming
      clock is at: the one about to be run, or the next one if a callback armed it. */
  lemma FiresLate(w: Wheel, t: Timer, i: nat, n: nat) returns (k: nat)
    requires w.Valid() && i < n <= |w.trace| && w.trace[i].Add? && w.trace[i].timer == t
    requires t !in Run(w.trace[..i]).due
    requires (w.trace[i].expires - Run(w.trace[..i]).Clock()) % WORD >= HALF
    requires forall m :: i < m < n ==> w.trace[m] != Del(t)
    requires Run(w.trace[..n]).now > Run(w.trace[..i]).Clock()
    ensures i < k < n && w.trace[k] == Fire(t)
    ensures |CallsOf(w.trace[..k])| < |w.calls|
    ensures w.calls[|CallsOf(w.trace[..k])|] == Call(t, Run(w.trace[..i]).Clock() % WORD)
    ensures forall m :: i < m < |w.trace| && m != k && w.trace[m] == Fire(t) ==>
      m > k && exists a :: k < a < m && w.trace[a].Add? && w.trace[a].timer == t
  {
    hide Run, Legal, CallsOf, Linked, Indexed, Scheduled, Ordered;
    k := ExactFiring(w.trace, t, i, n);
    CallAt(w.trace, k);
  }

  /** The order of calls on the wheel. Of two timers armed when idle, due in the same tick and not
      deleted up to a point `n` at which the clock is past it, the one armed first is called first
      exactly when the other does not overtake it, which their arming clocks and their tick decide. */
  lemma CalledInOrder(w: Wheel, t1: Timer, t2: Timer, i1: nat, i2: nat, n: nat) returns (j1: nat, j2: nat)
    requires w.Valid() && i1 < i2 < n <= |w.trace| && t1 != t2
    requires w.trace[i1].Add? && w.trace[i1].timer == t1 && t1 !in Run(w.trace[..i1]).due
    requires w.trace[i2].Add? && w.trace[i2].timer == t2 && t2 !in Run(w.trace[..i2]).due
    requires forall m :: i1 < m < n ==> w.trace[m] != Del(t1)
    requires forall m :: i2 < m < n ==> w.trace[m] != Del(t2)
    requires var d := DueTick(Run(w.trace[..i1]).Clock(), w.trace[i1].expires);
      d == DueTick(Run(w.trace[..i2]).Clock(), w.trace[i2].expires) && Run(w.trace[..n]).now > d
    ensures var (c1, c2) := (Run(w.trace[..i1]).Clock(), Run(w.trace[..i2]).Clock());
      var d := DueTick(c1, w.trace[i1].expires);
      && j1 < |w.calls| && w.calls[j1] == Call(t1, d % WORD)
      && j2 < |w.calls| && w.calls[j2] == Call(t2, d % WORD)
      && (j1 < j2 <==> !Overtakes(c1, c2, d))
  {
    hide Run, Legal, CallsOf, Linked, Indexed, Scheduled, Ordered, DueTick, Overtakes;
    var k1, k2 := SameTickOrder(w.trace, t1, t2, i1, i2, n);
    j1, j2 := |CallsOf(w.trace[..k1])|, |CallsOf(w.trace[..k2])|;
    CallAt(w.trace, k1);
    CallAt(w.trace, k2);
    if k1 < k2 {
      assert w.trace[..k2][..k1] == w.trace[..k1];
      CallAt(w.trace[..k2], k1);
    } else if k2 < k1 {
      assert w.trace[..k1][..k2] == w.trace[..k2];
      CallAt(w.trace[..k1], k2);
    }
  }

  lemma LeftAfter(ticks: Word, timeout: nat, elapsed: nat)
    ensures var left := TicksLeftUntil((timeout + ticks) % WORD, (ticks + elapsed) % WORD);
      && (elapsed <= timeout < HALF ==> left == timeout - elapsed)
      && (timeout < elapsed <= timeout + HALF ==> left == 0)
  {
    var left := (timeout + ticks) % WORD - (ticks + elapsed) % WORD;
    SameWord(left, timeout - elapsed, (ticks + elapsed) / WORD - (timeout + ticks) / WORD);
  }

  /** `count` clock interrupts, other threads running before each; none of them touches `t`. */
  method Interrupts(w: Wheel, count: nat, others: nat -> seq<Op>, callbacks: nat -> nat -> seq<Op>, ghost t: Timer)
    requires w.Valid() && w.ticks == w.timerJiffies
    requires forall i :: Spared(others(i), t) && Spares(callbacks(i), t)
    modifies w
    ensures w.Valid() && w.ticks == w.timerJiffies && w.flat.now == old(w.flat.now) + count
    ensures w.ticks == (old(w.ticks) + count) % WORD
    ensures old(w.trace) <= w.trace && LeftAlone(w.trace, |old(w.trace)|, t)
  {
    hide Legal, CallsOf, Linked, Indexed, Scheduled, Ordered, Run, OnlyBy, LeftAlone, Spares, Spared;
    NothingYet(w.trace, t);
    for i := 0 to count
      invariant w.Valid() && w.ticks == w.timerJiffies && w.flat.now == old(w.flat.now) + i
      invariant w.ticks == (old(w.ticks) + i) % WORD
      invariant old(w.trace) <= w.trace && LeftAlone(w.trace, |old(w.trace)|, t)
    {
      ghost var tr0 := w.trace;
      w.OtherThreads(others(i));
      ghost var tr1 := w.trace;
      SparedEvents(tr0, others(i), t);
      StillAlone(tr0, tr1, |old(w.trace)|, t);
      w.Inthandler20(callbacks(i));
      SparedBy(callbacks(i), w.trace, |tr1|, t);
      StillAlone(tr1, w.trace, |old(w.trace)|, t);
    }
  }

  /** A whole schedule_timeout, with `elapsed` interrupts before the sleeper is back. Other threads and
      callbacks may arm and delete all timers but its own. It is called exactly in the interrupt that
      begins with `ticks` at its expiry, once, if that one has come, and what is left of the timeout is
      returned. */
  method ScheduleTimeout(w: Wheel, t: Timer, timeout: nat, elapsed: nat,
                         others: nat -> seq<Op>, callbacks: nat -> nat -> seq<Op>)
    returns (left: int)
    requires w.Valid() && w.ticks == w.timerJiffies && t !in w.place && timeout < MAX_SCHEDULE_TIMEOUT
    requires forall i :: Spared(others(i), t) && Spares(callbacks(i), t)
    modifies w
    ensures w.Valid() && w.ticks == w.timerJiffies && w.flat.now == old(w.flat.now) + elapsed && t !in w.flat.due
    ensures old(w.calls) <= w.calls
    ensures CalledOnce(w.calls, |old(w.calls)|, t, old(w.flat.now) + timeout, old(w.flat.now) + elapsed)
    ensures elapsed <= timeout ==> left == timeout - elapsed
    ensures timeout < elapsed <= timeout + HALF ==> left == 0
  {
    hide Legal, CallsOf, Linked, Indexed, Scheduled, Ordered, Run, LeftAlone, CalledOnce, DueTick, Spares, Spared,
      TicksLeftUntil;
    DueAfter(w.flat.now, timeout);
    w.KnownPlace(t, 1);
    ghost var before := w.trace;
    var sleep := w.ArmTimeout(t, timeout);
    Interrupts(w, elapsed, others, callbacks, t);
    SleeperCalls(w, before, t, sleep.expire);
    LeftAfter(old(w.ticks), timeout, elapsed);
    left := w.FinishTimeout(t, timeout, sleep);
  }

  lemma SleeperCalls(w: Wheel, before: seq<Event>, t: Timer, e: Word)
    requires w.Valid() && before + [Add(t, e)] <= w.trace && LeftAlone(w.trace, |before| + 1, t)
    requires t !in Run(before).due
    ensures CallsOf(before) <= w.calls
    ensures CalledOnce(w.calls, |CallsOf(before)|, t, DueTick(Run(before).Clock(), e), w.flat.now)
  {
    hide Legal, CallsOf, Linked, Indexed, Scheduled, Ordered, Run, LeftAlone, CalledOnce, DueTick;
    assert w.trace[..|before|] == before && w.trace[|before|] == Add(t, e);
    CallsPrefix(w.trace, |before|);
    CalledOnceSince(w.trace, t, |before|);
  }

  lemma NothingYet(tr: seq<Event>, t: Timer)
    ensures LeftAlone(tr, |tr|, t)
  {
  }

  lemma StillAlone(r: seq<Event>, tr: seq<Event>, i: nat, t: Timer)
    requires r <= tr && i <= |r| && LeftAlone(r, i, t) && LeftAlone(tr, |r|, t)
    ensures LeftAlone(tr, i, t)
  {
  }

  lemma SparedBy(callbacks: nat -> seq<Op>, tr: seq<Event>, i: nat, t: Timer)
    requires OnlyBy(callbacks, tr, i) && Spares(callbacks, t)
    ensures LeftAlone(tr, i, t)
  {
  }

  /** Lets the clock of `w` run for `count` ticks, with callbacks that touch no timer. */
  method RunFor(w: Wheel, count: nat)
    requires w.Valid() && w.ticks == w.timerJiffies
    modifies w
    ensures w.Valid() && w.ticks == w.timerJiffies && w.flat.now == old(w.flat.now) + count
    ensures old(w.trace) <= w.trace && NoOps(w.trace, |old(w.trace)|)
  {
    hide Legal, CallsOf, Linked, Indexed, Scheduled, Ordered, Run, NoOps, OnlyBy;
    var quiet: nat -> seq<Op> := n => [];
    OnlyByNone(quiet, w.trace);
    for i := 0 to count
      invariant w.Valid() && w.ticks == w.timerJiffies && w.flat.now == old(w.flat.now) + i
      invariant old(w.trace) <= w.trace && OnlyBy(quiet, w.trace, |old(w.trace)|)
    {
      ghost var before := w.trace;
      w.Inthandler20(quiet);
      OnlyByJoined(quiet, before, w.trace, |old(w.trace)|);
    }
    OnlyByNobody(quiet, w.trace, |old(w.trace)|);
  }

  lemma OnlyByNobody(callbacks: nat -> seq<Op>, tr: seq<Event>, i: nat)
    requires OnlyBy(callbacks, tr, i) && forall n :: callbacks(n) == []
    ensures NoOps(tr, i)
  {
    forall t
      ensures LeftAlone(tr, i, t)
    {
      assert Spares(callbacks, t);
    }
    forall k | i <= k < |tr|
      ensures !tr[k].Add? && !tr[k].Del?
    {
      if tr[k].Add? || tr[k].Del? {
        LeftAloneAt(tr, i, tr[k].timer, k);
      }
    }
  }

  lemma LeftAloneAt(tr: seq<Event>, i: nat, t: Timer, k: nat)
    requires LeftAlone(tr, i, t) && i <= k < |tr|
    ensures tr[k].Add? || tr[k].Del? ==> tr[k].timer != t
  {
  }

  /** Arms `t1` at tick `c1` and `t2` at tick `c2`, both for tick `d`, and lets the clock run past it:
      the wheel calls `t2` first exactly when it overtakes. */
  method ArmBoth(t1: Timer, t2: Timer, c1: nat, c2: nat, d: nat) returns (w: Wheel)
    requires t1 != t2 && c1 <= c2 <= d < c1 + HALF
    ensures fresh(w) && w.Valid() && exists m, n :: ArmsBoth(w.trace, m, n, t1, t2, c1, c2, d)
    ensures w.calls == if Overtakes(c1, c2, d) then [Call(t2, d % WORD), Call(t1, d % WORD)]
                       else [Call(t1, d % WORD), Call(t2, d % WORD)]
  {
    hide Legal, CallsOf, Linked, Indexed, Scheduled, Ordered, Run, NoOps, Overtakes, DueTick;
    w := new Wheel();
    StartOfRun();
    RunFor(w, c1);
    ghost var m := |w.trace|;
    ghost var tr0 := w.trace;
    HeadLinked(w.lists, w.place, Queued);
    w.AddTimer(t1, d % WORD, 1);
    ghost var tr1 := w.trace;
    RunFor(w, c2 - c1);
    ghost var n, tr2 := |w.trace|, w.trace;
    HeadLinked(w.lists, w.place, Queued);
    w.AddTimer(t2, d % WORD, 1);
    ghost var tr3 := w.trace;
    RunFor(w, d + 1 - c2);
    assert w.trace[..m] == tr0 && w.trace[..n] == tr2;
    BetweenOps(w.trace, tr0, tr1, tr2, tr3);
    BothCalled(w, m, n, t1, t2, c1, c2, d);
  }

  /** Timers are not FIFO: armed at ticks 0 and 45 for tick 300, timer 2 is called before timer 1. */
  method LaterTimerOvertakes() returns (w: Wheel)
    ensures fresh(w) && w.Valid() && w.calls == [Call(2, 300), Call(1, 300)]
  {
    hide Legal, CallsOf, Linked, Indexed, Scheduled, Ordered, Run, ArmsBoth;
    assert 0 + Unit(1) <= 300 < 45 + Unit(1) && 45 <= 300 / Unit(1) * Unit(1);
    w := ArmBoth(1, 2, 0, 45, 300);
  }

  lemma StartOfRun()
    ensures Run([]) == INITIAL && Legal([]) && CallsOf([]) == []
  {
  }

  /** A run that arms `t1` at tick `c1` and `t2` at tick `c2`, and is otherwise left alone. */
  ghost predicate ArmsBoth(tr: seq<Event>, m: nat, n: nat, t1: Timer, t2: Timer, c1: nat, c2: nat, d: nat) {
    && m < n < |tr| && tr[m] == Add(t1, d % WORD) && tr[n] == Add(t2, d % WORD)
    && Run(tr[..m]).now == c1 && !Run(tr[..m]).firing
    && Run(tr[..n]).now == c2 && !Run(tr[..n]).firing
    && (forall k :: 0 <= k < |tr| && k != m && k != n ==> !tr[k].Add? && !tr[k].Del?)
  }

  lemma BetweenOps(tr: seq<Event>, tr0: seq<Event>, tr1: seq<Event>, tr2: seq<Event>, tr3: seq<Event>)
    requires tr0 <= tr1 <= tr2 <= tr3 <= tr && |tr1| == |tr0| + 1 && |tr3| == |tr2| + 1
    requires NoOps(tr0, 0) && NoOps(tr2, |tr1|) && NoOps(tr, |tr3|)
    ensures forall k :: 0 <= k < |tr| && k != |tr0| && k != |tr2| ==> !tr[k].Add? && !tr[k].Del?
  {
  }

  lemma BothCalled(w: Wheel, m: nat, n: nat, t1: Timer, t2: Timer, c1: nat, c2: nat, d: nat)
    requires w.Valid() && ArmsBoth(w.trace, m, n, t1, t2, c1, c2, d) && t1 != t2
    requires c1 <= c2 <= d < c1 + HALF && w.flat.now == d + 1
    ensures w.calls == if Overtakes(c1, c2, d) then [Call(t2, d % WORD), Call(t1, d % WORD)]
                       else [Call(t1, d % WORD), Call(t2, d % WORD)]
  {
    hide Legal, CallsOf, Linked, Indexed, Scheduled, Ordered, Run, GoesFirst, Overtakes;
    var tr := w.trace;
    assert tr[..|tr|] == tr;
    AtMostTwo(tr, m, n, t1, t2, c1, c2, d);
    DueInRange(c1, d);
    DueInRange(c2, d);
    var j1, j2 := CalledInOrder(w, t1, t2, m, n, |tr|);
    assert j1 != j2;
  }

  /** The first arming of a run. */
  lemma FirstArming(tr: seq<Event>, m: nat, t: Timer, e: Word)
    requires Legal(tr) && m < |tr| && tr[m] == Add(t, e) && NoOps(tr[..m], 0)
    ensures t !in Run(tr[..m]).due
    ensures CallsOf(tr[..m+1]) == [] && Run(tr[..m+1]).due.Keys == {t} && |Run(tr[..m+1]).due| == 1
  {
    hide Legal, CallsOf, Run, GoesFirst, DueTick;
    var zero := tr[..m];
    LegalPrefix(tr, m);
    assert zero[..0] == [] && tr[..m+1] == zero + [tr[m]];
    StartOfRun();
    Account(zero, 0);
    RunSnoc(zero, tr[m]);
    CallsSnoc(zero, tr[m]);
    assert Run(zero).due == map[];
    assert Run(tr[..m+1]).due.Keys == {t};
  }

  /** Two armings make at most two calls. */
  lemma AtMostTwo(tr: seq<Event>, m: nat, n: nat, t1: Timer, t2: Timer, c1: nat, c2: nat, d: nat)
    requires Legal(tr) && ArmsBoth(tr, m, n, t1, t2, c1, c2, d) && t1 != t2
    ensures |CallsOf(tr)| <= 2 && t1 !in Run(tr[..m]).due && t2 !in Run(tr[..n]).due
  {
    hide Legal, CallsOf, Run, GoesFirst, DueTick;
    var first := tr[..n];
    LegalPrefix(tr, n);
    FirstArming(tr, m, t1, d % WORD);
    assert first[..m+1] == tr[..m+1];
    Account(first, m + 1);
    assert tr[..n+1] == first + [tr[n]];
    RunSnoc(first, tr[n]);
    CallsSnoc(first, tr[n]);
    hide Step;
    OneMore(Run(first), t2, d % WORD);
    Account(tr, n + 1);
  }

  lemma OneMore(s: Flat, t: Timer, e: Word)
    requires t !in s.due
    ensures |Step(s, Add(t, e)).due| == |s.due| + 1
  {
    assert Step(s, Add(t, e)).due.Keys == s.due.Keys + {t};
  }

  // ----- timers armed by callbacks

  /** The first call of a tick, its callback, and the rest. */
  lemma {:induction false} FiredFirst(callbacks: nat -> seq<Op>, calls: seq<Call>, from: nat)
    requires from < |calls|
    ensures Fired(callbacks, calls, from)
      == [Fire(calls[from].timer)] + EventsOf(callbacks(from)) + Fired(callbacks, calls, from + 1)
    decreases |calls|
  {
    hide EventsOf, Fired;
    var j := |calls| - 1;
    FiredLast(callbacks, calls, from);
    var first := [Fire(calls[from].timer)] + EventsOf(callbacks(from));
    if from < j {
      FiredFirst(callbacks, calls[..j], from);
      FiredLast(callbacks, calls, from + 1);
      Joined(first, Fired(callbacks, calls[..j], from + 1), [Fire(calls[j].timer)] + EventsOf(callbacks(j)));
    } else {
      NoneFired(callbacks, calls[..j], from);
      NoneFired(callbacks, calls, from + 1);
      assert [] + first == first == first + [];
    }
  }

  lemma FiredLast(callbacks: nat -> seq<Op>, calls: seq<Call>, from: nat)
    requires from < |calls|
    ensures var j := |calls| - 1;
      Fired(callbacks, calls, from) == Fired(callbacks, calls[..j], from) + ([Fire(calls[j].timer)] + EventsOf(callbacks(j)))
  {
  }

  /** Before the call `j` come the events of those before it. */
  lemma {:induction false} FiredUpTo(callbacks: nat -> seq<Op>, calls: seq<Call>, from: nat, j: nat)
    requires from <= j < |calls|
    ensures Fired(callbacks, calls[..j], from) + ([Fire(calls[j].timer)] + EventsOf(callbacks(j)))
      <= Fired(callbacks, calls, from)
    decreases |calls|
  {
    hide EventsOf;
    var last := |calls| - 1;
    if j < last {
      FiredUpTo(callbacks, calls[..last], from, j);
      assert calls[..last][..j] == calls[..j];
    }
  }

  /** No tick begins or ends. */
  predicate Inside(evs: seq<Event>) {
    forall k :: 0 <= k < |evs| ==> !evs[k].Begin? && !evs[k].End?
  }

  lemma {:induction false} RunInside(r: seq<Event>, evs: seq<Event>)
    requires Inside(evs)
    ensures Run(r + evs).now == Run(r).now && Run(r + evs).firing == Run(r).firing
    decreases |evs|
  {
    if evs == [] {
      assert r + evs == r;
    } else {
      var n := |evs| - 1;
      RunInside(r, evs[..n]);
      RunSnoc(r + evs[..n], evs[n]);
      assert r + evs == r + evs[..n] + [evs[n]];
    }
  }

  lemma {:induction false} FiredInside(callbacks: nat -> seq<Op>, calls: seq<Call>, from: nat)
    ensures Inside(Fired(callbacks, calls, from))
    decreases |calls|
  {
    if |calls| > from {
      FiredInside(callbacks, calls[..|calls|-1], from);
      EventsAt(callbacks(|calls| - 1));
    }
  }

  /** Where the run `r`, followed by a tick, has what the callback of call `j` does as its `m`-th thing. */
  function PlaceOf(callbacks: nat -> seq<Op>, r: seq<Event>, calls: seq<Call>, from: nat, j: nat, m: nat): nat
    requires j <= |calls|
  {
    |r| + 1 + |Fired(callbacks, calls[..j], from)| + 1 + m
  }

  lemma CallbackRuns(callbacks: nat -> seq<Op>, r: seq<Event>, calls: seq<Call>, from: nat, tr: seq<Event>, j: nat, m: nat)
    requires r + TickEvents(callbacks, calls, from) <= tr && !Run(r).firing
    requires from <= j < |calls| && m < |callbacks(j)|
    ensures var i := PlaceOf(callbacks, r, calls, from, j, m);
      i < |tr| && tr[i] == EventOf(callbacks(j)[m]) && Run(tr[..i]).firing && Run(tr[..i]).now == Run(r).now
  {
    hide Fired, Run;
    var i := PlaceOf(callbacks, r, calls, from, j, m);
    var before, all := Fired(callbacks, calls[..j], from), Fired(callbacks, calls, from);
    FiredUpTo(callbacks, calls, from, j);
    FiredInside(callbacks, calls, from);
    EventsAt(callbacks(j));
    var evs := all[..|before| + 1 + m];
    assert tr[|r| + 1 + (|before| + 1 + m)] == all[|before| + 1 + m];
    assert tr[..i] == r + [Begin] + evs;
    RunSnoc(r, Begin);
    RunInside(r + [Begin], evs);
  }

  /** What callbacks arm is called too. If a callback arms an idle timer in the tick that follows `r`, and
      nobody deletes it up to a point at which the clock is past its due tick, then its function is
      called in that tick; and the arming clock is that of the next tick. */
  lemma ArmedByCallback(w: Wheel, callbacks: nat -> seq<Op>, r: seq<Event>, calls: seq<Call>, from: nat,
      j: nat, m: nat, n: nat) returns (k: nat)
    requires w.Valid() && r + TickEvents(callbacks, calls, from) <= w.trace && !Run(r).firing
    requires from <= j < |calls| && m < |callbacks(j)| && callbacks(j)[m].AddOp?
    requires var (i, op) := (PlaceOf(callbacks, r, calls, from, j, m), callbacks(j)[m]);
      && i < n <= |w.trace| && op.timer !in Run(w.trace[..i]).due
      && (forall x :: i < x < n ==> w.trace[x] != Del(op.timer))
      && Run(w.trace[..n]).now > DueTick(Run(r).now + 1, op.expires)
    ensures PlaceOf(callbacks, r, calls, from, j, m) < k < n && |CallsOf(w.trace[..k])| < |w.calls|
    ensures var op := callbacks(j)[m];
      w.calls[|CallsOf(w.trace[..k])|] == Call(op.timer, DueTick(Run(r).now + 1, op.expires) % WORD)
  {
    hide Run, Legal, CallsOf, Linked, Indexed, Scheduled, Ordered, DueTick, Fired, PlaceOf, TickEvents;
    var i := PlaceOf(callbacks, r, calls, from, j, m);
    CallbackRuns(callbacks, r, calls, from, w.trace, j, m);
    k := FiresOnTime(w.trace, callbacks(j)[m].timer, i, n);
    CallAt(w.trace, k);
  }

  // ----- a timer that re-arms itself

  lemma LegalStep(tr: seq<Event>, r: seq<Event>, e: Event)
    requires Legal(tr) && r + [e] <= tr
    ensures Enabled(Run(r), e) && Run(r + [e]) == Step(Run(r), e)
  {
    hide Run, Legal;
    assert tr[..|r|+1] == r + [e];
    LegalPrefix(tr, |r| + 1);
    RunSnoc(r, e);
  }

  /** The current tick cannot end with a timer due in it. */
  lemma QuietEnd(tr: seq<Event>, r: seq<Event>, t: Timer, x: nat)
    requires Legal(tr) && r + [End] <= tr && Run(r).due == map[t := x]
    ensures x != Run(r).now && Run(r + [End]).due == map[t := x]
  {
    hide Run, Legal;
    LegalStep(tr, r, End);
    assert t in Run(r).due;
  }

  lemma OnlyFire(tr: seq<Event>, r: seq<Event>, u: Timer, t: Timer, x: nat)
    requires Legal(tr) && r + [Fire(u)] <= tr && Run(r).due == map[t := x]
    ensures u == t && x == Run(r).now && Run(r).firing
    ensures var s := Run(r + [Fire(u)]); s.due == map[] && s.now == Run(r).now && s.firing
  {
    hide Run, Legal, GoesFirst;
    LegalStep(tr, r, Fire(u));
  }

  /** The call of `t`, and what its callback does. */
  lemma Rearmed(tr: seq<Event>, r: seq<Event>, u: Timer, t: Timer, x: nat, e: Word)
    requires Legal(tr) && r + [Fire(u)] + [Add(t, e)] <= tr && Run(r).due == map[t := x]
    ensures u == t && x == Run(r).now
    ensures var s := Run(r + [Fire(u)] + [Add(t, e)]); s.due == map[t := DueTick(x + 1, e)] && s.now == x && s.firing
  {
    hide Run, Legal, DueTick;
    assert r + [Fire(u)] <= tr;
    OnlyFire(tr, r, u, t, x);
    LegalStep(tr, r + [Fire(u)], Add(t, e));
  }

  /** A tick of a wheel whose only timer is `t`, due at `x`, and is armed by its own callback. */
  lemma PeriodicTick(r: seq<Event>, callbacks: nat -> seq<Op>, calls: seq<Call>, from: nat, t: Timer, x: nat, e: Word)
    requires Legal(r + TickEvents(callbacks, calls, from)) && from <= |calls|
    requires Run(r).due == map[t := x] && callbacks(from) == [AddOp(t, e)]
    ensures var due := Run(r + TickEvents(callbacks, calls, from)).due;
      if x == Run(r).now then
        |calls| == from + 1 && calls[from].timer == t && due == map[t := DueTick(x + 1, e)]
      else |calls| == from && due == map[t := x]
  {
    hide Run, Legal, DueTick, Fired, Step, Enabled;
    var tr, r1 := r + TickEvents(callbacks, calls, from), r + [Begin];
    LegalBegin(tr, r);
    if |calls| == from {
      NoneFired(callbacks, calls, from);
      assert tr == r1 + [End];
      QuietEnd(tr, r1, t, x);
    } else {
      var u := calls[from].timer;
      FiredFirst(callbacks, calls, from);
      OneOp(t, e);
      var r3 := r1 + [Fire(u)] + [Add(t, e)];
      assert tr == r3 + Fired(callbacks, calls, from + 1) + [End];
      Rearmed(tr, r1, u, t, x, e);
      AfterRearming(tr, r3, callbacks, calls, from + 1, t, DueTick(x + 1, e));
    }
  }

  lemma LegalBegin(tr: seq<Event>, r: seq<Event>)
    requires Legal(tr) && r + [Begin] <= tr
    ensures Run(r + [Begin]).due == Run(r).due && Run(r + [Begin]).now == Run(r).now
  {
    hide Run, Legal;
    LegalStep(tr, r, Begin);
  }

  lemma AfterRearming(tr: seq<Event>, r: seq<Event>, callbacks: nat -> seq<Op>, calls: seq<Call>, from: nat, t: Timer,
      y: nat)
    requires Legal(tr) && tr == r + Fired(callbacks, calls, from) + [End] && from <= |calls|
    requires Run(r).due == map[t := y] && y > Run(r).now
    ensures |calls| == from && Run(tr).due == map[t := y]
  {
    hide Run, Legal, Fired;
    if |calls| > from {
      FiredFirst(callbacks, calls, from);
      assert r + [Fire(calls[from].timer)] <= tr;
      OnlyFire(tr, r, calls[from].timer, t, y);
      assert false;
    }
    NoneFired(callbacks, calls, from);
    assert tr == r + [End];
    QuietEnd(tr, r, t, y);
  }

  lemma NoneFired(callbacks: nat -> seq<Op>, calls: seq<Call>, from: nat)
    requires |calls| <= from
    ensures Fired(callbacks, calls, from) == []
  {
  }

  lemma OneOp(t: Timer, e: Word)
    ensures EventsOf([AddOp(t, e)]) == [Add(t, e)]
  {
    EventsAt([AddOp(t, e)]);
  }

  /** The calls of a timer that is due every `p` ticks from `d` on. */
  function Series(t: Timer, d: nat, p: nat, n: nat): seq<Call> {
    if n == 0 then [] else Series(t, d, p, n - 1) + [Call(t, (d + (n - 1) * p) % WORD)]
  }

  /** A new wheel with one timer. */
  method WheelWith(t: Timer, d: nat) returns (w: Wheel)
    requires d < HALF
    ensures fresh(w) && w.Valid() && w.ticks == w.timerJiffies
    ensures w.flat.now == 0 && w.flat.due == map[t := d] && w.calls == []
  {
    hide Legal, CallsOf, Linked, Indexed, Scheduled, Ordered, Run, DueTick;
    w := new Wheel();
    StartOfRun();
    HeadLinked(w.lists, w.place, Queued);
    DueInRange(0, d);
    w.AddTimer(t, d % WORD, 1);
  }

  function DueAt(d: nat, p: nat, n: nat): nat {
    d + n * p
  }

  /** A timer that is armed for tick `d` and whose callback arms it again for `p` ticks later is called,
      while the clock runs, at `d`, `d + p`, `d + 2 * p` and so on, and at no other tick. */
  method Periodic(t: Timer, d: nat, p: nat, count: nat) returns (w: Wheel)
    requires d < HALF && 0 < p < HALF
    ensures fresh(w) && w.Valid() && w.flat.now == count
    ensures w.calls == Series(t, d, p, |w.calls|)
    ensures forall j: nat :: j < |w.calls| <==> d + j * p < count
  {
    hide Legal, CallsOf, Linked, Indexed, Scheduled, Ordered, Run, TickEvents, Series, DueTick, DueAt, OnlyBy, Armed,
      Spares, Spared, Enabled;
    var again: nat -> seq<Op> := (j: nat) => [AddOp(t, DueAt(d, p, j + 1) % WORD)];
    w := WheelWith(t, d);
    NoSeries(t, d, p);
    for i := 0 to count
      invariant w.Valid() && w.ticks == w.timerJiffies && w.flat.now == i
      invariant w.flat.due == map[t := DueAt(d, p, |w.calls|)] && i <= DueAt(d, p, |w.calls|)
      invariant |w.calls| > 0 ==> DueAt(d, p, |w.calls| - 1) < i
      invariant w.calls == Series(t, d, p, |w.calls|)
    {
      ghost var r, log := w.trace, w.calls;
      w.Inthandler20(again);
      PeriodicTick(r, again, w.calls, |log|, t, DueAt(d, p, |log|), DueAt(d, p, |log| + 1) % WORD);
      NextDue(d, p, |log|);
      NextInSeries(t, d, p, |log|, log, w.calls);
    }
    Spaced(d, p, |w.calls|, count);
  }

  lemma NoSeries(t: Timer, d: nat, p: nat)
    ensures Series(t, d, p, 0) == [] && DueAt(d, p, 0) == d
  {
  }

  lemma NextDue(d: nat, p: nat, n: nat)
    requires 0 < p < HALF
    ensures DueAt(d, p, n + 1) == DueAt(d, p, n) + p
    ensures DueTick(DueAt(d, p, n) + 1, DueAt(d, p, n + 1) % WORD) == DueAt(d, p, n + 1)
  {
    assert (n + 1) * p == n * p + p;
    DueInRange(d + n * p + 1, d + n * p + p);
  }

  lemma NextInSeries(t: Timer, d: nat, p: nat, n: nat, log: seq<Call>, calls: seq<Call>)
    requires n == |log| && log == Series(t, d, p, n) && log <= calls
    ensures |calls| == n + 1 && calls[n] == Call(t, DueAt(d, p, n) % WORD) ==> calls == Series(t, d, p, n + 1)
    ensures |calls| == n ==> calls == log
  {
    if |calls| == n + 1 {
      assert calls == log + [calls[n]];
    }
  }

  lemma Spaced(d: nat, p: nat, n: nat, count: nat)
    requires p > 0 && count <= DueAt(d, p, n) && (n > 0 ==> DueAt(d, p, n - 1) < count)
    ensures forall j: nat :: j < n <==> d + j * p < count
  {
    forall j: nat
      ensures j < n <==> d + j * p < count
    {
      if j < n {
        Times(j, n - 1, p);
      } else {
        Times(n, j, p);
      }
    }
  }

  lemma Times(a: nat, b: nat, p: nat)
    requires a <= b
    ensures a * p <= b * p
  {
  }
}
