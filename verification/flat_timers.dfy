/** The specification of the timing wheel: a flat table from each pending timer to
    the tick at which it is due, on a clock that never wraps. */
module FlatTimers {

  // The identity of a `struct timer_list`.
  type Timer = nat

  const WORD: nat := 0x1_0000_0000
  const HALF: nat := 0x8000_0000

  // The range of a uint_32.
  type Word = n: nat | n < WORD

  /** The tick at which a timer armed at `clock` goes off. A 32-bit difference in the
      upper half counts as an expiry already past, which is due at once. */
  function DueTick(clock: nat, expires: nat): (d: nat)
    ensures d == clock || (clock < d < clock + HALF && d % WORD == expires % WORD)
  {
    var idx := (expires - clock) % WORD;
    if idx < HALF then clock + idx else clock
  }

  const NOOF_TVECS: nat := 5

  /** Ticks covered by one slot of a level of the wheel: one shifted left by 0, 8, 14, 20 and 26. */
  function Unit(level: nat): (u: nat)
    requires level < NOOF_TVECS
    ensures u > 0
  {
    if level == 0 then 1
    else if level == 1 then 0x100
    else if level == 2 then 0x4000
    else if level == 3 then 0x10_0000
    else 0x400_0000
  }

  // ----- the order of timers that are due in the same tick

  /** When a timer was armed: how many armings there were before, and the clock. */
  datatype Arming = Arming(stamp: nat, clock: nat)

  /** Of two timers due at `d`, armed at `c1` and then at `c2`, the second overtakes the first: for
      some level of the wheel the first was armed at least one slot width ahead, the second less than
      that, and not after the tick at which that slot is cascaded. */
  predicate Overtakes(c1: nat, c2: nat, d: nat) {
    exists m :: 1 <= m < NOOF_TVECS && c1 + Unit(m) <= d < c2 + Unit(m) && c2 <= d / Unit(m) * Unit(m)
  }

  /** Of two timers due at `d`, the one armed by `a` is called before the one armed by `b`. */
  predicate First(a: Arming, b: Arming, d: nat) {
    if a.stamp < b.stamp then !Overtakes(a.clock, b.clock, d) else Overtakes(b.clock, a.clock, d)
  }

  // ----- the table

  /** `firing` holds while the timers of tick `now` are being run; `armed` says how each pending
      timer was armed, and `stamp` counts armings. */
  datatype Flat = Flat(now: nat, firing: bool, due: map<Timer, nat>, armed: map<Timer, Arming>, stamp: nat) {
    // Timers armed by a callback wait for the next tick.
    function Clock(): nat { if firing then now + 1 else now }
  }

  const INITIAL := Flat(0, false, map[], map[], 0)

  datatype Event =
    | Add(timer: Timer, expires: Word)
    | Del(timer: Timer)
    | Begin
    | Fire(timer: Timer)
    | End

  /** No timer that is due now goes before `t`. */
  predicate GoesFirst(s: Flat, t: Timer) {
    && t in s.armed
    && forall u :: u in s.due && u in s.armed && u != t && s.due[u] == s.now ==> First(s.armed[t], s.armed[u], s.now)
  }

  predicate Enabled(s: Flat, e: Event) {
    match e
    case Add(_, _) => true
    case Del(_) => true
    case Begin => !s.firing
    case Fire(t) => s.firing && t in s.due && s.due[t] == s.now && GoesFirst(s, t)
    case End => s.firing && forall t :: t in s.due ==> s.due[t] != s.now
  }

  function Armed(s: Flat, t: Timer, expires: Word): Flat {
    s.(due := s.due[t := DueTick(s.Clock(), expires)],
       armed := s.armed[t := Arming(s.stamp, s.Clock())], stamp := s.stamp + 1)
  }

  function Without(s: Flat, t: Timer): Flat {
    s.(due := s.due - {t}, armed := s.armed - {t})
  }

  function Step(s: Flat, e: Event): Flat {
    match e
    case Add(t, expires) => if t in s.due then s else Armed(s, t, expires)
    case Del(t) => Without(s, t)
    case Begin => s.(firing := true)
    case Fire(t) => Without(s, t)
    case End => s.(now := s.now + 1, firing := false)
  }

  /** The state after the events `tr`. */
  function Run(tr: seq<Event>): Flat {
    if tr == [] then INITIAL else Step(Run(tr[..|tr|-1]), tr[|tr|-1])
  }

  /** Every event of `tr` was enabled when it happened. */
  predicate Legal(tr: seq<Event>) {
    tr != [] ==> Legal(tr[..|tr|-1]) && Enabled(Run(tr[..|tr|-1]), tr[|tr|-1])
  }

  lemma RunSnoc(tr: seq<Event>, e: Event)
    ensures Run(tr + [e]) == Step(Run(tr), e)
    ensures Legal(tr + [e]) <==> Legal(tr) && Enabled(Run(tr), e)
  {
    assert (tr + [e])[..|tr|] == tr;
  }

  /** A call of timer->function, at the low 32 bits of the tick it was made in. */
  datatype Call = Call(timer: Timer, jiffies: nat)

  /** The calls that the events `tr` make, in order. */
  function CallsOf(tr: seq<Event>): seq<Call> {
    if tr == [] then []
    else CallsOf(tr[..|tr|-1]) + CallOf(Run(tr[..|tr|-1]), tr[|tr|-1])
  }

  function CallOf(s: Flat, e: Event): seq<Call> {
    if e.Fire? then [Call(e.timer, s.now % WORD)] else []
  }

  lemma CallsSnoc(tr: seq<Event>, e: Event)
    ensures CallsOf(tr + [e]) == CallsOf(tr) + CallOf(Run(tr), e)
  {
    assert (tr + [e])[..|tr|] == tr;
  }

  /** The call that a Fire event at `k` makes stands in the log behind those of the events before. */
  lemma {:induction false} CallAt(tr: seq<Event>, k: nat)
    requires k < |tr| && tr[k].Fire?
    ensures |CallsOf(tr[..k])| < |CallsOf(tr)|
    ensures CallsOf(tr)[|CallsOf(tr[..k])|] == Call(tr[k].timer, Run(tr[..k]).now % WORD)
    decreases |tr|
  {
    hide Run;
    var p := tr[..|tr|-1];
    if k < |p| {
      CallAt(p, k);
      assert p[..k] == tr[..k];
    } else {
      assert tr[..k] == p;
    }
  }

  lemma {:induction false} LegalPrefix(tr: seq<Event>, k: nat)
    requires Legal(tr) && k <= |tr|
    ensures Legal(tr[..k])
    decreases |tr|
  {
    if k < |tr| {
      LegalPrefix(tr[..|tr|-1], k);
      assert tr[..|tr|-1][..k] == tr[..k];
    } else {
      assert tr[..k] == tr;
    }
  }

  /** The state before and after the event at `k`. */
  lemma RunAt(tr: seq<Event>, k: nat)
    requires Legal(tr) && k < |tr|
    ensures Enabled(Run(tr[..k]), tr[k])
    ensures Run(tr[..k+1]) == Step(Run(tr[..k]), tr[k])
  {
    LegalPrefix(tr, k + 1);
    assert tr[..k+1] == tr[..k] + [tr[k]];
    RunSnoc(tr[..k], tr[k]);
  }

  /** No pending timer is ever overdue: its due tick is at or after the clock that
      arming would use, or is the tick being run. */
  lemma {:induction false} NeverOverdue(tr: seq<Event>)
    requires Legal(tr)
    ensures forall t :: t in Run(tr).due ==> Run(tr).now <= Run(tr).due[t] < Run(tr).Clock() + HALF
  {
    if tr != [] {
      NeverOverdue(tr[..|tr|-1]);
    }
  }

  ghost predicate Touches(e: Event, t: Timer) {
    e == Del(t) || e == Fire(t)
  }

  /** A timer armed at event `i` and neither deleted nor fired since is still pending, with
      the due tick it was given. */
  lemma {:induction false} StaysPending(tr: seq<Event>, t: Timer, i: nat, k: nat)
    requires Legal(tr) && i < k <= |tr|
    requires tr[i].Add? && tr[i].timer == t && t !in Run(tr[..i]).due
    requires forall m :: i < m < k ==> !Touches(tr[m], t)
    ensures t in Run(tr[..k]).due
    ensures Run(tr[..k]).due[t] == DueTick(Run(tr[..i]).Clock(), tr[i].expires)
    ensures t in Run(tr[..k]).armed && Run(tr[..k]).armed[t] == Arming(Run(tr[..i]).stamp, Run(tr[..i]).Clock())
    decreases k
  {
    hide Run, Legal, DueTick;
    RunAt(tr, k - 1);
    if k > i + 1 {
      StaysPending(tr, t, i, k - 1);
    }
  }

  /** Conversely, a timer that is not pending stays so until it is armed again. */
  lemma {:induction false} StaysIdle(tr: seq<Event>, t: Timer, k: nat, m: nat)
    requires Legal(tr) && k <= m <= |tr|
    requires t !in Run(tr[..k]).due
    requires forall a :: k <= a < m ==> !(tr[a].Add? && tr[a].timer == t)
    ensures t !in Run(tr[..m]).due
    decreases m
  {
    hide Run, Legal, DueTick, GoesFirst;
    if m > k {
      RunAt(tr, m - 1);
      StaysIdle(tr, t, k, m - 1);
    }
  }

  /** Neither clock ever goes back, and armings are numbered upwards. */
  lemma {:induction false} ClockMonotone(tr: seq<Event>, i: nat, k: nat)
    requires Legal(tr) && i <= k <= |tr|
    ensures Run(tr[..i]).now <= Run(tr[..k]).now && Run(tr[..i]).Clock() <= Run(tr[..k]).Clock()
    ensures Run(tr[..i]).stamp <= Run(tr[..k]).stamp
    decreases k
  {
    hide Run, Legal;
    if i < k {
      RunAt(tr, k - 1);
      ClockMonotone(tr, i, k - 1);
    }
  }

  /** A timer armed at event `i` and not deleted up to a later point `n` at which the clock
      has passed its due tick was called at some event `k` between them, on its due tick. */
  lemma FiresOnTime(tr: seq<Event>, t: Timer, i: nat, n: nat) returns (k: nat)
    requires Legal(tr) && i < n <= |tr|
    requires tr[i].Add? && tr[i].timer == t && t !in Run(tr[..i]).due
    requires forall m :: i < m < n ==> tr[m] != Del(t)
    requires Run(tr[..n]).now > DueTick(Run(tr[..i]).Clock(), tr[i].expires)
    ensures i < k < n && tr[k] == Fire(t)
    ensures Run(tr[..k]).now == DueTick(Run(tr[..i]).Clock(), tr[i].expires)
    ensures t !in Run(tr[..k+1]).due
    ensures forall m :: i < m < k ==> !Touches(tr[m], t)
  {
    hide Run, Legal, DueTick, GoesFirst;
    k := i + 1;
    while k < n && !Touches(tr[k], t)
      invariant i < k <= n
      invariant forall m :: i < m < k ==> !Touches(tr[m], t)
    {
      k := k + 1;
    }
    StaysPending(tr, t, i, k);
    if k == n {
      LegalPrefix(tr, n);
      NeverOverdue(tr[..n]);
      assert false;
    }
    RunAt(tr, k);
  }

  /** A timer that has just been fired or deleted is not fired before it is armed again. */
  lemma NotFiredBeforeRearmed(tr: seq<Event>, t: Timer, k: nat, m: nat)
    requires Legal(tr) && k < m < |tr| && tr[m] == Fire(t) && Touches(tr[k], t)
    ensures exists a :: k < a < m && tr[a].Add? && tr[a].timer == t
  {
    RunAt(tr, k);
    RunAt(tr, m);
    if forall a :: k < a < m ==> !(tr[a].Add? && tr[a].timer == t) {
      StaysIdle(tr, t, k + 1, m);
      assert false;
    }
  }

  /** Exact firing: such a timer is called exactly once, on its due tick, until re-armed. */
  lemma ExactFiring(tr: seq<Event>, t: Timer, i: nat, n: nat) returns (k: nat)
    requires Legal(tr) && i < n <= |tr|
    requires tr[i].Add? && tr[i].timer == t && t !in Run(tr[..i]).due
    requires forall m :: i < m < n ==> tr[m] != Del(t)
    requires Run(tr[..n]).now > DueTick(Run(tr[..i]).Clock(), tr[i].expires)
    ensures i < k < n && tr[k] == Fire(t)
    ensures Run(tr[..k]).now == DueTick(Run(tr[..i]).Clock(), tr[i].expires)
    ensures forall m :: i < m < |tr| && m != k && tr[m] == Fire(t) ==>
      m > k && exists a :: k < a < m && tr[a].Add? && tr[a].timer == t
  {
    k := FiresOnTime(tr, t, i, n);
    forall m | i < m < |tr| && m != k && tr[m] == Fire(t)
      ensures m > k && exists a :: k < a < m && tr[a].Add? && tr[a].timer == t
    {
      assert Touches(tr[m], t);
      NotFiredBeforeRearmed(tr, t, k, m);
    }
  }

  /** A 32-bit expiry within 2^31 ticks ahead is met exactly: the due tick is the one whose
      low 32 bits are `expires`, and no earlier tick from the arming clock on has them. */
  lemma InRangeExpiryIsExact(clock: nat, expires: nat)
    requires expires < WORD && (expires - clock) % WORD < HALF
    ensures DueTick(clock, expires) % WORD == expires
    ensures forall c :: clock <= c < DueTick(clock, expires) ==> c % WORD != expires
  {
    var d := DueTick(clock, expires);
    forall c | clock <= c < d
      ensures c % WORD != expires
    {
      assert 0 < d - c < HALF;
    }
  }

  /** Every call in the log is the firing of a timer that was due in that very tick. */
  lemma {:induction false} CallsWereDue(tr: seq<Event>, j: nat) returns (k: nat)
    requires Legal(tr) && j < |CallsOf(tr)|
    ensures k < |tr| && tr[k] == Fire(CallsOf(tr)[j].timer) && j == |CallsOf(tr[..k])|
    ensures var s := Run(tr[..k]); tr[k].timer in s.due && s.due[tr[k].timer] == s.now
    ensures CallsOf(tr)[j].jiffies == Run(tr[..k]).now % WORD
    decreases |tr|
  {
    hide Run;
    var p := tr[..|tr|-1];
    if j < |CallsOf(p)| {
      k := CallsWereDue(p, j);
      assert p[..k] == tr[..k];
    } else {
      k := |tr| - 1;
      assert tr[..k] == p;
    }
  }

  /** The calls made between two points of a run carry the ticks run between them. */
  lemma CallsWindow(tr: seq<Event>, i: nat, j: nat) returns (n: nat)
    requires Legal(tr) && i <= |tr| && !Run(tr).firing
    requires |CallsOf(tr[..i])| <= j < |CallsOf(tr)|
    ensures Run(tr[..i]).now <= n < Run(tr).now && CallsOf(tr)[j].jiffies == n % WORD
  {
    hide Run, Legal, CallsOf;
    var k := CallsWereDue(tr, j);
    if k < i {
      assert tr[..i][..k] == tr[..k];
      CallAt(tr[..i], k);
    }
    RunAt(tr, k);
    ClockMonotone(tr, i, k);
    ClockMonotone(tr, k, |tr|);
    assert tr[..|tr|] == tr;
    n := Run(tr[..k]).now;
  }

  lemma {:induction false} CallsPrefix(tr: seq<Event>, i: nat)
    requires i <= |tr|
    ensures CallsOf(tr[..i]) <= CallsOf(tr)
    decreases |tr|
  {
    hide Run;
    if i < |tr| {
      CallsPrefix(tr[..|tr|-1], i);
      assert tr[..|tr|-1][..i] == tr[..i];
    } else {
      assert tr[..i] == tr;
    }
  }

  /** Order within a tick: of two timers that are due in the same tick and not deleted up to a point
      `n` at which the clock has passed it, the one armed first is called first exactly when the other
      does not overtake it. */
  lemma SameTickOrder(tr: seq<Event>, t1: Timer, t2: Timer, i1: nat, i2: nat, n: nat) returns (k1: nat, k2: nat)
    requires Legal(tr) && i1 < i2 < n <= |tr| && t1 != t2
    requires tr[i1].Add? && tr[i1].timer == t1 && t1 !in Run(tr[..i1]).due
    requires tr[i2].Add? && tr[i2].timer == t2 && t2 !in Run(tr[..i2]).due
    requires forall m :: i1 < m < n ==> tr[m] != Del(t1)
    requires forall m :: i2 < m < n ==> tr[m] != Del(t2)
    requires var d := DueTick(Run(tr[..i1]).Clock(), tr[i1].expires);
      d == DueTick(Run(tr[..i2]).Clock(), tr[i2].expires) && Run(tr[..n]).now > d
    ensures i1 < k1 < n && tr[k1] == Fire(t1) && i2 < k2 < n && tr[k2] == Fire(t2)
    ensures var (c1, c2) := (Run(tr[..i1]).Clock(), Run(tr[..i2]).Clock());
      var d := DueTick(c1, tr[i1].expires);
      && Run(tr[..k1]).now == d && Run(tr[..k2]).now == d
      && (k1 < k2 <==> !Overtakes(c1, c2, d))
  {
    hide Run, Legal, Overtakes, DueTick;
    var d := DueTick(Run(tr[..i1]).Clock(), tr[i1].expires);
    k1 := FiresOnTime(tr, t1, i1, n);
    k2 := FiresOnTime(tr, t2, i2, n);
    RunAt(tr, k1);
    RunAt(tr, k2);
    RunAt(tr, i1);
    ClockMonotone(tr, i1 + 1, i2);
    if k1 < i2 {
      ClockMonotone(tr, k1, i2);
    }
    var a1 := Arming(Run(tr[..i1]).stamp, Run(tr[..i1]).Clock());
    var a2 := Arming(Run(tr[..i2]).stamp, Run(tr[..i2]).Clock());
    if k1 < k2 {
      assert i2 < k1;
      StaysPending(tr, t1, i1, k1);
      StaysPending(tr, t2, i2, k1);
      assert First(a1, a2, d);
    } else {
      StaysPending(tr, t2, i2, k2);
      StaysPending(tr, t1, i1, k2);
      assert First(a2, a1, d);
    }
  }

  /** From place `i` on, nobody armed or deleted `t`. */
  predicate LeftAlone(tr: seq<Event>, i: nat, t: Timer) {
    forall k :: i <= k < |tr| ==> tr[k] != Del(t) && !(tr[k].Add? && tr[k].timer == t)
  }

  /** A timer that is armed at event `i` and then left alone fires in its due tick only, and once. */
  lemma FiresThen(tr: seq<Event>, t: Timer, i: nat, k: nat)
    requires Legal(tr) && i < k < |tr| && tr[k] == Fire(t)
    requires tr[i].Add? && tr[i].timer == t && t !in Run(tr[..i]).due && LeftAlone(tr, i + 1, t)
    ensures Run(tr[..k]).now == DueTick(Run(tr[..i]).Clock(), tr[i].expires) && Run(tr[..k]).firing
    ensures forall m :: k < m < |tr| ==> tr[m] != Fire(t)
    decreases k
  {
    hide Run, Legal, DueTick, GoesFirst;
    RunAt(tr, k);
    FiredForGood(tr, t, k);
    forall m | i < m < k
      ensures !Touches(tr[m], t)
    {
      if tr[m] == Fire(t) {
        FiresThen(tr, t, i, m);
      }
    }
    StaysPending(tr, t, i, k);
  }

  lemma FiredForGood(tr: seq<Event>, t: Timer, k: nat)
    requires Legal(tr) && k < |tr| && tr[k] == Fire(t) && LeftAlone(tr, k, t)
    ensures forall m :: k < m < |tr| ==> tr[m] != Fire(t)
  {
    hide Run, Legal, GoesFirst;
    RunAt(tr, k);
    assert t !in Run(tr[..k+1]).due;
    forall m | k < m < |tr|
      ensures tr[m] != Fire(t)
    {
      if tr[m] == Fire(t) {
        NotFiredBeforeRearmed(tr, t, k, m);
      }
    }
  }

  /** The firing behind a call made since the arming at event `i`. */
  lemma CallSince(tr: seq<Event>, t: Timer, i: nat, j: nat) returns (k: nat)
    requires Legal(tr) && i < |tr| && tr[i].Add? && |CallsOf(tr[..i])| <= j < |CallsOf(tr)| && CallsOf(tr)[j].timer == t
    ensures i < k < |tr| && tr[k] == Fire(t) && j == |CallsOf(tr[..k])|
    ensures CallsOf(tr)[j].jiffies == Run(tr[..k]).now % WORD
  {
    hide Run, Legal, CallsOf;
    k := CallsWereDue(tr, j);
    if k < i {
      assert tr[..i][..k] == tr[..k];
      CallAt(tr[..i], k);
    }
  }

  /** The calls, from place `from` of the log on, of a timer that is due at `d` once the clock is at
      `now`: one, in its due tick, if that is over, and none otherwise. */
  ghost predicate CalledOnce(calls: seq<Call>, from: nat, t: Timer, d: nat, now: nat) {
    && (forall j :: from <= j < |calls| && calls[j].timer == t ==> d < now && calls[j] == Call(t, d % WORD))
    && (forall j, k :: from <= j < k < |calls| ==> calls[j].timer != t || calls[k].timer != t)
    && (d < now ==> exists j :: from <= j < |calls| && calls[j].timer == t)
  }

  /** What the log says of a timer that is armed at event `i` and then left alone. */
  lemma CalledOnceSince(tr: seq<Event>, t: Timer, i: nat)
    requires Legal(tr) && !Run(tr).firing && i < |tr|
    requires tr[i].Add? && tr[i].timer == t && t !in Run(tr[..i]).due && LeftAlone(tr, i + 1, t)
    ensures CalledOnce(CallsOf(tr), |CallsOf(tr[..i])|, t, DueTick(Run(tr[..i]).Clock(), tr[i].expires), Run(tr).now)
  {
    hide Run, Legal, CallsOf, DueTick;
    var log, from, d := CallsOf(tr), |CallsOf(tr[..i])|, DueTick(Run(tr[..i]).Clock(), tr[i].expires);
    assert tr[..|tr|] == tr;
    forall j | from <= j < |log| && log[j].timer == t
      ensures d < Run(tr).now && log[j] == Call(t, d % WORD)
    {
      var k := CallSince(tr, t, i, j);
      FiresThen(tr, t, i, k);
      ClockMonotone(tr, k, |tr|);
    }
    forall j, j' | from <= j < j' < |log|
      ensures log[j].timer != t || log[j'].timer != t
    {
      if log[j].timer == t && log[j'].timer == t {
        var k := CallSince(tr, t, i, j);
        var k' := CallSince(tr, t, i, j');
        if k < k' {
          FiresThen(tr, t, i, k);
        } else {
          FiresThen(tr, t, i, k');
        }
      }
    }
    if d < Run(tr).now {
      var k := FiresOnTime(tr, t, i, |tr|);
      CallAt(tr, k);
      CallsPrefix(tr[..k], i);
      assert tr[..k][..i] == tr[..i];
    }
  }

  /** From place `i` on, nobody armed or deleted a timer. */
  predicate NoOps(tr: seq<Event>, i: nat) {
    forall k :: i <= k < |tr| ==> !tr[k].Add? && !tr[k].Del?
  }

  /** Then each call takes one timer out of the table, and none comes in. */
  lemma {:induction false} Account(tr: seq<Event>, i: nat)
    requires Legal(tr) && i <= |tr| && NoOps(tr, i)
    ensures |CallsOf(tr)| + |Run(tr).due| == |CallsOf(tr[..i])| + |Run(tr[..i]).due|
    ensures Run(tr).due.Keys <= Run(tr[..i]).due.Keys
    decreases |tr|
  {
    hide GoesFirst;
    if i == |tr| {
      assert tr[..i] == tr;
    } else {
      var p, e := tr[..|tr|-1], tr[|tr|-1];
      assert p[..i] == tr[..i];
      Account(p, i);
      if e.Fire? {
        assert Run(tr).due.Keys == Run(p).due.Keys - {e.timer};
      }
    }
  }
}
