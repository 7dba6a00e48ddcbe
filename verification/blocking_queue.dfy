/** The blocking put and get of core/lib/ioqueue.c: any number of threads put and get any number of
    bytes on one ring buffer, and park on its wait lists. */
module BlockingQueue {
  import opened IoQueue
  import opened Sequences

  type Tid = nat

  /** What a thread is in the middle of; `parked` while it is on a wait list. */
  datatype Op = Put(data: seq<Byte>, parked: bool) | Get(count: nat, parked: bool)

  /** A put or get that has completed. */
  datatype Transfer = Transfer(thread: Tid, data: seq<Byte>)

  datatype State = State(contents: seq<Byte>, threads: map<Tid, Op>, puts: seq<Transfer>, gets: seq<Transfer>)

  // ----- the steps

  function WakeGetters(threads: map<Tid, Op>): map<Tid, Op> {
    map t | t in threads :: if threads[t].Get? then Get(threads[t].count, false) else threads[t]
  }

  function WakePutters(threads: map<Tid, Op>): map<Tid, Op> {
    map t | t in threads :: if threads[t].Put? then Put(threads[t].data, false) else threads[t]
  }

  /** One pass of the loop of ioqueue_put_data. */
  function PutStep(size: nat, s: State, t: Tid): State
    requires t in s.threads && s.threads[t].Put?
  {
    var data, awake := s.threads[t].data, WakeGetters(s.threads);
    if Fits(size, s.contents, |data|) then
      State(s.contents + data, awake - {t}, s.puts + [Transfer(t, data)], s.gets)
    else s.(threads := awake[t := Put(data, true)])
  }

  /** One pass of the loop of ioqueue_get_data. */
  function GetStep(s: State, t: Tid): State
    requires t in s.threads && s.threads[t].Get?
  {
    var count, awake := s.threads[t].count, WakePutters(s.threads);
    if count <= |s.contents| then
      State(s.contents[count..], awake - {t}, s.puts, s.gets + [Transfer(t, s.contents[..count])])
    else s.(threads := awake[t := Get(count, true)])
  }

  datatype Action = StartPut(t: Tid, data: seq<Byte>) | StartGet(t: Tid, count: nat) | Pass(t: Tid)

  /** A thread not in a put or get may begin one; one that is not parked may make a pass. A put or
      get of no bytes returns at once. */
  predicate Possible(s: State, a: Action) {
    match a
    case StartPut(t, data) => t !in s.threads && data != []
    case StartGet(t, count) => t !in s.threads && count > 0
    case Pass(t) => t in s.threads && !s.threads[t].parked
  }

  function Step(size: nat, s: State, a: Action): State
    requires Possible(s, a)
  {
    match a
    case StartPut(t, data) => s.(threads := s.threads[t := Put(data, false)])
    case StartGet(t, count) => s.(threads := s.threads[t := Get(count, false)])
    case Pass(t) => if s.threads[t].Put? then PutStep(size, s, t) else GetStep(s, t)
  }

  const EMPTY := State([], map[], [], [])

  predicate Leads(size: nat, s: State, actions: seq<Action>, r: State)
    decreases |actions|
  {
    if actions == [] then r == s
    else Possible(s, actions[0]) && Leads(size, Step(size, s, actions[0]), actions[1..], r)
  }

  ghost predicate Reachable(size: nat, s: State) {
    exists actions :: Leads(size, EMPTY, actions, s)
  }

  // ----- the invariant

  function Joined(transfers: seq<Transfer>): seq<Byte> {
    if transfers == [] then [] else Joined(transfers[..|transfers|-1]) + transfers[|transfers|-1].data
  }

  ghost predicate Inv(size: nat, s: State) {
    && (s.contents == [] || |s.contents| + 2 <= size)
    && Joined(s.puts) == Joined(s.gets) + s.contents
    && (forall t :: t in s.threads && s.threads[t].parked ==>
          if s.threads[t].Put? then !Fits(size, s.contents, |s.threads[t].data|)
          else |s.contents| < s.threads[t].count)
  }

  lemma JoinedSnoc(transfers: seq<Transfer>, x: Transfer)
    ensures Joined(transfers + [x]) == Joined(transfers) + x.data
  {
    assert (transfers + [x])[..|transfers|] == transfers;
  }

  lemma PutKeeps(size: nat, s: State, t: Tid)
    requires Inv(size, s) && t in s.threads && s.threads[t].Put?
    ensures Inv(size, PutStep(size, s, t))
  {
    hide Joined;
    JoinedSnoc(s.puts, Transfer(t, s.threads[t].data));
  }

  lemma GetKeeps(size: nat, s: State, t: Tid)
    requires Inv(size, s) && t in s.threads && s.threads[t].Get?
    ensures Inv(size, GetStep(s, t))
  {
    hide Joined;
    var count, r := s.threads[t].count, GetStep(s, t);
    if count <= |s.contents| {
      JoinedSnoc(s.gets, Transfer(t, s.contents[..count]));
      assert s.contents == s.contents[..count] + s.contents[count..];
    }
    forall x | x in r.threads && r.threads[x].parked
      ensures r.threads[x].Get? && |r.contents| < r.threads[x].count
    {
      assert x != t ==> x in s.threads && r.threads[x] == s.threads[x];
    }
  }

  lemma StepKeeps(size: nat, s: State, a: Action)
    requires Inv(size, s) && Possible(s, a)
    ensures Inv(size, Step(size, s, a))
  {
    hide Joined;
    if a.Pass? {
      if s.threads[a.t].Put? {
        PutKeeps(size, s, a.t);
      } else {
        GetKeeps(size, s, a.t);
      }
    }
  }

  lemma {:induction false} LeadsKeeps(size: nat, s: State, actions: seq<Action>, r: State)
    requires Inv(size, s) && Leads(size, s, actions, r)
    ensures Inv(size, r)
    decreases |actions|
  {
    hide Inv, Step, Possible;
    if actions != [] {
      StepKeeps(size, s, actions[0]);
      LeadsKeeps(size, Step(size, s, actions[0]), actions[1..], r);
    }
  }

  lemma ReachableOk(size: nat, s: State)
    requires Reachable(size, s)
    ensures Inv(size, s)
  {
    var actions :| Leads(size, EMPTY, actions, s);
    LeadsKeeps(size, EMPTY, actions, s);
  }

  // ----- what it means

  /** However puts and gets interleave, the bytes got, put by put and in order, followed by those in
      the ring are the bytes put. The ring never fills up by more than its size less two. */
  lemma ByteStream(size: nat, s: State)
    requires Reachable(size, s)
    ensures Joined(s.puts) == Joined(s.gets) + s.contents
    ensures s.contents == [] || |s.contents| + 2 <= size
  {
    ReachableOk(size, s);
  }

  function Bytes(op: Op): nat {
    if op.Put? then |op.data| else op.count
  }

  /** The thread is still in the put or get that it is in in `s`. */
  predicate StillIn(s: State, r: State, t: Tid)
    requires t in s.threads
  {
    && t in r.threads && r.threads[t].(parked := false) == s.threads[t].(parked := false)
    && s.puts <= r.puts && (forall i :: |s.puts| <= i < |r.puts| ==> r.puts[i].thread != t)
    && s.gets <= r.gets && (forall i :: |s.gets| <= i < |r.gets| ==> r.gets[i].thread != t)
  }

  lemma StepStuck(size: nat, s: State, a: Action, t: Tid)
    requires Inv(size, s) && Possible(s, a) && t in s.threads
    requires Bytes(s.threads[t]) + 2 > size && Bytes(s.threads[t]) > 0
    ensures StillIn(s, Step(size, s, a), t)
  {
    hide Joined, Inv;
    StuckHere(size, s, t);
    if a.Pass? {
      if s.threads[a.t].Put? {
        assert a.t == t ==> PutStep(size, s, t).threads[t] == Put(s.threads[t].data, true);
      } else {
        assert a.t == t ==> GetStep(s, t).threads[t] == Get(s.threads[t].count, true);
      }
    }
  }

  lemma StuckHere(size: nat, s: State, t: Tid)
    requires Inv(size, s) && t in s.threads && Bytes(s.threads[t]) + 2 > size && Bytes(s.threads[t]) > 0
    ensures if s.threads[t].Put? then !Fits(size, s.contents, |s.threads[t].data|) else |s.contents| < s.threads[t].count
  {
  }

  /** A put or get that is too long never completes, whatever anyone does. */
  lemma {:induction false} Stuck(size: nat, s: State, actions: seq<Action>, r: State, t: Tid)
    requires Inv(size, s) && Leads(size, s, actions, r)
    requires t in s.threads && Bytes(s.threads[t]) + 2 > size && Bytes(s.threads[t]) > 0
    ensures StillIn(s, r, t)
    decreases |actions|
  {
    hide Inv, Step, Possible;
    if actions != [] {
      var m := Step(size, s, actions[0]);
      StepKeeps(size, s, actions[0]);
      StepStuck(size, s, actions[0], t);
      Stuck(size, m, actions[1..], r, t);
    }
  }

  /** Some run completes the put or get that `t` is in. */
  ghost predicate CanComplete(size: nat, s: State, t: Tid)
    requires t in s.threads
  {
    exists actions, r :: Leads(size, s, actions, r) && Completed(s, r, t)
  }

  predicate Completed(s: State, r: State, t: Tid)
    requires t in s.threads
  {
    && t !in r.threads
    && if s.threads[t].Put? then |r.puts| > |s.puts| && r.puts[|r.puts|-1] == Transfer(t, s.threads[t].data)
       else |r.gets| > |s.gets| && r.gets[|r.gets|-1].thread == t && |r.gets[|r.gets|-1].data| == s.threads[t].count
  }

  /** A thread that is in no put or get. */
  lemma Fresh(threads: set<Tid>) returns (t: Tid)
    ensures t !in threads
  {
    t := 0;
    var left := threads;
    while left != {}
      invariant left <= threads && forall x :: x in threads && x !in left ==> x < t
      decreases |left|
    {
      var x :| x in left;
      left := left - {x};
      t := if t > x then t else x + 1;
    }
  }

  lemma ThreeSteps(size: nat, s: State, a: Action, b: Action, c: Action)
    requires Possible(s, a)
    requires var s1 := Step(size, s, a); Possible(s1, b)
    requires var s2 := Step(size, Step(size, s, a), b); Possible(s2, c)
    ensures Leads(size, s, [a, b, c], Step(size, Step(size, Step(size, s, a), b), c))
  {
    hide Step, Possible;
    var s1 := Step(size, s, a);
    var s2 := Step(size, s1, b);
    var s3 := Step(size, s2, c);
    assert Leads(size, s3, [], s3);
    assert [c][1..] == [] && [b, c][1..] == [c] && [a, b, c][1..] == [b, c];
    assert Leads(size, s2, [c], s3);
    assert Leads(size, s1, [b, c], s3);
  }

  lemma OneStep(size: nat, s: State, a: Action)
    requires Possible(s, a)
    ensures Leads(size, s, [a], Step(size, s, a))
  {
    assert [a][1..] == [];
    assert Leads(size, Step(size, s, a), [], Step(size, s, a));
  }

  /** A put that is short enough completes at once, or once another thread has emptied the ring. */
  lemma PutCompletes(size: nat, s: State, t: Tid)
    requires Inv(size, s) && t in s.threads && s.threads[t].Put? && |s.threads[t].data| + 2 <= size
    ensures CanComplete(size, s, t)
  {
    if Fits(size, s.contents, |s.threads[t].data|) {
      OneStep(size, s, Pass(t));
      assert Completed(s, Step(size, s, Pass(t)), t);
    } else {
      var g := Fresh(s.threads.Keys);
      var a, b := StartGet(g, |s.contents|), Pass(g);
      ThreeSteps(size, s, a, b, Pass(t));
      var s2 := Step(size, Step(size, s, a), b);
      assert s2.contents == [] && t in s2.threads && s2.threads[t] == Put(s.threads[t].data, false);
      assert Completed(s, Step(size, s2, Pass(t)), t);
    }
  }

  /** A get that is short enough completes at once, or once another thread has put what it lacks. */
  lemma GetCompletes(size: nat, s: State, t: Tid)
    requires Inv(size, s) && t in s.threads && s.threads[t].Get? && s.threads[t].count + 2 <= size
    ensures CanComplete(size, s, t)
  {
    hide Step, Joined, Fits;
    var count := s.threads[t].count;
    if count <= |s.contents| {
      GetReady(size, s, t);
      GetNow(size, s, t);
      OneStep(size, s, Pass(t));
      assert Completed(s, Step(size, s, Pass(t)), t);
    } else {
      var g := Fresh(s.threads.Keys);
      var data := seq(count - |s.contents|, _ => 0);
      assert Fits(size, s.contents, |data|) by {
        Room(size, s.contents, |data|);
      }
      Filled(size, s, t, g, data);
      ThreeSteps(size, s, StartPut(g, data), Pass(g), Pass(t));
      var s2 := Step(size, Step(size, s, StartPut(g, data)), Pass(g));
      GetNow(size, s2, t);
      assert Completed(s, Step(size, s2, Pass(t)), t);
    }
  }

  /** A getter with bytes enough in the ring is not parked. */
  lemma GetReady(size: nat, s: State, t: Tid)
    requires Inv(size, s) && t in s.threads && s.threads[t].Get? && s.threads[t].count <= |s.contents|
    ensures !s.threads[t].parked
  {
  }

  /** Another thread's put that fits leaves a getter unparked. */
  lemma Filled(size: nat, s: State, t: Tid, g: Tid, data: seq<Byte>)
    requires t in s.threads && s.threads[t].Get? && g !in s.threads && data != [] && Fits(size, s.contents, |data|)
    ensures Possible(s, StartPut(g, data))
    ensures var s1 := Step(size, s, StartPut(g, data));
      && Possible(s1, Pass(g))
      && var s2 := Step(size, s1, Pass(g));
      && s2.contents == s.contents + data && s2.gets == s.gets
      && t in s2.threads && s2.threads[t] == Get(s.threads[t].count, false)
  {
  }

  lemma Room(size: nat, contents: seq<Byte>, count: nat)
    requires |contents| + count + 2 <= size
    ensures Fits(size, contents, count)
  {
  }

  lemma GetNow(size: nat, s: State, t: Tid)
    requires t in s.threads && s.threads[t].Get? && !s.threads[t].parked && s.threads[t].count <= |s.contents|
    ensures var r := Step(size, s, Pass(t));
      t !in r.threads && r.gets == s.gets + [Transfer(t, s.contents[..s.threads[t].count])]
  {
  }

  /** In every reachable state, a put or get that has begun can complete exactly when its bytes leave
      two of the ring unused; a longer one holds its thread for good. */
  lemma CompletesExactly(size: nat, s: State, t: Tid)
    requires Reachable(size, s) && t in s.threads && Bytes(s.threads[t]) > 0
    ensures CanComplete(size, s, t) <==> Bytes(s.threads[t]) + 2 <= size
  {
    ReachableOk(size, s);
    if Bytes(s.threads[t]) + 2 <= size {
      if s.threads[t].Put? {
        PutCompletes(size, s, t);
      } else {
        GetCompletes(size, s, t);
      }
    } else if CanComplete(size, s, t) {
      var actions, r :| Leads(size, s, actions, r) && Completed(s, r, t);
      Stuck(size, s, actions, r, t);
      assert false;
    }
  }

  /** A put of `size - 1` bytes into an empty ring, which has room for them, parks for good. */
  lemma FullPutStarves(size: nat, data: seq<Byte>) returns (s: State)
    requires size >= 2 && |data| == size - 1
    ensures Reachable(size, s) && s.contents == [] && 0 in s.threads && s.threads[0] == Put(data, true)
    ensures !CanComplete(size, s, 0)
  {
    var a, b := StartPut(0, data), Pass(0);
    var s1 := Step(size, EMPTY, a);
    s := Step(size, s1, b);
    assert [b][1..] == [] && [a, b][1..] == [b];
    assert Leads(size, s, [], s);
    assert Leads(size, s1, [b], s);
    assert Leads(size, EMPTY, [a, b], s);
    CompletesExactly(size, s, 0);
  }

  // ----- what threads ask for, and what they get done

  /** The data that `t` asks to be put, call by call. */
  function PutsAsked(actions: seq<Action>, t: Tid): seq<seq<Byte>> {
    if actions == [] then []
    else
      (if actions[0].StartPut? && actions[0].t == t then [actions[0].data] else []) + PutsAsked(actions[1..], t)
  }

  /** How many bytes `t` asks to get, call by call. */
  function GetsAsked(actions: seq<Action>, t: Tid): seq<nat> {
    if actions == [] then []
    else
      (if actions[0].StartGet? && actions[0].t == t then [actions[0].count] else []) + GetsAsked(actions[1..], t)
  }

  /** The data of the puts, completed and under way, of `t`. */
  function PutsOf(s: State, t: Tid): seq<seq<Byte>> {
    DataBy(s.puts, t) + if t in s.threads && s.threads[t].Put? then [s.threads[t].data] else []
  }

  /** The sizes of the gets, completed and under way, of `t`. */
  function GetsOf(s: State, t: Tid): seq<nat> {
    SizesBy(s.gets, t) + if t in s.threads && s.threads[t].Get? then [s.threads[t].count] else []
  }

  function DataBy(transfers: seq<Transfer>, t: Tid): seq<seq<Byte>> {
    if transfers == [] then []
    else
      var x := transfers[|transfers|-1];
      DataBy(transfers[..|transfers|-1], t) + if x.thread == t then [x.data] else []
  }

  function SizesBy(transfers: seq<Transfer>, t: Tid): seq<nat> {
    if transfers == [] then []
    else
      var x := transfers[|transfers|-1];
      SizesBy(transfers[..|transfers|-1], t) + if x.thread == t then [|x.data|] else []
  }

  lemma OneMoreTransfer(transfers: seq<Transfer>, x: Transfer, t: Tid)
    ensures DataBy(transfers + [x], t) == DataBy(transfers, t) + if x.thread == t then [x.data] else []
    ensures SizesBy(transfers + [x], t) == SizesBy(transfers, t) + if x.thread == t then [|x.data|] else []
  {
    assert (transfers + [x])[..|transfers|] == transfers;
  }

  lemma StepAsks(size: nat, s: State, a: Action, t: Tid)
    requires Possible(s, a)
    ensures var r := Step(size, s, a);
      && PutsOf(r, t) == PutsOf(s, t) + PutsAsked([a], t)
      && GetsOf(r, t) == GetsOf(s, t) + GetsAsked([a], t)
  {
    hide DataBy, SizesBy, Fits;
    assert [a][1..] == [];
    var r := Step(size, s, a);
    if r.puts != s.puts {
      OneMoreTransfer(s.puts, r.puts[|s.puts|], t);
    }
    if r.gets != s.gets {
      OneMoreTransfer(s.gets, r.gets[|s.gets|], t);
    }
  }

  lemma {:induction false} LeadsPuts(size: nat, s: State, actions: seq<Action>, r: State, t: Tid)
    requires Leads(size, s, actions, r)
    ensures PutsOf(r, t) == PutsOf(s, t) + PutsAsked(actions, t)
    decreases |actions|
  {
    hide Step, Possible, PutsOf, GetsOf, PutsAsked, GetsAsked;
    FirstAsked(actions, t);
    if actions != [] {
      var first, rest := [actions[0]], actions[1..];
      StepAsks(size, s, actions[0], t);
      LeadsPuts(size, Step(size, s, actions[0]), rest, r, t);
      Sequences.Joined(PutsOf(s, t), PutsAsked(first, t), PutsAsked(rest, t));
    }
  }

  lemma {:induction false} LeadsGets(size: nat, s: State, actions: seq<Action>, r: State, t: Tid)
    requires Leads(size, s, actions, r)
    ensures GetsOf(r, t) == GetsOf(s, t) + GetsAsked(actions, t)
    decreases |actions|
  {
    hide Step, Possible, PutsOf, GetsOf, PutsAsked, GetsAsked;
    FirstAsked(actions, t);
    if actions != [] {
      var first, rest := [actions[0]], actions[1..];
      StepAsks(size, s, actions[0], t);
      LeadsGets(size, Step(size, s, actions[0]), rest, r, t);
      Sequences.Joined(GetsOf(s, t), GetsAsked(first, t), GetsAsked(rest, t));
    }
  }

  lemma FirstAsked(actions: seq<Action>, t: Tid)
    ensures actions == [] ==> PutsAsked(actions, t) == [] && GetsAsked(actions, t) == []
    ensures actions != [] ==> PutsAsked(actions, t) == PutsAsked([actions[0]], t) + PutsAsked(actions[1..], t)
    ensures actions != [] ==> GetsAsked(actions, t) == GetsAsked([actions[0]], t) + GetsAsked(actions[1..], t)
  {
    if actions != [] {
      assert [actions[0]][1..] == [];
    }
  }

  /** Over any run, what a thread asked to be put is what it has put, call by call and in order, and then
      the data of the put it is in; and likewise for the sizes of its gets. */
  lemma DoneAsAsked(size: nat, actions: seq<Action>, s: State, t: Tid)
    requires Leads(size, EMPTY, actions, s)
    ensures PutsAsked(actions, t) == PutsOf(s, t)
    ensures GetsAsked(actions, t) == GetsOf(s, t)
  {
    LeadsPuts(size, EMPTY, actions, s, t);
    LeadsGets(size, EMPTY, actions, s, t);
  }

  // ----- who parks, and who gets on without help

  /** A putter and a getter are parked. */
  ghost predicate BothParked(threads: map<Tid, Op>) {
    exists t, u :: t in threads && u in threads && ParkedPut(threads[t]) && ParkedGet(threads[u])
  }

  predicate ParkedPut(op: Op) {
    op.Put? && op.parked
  }

  predicate ParkedGet(op: Op) {
    op.Get? && op.parked
  }

  lemma StepParks(size: nat, s: State, a: Action)
    requires !BothParked(s.threads) && Possible(s, a)
    ensures !BothParked(Step(size, s, a).threads)
  {
    var r := Step(size, s, a);
    forall t, u | t in r.threads && u in r.threads && t in s.threads && u in s.threads
      ensures !(ParkedPut(r.threads[t]) && ParkedGet(r.threads[u]))
    {
      assert !(ParkedPut(s.threads[t]) && ParkedGet(s.threads[u]));
    }
  }

  lemma {:induction false} LeadsParks(size: nat, s: State, actions: seq<Action>, r: State)
    requires !BothParked(s.threads) && Leads(size, s, actions, r)
    ensures !BothParked(r.threads)
    decreases |actions|
  {
    hide Step, Possible, BothParked;
    if actions != [] {
      StepParks(size, s, actions[0]);
      LeadsParks(size, Step(size, s, actions[0]), actions[1..], r);
    }
  }

  /** A putter and a getter are never both parked: a pass wakes all of the other side. */
  lemma NoMutualParking(size: nat, s: State)
    requires Reachable(size, s)
    ensures !BothParked(s.threads)
  {
    hide Leads;
    var actions :| Leads(size, EMPTY, actions, s);
    LeadsParks(size, EMPTY, actions, s);
  }

  /** The next pass of the thread goes through. */
  predicate GoesThrough(size: nat, s: State, t: Tid)
    requires t in s.threads
  {
    if s.threads[t].Put? then Fits(size, s.contents, |s.threads[t].data|) else s.threads[t].count <= |s.contents|
  }

  predicate OnlyPasses(actions: seq<Action>) {
    forall a :: a in actions ==> a.Pass?
  }

  /** Some put or get completes in a run in which nobody begins another. */
  ghost predicate Progresses(size: nat, s: State) {
    exists actions, r :: OnlyPasses(actions) && Leads(size, s, actions, r) && r.threads.Keys != s.threads.Keys
  }

  /** No put fits and no get has its bytes: passes change nothing but who is parked. */
  ghost predicate Blocked(size: nat, s: State) {
    forall t :: t in s.threads ==> !GoesThrough(size, s, t)
  }

  lemma PassBlocked(size: nat, s: State, t: Tid)
    requires Blocked(size, s) && Possible(s, Pass(t))
    ensures var r := Step(size, s, Pass(t)); Blocked(size, r) && r.threads.Keys == s.threads.Keys
  {
    var r := Step(size, s, Pass(t));
    assert !GoesThrough(size, s, t);
    forall u | u in r.threads
      ensures !GoesThrough(size, r, u)
    {
      assert !GoesThrough(size, s, u);
    }
  }

  lemma {:induction false} PassesBlocked(size: nat, s: State, actions: seq<Action>, r: State)
    requires Blocked(size, s) && OnlyPasses(actions) && Leads(size, s, actions, r)
    ensures r.threads.Keys == s.threads.Keys
    decreases |actions|
  {
    hide Blocked, Step, Possible;
    if actions != [] {
      assert actions[0] in actions && forall a :: a in actions[1..] ==> a in actions;
      PassBlocked(size, s, actions[0].t);
      PassesBlocked(size, Step(size, s, actions[0]), actions[1..], r);
    }
  }

  /** In a reachable state, the threads that are in a put or get can complete one of them among
      themselves exactly when a pass of one of them goes through. Otherwise they wake each other and
      park again without end. */
  lemma ProgressExactly(size: nat, s: State)
    requires Reachable(size, s)
    ensures Progresses(size, s) <==> !Blocked(size, s)
  {
    ReachableOk(size, s);
    hide Inv;
    if !Blocked(size, s) {
      var t :| t in s.threads && GoesThrough(size, s, t);
      NotParked(size, s, t);
      OneStep(size, s, Pass(t));
      assert t !in Step(size, s, Pass(t)).threads;
      assert OnlyPasses([Pass(t)]);
    } else if Progresses(size, s) {
      hide Leads;
      var actions, r :| OnlyPasses(actions) && Leads(size, s, actions, r) && r.threads.Keys != s.threads.Keys;
      PassesBlocked(size, s, actions, r);
      assert false;
    }
  }

  lemma NotParked(size: nat, s: State, t: Tid)
    requires Inv(size, s) && t in s.threads && GoesThrough(size, s, t)
    ensures !s.threads[t].parked
  {
  }

  /** One thread putting `p` bytes and one getting `g`, and nobody else in a call. */
  predicate Pair(s: State, a: Tid, p: nat, b: Tid, g: nat) {
    && s.threads.Keys == {a, b}
    && s.threads[a].Put? && |s.threads[a].data| == p && s.threads[b].Get? && s.threads[b].count == g
  }

  lemma PairProgresses(size: nat, s: State, a: Tid, p: nat, b: Tid, g: nat)
    requires Reachable(size, s) && Pair(s, a, p, b, g) && g + p < size
    ensures Progresses(size, s)
  {
    hide Reachable, Progresses;
    ProgressExactly(size, s);
    assert a in s.threads && b in s.threads;
    assert GoesThrough(size, s, a) || GoesThrough(size, s, b);
  }

  lemma {:induction false} LeadsMore(size: nat, s: State, actions: seq<Action>, r: State, a: Action)
    requires Leads(size, s, actions, r) && Possible(r, a)
    ensures Leads(size, s, actions + [a], Step(size, r, a))
    decreases |actions|
  {
    hide Step, Possible;
    if actions == [] {
      OneStep(size, s, a);
      assert [] + [a] == [a];
    } else {
      LeadsMore(size, Step(size, s, actions[0]), actions[1..], r, a);
      assert (actions + [a])[1..] == actions[1..] + [a];
    }
  }

  lemma ReachableStep(size: nat, s: State, a: Action)
    requires Reachable(size, s) && Possible(s, a)
    ensures Reachable(size, Step(size, s, a))
  {
    hide Leads, Step, Possible;
    var actions :| Leads(size, EMPTY, actions, s);
    LeadsMore(size, EMPTY, actions, s, a);
  }

  /** A reachable state with `c` bytes in the ring and nobody in a call. */
  lemma Holding(size: nat, c: nat) returns (s: State)
    requires c == 0 || c + 2 <= size
    ensures Reachable(size, s) && |s.contents| == c && s.threads == map[]
  {
    hide Reachable;
    StartReachable(size);
    s := EMPTY;
    if c > 0 {
      var data := seq(c, _ => 0);
      ReachableStep(size, s, StartPut(0, data));
      s := Step(size, s, StartPut(0, data));
      ReachableStep(size, s, Pass(0));
      s := Step(size, s, Pass(0));
    }
  }

  lemma StartReachable(size: nat)
    ensures Reachable(size, EMPTY)
  {
    assert Leads(size, EMPTY, [], EMPTY);
  }

  /** Then a put of `p` and a get of `g` bytes begin. */
  lemma PairStarts(size: nat, s: State, a: Tid, p: nat, b: Tid, g: nat) returns (r: State)
    requires Reachable(size, s) && s.threads == map[] && a != b && p > 0 && g > 0
    ensures Reachable(size, r) && Pair(r, a, p, b, g) && r.contents == s.contents
  {
    hide Reachable;
    var data := seq(p, _ => 0);
    ReachableStep(size, s, StartPut(a, data));
    r := Step(size, s, StartPut(a, data));
    ReachableStep(size, r, StartGet(b, g));
    r := Step(size, r, StartGet(b, g));
  }

  /** A putter of `p` bytes and a getter of `g` bytes get on without the help of a third thread, from
      whatever state they are in, exactly when the ring has more than `p + g` places. */
  lemma PairNeedsNoHelp(size: nat, a: Tid, p: nat, b: Tid, g: nat)
    requires a != b && p > 0 && g > 0
    ensures (forall s :: Reachable(size, s) && Pair(s, a, p, b, g) ==> Progresses(size, s)) <==> p + g < size
  {
    hide Reachable, Progresses;
    if p + g < size {
      forall s | Reachable(size, s) && Pair(s, a, p, b, g)
        ensures Progresses(size, s)
      {
        PairProgresses(size, s, a, p, b, g);
      }
    } else {
      var held := Holding(size, if g + 1 <= size then g - 1 else if size >= 2 then size - 2 else 0);
      var s := PairStarts(size, held, a, p, b, g);
      ProgressExactly(size, s);
      assert Blocked(size, s);
    }
  }

  // ----- the passes on the ring buffer and its wait lists

  class BlockingRing {
    const queue: CircleQueue
    var threads: map<Tid, Op>
    var producerWaiting: seq<Tid>  // producer_waiting_list
    var consumorWaiting: seq<Tid>  // consumor_waiting_list
    ghost var puts: seq<Transfer>
    ghost var gets: seq<Transfer>

    ghost predicate Listed()
      reads this
    {
      && Distinct(producerWaiting) && Distinct(consumorWaiting)
      && (forall t :: t in producerWaiting <==> t in threads && threads[t].Put? && threads[t].parked)
      && (forall t :: t in consumorWaiting <==> t in threads && threads[t].Get? && threads[t].parked)
      && (forall t :: t in threads ==> Bytes(threads[t]) > 0)
    }

    ghost predicate Valid()
      reads this, queue
    {
      queue.Valid() && Listed()
    }

    ghost function Abs(): State
      requires queue.Valid()
      reads this, queue, queue.buf
    {
      State(queue.Contents(), threads, puts, gets)
    }

    constructor (size: nat)
      requires size > 0
      ensures Valid() && Abs() == EMPTY && queue.size == size && fresh(queue) && fresh(queue.buf)
    {
      queue := new CircleQueue(size);
      threads, producerWaiting, consumorWaiting := map[], [], [];
      puts, gets := [], [];
    }

    /** A thread enters ioqueue_put_data or ioqueue_get_data. */
    method Start(t: Tid, op: Op)
      requires Valid() && t !in threads && !op.parked && Bytes(op) > 0
      modifies `threads
      ensures Valid() && Abs() == old(Abs()).(threads := old(threads)[t := op])
    {
      threads := threads[t := op];
    }

    /** Pops and unblocks every thread on the consumers' wait list. */
    method WakeUpConsumors()
      requires Listed()
      modifies `threads, `consumorWaiting
      ensures Listed() && threads == WakeGetters(old(threads)) && consumorWaiting == []
    {
      while consumorWaiting != []
        invariant Listed() && threads.Keys == old(threads).Keys
        invariant forall t :: t in threads ==> threads[t] == old(threads)[t] || threads[t] == WakeGetters(old(threads))[t]
        decreases |consumorWaiting|
      {
        var t := consumorWaiting[0];
        assert t in consumorWaiting;
        assert forall x :: x in consumorWaiting <==> x == t || x in consumorWaiting[1..];
        threads := threads[t := Get(threads[t].count, false)];
        consumorWaiting := consumorWaiting[1..];
      }
    }

    /** Pops and unblocks every thread on the producers' wait list. */
    method WakeUpProducers()
      requires Listed()
      modifies `threads, `producerWaiting
      ensures Listed() && threads == WakePutters(old(threads)) && producerWaiting == []
    {
      while producerWaiting != []
        invariant Listed() && threads.Keys == old(threads).Keys
        invariant forall t :: t in threads ==> threads[t] == old(threads)[t] || threads[t] == WakePutters(old(threads))[t]
        decreases |producerWaiting|
      {
        var t := producerWaiting[0];
        assert t in producerWaiting;
        assert forall x :: x in producerWaiting <==> x == t || x in producerWaiting[1..];
        threads := threads[t := Put(threads[t].data, false)];
        producerWaiting := producerWaiting[1..];
      }
    }

    /** One pass of ioqueue_put_data: all bytes or none, the consumers are woken, and a thread that
        could not write goes on the wait list. */
    method PutPass(t: Tid)
      requires Valid() && t in threads && threads[t].Put? && !threads[t].parked
      modifies this, queue, queue.buf
      ensures Valid() && Abs() == PutStep(queue.size, old(Abs()), t)
    {
      var data := threads[t].data;
      var written := queue.TryPut(data);
      WakeUpConsumors();
      if written < |data| {
        producerWaiting := producerWaiting + [t];
        threads := threads[t := Put(data, true)];
      } else {
        threads := threads - {t};
        puts := puts + [Transfer(t, data)];
      }
    }

    /** One pass of ioqueue_get_data. */
    method GetPass(t: Tid) returns (data: seq<Byte>)
      requires Valid() && t in threads && threads[t].Get? && !threads[t].parked
      modifies this, queue, queue.buf
      ensures Valid() && Abs() == GetStep(old(Abs()), t)
      ensures data == if old(threads[t].count) <= |old(queue.Contents())| then old(queue.Contents())[..old(threads[t].count)] else []
    {
      var count := threads[t].count;
      data := queue.TryGet(count);
      WakeUpProducers();
      if |data| < count {
        consumorWaiting := consumorWaiting + [t];
        threads := threads[t := Get(count, true)];
      } else {
        threads := threads - {t};
        gets := gets + [Transfer(t, data)];
      }
    }
  }
}
