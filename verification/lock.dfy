/** core/thread/semaphore.c: the re-entrant lock on a binary semaphore, as threads that interleave
    between any two statements except where interrupts are off. */
module Lock {
  import opened Sequences

  type Tid = nat

  datatype Option<T> = None | Some(value: T)

  // ----- the semaphore

  datatype Sema = Sema(value: nat, queue: seq<Tid>)

  /** The test that list_find_element makes: `t` is queued, and not as the last. */
  predicate FoundNotLast(queue: seq<Tid>, t: Tid) {
    t in queue && queue[|queue|-1] != t
  }

  /** One pass of the loop of semaphore_down: the new semaphore and whether `t` got through, or
      None if an assertion fails. */
  function DownPass(s: Sema, t: Tid): Option<(Sema, bool)> {
    if s.value == 0 then
      if FoundNotLast(s.queue, t) then None else Some((s.(queue := s.queue + [t]), false))
    else if s.value == 1 then Some((s.(value := 0), true))
    else None
  }

  /** semaphore_up: the new semaphore and the thread taken off the queue, if any. */
  function UpPass(s: Sema): Option<(Sema, Option<Tid>)> {
    if s.value != 0 then None
    else if s.queue == [] then Some((Sema(1, []), None))
    else Some((Sema(1, s.queue[1..]), Some(s.queue[0])))
  }

  class Semaphore {
    var value: nat
    var waitingQueue: seq<Tid>

    function Abs(): Sema
      reads this
    {
      Sema(value, waitingQueue)
    }

    constructor (value: nat)
      ensures Abs() == Sema(value, [])
    {
      this.value, waitingQueue := value, [];
    }

    method Down(cur: Tid) returns (through: bool)
      requires DownPass(Abs(), cur).Some?
      modifies this
      ensures DownPass(old(Abs()), cur) == Some((Abs(), through))
    {
      if value == 0 {
        assert !FoundNotLast(waitingQueue, cur);
        waitingQueue := waitingQueue + [cur];
        return false;
      }
      value := value - 1;
      assert value == 0;
      through := true;
    }

    method Up() returns (unblocked: Option<Tid>)
      requires UpPass(Abs()).Some?
      modifies this
      ensures UpPass(old(Abs())) == Some((Abs(), unblocked))
    {
      unblocked := None;
      if waitingQueue != [] {
        unblocked := Some(waitingQueue[0]);
        waitingQueue := waitingQueue[1..];
      }
      value := value + 1;
      assert value == 1;
    }
  }

  // ----- threads

  /** What a thread does next. The first two are outside the lock functions and at the head of
      semaphore_down; the others name the statement that is about to run. */
  datatype Pc =
    | Outside | Down | Waiting | Woken | SetHolder | SetRepeat | IncRepeat
    | DecRepeat | ClearHolder | ClearRepeat | Up

  /** `depth` counts the fetches of each thread that it has not released; `owner` is the thread
      between the down that got through and the matching up. */
  datatype State = State(
    sema: Sema, holder: Option<Tid>, repeat: nat,
    pc: map<Tid, Pc>, depth: map<Tid, nat>, owner: Option<Tid>)

  function Initial(threads: set<Tid>): State {
    State(Sema(1, []), None, 0, map t | t in threads :: Outside, map t | t in threads :: 0, None)
  }

  /** A thread outside may fetch, or release what it holds; otherwise it runs its next statement. */
  datatype Action = Fetch(t: Tid) | Release(t: Tid) | Run(t: Tid)

  ghost predicate Possible(s: State, a: Action) {
    match a
    case Fetch(t) => t in s.pc && s.pc[t] == Outside
    case Release(t) => t in s.pc && s.pc[t] == Outside && t in s.depth && s.depth[t] > 0
    case Run(t) => t in s.pc && t in s.depth && s.pc[t] != Outside && s.pc[t] != Waiting
  }

  /** The next state, or None if an assertion fails. */
  function Step(s: State, a: Action): Option<State> {
    match a
    case Fetch(t) =>
      Some(s.(pc := s.pc[t := if s.holder != Some(t) then Down else IncRepeat]))
    case Release(t) =>
      if s.repeat > 1 then Some(s.(pc := s.pc[t := DecRepeat]))
      else if s.repeat != 1 then None
      else Some(s.(pc := s.pc[t := ClearHolder]))
    case Run(t) =>
      if t !in s.pc || t !in s.depth then None else RunStep(s, t)
  }

  function RunStep(s: State, t: Tid): Option<State>
    requires t in s.pc && t in s.depth
  {
    match s.pc[t]
    case Down => DownStep(s, t)
    case Woken => DownStep(s, t)
    case SetHolder => Some(s.(holder := Some(t), pc := s.pc[t := SetRepeat]))
    case SetRepeat =>
      if s.repeat != 0 then None else Some(s.(repeat := 1, pc := s.pc[t := Outside], depth := s.depth[t := 1]))
    case IncRepeat => Some(s.(repeat := s.repeat + 1, pc := s.pc[t := Outside], depth := s.depth[t := s.depth[t] + 1]))
    case DecRepeat =>
      if s.repeat == 0 || s.depth[t] == 0 then None
      else Some(s.(repeat := s.repeat - 1, pc := s.pc[t := Outside], depth := s.depth[t := s.depth[t] - 1]))
    case ClearHolder => Some(s.(holder := None, pc := s.pc[t := ClearRepeat]))
    case ClearRepeat => Some(s.(repeat := 0, pc := s.pc[t := Up]))
    case Up => UpStep(s, t)
    case Outside => None
    case Waiting => None
  }

  function DownStep(s: State, t: Tid): Option<State> {
    match DownPass(s.sema, t)
    case None => None
    case Some((sema, through)) =>
      if through then Some(s.(sema := sema, pc := s.pc[t := SetHolder], owner := Some(t)))
      else Some(s.(sema := sema, pc := s.pc[t := Waiting]))
  }

  /** The popped thread must be blocked, or thread_unblock fails its assertion. */
  function UpStep(s: State, t: Tid): Option<State> {
    match UpPass(s.sema)
    case None => None
    case Some((sema, None)) =>
      Some(s.(sema := sema, pc := s.pc[t := Outside], depth := s.depth[t := 0], owner := None))
    case Some((sema, Some(w))) =>
      if w !in s.pc || s.pc[w] != Waiting then None
      else Some(s.(sema := sema, pc := s.pc[w := Woken][t := Outside], depth := s.depth[t := 0], owner := None))
  }

  // ----- the invariant

  predicate Engaged(pc: Pc) {
    pc.SetHolder? || pc.SetRepeat? || pc.IncRepeat? || pc.DecRepeat? || pc.ClearHolder? || pc.ClearRepeat? || pc.Up?
  }

  /** The lock fields while `t` owns the semaphore. */
  ghost predicate OwnedBy(s: State, t: Tid) {
    && t in s.pc && t in s.depth
    && match s.pc[t]
       case SetHolder => s.holder == None && s.repeat == 0 && s.depth[t] == 0
       case SetRepeat => s.holder == Some(t) && s.repeat == 0 && s.depth[t] == 0
       case Outside => s.holder == Some(t) && s.repeat == s.depth[t] >= 1
       case IncRepeat => s.holder == Some(t) && s.repeat == s.depth[t] >= 1
       case DecRepeat => s.holder == Some(t) && s.repeat == s.depth[t] >= 2
       case ClearHolder => s.holder == Some(t) && s.repeat == s.depth[t] == 1
       case ClearRepeat => s.holder == None && s.repeat == s.depth[t] == 1
       case Up => s.holder == None && s.repeat == 0 && s.depth[t] == 1
       case _ => false
  }

  ghost predicate Inv(s: State) {
    && s.pc.Keys == s.depth.Keys
    && (s.sema.value == if s.owner == None then 1 else 0)
    && Distinct(s.sema.queue)
    && (forall t :: t in s.sema.queue <==> t in s.pc && s.pc[t] == Waiting)
    && (forall t :: t in s.pc && (Engaged(s.pc[t]) || s.depth[t] > 0) ==> s.owner == Some(t))
    && (if s.owner == None then s.holder == None && s.repeat == 0 else OwnedBy(s, s.owner.value))
    && (s.sema.value == 1 && s.sema.queue != [] ==> exists t :: t in s.pc && s.pc[t] == Woken)
  }

  lemma DownKeeps(s: State, t: Tid)
    requires Inv(s) && t in s.pc && (s.pc[t] == Down || s.pc[t] == Woken)
    ensures DownStep(s, t).Some? && Inv(DownStep(s, t).value)
  {
  }

  lemma UpKeeps(s: State, t: Tid)
    requires Inv(s) && t in s.pc && s.pc[t] == Up
    ensures UpStep(s, t).Some? && Inv(UpStep(s, t).value)
  {
    var q := s.sema.queue;
    if q != [] {
      var s' := UpStep(s, t).value;
      assert q[0] in q;
      assert forall x :: x in q <==> x == q[0] || x in q[1..];
      assert q[0] !in q[1..];
      assert s'.pc[q[0]] == Woken;
    }
  }

  /** The statements that only the owner runs between its down and its up. */
  lemma OwnerKeeps(s: State, t: Tid)
    requires Inv(s) && t in s.pc && Engaged(s.pc[t]) && s.pc[t] != Up
    ensures RunStep(s, t).Some? && Inv(RunStep(s, t).value)
  {
    var s' := RunStep(s, t).value;
    assert OwnedBy(s', t);
    assert s'.sema == s.sema;
  }

  lemma FetchKeeps(s: State, t: Tid)
    requires Inv(s) && Possible(s, Fetch(t))
    ensures Inv(Step(s, Fetch(t)).value)
  {
    var s' := Step(s, Fetch(t)).value;
    assert s.owner != None && s.owner != Some(t) ==> OwnedBy(s', s.owner.value);
  }

  lemma ReleaseKeeps(s: State, t: Tid)
    requires Inv(s) && Possible(s, Release(t))
    ensures Step(s, Release(t)).Some? && Inv(Step(s, Release(t)).value)
  {
    assert OwnedBy(Step(s, Release(t)).value, t);
  }

  lemma StepKeeps(s: State, a: Action)
    requires Inv(s) && Possible(s, a)
    ensures Step(s, a).Some? && Inv(Step(s, a).value)
  {
    hide Inv, OwnedBy;
    match a
    case Fetch(t) => FetchKeeps(s, t);
    case Release(t) => ReleaseKeeps(s, t);
    case Run(t) =>
      if s.pc[t] == Down || s.pc[t] == Woken {
        DownKeeps(s, t);
      } else if s.pc[t] == Up {
        UpKeeps(s, t);
      } else {
        OwnerKeeps(s, t);
      }
  }

  // ----- every interleaving

  ghost predicate Leads(s: State, actions: seq<Action>, t: State)
    decreases |actions|
  {
    if actions == [] then s == t
    else Possible(s, actions[0]) && Step(s, actions[0]).Some? && Leads(Step(s, actions[0]).value, actions[1..], t)
  }

  ghost predicate Reachable(s: State) {
    exists threads, actions :: Leads(Initial(threads), actions, s)
  }

  lemma {:induction false} LeadsKeeps(s: State, actions: seq<Action>, t: State)
    requires Inv(s) && Leads(s, actions, t)
    ensures Inv(t)
    decreases |actions|
  {
    hide Inv, Step;
    if actions != [] {
      StepKeeps(s, actions[0]);
      LeadsKeeps(Step(s, actions[0]).value, actions[1..], t);
    }
  }

  lemma ReachableOk(s: State)
    requires Reachable(s)
    ensures Inv(s)
  {
    var threads, actions :| Leads(Initial(threads), actions, s);
    LeadsKeeps(Initial(threads), actions, s);
  }

  /** No assertion of the lock functions or of thread_unblock ever fails. */
  lemma AssertionsHold(s: State, a: Action)
    requires Reachable(s) && Possible(s, a)
    ensures Step(s, a).Some?
  {
    ReachableOk(s);
    StepKeeps(s, a);
  }

  // ----- fetches and releases

  function Fetches(actions: seq<Action>, t: Tid): nat {
    if actions == [] then 0 else (if actions[0] == Fetch(t) then 1 else 0) + Fetches(actions[1..], t)
  }

  function Releases(actions: seq<Action>, t: Tid): nat {
    if actions == [] then 0 else (if actions[0] == Release(t) then 1 else 0) + Releases(actions[1..], t)
  }

  /** How often `t` has fetched the lock, or begun to, and not released it, nor begun to. */
  function Unreleased(actions: seq<Action>, t: Tid): int {
    Fetches(actions, t) - Releases(actions, t)
  }

  /** The same, as the state tells it: a fetch or release under way is not in `depth` yet. */
  function Balance(s: State, t: Tid): int
    requires t in s.pc && t in s.depth
  {
    s.depth[t] + match s.pc[t]
                 case Outside => 0
                 case Down => 1
                 case Waiting => 1
                 case Woken => 1
                 case SetHolder => 1
                 case SetRepeat => 1
                 case IncRepeat => 1
                 case DecRepeat => -1
                 case ClearHolder => -1
                 case ClearRepeat => -1
                 case Up => -1
  }

  function Change(a: Action, t: Tid): int {
    if a == Fetch(t) then 1 else if a == Release(t) then -1 else 0
  }

  lemma UpBalance(s: State, u: Tid, t: Tid)
    requires Inv(s) && u in s.pc && s.pc[u] == Up && t in s.pc && UpStep(s, u).Some?
    ensures var r := UpStep(s, u).value; t in r.pc && t in r.depth && Balance(r, t) == Balance(s, t)
  {
    UpOwner(s, u);
    hide Inv;
  }

  lemma UpOwner(s: State, u: Tid)
    requires Inv(s) && u in s.pc && s.pc[u] == Up
    ensures s.pc.Keys == s.depth.Keys && s.depth[u] == 1 && s.owner == Some(u)
    ensures forall x :: x in s.sema.queue ==> x in s.pc && s.pc[x] == Waiting
  {
  }

  lemma OwnerBalance(s: State, u: Tid, t: Tid)
    requires Inv(s) && u in s.pc && u in s.depth && Engaged(s.pc[u]) && s.pc[u] != Up && t in s.pc && RunStep(s, u).Some?
    ensures var r := RunStep(s, u).value; t in r.pc && t in r.depth && Balance(r, t) == Balance(s, t)
  {
  }

  lemma DownBalance(s: State, u: Tid, t: Tid)
    requires t in s.pc && t in s.depth && u in s.pc && (s.pc[u] == Down || s.pc[u] == Woken) && DownStep(s, u).Some?
    ensures var r := DownStep(s, u).value; t in r.pc && t in r.depth && Balance(r, t) == Balance(s, t)
  {
  }

  lemma StepBalance(s: State, a: Action, t: Tid)
    requires Inv(s) && Possible(s, a) && t in s.pc && t in s.depth && Step(s, a).Some?
    ensures var r := Step(s, a).value;
      t in r.pc && t in r.depth && Balance(r, t) == Balance(s, t) + Change(a, t)
  {
    hide Inv, UpStep, DownStep;
    if a.Run? {
      hide Balance;
      if s.pc[a.t] == Up {
        UpBalance(s, a.t, t);
      } else if s.pc[a.t] == Down || s.pc[a.t] == Woken {
        DownBalance(s, a.t, t);
      } else {
        OwnerBalance(s, a.t, t);
      }
    }
  }

  lemma {:induction false} LeadsBalance(s: State, actions: seq<Action>, r: State, t: Tid)
    requires Inv(s) && Leads(s, actions, r) && t in s.pc
    ensures t in s.depth && t in r.pc && t in r.depth
    ensures Balance(r, t) == Balance(s, t) + Unreleased(actions, t)
    decreases |actions|
  {
    hide OwnedBy, Step, Balance;
    if actions != [] {
      StepBalance(s, actions[0], t);
      StepKeeps(s, actions[0]);
      LeadsBalance(Step(s, actions[0]).value, actions[1..], r, t);
    }
  }

  /** Over any run, for a thread that is in neither lock_fetch nor lock_release: `depth` is the number
      of its fetches less that of its releases. So it may release exactly if it has fetched more often. */
  lemma DepthCounts(threads: set<Tid>, actions: seq<Action>, s: State, t: Tid)
    requires Leads(Initial(threads), actions, s) && t in threads
    ensures t in s.pc && t in s.depth
    ensures s.pc[t] == Outside ==> s.depth[t] == Unreleased(actions, t)
    ensures s.pc[t] == Outside ==> (Possible(s, Release(t)) <==> Unreleased(actions, t) > 0)
  {
    LeadsBalance(Initial(threads), actions, s, t);
  }

  /** Mutual exclusion over any run, in terms of calls: of the threads that are in neither function, at
      most one has fetched the lock more often than released it. It is the holder, and the repeat count
      is the difference. */
  lemma MutualExclusion(threads: set<Tid>, actions: seq<Action>, s: State, t: Tid, u: Tid)
    requires Leads(Initial(threads), actions, s) && t in threads && u in threads
    ensures t in s.pc && u in s.pc
    ensures s.pc[t] == Outside && s.pc[u] == Outside && Unreleased(actions, t) > 0 && Unreleased(actions, u) > 0 ==> t == u
    ensures s.pc[t] == Outside && Unreleased(actions, t) > 0 ==>
      s.holder == Some(t) && s.repeat == Unreleased(actions, t) && s.sema.value == 0
  {
    DepthCounts(threads, actions, s, t);
    DepthCounts(threads, actions, s, u);
    LeadsKeeps(Initial(threads), actions, s);
  }

  /** And once every thread has released the lock as often as it fetched it, the lock is free. */
  lemma FreeOnceReleased(threads: set<Tid>, actions: seq<Action>, s: State)
    requires Leads(Initial(threads), actions, s)
    requires forall t :: t in threads ==> t in s.pc && s.pc[t] == Outside && Unreleased(actions, t) == 0
    ensures s.sema == Sema(1, []) && s.holder == None && s.repeat == 0
  {
    LeadsKeeps(Initial(threads), actions, s);
    LeadsThreads(Initial(threads), actions, s);
    forall t | t in threads
      ensures s.depth[t] == 0
    {
      DepthCounts(threads, actions, s, t);
    }
  }

  lemma {:induction false} LeadsThreads(s: State, actions: seq<Action>, r: State)
    requires Inv(s) && Leads(s, actions, r)
    ensures r.pc.Keys == s.pc.Keys == s.depth.Keys == r.depth.Keys
    decreases |actions|
  {
    hide Inv, Step;
    SameKeys(s);
    if actions != [] {
      StepKeeps(s, actions[0]);
      StepThreads(s, actions[0]);
      LeadsThreads(Step(s, actions[0]).value, actions[1..], r);
    }
  }

  lemma SameKeys(s: State)
    requires Inv(s)
    ensures s.pc.Keys == s.depth.Keys
  {
  }

  lemma StepThreads(s: State, a: Action)
    requires Possible(s, a) && Step(s, a).Some?
    ensures Step(s, a).value.pc.Keys == s.pc.Keys
  {
  }

  /** At no point, in the middle of a call or not, do two threads have the lock. */
  lemma OneHolder(s: State, t: Tid, u: Tid)
    requires Reachable(s) && t in s.pc && t in s.depth && u in s.depth
    ensures s.depth[t] > 0 && s.depth[u] > 0 ==> t == u
    ensures s.depth[t] > 0 && s.pc[t] == Outside ==> s.holder == Some(t) && s.repeat == s.depth[t]
  {
    ReachableOk(s);
  }

  // ----- the waiting queue

  /** The step puts its thread to sleep. */
  predicate Sleeps(s: State, r: State, t: Tid) {
    t in s.pc && t in r.pc && s.pc[t] != Waiting && r.pc[t] == Waiting
  }

  predicate Wakes(s: State, r: State, t: Tid) {
    t in s.pc && t in r.pc && s.pc[t] == Waiting && r.pc[t] != Waiting
  }

  function SleptIn(s: State, a: Action, r: State): seq<Tid> {
    if a.Run? && Sleeps(s, r, a.t) then [a.t] else []
  }

  /** The thread that a step wakes, if any. */
  ghost function WokenIn(s: State, r: State): seq<Tid> {
    if exists t :: Wakes(s, r, t) then var t :| Wakes(s, r, t); [t] else []
  }

  /** The threads put to sleep in a run, in order. */
  function Slept(s: State, actions: seq<Action>): seq<Tid>
    decreases |actions|
  {
    if actions == [] || Step(s, actions[0]).None? then []
    else SleptIn(s, actions[0], Step(s, actions[0]).value) + Slept(Step(s, actions[0]).value, actions[1..])
  }

  /** The threads woken in a run, in order. */
  ghost function Awoken(s: State, actions: seq<Action>): seq<Tid>
    decreases |actions|
  {
    if actions == [] || Step(s, actions[0]).None? then []
    else WokenIn(s, Step(s, actions[0]).value) + Awoken(Step(s, actions[0]).value, actions[1..])
  }

  lemma UpWakes(s: State, t: Tid)
    requires Inv(s) && t in s.pc && s.pc[t] == Up && s.sema.queue != []
    ensures UpStep(s, t).Some?
    ensures var r := UpStep(s, t).value; WokenIn(s, r) == [s.sema.queue[0]] && r.sema.queue == s.sema.queue[1..]
  {
    UpKeeps(s, t);
    var r, w := UpStep(s, t).value, s.sema.queue[0];
    assert w in s.sema.queue;
    assert Wakes(s, r, w);
    assert forall u :: Wakes(s, r, u) ==> u == w;
  }

  lemma StepQueue(s: State, a: Action)
    requires Inv(s) && Possible(s, a) && Step(s, a).Some?
    ensures var r := Step(s, a).value; s.sema.queue + SleptIn(s, a, r) == WokenIn(s, r) + r.sema.queue
  {
    hide OwnedBy, WokenIn, Inv;
    if a.Run? && s.pc[a.t] == Up && s.sema.queue != [] {
      UpWakes(s, a.t);
    } else {
      NobodyWakes(s, a);
    }
  }

  lemma NobodyWakes(s: State, a: Action)
    requires Possible(s, a) && Step(s, a).Some?
    requires !(a.Run? && s.pc[a.t] == Up && s.sema.queue != [])
    ensures WokenIn(s, Step(s, a).value) == []
  {
    var r := Step(s, a).value;
    forall t
      ensures !Wakes(s, r, t)
    {
    }
  }

  lemma {:induction false} LeadsQueue(s: State, actions: seq<Action>, r: State)
    requires Inv(s) && Leads(s, actions, r)
    ensures s.sema.queue + Slept(s, actions) == Awoken(s, actions) + r.sema.queue
    decreases |actions|
  {
    hide Inv, Step, SleptIn, WokenIn;
    if actions != [] {
      var m := Step(s, actions[0]).value;
      StepQueue(s, actions[0]);
      StepKeeps(s, actions[0]);
      LeadsQueue(m, actions[1..], r);
      var q, slept, woken := s.sema.queue, SleptIn(s, actions[0], m), WokenIn(s, m);
      assert q + (slept + Slept(m, actions[1..])) == q + slept + Slept(m, actions[1..]);
      assert woken + m.sema.queue + Slept(m, actions[1..]) == woken + (Awoken(m, actions[1..]) + r.sema.queue);
      assert woken + (Awoken(m, actions[1..]) + r.sema.queue) == woken + Awoken(m, actions[1..]) + r.sema.queue;
    }
  }

  /** Over any run, threads are woken in the order in which they went to sleep; the queue holds those
      not woken yet, in that order. */
  lemma WokenInOrder(threads: set<Tid>, actions: seq<Action>, s: State)
    requires Leads(Initial(threads), actions, s)
    ensures Slept(Initial(threads), actions) == Awoken(Initial(threads), actions) + s.sema.queue
  {
    LeadsQueue(Initial(threads), actions, s);
    assert [] + Slept(Initial(threads), actions) == Slept(Initial(threads), actions);
  }

  predicate GetsThrough(s: State, t: Tid) {
    Step(s, Run(t)).Some? && Step(s, Run(t)).value.owner == Some(t)
  }

  /** No wake-up is lost: while the semaphore is free and threads are queued, one that was taken
      off the queue is on its way, and gets the semaphore if it runs next. */
  lemma NoLostWakeup(s: State)
    requires Reachable(s) && s.sema.value > 0 && s.sema.queue != []
    ensures exists t :: Possible(s, Run(t)) && s.pc[t] == Woken && GetsThrough(s, t)
  {
    ReachableOk(s);
    var t :| t in s.pc && s.pc[t] == Woken;
    assert Possible(s, Run(t));
  }
}
