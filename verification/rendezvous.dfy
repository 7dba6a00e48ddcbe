/** The specification of message passing: each system call as a function on the states of
    all processes, up to the point where the caller blocks. */
module Rendezvous {
  import opened WaitGraph
  import opened Sequences

  const NR_TASKS: nat := 10
  const NR_PROCS: nat := 30
  const TASK_MAX: nat := NR_TASKS + NR_PROCS
  const ANY_TASK: nat := 0xffff_ffff
  const NO_TASK: nat := 0xffff_fff7
  const INTR_TASK: nat := 0xffff_fff6
  const HARD_INT: nat := 1

  /** The 56 payload bytes are read as one number. */
  datatype Message = Message(source: nat, kind: nat, payload: nat)

  const EMPTY_MESSAGE := Message(0, 0, 0)

  /** Where a process is in sys_sendrec when it is scheduled again. */
  datatype Cont = User | Sent | SentThenReceive(src: nat, buffer: Message) | Received

  /** `sending` and `receiving` are the two bits of p_flags; `queue` is the list that starts
      at p_sending_queue; `blocked` says that the status is THREAD_TASK_BLOCKED. */
  datatype Proc = Proc(
    sending: bool, receiving: bool, sendto: nat, recvfrom: nat, message: Message,
    intrPresent: bool, queue: seq<Pid>, blocked: bool, cont: Cont)

  // A process as init_thread leaves it: all fields zero.
  const NEW_PROC := Proc(false, false, 0, 0, EMPTY_MESSAGE, false, [], false, User)

  type Procs = map<Pid, Proc>

  datatype Transfer = Transfer(src: nat, dst: Pid, msg: Message)

  /** `accepted` records each message taken by msg_send, `delivered` each one copied to the
      buffer of a receiver. */
  datatype State = State(procs: Procs, accepted: seq<Transfer>, delivered: seq<Transfer>)

  /** PANIC stops the machine; `Fault` is a read through a null pointer. */
  datatype Result = Ok(s: State) | Panic | Fault

  function Waits(procs: Procs): (g: Graph)
    ensures forall p :: p in g <==> p in procs && procs[p].sending
  {
    map p | p in procs && procs[p].sending :: procs[p].sendto
  }

  // ----- the steps

  predicate Expects(d: Proc, sender: Pid) {
    (d.receiving && d.recvfrom == sender) || d.recvfrom == ANY_TASK
  }

  /** `dest` is given `msg` and unblocked. */
  function Deliver(procs: Procs, dest: Pid, msg: Message): Procs
    requires dest in procs
  {
    procs[dest := procs[dest].(message := msg, receiving := false, recvfrom := NO_TASK, blocked := false)]
  }

  /** `sender` blocks at the end of the sending queue of `dest`. */
  function Enqueue(procs: Procs, sender: Pid, dest: Pid, msg: Message, cont: Cont): Procs
    requires sender in procs && dest in procs
  {
    var p := procs[sender].(sending := true, sendto := dest, message := msg, blocked := true, cont := cont);
    var procs1 := procs[sender := p];
    procs1[dest := procs1[dest].(queue := procs1[dest].queue + [sender])]
  }

  /** The state after a send that is let through: the message is handed over, or its sender
      waits for that. */
  function Accept(s: State, sender: Pid, dest: Pid, msg: Message, cont: Cont): State
    requires sender in s.procs && dest in s.procs
  {
    State(if Expects(s.procs[dest], sender) then Deliver(s.procs, dest, msg) else Enqueue(s.procs, sender, dest, msg, cont),
          s.accepted + [Transfer(sender, dest, msg)], s.delivered)
  }

  ghost function MsgSend(s: State, sender: Pid, dest: nat, msg: Message, cont: Cont): Result
    requires sender in s.procs
  {
    if dest !in s.procs then Panic
    else if Reaches(Waits(s.procs), dest, sender) then Panic
    else
      var d := s.procs[dest];
      if Expects(d, sender) && (d.message.source == 0 || !d.blocked) then Panic
      else if !Expects(d, sender) && s.procs[sender].receiving then Panic
      else Ok(Accept(s, sender, dest, msg, cont))
  }

  /** The sender that msg_receive takes a message from, if any. */
  function Source(procs: Procs, receiver: Pid, src: nat): (from: seq<Pid>)
    requires receiver in procs && (src < TASK_MAX ==> src in procs)
    ensures |from| <= 1
  {
    if src == ANY_TASK then
      if procs[receiver].queue != [] then [procs[receiver].queue[0]] else []
    else if src < TASK_MAX && procs[src].sending && procs[src].sendto == receiver then [src]
    else []
  }

  /** `from` leaves the sending queue of `receiver` and is unblocked. */
  function Dequeue(procs: Procs, receiver: Pid, from: Pid): Procs
    requires receiver in procs && from in procs
  {
    var procs1 := procs[receiver := procs[receiver].(queue := Unlink(procs[receiver].queue, from), cont := User)];
    procs1[from := procs1[from].(message := EMPTY_MESSAGE, sendto := NO_TASK, sending := false, blocked := false)]
  }

  /** `receiver` blocks until a message from `src` comes. */
  function Await(procs: Procs, receiver: Pid, src: nat, buffer: Message): Procs
    requires receiver in procs
  {
    var r := procs[receiver];
    procs[receiver := r.(receiving := true, message := buffer, recvfrom := src, blocked := true, cont := Received)]
  }

  function TakeInterrupt(procs: Procs, receiver: Pid): Procs
    requires receiver in procs
  {
    var r := procs[receiver];
    procs[receiver := r.(message := Message(INTR_TASK, HARD_INT, 0), intrPresent := false, cont := User)]
  }

  /** The state after `receiver` has been given the message of `from`. */
  function Taking(s: State, receiver: Pid, from: Pid): State
    requires receiver in s.procs && from in s.procs
  {
    var m := s.procs[from].message;
    State(Dequeue(s.procs, receiver, from), s.accepted, s.delivered + [Transfer(m.source, receiver, m)])
  }

  /** `named` says that the receiver asked for `from`, and not for any sender. */
  function Take(s: State, receiver: Pid, from: Pid, named: bool): Result
    requires receiver in s.procs
  {
    var r := s.procs[receiver];
    if from !in s.procs || from !in r.queue then Panic
    else
      var f := s.procs[from];
      if (named && (r.sending || r.receiving)) || f.message.source == 0 || !f.blocked then Panic
      else Ok(Taking(s, receiver, from))
  }

  function MsgReceive(s: State, receiver: Pid, src: nat, buffer: Message): Result
    requires receiver in s.procs
  {
    var r := s.procs[receiver];
    if (r.intrPresent && src == ANY_TASK) || src == INTR_TASK then Ok(s.(procs := TakeInterrupt(s.procs, receiver)))
    else if src < TASK_MAX && src !in s.procs then Fault
    else
      var from := Source(s.procs, receiver, src);
      if from != [] then Take(s, receiver, from[0], src != ANY_TASK)
      else Ok(s.(procs := Await(s.procs, receiver, src, buffer)))
  }

  datatype Func = SEND | RECEIVE | BOTH | Other

  ghost function SysSendrec(s: State, caller: Pid, func: Func, srcDest: nat, msg: Message): Result
    requires caller in s.procs
  {
    var m := msg.(source := caller);
    if !(0 < srcDest < TASK_MAX || srcDest == ANY_TASK || srcDest == INTR_TASK) || caller == srcDest then Panic
    else
      match func
      case SEND => MsgSend(s, caller, srcDest, m, Sent)
      case RECEIVE => MsgReceive(s, caller, srcDest, m)
      case BOTH =>
        var r := MsgSend(s, caller, srcDest, m, SentThenReceive(srcDest, m));
        if r.Ok? && caller in r.s.procs && !r.s.procs[caller].blocked then MsgReceive(r.s, caller, srcDest, m) else r
      case Other => Panic
  }

  function Return(procs: Procs, p: Pid): Procs
    requires p in procs
  {
    procs[p := procs[p].(cont := User)]
  }

  /** An unblocked process runs again and finishes its call. */
  function Resume(s: State, p: Pid): Result
    requires p in s.procs && s.procs[p].cont != User && !s.procs[p].blocked
  {
    var q := s.procs[p];
    match q.cont
    case SentThenReceive(src, buffer) => MsgReceive(s, p, src, buffer)
    case Received =>
      Ok(State(Return(s.procs, p), s.accepted, s.delivered + [Transfer(q.message.source, p, q.message)]))
    case Sent => Ok(s.(procs := Return(s.procs, p)))
  }

  /** `task`, blocked receiving, is given an interrupt message in its slot and unblocked. */
  function DeliverInterrupt(procs: Procs, task: Pid): Procs
    requires task in procs
  {
    var p := procs[task];
    procs[task := p.(message := Message(INTR_TASK, HARD_INT, p.message.payload), intrPresent := false,
                     receiving := false, recvfrom := NO_TASK, blocked := false)]
  }

  function NotifyIntr(s: State, task: Pid): Result
    requires task in s.procs
  {
    var p := s.procs[task];
    if p.receiving && (p.recvfrom == INTR_TASK || p.recvfrom == ANY_TASK) then
      if p.sending || !p.blocked || p.sendto != NO_TASK then Panic
      else Ok(s.(procs := DeliverInterrupt(s.procs, task)))
    else
      Ok(s.(procs := s.procs[task := p.(intrPresent := true)]))
  }

  // ----- runs

  datatype Call =
    | Sendrec(caller: Pid, func: Func, srcDest: nat, msg: Message)
    | Wake(p: Pid)
    | Interrupt(task: Pid)

  /** What can happen next: a process in user mode makes a system call, an unblocked process
      is scheduled, or an interrupt arrives. */
  predicate Possible(s: State, c: Call) {
    match c
    case Sendrec(p, _, _, _) => p in s.procs && s.procs[p].cont == User
    case Wake(p) => p in s.procs && s.procs[p].cont != User && !s.procs[p].blocked
    case Interrupt(p) => p in s.procs
  }

  ghost function Exec(s: State, c: Call): Result
    requires Possible(s, c)
  {
    match c
    case Sendrec(p, func, srcDest, msg) => SysSendrec(s, p, func, srcDest, msg)
    case Wake(p) => Resume(s, p)
    case Interrupt(p) => NotifyIntr(s, p)
  }

  // ----- the invariant

  ghost predicate ProcOk(procs: Procs, p: Pid)
    requires p in procs
  {
    var q := procs[p];
    && 0 < p < INTR_TASK
    && q.blocked == (q.sending || q.receiving)
    && !(q.sending && q.receiving)
    && (q.cont == User ==> !q.blocked)
    && (q.sending ==> q.cont == Sent || q.cont.SentThenReceive?)
    && (q.sending ==> q.sendto in procs && q.sendto != p && q.message.source == p)
    && (!q.sending ==> q.sendto == 0 || q.sendto == NO_TASK)
    && (q.receiving ==> q.cont == Received && q.message.source == p)
    && (q.receiving ==> q.recvfrom == ANY_TASK || (q.recvfrom in procs && q.recvfrom < TASK_MAX))
    && (!q.receiving ==> q.recvfrom == 0 || q.recvfrom == NO_TASK)
    && (q.receiving && q.recvfrom == ANY_TASK ==> !q.intrPresent)
    && (q.cont.SentThenReceive? ==> q.cont.buffer.source == p && q.cont.src in procs && 0 < q.cont.src < TASK_MAX)
    && (q.cont == Received && !q.receiving ==> q.message.source == INTR_TASK || q.message.source in procs)
  }

  /** The queue of `p` holds exactly the processes blocked sending to it, each once. */
  ghost predicate QueueOk(procs: Procs, p: Pid)
    requires p in procs
  {
    && Distinct(procs[p].queue)
    && forall x :: x in procs[p].queue <==> x in procs && procs[x].sending && procs[x].sendto == p
  }

  /** `p` is blocked waiting for a message that `x` is blocked sending. */
  ghost predicate Missed(procs: Procs, p: Pid, x: Pid) {
    && p in procs && x in procs
    && procs[p].receiving && (procs[p].recvfrom == ANY_TASK || procs[p].recvfrom == x)
    && procs[x].sending && procs[x].sendto == p
  }

  function Between(log: seq<Transfer>, a: nat, b: Pid): seq<Message> {
    if log == [] then []
    else
      var t := log[|log|-1];
      Between(log[..|log|-1], a, b) + if t.src == a && t.dst == b then [t.msg] else []
  }

  /** The message from `a` already in the slot of `b` but not yet copied to its buffer. */
  function Held(procs: Procs, a: nat, b: Pid): seq<Message> {
    if b in procs && procs[b].cont == Received && !procs[b].receiving && procs[b].message.source == a
    then [procs[b].message] else []
  }

  /** The message that `a` is blocked sending to `b`. */
  function Pending(procs: Procs, a: Pid, b: Pid): seq<Message> {
    if a in procs && procs[a].sending && procs[a].sendto == b then [procs[a].message] else []
  }

  /** What `a` has sent to `b` is what `b` has been given from `a`, then what is under way. */
  ghost predicate Conserved(s: State, a: Pid, b: Pid) {
    Between(s.accepted, a, b) == Between(s.delivered, a, b) + Held(s.procs, a, b) + Pending(s.procs, a, b)
  }

  ghost predicate ProcsOk(procs: Procs) {
    && (forall p :: p in procs ==> ProcOk(procs, p))
    && (forall p :: p in procs ==> QueueOk(procs, p))
    && (forall p, x :: !Missed(procs, p, x))
    && Acyclic(Waits(procs))
  }

  /** One more than the place of the last message accepted from `a`, or 0. */
  function LastSent(log: seq<Transfer>, a: Pid): (n: nat)
    ensures n <= |log|
  {
    if log == [] then 0
    else if log[|log|-1].src == a then |log|
    else LastSent(log[..|log|-1], a)
  }

  /** Those in the sending queue of `p` blocked in the order in which they stand there. */
  ghost predicate InOrder(s: State, p: Pid)
    requires p in s.procs
  {
    var q := s.procs[p].queue;
    forall i, j :: 0 <= i < j < |q| ==> LastSent(s.accepted, q[i]) < LastSent(s.accepted, q[j])
  }

  ghost predicate HistoryOk(s: State) {
    && (forall a, b :: a in s.procs ==> Conserved(s, a, b))
    && (forall p :: p in s.procs ==> InOrder(s, p))
  }

  ghost predicate Inv(s: State) {
    ProcsOk(s.procs) && HistoryOk(s)
  }

  // ----- one call at a time

  lemma BetweenSnoc(log: seq<Transfer>, t: Transfer, a: nat, b: Pid)
    ensures Between(log + [t], a, b) == Between(log, a, b) + if t.src == a && t.dst == b then [t.msg] else []
  {
    assert (log + [t])[..|log|] == log;
  }

  /** A process that is running the kernel on its own behalf. */
  ghost predicate Running(procs: Procs, p: Pid) {
    p in procs && !procs[p].blocked && procs[p].cont != Received
  }

  /** Changes that leave every sender and every queue alone keep the queues and the graph. */
  lemma SameSenders(procs: Procs, procs': Procs)
    requires ProcsOk(procs) && procs'.Keys == procs.Keys
    requires forall p :: p in procs ==> procs'[p].queue == procs[p].queue
    requires forall p :: p in procs ==> procs'[p].sending == procs[p].sending && procs'[p].sendto == procs[p].sendto
    ensures forall p :: p in procs' ==> QueueOk(procs', p)
    ensures Acyclic(Waits(procs'))
  {
    assert Waits(procs') == Waits(procs);
    forall p | p in procs' ensures QueueOk(procs', p) {
      assert QueueOk(procs, p);
    }
  }

  lemma DeliverKeeps(procs: Procs, sender: Pid, dest: Pid, msg: Message)
    requires ProcsOk(procs) && Running(procs, sender) && dest in procs
    requires msg.source == sender && Expects(procs[dest], sender)
    ensures ProcsOk(Deliver(procs, dest, msg)) && procs[dest].receiving
  {
    hide QueueOk, Missed, Acyclic;
    var procs' := Deliver(procs, dest, msg);
    assert ProcOk(procs, dest);
    SameSenders(procs, procs');
    forall p | p in procs' ensures ProcOk(procs', p) {
      DeliverProc(procs, sender, dest, msg, p);
    }
    forall p, x ensures !Missed(procs', p, x) {
      DeliverMisses(procs, dest, msg, p, x);
    }
  }

  lemma DeliverProc(procs: Procs, sender: Pid, dest: Pid, msg: Message, p: Pid)
    requires sender in procs && dest in procs && p in procs && ProcOk(procs, p) && ProcOk(procs, dest)
    requires msg.source == sender && Expects(procs[dest], sender)
    ensures ProcOk(Deliver(procs, dest, msg), p)
  {
  }

  lemma DeliverMisses(procs: Procs, dest: Pid, msg: Message, p: Pid, x: Pid)
    requires dest in procs && !Missed(procs, p, x)
    ensures !Missed(Deliver(procs, dest, msg), p, x)
  {
  }

  ghost predicate GoodCont(procs: Procs, sender: Pid, cont: Cont) {
    cont == Sent ||
    (cont.SentThenReceive? && cont.buffer.source == sender && cont.src in procs && 0 < cont.src < TASK_MAX)
  }

  lemma EnqueueQueue(procs: Procs, sender: Pid, dest: Pid, msg: Message, cont: Cont, p: Pid)
    requires sender in procs && dest in procs && sender != dest && p in procs
    requires QueueOk(procs, p) && !procs[sender].sending
    ensures QueueOk(Enqueue(procs, sender, dest, msg, cont), p)
  {
  }

  lemma EnqueueMisses(procs: Procs, sender: Pid, dest: Pid, msg: Message, cont: Cont, p: Pid, x: Pid)
    requires sender in procs && dest in procs && sender != dest
    requires !Missed(procs, p, x) && !procs[sender].receiving && !Expects(procs[dest], sender)
    ensures !Missed(Enqueue(procs, sender, dest, msg, cont), p, x)
  {
  }

  lemma EnqueueProc(procs: Procs, sender: Pid, dest: Pid, msg: Message, cont: Cont, p: Pid)
    requires sender in procs && dest in procs && sender != dest && p in procs
    requires ProcOk(procs, p) && !procs[sender].receiving && msg.source == sender
    requires GoodCont(procs, sender, cont)
    ensures ProcOk(Enqueue(procs, sender, dest, msg, cont), p)
  {
  }

  lemma EnqueueGraph(procs: Procs, sender: Pid, dest: Pid, msg: Message, cont: Cont)
    requires sender in procs && dest in procs && sender != dest && !procs[sender].sending
    requires Acyclic(Waits(procs)) && !Reaches(Waits(procs), dest, sender)
    ensures Acyclic(Waits(Enqueue(procs, sender, dest, msg, cont)))
  {
    hide Acyclic, Reaches;
    assert Waits(Enqueue(procs, sender, dest, msg, cont)) == Waits(procs)[sender := dest];
    AddEdge(Waits(procs), sender, dest);
  }

  lemma EnqueueKeeps(procs: Procs, sender: Pid, dest: Pid, msg: Message, cont: Cont)
    requires ProcsOk(procs) && Running(procs, sender) && dest in procs && sender != dest
    requires msg.source == sender && !Expects(procs[dest], sender)
    requires !Reaches(Waits(procs), dest, sender)
    requires GoodCont(procs, sender, cont)
    ensures ProcsOk(Enqueue(procs, sender, dest, msg, cont))
  {
    assert ProcOk(procs, sender);
    hide QueueOk, Missed, Acyclic, Reaches, ProcOk, Waits;
    var procs' := Enqueue(procs, sender, dest, msg, cont);
    forall p | p in procs' ensures ProcOk(procs', p) && QueueOk(procs', p) {
      EnqueueProc(procs, sender, dest, msg, cont, p);
      EnqueueQueue(procs, sender, dest, msg, cont, p);
    }
    forall p, x ensures !Missed(procs', p, x) {
      EnqueueMisses(procs, sender, dest, msg, cont, p, x);
    }
    EnqueueGraph(procs, sender, dest, msg, cont);
  }

  lemma DequeueQueue(procs: Procs, receiver: Pid, from: Pid, p: Pid)
    requires receiver in procs && from in procs && from != receiver && p in procs
    requires QueueOk(procs, p) && procs[from].sending && procs[from].sendto == receiver
    ensures QueueOk(Dequeue(procs, receiver, from), p)
  {
    UnlinkMembers(procs[p].queue, from);
  }

  lemma DequeueProc(procs: Procs, receiver: Pid, from: Pid, p: Pid)
    requires receiver in procs && from in procs && from != receiver && p in procs
    requires Running(procs, receiver)
    requires ProcOk(procs, p) && procs[from].sending && procs[from].sendto == receiver
    ensures ProcOk(Dequeue(procs, receiver, from), p)
  {
  }

  lemma DequeueMisses(procs: Procs, receiver: Pid, from: Pid, p: Pid, x: Pid)
    requires receiver in procs && from in procs && from != receiver && !Missed(procs, p, x)
    ensures !Missed(Dequeue(procs, receiver, from), p, x)
  {
  }

  lemma InQueue(procs: Procs, p: Pid, x: Pid)
    requires ProcsOk(procs) && p in procs && x in procs[p].queue
    ensures x in procs && x != p && procs[x].sending && procs[x].sendto == p
    ensures procs[x].blocked && procs[x].message.source == x && procs[x].cont != Received
  {
    assert QueueOk(procs, p) && ProcOk(procs, x);
  }

  lemma DequeueKeeps(procs: Procs, receiver: Pid, from: Pid)
    requires ProcsOk(procs) && Running(procs, receiver) && from in procs[receiver].queue
    ensures from in procs && from != receiver && ProcsOk(Dequeue(procs, receiver, from))
  {
    hide QueueOk, ProcOk, Missed, Acyclic, Unlink;
    InQueue(procs, receiver, from);
    var procs' := Dequeue(procs, receiver, from);
    forall p | p in procs' ensures ProcOk(procs', p) && QueueOk(procs', p) {
      DequeueProc(procs, receiver, from, p);
      DequeueQueue(procs, receiver, from, p);
    }
    forall p, x ensures !Missed(procs', p, x) {
      DequeueMisses(procs, receiver, from, p, x);
    }
    SubgraphAcyclic(Waits(procs), Waits(procs'));
  }

  lemma AwaitMisses(procs: Procs, receiver: Pid, src: nat, buffer: Message, p: Pid, x: Pid)
    requires receiver in procs && QueueOk(procs, receiver) && !Missed(procs, p, x)
    requires src == ANY_TASK || (src in procs && src < TASK_MAX)
    requires Source(procs, receiver, src) == []
    ensures !Missed(Await(procs, receiver, src, buffer), p, x)
  {
  }

  lemma AwaitKeeps(procs: Procs, receiver: Pid, src: nat, buffer: Message)
    requires ProcsOk(procs) && Running(procs, receiver) && buffer.source == receiver
    requires src == ANY_TASK || (src in procs && src < TASK_MAX)
    requires src == ANY_TASK ==> !procs[receiver].intrPresent
    requires Source(procs, receiver, src) == []
    ensures ProcsOk(Await(procs, receiver, src, buffer))
  {
    hide QueueOk, Missed, Acyclic, Source;
    var procs' := Await(procs, receiver, src, buffer);
    assert ProcOk(procs, receiver);
    SameSenders(procs, procs');
    forall p | p in procs' ensures ProcOk(procs', p) {
      assert ProcOk(procs, p);
    }
    forall p, x ensures !Missed(procs', p, x) {
      AwaitMisses(procs, receiver, src, buffer, p, x);
    }
  }

  /** The changes that touch the slot of one process and neither its flags nor its queue. */
  lemma SlotChangeKeeps(procs: Procs, p: Pid, q: Proc)
    requires ProcsOk(procs) && p in procs && !procs[p].blocked
    requires q == procs[p].(message := q.message, intrPresent := q.intrPresent, cont := User)
    ensures ProcsOk(procs[p := q])
  {
    hide QueueOk, Acyclic;
    var procs' := procs[p := q];
    SameSenders(procs, procs');
    forall x | x in procs' ensures ProcOk(procs', x) {
      assert ProcOk(procs, x) && ProcOk(procs, p);
    }
    forall x, y ensures !Missed(procs', x, y) {
      assert !Missed(procs, x, y);
    }
  }

  lemma InterruptKeeps(procs: Procs, task: Pid)
    requires ProcsOk(procs) && task in procs && procs[task].receiving
    ensures ProcsOk(DeliverInterrupt(procs, task))
  {
    hide QueueOk, Acyclic;
    var procs' := DeliverInterrupt(procs, task);
    assert ProcOk(procs, task);
    SameSenders(procs, procs');
    forall x | x in procs' ensures ProcOk(procs', x) {
      assert ProcOk(procs, x);
    }
    forall x, y ensures !Missed(procs', x, y) {
      assert !Missed(procs, x, y);
    }
  }

  // ----- the history

  lemma LastSentSnoc(log: seq<Transfer>, t: Transfer, a: Pid)
    ensures LastSent(log + [t], a) == if t.src == a then |log| + 1 else LastSent(log, a)
  {
    assert (log + [t])[..|log|] == log;
  }

  lemma DeliverConserves(s: State, sender: Pid, dest: Pid, msg: Message, a: Pid, b: Pid)
    requires Conserved(s, a, b) && dest in s.procs && msg.source == sender
    requires sender in s.procs && !s.procs[sender].sending
    requires s.procs[dest].receiving && s.procs[dest].cont == Received && !s.procs[dest].sending
    ensures Conserved(State(Deliver(s.procs, dest, msg), s.accepted + [Transfer(sender, dest, msg)], s.delivered), a, b)
  {
    BetweenSnoc(s.accepted, Transfer(sender, dest, msg), a, b);
  }

  lemma DeliverHistory(s: State, sender: Pid, dest: Pid, msg: Message)
    requires ProcsOk(s.procs) && HistoryOk(s) && Running(s.procs, sender) && dest in s.procs
    requires msg.source == sender && s.procs[dest].receiving
    ensures HistoryOk(State(Deliver(s.procs, dest, msg), s.accepted + [Transfer(sender, dest, msg)], s.delivered))
  {
    assert ProcOk(s.procs, dest) && ProcOk(s.procs, sender);
    hide QueueOk, Conserved, Missed, Acyclic, ProcOk;
    var t := Transfer(sender, dest, msg);
    var s' := State(Deliver(s.procs, dest, msg), s.accepted + [t], s.delivered);
    forall a, b | a in s'.procs ensures Conserved(s', a, b) {
      DeliverConserves(s, sender, dest, msg, a, b);
    }
    forall p | p in s'.procs ensures InOrder(s', p) {
      QueueAfterAccept(s, p, t);
    }
  }

  /** Accepting a message from a process that is not blocked disturbs no queue order. */
  lemma QueueAfterAccept(s: State, p: Pid, t: Transfer)
    requires p in s.procs && InOrder(s, p) && QueueOk(s.procs, p)
    requires t.src in s.procs ==> !s.procs[t.src].sending
    ensures InOrder(State(s.procs, s.accepted + [t], s.delivered), p)
  {
    var q := s.procs[p].queue;
    forall i | 0 <= i < |q|
      ensures LastSent(s.accepted + [t], q[i]) == LastSent(s.accepted, q[i])
    {
      assert q[i] in q;
      LastSentSnoc(s.accepted, t, q[i]);
    }
  }

  lemma EnqueueConserves(s: State, sender: Pid, dest: Pid, msg: Message, cont: Cont, a: Pid, b: Pid)
    requires Conserved(s, a, b) && sender in s.procs && dest in s.procs && sender != dest
    requires Running(s.procs, sender) && !s.procs[sender].sending && cont != Received
    ensures Conserved(State(Enqueue(s.procs, sender, dest, msg, cont), s.accepted + [Transfer(sender, dest, msg)], s.delivered), a, b)
  {
    BetweenSnoc(s.accepted, Transfer(sender, dest, msg), a, b);
  }

  lemma EnqueueOrder(s: State, sender: Pid, dest: Pid, msg: Message, cont: Cont, p: Pid)
    requires p in s.procs && InOrder(s, p) && QueueOk(s.procs, p)
    requires sender in s.procs && dest in s.procs && sender != dest && !s.procs[sender].sending
    ensures InOrder(State(Enqueue(s.procs, sender, dest, msg, cont), s.accepted + [Transfer(sender, dest, msg)], s.delivered), p)
  {
    var t := Transfer(sender, dest, msg);
    QueueAfterAccept(s, p, t);
    var q := s.procs[p].queue;
    LastSentSnoc(s.accepted, t, sender);
    forall i | 0 <= i < |q|
      ensures LastSent(s.accepted + [t], q[i]) < LastSent(s.accepted + [t], sender)
    {
      assert q[i] in q;
      LastSentSnoc(s.accepted, t, q[i]);
    }
  }

  lemma EnqueueHistory(s: State, sender: Pid, dest: Pid, msg: Message, cont: Cont)
    requires ProcsOk(s.procs) && HistoryOk(s) && Running(s.procs, sender)
    requires dest in s.procs && sender != dest && cont != Received
    ensures HistoryOk(State(Enqueue(s.procs, sender, dest, msg, cont), s.accepted + [Transfer(sender, dest, msg)], s.delivered))
  {
    assert ProcOk(s.procs, sender);
    hide QueueOk, InOrder, Conserved, ProcOk;
    var s' := State(Enqueue(s.procs, sender, dest, msg, cont), s.accepted + [Transfer(sender, dest, msg)], s.delivered);
    forall a, b | a in s'.procs ensures Conserved(s', a, b) {
      EnqueueConserves(s, sender, dest, msg, cont, a, b);
    }
    forall p | p in s'.procs ensures InOrder(s', p) {
      EnqueueOrder(s, sender, dest, msg, cont, p);
    }
  }

  lemma DequeueConserves(s: State, receiver: Pid, from: Pid, a: Pid, b: Pid)
    requires Conserved(s, a, b) && receiver in s.procs && from in s.procs && from != receiver
    requires Running(s.procs, receiver)
    requires s.procs[from].sending && s.procs[from].sendto == receiver && s.procs[from].cont != Received
    requires s.procs[from].message.source == from
    ensures var t := Transfer(from, receiver, s.procs[from].message);
      Conserved(State(Dequeue(s.procs, receiver, from), s.accepted, s.delivered + [t]), a, b)
  {
    hide Between, Unlink;
    BetweenSnoc(s.delivered, Transfer(from, receiver, s.procs[from].message), a, b);
  }

  lemma CutKeepsOrder(log: seq<Transfer>, q: seq<Pid>, x: Pid)
    requires Distinct(q) && x in q
    requires forall i, j :: 0 <= i < j < |q| ==> LastSent(log, q[i]) < LastSent(log, q[j])
    ensures var r := Unlink(q, x); forall i, j :: 0 <= i < j < |r| ==> LastSent(log, r[i]) < LastSent(log, r[j])
  {
    hide LastSent, Unlink;
    var k :| 0 <= k < |q| && q[k] == x;
    UnlinkAt(q, x, k);
  }

  lemma DequeueOrder(s: State, receiver: Pid, from: Pid, delivered: seq<Transfer>, p: Pid)
    requires p in s.procs && InOrder(s, p) && Distinct(s.procs[p].queue)
    requires receiver in s.procs && from in s.procs && from != receiver && from in s.procs[receiver].queue
    ensures InOrder(State(Dequeue(s.procs, receiver, from), s.accepted, delivered), p)
  {
    hide LastSent, Unlink, Distinct;
    var q := s.procs[p].queue;
    assert Dequeue(s.procs, receiver, from)[p].queue == if p == receiver then Unlink(q, from) else q;
    if p == receiver {
      CutKeepsOrder(s.accepted, q, from);
    }
  }

  lemma DequeueHistory(s: State, receiver: Pid, from: Pid)
    requires ProcsOk(s.procs) && HistoryOk(s) && Running(s.procs, receiver)
    requires from in s.procs[receiver].queue && from in s.procs && from != receiver
    ensures var m := s.procs[from].message;
      HistoryOk(State(Dequeue(s.procs, receiver, from), s.accepted, s.delivered + [Transfer(m.source, receiver, m)]))
  {
    assert QueueOk(s.procs, receiver) && ProcOk(s.procs, from);
    hide InOrder, Conserved, ProcOk, Unlink;
    var m := s.procs[from].message;
    var s' := State(Dequeue(s.procs, receiver, from), s.accepted, s.delivered + [Transfer(m.source, receiver, m)]);
    forall a, b | a in s'.procs ensures Conserved(s', a, b) {
      DequeueConserves(s, receiver, from, a, b);
    }
    forall p | p in s'.procs ensures InOrder(s', p) {
      assert QueueOk(s.procs, p);
      DequeueOrder(s, receiver, from, s'.delivered, p);
    }
  }

  /** A change of processes that moves no message keeps the history. */
  lemma SameHistory(s: State, procs': Procs)
    requires HistoryOk(s) && procs'.Keys == s.procs.Keys
    requires forall p :: p in s.procs ==> procs'[p].queue == s.procs[p].queue
    requires forall a, b :: a in s.procs ==> Pending(procs', a, b) == Pending(s.procs, a, b)
    requires forall a, b :: a in s.procs ==> Held(procs', a, b) == Held(s.procs, a, b)
    ensures HistoryOk(s.(procs := procs'))
  {
    var s' := s.(procs := procs');
    forall a, b | a in s'.procs ensures Conserved(s', a, b) {
      assert Conserved(s, a, b);
    }
    forall p | p in s'.procs ensures InOrder(s', p) {
      assert InOrder(s, p);
    }
  }

  lemma ReturnConserves(s: State, p: Pid, a: Pid, b: Pid)
    requires Conserved(s, a, b) && p in s.procs
    requires s.procs[p].cont == Received && !s.procs[p].receiving && !s.procs[p].sending
    ensures var m := s.procs[p].message;
      Conserved(State(Return(s.procs, p), s.accepted, s.delivered + [Transfer(m.source, p, m)]), a, b)
  {
    var m := s.procs[p].message;
    BetweenSnoc(s.delivered, Transfer(m.source, p, m), a, b);
  }

  lemma ReturnHistory(s: State, p: Pid)
    requires ProcsOk(s.procs) && HistoryOk(s) && p in s.procs
    requires s.procs[p].cont == Received && !s.procs[p].receiving
    ensures var m := s.procs[p].message;
      HistoryOk(State(Return(s.procs, p), s.accepted, s.delivered + [Transfer(m.source, p, m)]))
  {
    assert ProcOk(s.procs, p);
    hide QueueOk, ProcOk, Conserved, Missed, Acyclic;
    var m := s.procs[p].message;
    var s' := State(Return(s.procs, p), s.accepted, s.delivered + [Transfer(m.source, p, m)]);
    forall a, b | a in s'.procs ensures Conserved(s', a, b) {
      ReturnConserves(s, p, a, b);
    }
    forall x | x in s'.procs ensures InOrder(s', x) {
      assert InOrder(s, x);
    }
  }

  // ----- every call

  lemma SendStep(s: State, sender: Pid, dest: nat, msg: Message, cont: Cont)
    requires Inv(s) && Running(s.procs, sender) && sender != dest && msg.source == sender
    requires dest in s.procs ==> GoodCont(s.procs, sender, cont)
    ensures var r := MsgSend(s, sender, dest, msg, cont);
      if dest !in s.procs || Reaches(Waits(s.procs), dest, sender) then r == Panic
      else
        && r == Ok(Accept(s, sender, dest, msg, cont)) && Inv(r.s) && r.s.procs.Keys == s.procs.Keys
        && (r.s.procs[sender].blocked || r.s.procs[sender] == s.procs[sender])
  {
    assert ProcOk(s.procs, sender);
    if dest in s.procs && !Reaches(Waits(s.procs), dest, sender) {
      assert ProcOk(s.procs, dest);
      hide QueueOk, ProcOk, HistoryOk, Waits, Acyclic, Missed, Reaches;
      if Expects(s.procs[dest], sender) {
        DeliverKeeps(s.procs, sender, dest, msg);
        DeliverHistory(s, sender, dest, msg);
      } else {
        EnqueueKeeps(s.procs, sender, dest, msg, cont);
        EnqueueHistory(s, sender, dest, msg, cont);
      }
    }
  }

  lemma NotSending(procs: Procs, p: Pid)
    requires ProcsOk(procs) && Running(procs, p)
    ensures !procs[p].sending && !procs[p].receiving
  {
    assert ProcOk(procs, p);
  }

  lemma OnlyReceiving(procs: Procs, p: Pid)
    requires ProcsOk(procs) && p in procs && procs[p].receiving
    ensures !procs[p].sending && procs[p].blocked && procs[p].cont == Received
    ensures forall x :: x in procs ==> x < INTR_TASK
  {
    assert forall x :: x in procs ==> ProcOk(procs, x);
  }

  lemma AwaitStep(s: State, receiver: Pid, src: nat, buffer: Message)
    requires Inv(s) && Running(s.procs, receiver) && buffer.source == receiver
    requires src == ANY_TASK || (src in s.procs && src < TASK_MAX)
    requires src == ANY_TASK ==> !s.procs[receiver].intrPresent
    requires Source(s.procs, receiver, src) == []
    ensures Inv(s.(procs := Await(s.procs, receiver, src, buffer)))
  {
    hide QueueOk, Source, Missed, Acyclic, Conserved, InOrder, ProcsOk;
    NotSending(s.procs, receiver);
    AwaitKeeps(s.procs, receiver, src, buffer);
    SameHistory(s, Await(s.procs, receiver, src, buffer));
  }

  lemma SlotStep(s: State, p: Pid, q: Proc)
    requires Inv(s) && Running(s.procs, p)
    requires q == s.procs[p].(message := q.message, intrPresent := q.intrPresent, cont := User)
    ensures Inv(s.(procs := s.procs[p := q]))
  {
    hide QueueOk, ProcsOk, ProcOk, Missed, Acyclic, Conserved, InOrder;
    NotSending(s.procs, p);
    SlotChangeKeeps(s.procs, p, q);
    SameHistory(s, s.procs[p := q]);
  }

  lemma TakeStep(s: State, receiver: Pid, from: Pid, named: bool)
    requires Inv(s) && Running(s.procs, receiver) && from in s.procs[receiver].queue
    ensures var r := Take(s, receiver, from, named); r.Ok? && Inv(r.s)
  {
    assert QueueOk(s.procs, receiver) && ProcOk(s.procs, receiver) && ProcOk(s.procs, from);
    hide QueueOk, ProcOk, HistoryOk, Waits, Acyclic, Missed;
    DequeueKeeps(s.procs, receiver, from);
    DequeueHistory(s, receiver, from);
  }

  lemma ReceiveStep(s: State, receiver: Pid, src: nat, buffer: Message)
    requires Inv(s) && Running(s.procs, receiver) && buffer.source == receiver
    requires src < TASK_MAX || src == ANY_TASK || src == INTR_TASK
    ensures var r := MsgReceive(s, receiver, src, buffer);
      if src < TASK_MAX && src !in s.procs then r == Fault else r.Ok? && Inv(r.s)
  {
    var p := s.procs[receiver];
    if (p.intrPresent && src == ANY_TASK) || src == INTR_TASK {
      SlotStep(s, receiver, TakeInterrupt(s.procs, receiver)[receiver]);
    } else if src == ANY_TASK || src in s.procs {
      var from := Source(s.procs, receiver, src);
      if from == [] {
        AwaitStep(s, receiver, src, buffer);
      } else {
        assert QueueOk(s.procs, receiver);
        TakeStep(s, receiver, from[0], src != ANY_TASK);
      }
    }
  }

  lemma DeliverInterruptStep(s: State, task: Pid)
    requires Inv(s) && task in s.procs && s.procs[task].receiving
    ensures Inv(s.(procs := DeliverInterrupt(s.procs, task)))
  {
    hide ProcsOk, Conserved, InOrder;
    OnlyReceiving(s.procs, task);
    InterruptKeeps(s.procs, task);
    SameHistory(s, DeliverInterrupt(s.procs, task));
  }

  lemma InterruptStep(s: State, task: Pid)
    requires Inv(s) && task in s.procs
    ensures var p := s.procs[task];
      if p.receiving && p.recvfrom == ANY_TASK && p.sendto == 0 then NotifyIntr(s, task) == Panic
      else NotifyIntr(s, task).Ok? && Inv(NotifyIntr(s, task).s)
  {
    var p := s.procs[task];
    assert ProcOk(s.procs, task);
    hide ProcsOk, HistoryOk;
    if p.receiving && p.recvfrom == ANY_TASK {
      DeliverInterruptStep(s, task);
    } else {
      SetPresent(s, task);
    }
  }

  lemma PresentKeeps(procs: Procs, task: Pid)
    requires ProcsOk(procs) && task in procs && !(procs[task].receiving && procs[task].recvfrom == ANY_TASK)
    ensures ProcsOk(procs[task := procs[task].(intrPresent := true)])
  {
    hide Acyclic, QueueOk;
    var procs' := procs[task := procs[task].(intrPresent := true)];
    SameSenders(procs, procs');
    forall x | x in procs' ensures ProcOk(procs', x) {
      assert ProcOk(procs, x);
    }
    forall x, y ensures !Missed(procs', x, y) {
      assert !Missed(procs, x, y);
    }
  }

  lemma SetPresent(s: State, task: Pid)
    requires Inv(s) && task in s.procs && !(s.procs[task].receiving && s.procs[task].recvfrom == ANY_TASK)
    ensures Inv(s.(procs := s.procs[task := s.procs[task].(intrPresent := true)]))
  {
    hide ProcsOk, Conserved, InOrder;
    PresentKeeps(s.procs, task);
    SameHistory(s, s.procs[task := s.procs[task].(intrPresent := true)]);
  }

  lemma ResumeStep(s: State, p: Pid)
    requires Inv(s) && p in s.procs && s.procs[p].cont != User && !s.procs[p].blocked
    ensures Resume(s, p).Ok? && Inv(Resume(s, p).s)
  {
    var q := s.procs[p];
    assert ProcOk(s.procs, p);
    match q.cont
    case SentThenReceive(src, buffer) => ReceiveStep(s, p, src, buffer);
    case Received =>
      SlotChangeKeeps(s.procs, p, q.(cont := User));
      ReturnHistory(s, p);
    case Sent => SlotStep(s, p, q.(cont := User));
  }

  // ----- what goes wrong, and when

  predicate BadTarget(caller: Pid, srcDest: nat) {
    !(0 < srcDest < TASK_MAX || srcDest == ANY_TASK || srcDest == INTR_TASK) || caller == srcDest
  }

  /** The machine stops on a malformed call, on a send to a process that does not exist or that
      already waits for the sender, and on an interrupt for a process that waits for any message
      with p_sendto still 0. */
  ghost predicate Panics(s: State, c: Call) {
    match c
    case Sendrec(p, func, srcDest, _) =>
      || BadTarget(p, srcDest) || func == Other
      || ((func == SEND || func == BOTH) && (srcDest !in s.procs || Reaches(Waits(s.procs), srcDest, p)))
    case Wake(_) => false
    case Interrupt(t) =>
      t in s.procs && s.procs[t].receiving && s.procs[t].recvfrom == ANY_TASK && s.procs[t].sendto == 0
  }

  /** A receive that names a process that does not exist reads through a null pointer. */
  predicate Faults(s: State, c: Call) {
    c.Sendrec? && c.func == RECEIVE && !BadTarget(c.caller, c.srcDest) && c.srcDest < TASK_MAX && c.srcDest !in s.procs
  }

  /** Every call from a state that satisfies the invariant leads to another, unless it stops the
      machine for one of the causes above: no other assertion of the code can fail. */
  lemma ExecStep(s: State, c: Call)
    requires Inv(s) && Possible(s, c)
    ensures Exec(s, c) == Panic <==> Panics(s, c)
    ensures Exec(s, c) == Fault <==> Faults(s, c)
    ensures Exec(s, c).Ok? ==> Inv(Exec(s, c).s)
  {
    match c
    case Wake(p) => ResumeStep(s, p);
    case Interrupt(p) => InterruptStep(s, p);
    case Sendrec(p, func, srcDest, msg) =>
      assert ProcOk(s.procs, p);
      SendrecStep(s, p, func, srcDest, msg);
  }

  lemma SendrecStep(s: State, p: Pid, func: Func, srcDest: nat, msg: Message)
    requires Inv(s) && Running(s.procs, p)
    ensures var c, r := Sendrec(p, func, srcDest, msg), SysSendrec(s, p, func, srcDest, msg);
      && (r == Panic <==> Panics(s, c))
      && (r == Fault <==> Faults(s, c))
      && (r.Ok? ==> Inv(r.s))
  {
    var m := msg.(source := p);
    if !BadTarget(p, srcDest) {
      match func
      case SEND => SendStep(s, p, srcDest, m, Sent);
      case RECEIVE => ReceiveStep(s, p, srcDest, m);
      case BOTH =>
        assert srcDest in s.procs ==> ProcOk(s.procs, srcDest);
        hide Inv, MsgSend, MsgReceive, Reaches;
        SendStep(s, p, srcDest, m, SentThenReceive(srcDest, m));
        var r := MsgSend(s, p, srcDest, m, SentThenReceive(srcDest, m));
        if r.Ok? && !r.s.procs[p].blocked {
          ReceiveStep(r.s, p, srcDest, m);
        }
      case Other =>
    }
  }

  // ----- every run

  function Initial(pids: set<Pid>): State {
    State(map p | p in pids :: NEW_PROC, [], [])
  }

  predicate ValidPids(pids: set<Pid>) {
    forall p :: p in pids ==> 0 < p < INTR_TASK
  }

  /** `t` follows from `s` by the calls `cs`, none of which stopped the machine. */
  ghost predicate Leads(s: State, cs: seq<Call>, t: State)
    decreases |cs|
  {
    if cs == [] then s == t
    else Possible(s, cs[0]) && Exec(s, cs[0]).Ok? && Leads(Exec(s, cs[0]).s, cs[1..], t)
  }

  ghost predicate Reachable(s: State) {
    exists pids, cs :: ValidPids(pids) && Leads(Initial(pids), cs, s)
  }

  lemma InitialOk(pids: set<Pid>)
    requires ValidPids(pids)
    ensures Inv(Initial(pids))
  {
    var g := Waits(Initial(pids).procs);
    forall p ensures !Reaches(g, p, p) {
      assert forall n: nat :: n > 0 ==> !ReachesIn(g, p, p, n);
    }
  }

  lemma {:induction false} LeadsKeepsInv(s: State, cs: seq<Call>, t: State)
    requires Inv(s) && Leads(s, cs, t)
    ensures Inv(t)
    decreases |cs|
  {
    hide Inv, Exec, Possible;
    if cs != [] {
      ExecStep(s, cs[0]);
      LeadsKeepsInv(Exec(s, cs[0]).s, cs[1..], t);
    }
  }

  lemma ReachableOk(s: State)
    requires Reachable(s)
    ensures Inv(s)
  {
    hide Inv, Leads;
    var pids, cs :| ValidPids(pids) && Leads(Initial(pids), cs, s);
    InitialOk(pids);
    LeadsKeepsInv(Initial(pids), cs, s);
  }

  /** No two processes wait for each other's rendezvous, and waiting senders form no cycle. */
  lemma RendezvousSafety(s: State)
    requires Reachable(s)
    ensures forall p, x :: !Missed(s.procs, p, x)
    ensures Acyclic(Waits(s.procs))
  {
    ReachableOk(s);
  }

  /** The same for interrupts: nobody waits for any message while an interrupt is held for it. */
  lemma NoMissedInterrupt(s: State, p: Pid)
    requires Reachable(s) && p in s.procs && s.procs[p].intrPresent
    ensures !(s.procs[p].receiving && s.procs[p].recvfrom == ANY_TASK)
  {
    ReachableOk(s);
    assert ProcOk(s.procs, p);
  }

  ghost predicate HoldsInterrupt(s: State, p: Pid) {
    p in s.procs && s.procs[p].intrPresent
  }

  lemma SendHolds(s: State, sender: Pid, dest: nat, msg: Message, cont: Cont, p: Pid)
    requires sender in s.procs && HoldsInterrupt(s, p)
    ensures var r := MsgSend(s, sender, dest, msg, cont); r.Ok? ==> HoldsInterrupt(r.s, p)
  {
    hide Waits, Reaches;
  }

  lemma ReceiveHolds(s: State, receiver: Pid, src: nat, buffer: Message, p: Pid)
    requires receiver in s.procs && HoldsInterrupt(s, p) && (p == receiver ==> src != ANY_TASK && src != INTR_TASK)
    ensures var r := MsgReceive(s, receiver, src, buffer); r.Ok? ==> HoldsInterrupt(r.s, p)
  {
  }

  lemma NotifyHolds(s: State, task: Pid, p: Pid)
    requires Inv(s) && task in s.procs && HoldsInterrupt(s, p)
    ensures NotifyIntr(s, task).Ok? ==> HoldsInterrupt(NotifyIntr(s, task).s, p)
  {
    assert ProcOk(s.procs, p);
    hide HistoryOk, QueueOk, Acyclic, Missed;
  }

  /** `p` itself asks for a message from anyone, or for an interrupt. */
  predicate Collects(c: Call, p: Pid) {
    c.Sendrec? && c.caller == p && c.func == RECEIVE && (c.srcDest == ANY_TASK || c.srcDest == INTR_TASK)
  }

  lemma HoldsOn(s: State, c: Call, p: Pid)
    requires Inv(s) && Possible(s, c) && Exec(s, c).Ok? && HoldsInterrupt(s, p) && !Collects(c, p)
    ensures HoldsInterrupt(Exec(s, c).s, p)
  {
    hide MsgSend, MsgReceive, NotifyIntr, HoldsInterrupt;
    InvPids(s);
    hide Inv;
    match c
    case Interrupt(task) => NotifyHolds(s, task, p);
    case Wake(q) => ResumeHolds(s, q, p);
    case Sendrec(caller, func, srcDest, msg) => SendrecHolds(s, caller, func, srcDest, msg, p);
  }

  lemma InvPids(s: State)
    requires Inv(s)
    ensures forall p :: p in s.procs ==> 0 < p < INTR_TASK
    ensures forall p :: p in s.procs && s.procs[p].cont.SentThenReceive? ==> s.procs[p].cont.src < TASK_MAX
  {
    forall p | p in s.procs
      ensures 0 < p < INTR_TASK && (s.procs[p].cont.SentThenReceive? ==> s.procs[p].cont.src < TASK_MAX)
    {
      assert ProcOk(s.procs, p);
    }
  }

  /** An interrupt that is held for a process stays held, whatever anyone does, until that process
      itself asks for a message from anyone or for an interrupt. */
  lemma InterruptStaysHeld(s: State, c: Call, p: Pid)
    requires Reachable(s) && Possible(s, c) && Exec(s, c).Ok? && HoldsInterrupt(s, p) && !Collects(c, p)
    ensures HoldsInterrupt(Exec(s, c).s, p)
  {
    ReachableOk(s);
    HoldsOn(s, c, p);
  }

  lemma ResumeHolds(s: State, q: Pid, p: Pid)
    requires q in s.procs && s.procs[q].cont != User && !s.procs[q].blocked && HoldsInterrupt(s, p)
    requires s.procs[q].cont.SentThenReceive? ==> s.procs[q].cont.src < TASK_MAX
    ensures Resume(s, q).Ok? ==> HoldsInterrupt(Resume(s, q).s, p)
  {
    hide MsgReceive;
    match s.procs[q].cont
    case SentThenReceive(src, buffer) => ReceiveHolds(s, q, src, buffer, p);
    case Received =>
    case Sent =>
  }

  lemma SendrecHolds(s: State, caller: Pid, func: Func, srcDest: nat, msg: Message, p: Pid)
    requires caller in s.procs && HoldsInterrupt(s, p) && !Collects(Sendrec(caller, func, srcDest, msg), p)
    requires forall x :: x in s.procs ==> 0 < x < INTR_TASK
    ensures var r := SysSendrec(s, caller, func, srcDest, msg); r.Ok? ==> HoldsInterrupt(r.s, p)
  {
    hide MsgReceive, HoldsInterrupt, Reaches, Waits, Accept;
    var m := msg.(source := caller);
    match func
    case SEND => SendHolds(s, caller, srcDest, m, Sent, p);
    case RECEIVE => ReceiveHolds(s, caller, srcDest, m, p);
    case BOTH =>
      SendHolds(s, caller, srcDest, m, SentThenReceive(srcDest, m), p);
      var r := MsgSend(s, caller, srcDest, m, SentThenReceive(srcDest, m));
      if r.Ok? && caller in r.s.procs {
        ReceiveHolds(r.s, caller, srcDest, m, p);
      }
    case Other =>
  }

  lemma {:induction false} LeadsHolds(s: State, cs: seq<Call>, t: State, p: Pid)
    requires Inv(s) && Leads(s, cs, t) && HoldsInterrupt(s, p) && forall c :: c in cs ==> !Collects(c, p)
    ensures HoldsInterrupt(t, p)
    decreases |cs|
  {
    hide Inv, Exec, Possible, HoldsInterrupt;
    if cs != [] {
      assert cs[0] in cs && forall c :: c in cs[1..] ==> c in cs;
      HoldsOn(s, cs[0], p);
      ExecStep(s, cs[0]);
      LeadsHolds(Exec(s, cs[0]).s, cs[1..], t, p);
    }
  }

  predicate AwaitsAny(s: State, p: Pid) {
    p in s.procs && s.procs[p].receiving && s.procs[p].recvfrom == ANY_TASK
  }

  /** What an interrupt does. A process that waits for any message, and no other, is unblocked with an
      interrupt message in its slot; for every other the interrupt is held. Nothing else changes. */
  lemma InterruptOutcome(s: State, p: Pid)
    requires Reachable(s) && p in s.procs && Exec(s, Interrupt(p)).Ok?
    ensures var r := Exec(s, Interrupt(p)).s;
      && p in r.procs && r == s.(procs := s.procs[p := r.procs[p]])
      && (AwaitsAny(s, p) ==>
            && HasSlot(r, p, Message(INTR_TASK, HARD_INT, s.procs[p].message.payload)) && !r.procs[p].intrPresent)
      && (!AwaitsAny(s, p) ==> HoldsInterrupt(r, p) && r.procs[p] == s.procs[p].(intrPresent := true))
  {
    ReachableOk(s);
    assert ProcOk(s.procs, p);
    hide Inv, Reachable;
  }

  /** `p` was given the message `m` while it waited, and has not run since. */
  predicate HasSlot(s: State, p: Pid, m: Message) {
    && p in s.procs && s.procs[p].cont == Received && !s.procs[p].blocked && !s.procs[p].receiving
    && s.procs[p].message == m
  }

  lemma CollectedInterrupt(s: State, p: Pid, src: nat, buffer: Message)
    requires Running(s.procs, p) && s.procs[p].intrPresent && (src == ANY_TASK || src == INTR_TASK)
    ensures GivesInterrupt(s, MsgReceive(s, p, src, buffer), p)
  {
  }

  /** An interrupt is never lost. If it comes while its process is not waiting for any message, then
      whatever anyone does until that process next asks for any message, or for an interrupt, it is
      then given the interrupt, at once. */
  lemma InterruptReceived(s: State, p: Pid, cs: seq<Call>, t: State, src: nat, m: Message)
    requires Reachable(s) && p in s.procs && Exec(s, Interrupt(p)).Ok? && !AwaitsAny(s, p)
    requires Leads(Exec(s, Interrupt(p)).s, cs, t) && forall c :: c in cs ==> !Collects(c, p)
    requires (src == ANY_TASK || src == INTR_TASK) && Possible(t, Sendrec(p, RECEIVE, src, m))
    ensures GivesInterrupt(t, Exec(t, Sendrec(p, RECEIVE, src, m)), p)
  {
    hide Leads, Inv, MsgReceive, NotifyIntr, Reachable;
    ReachableOk(s);
    InterruptOutcome(s, p);
    ExecStep(s, Interrupt(p));
    LeadsHolds(Exec(s, Interrupt(p)).s, cs, t, p);
    LeadsKeepsInv(Exec(s, Interrupt(p)).s, cs, t);
    InvPids(t);
    Idle(t, p);
    CollectedInterrupt(t, p, src, m.(source := p));
  }

  lemma SlotOn(s: State, c: Call, p: Pid, m: Message)
    requires Inv(s) && Possible(s, c) && Exec(s, c).Ok? && HasSlot(s, p, m) && c != Wake(p)
    ensures HasSlot(Exec(s, c).s, p, m)
  {
    assert ProcOk(s.procs, p);
    InvPids(s);
    hide Inv, HasSlot, MsgReceive, MsgSend;
    match c
    case Interrupt(task) => NotifySlot(s, task, p, m);
    case Wake(q) => ResumeSlot(s, q, p, m);
    case Sendrec(caller, func, srcDest, msg) =>
      Idle(s, caller);
      SendrecSlot(s, caller, func, srcDest, msg, p, m);
  }

  lemma NotifySlot(s: State, task: Pid, p: Pid, m: Message)
    requires task in s.procs && HasSlot(s, p, m) && NotifyIntr(s, task).Ok?
    ensures HasSlot(NotifyIntr(s, task).s, p, m)
  {
  }

  lemma SendSlot(s: State, sender: Pid, dest: nat, msg: Message, cont: Cont, p: Pid, m: Message)
    requires sender in s.procs && HasSlot(s, p, m) && p != sender && 0 < sender < INTR_TASK
    requires s.procs[p].recvfrom == 0 || s.procs[p].recvfrom == NO_TASK
    requires MsgSend(s, sender, dest, msg, cont).Ok?
    ensures var r := MsgSend(s, sender, dest, msg, cont).s;
      HasSlot(r, p, m) && r.procs[p].recvfrom == s.procs[p].recvfrom
  {
    hide Waits, Reaches;
  }

  lemma ReceiveSlot(s: State, receiver: Pid, src: nat, buffer: Message, p: Pid, m: Message)
    requires Inv(s) && receiver in s.procs && HasSlot(s, p, m) && p != receiver && MsgReceive(s, receiver, src, buffer).Ok?
    ensures HasSlot(MsgReceive(s, receiver, src, buffer).s, p, m)
  {
    InvProcs(s);
    hide Inv, ProcsOk, Source;
    var from := Source(s.procs, receiver, src);
    if from != [] && from[0] in s.procs[receiver].queue {
      InQueue(s.procs, receiver, from[0]);
    }
  }

  lemma ResumeSlot(s: State, q: Pid, p: Pid, m: Message)
    requires Inv(s) && q in s.procs && s.procs[q].cont != User && !s.procs[q].blocked && Resume(s, q).Ok?
    requires HasSlot(s, p, m) && p != q
    ensures HasSlot(Resume(s, q).s, p, m)
  {
    hide Inv, MsgReceive;
    match s.procs[q].cont
    case SentThenReceive(src, buffer) => ReceiveSlot(s, q, src, buffer, p, m);
    case Received =>
    case Sent =>
  }

  lemma SendrecSlot(s: State, caller: Pid, func: Func, srcDest: nat, msg: Message, p: Pid, m: Message)
    requires Inv(s) && Running(s.procs, caller) && HasSlot(s, p, m) && SysSendrec(s, caller, func, srcDest, msg).Ok?
    requires s.procs[p].recvfrom == 0 || s.procs[p].recvfrom == NO_TASK
    ensures HasSlot(SysSendrec(s, caller, func, srcDest, msg).s, p, m)
  {
    InvPids(s);
    var x := msg.(source := caller);
    hide Inv, MsgSend, MsgReceive;
    match func
    case SEND => SendSlot(s, caller, srcDest, x, Sent, p, m);
    case RECEIVE => ReceiveSlot(s, caller, srcDest, x, p, m);
    case BOTH =>
      SendSlot(s, caller, srcDest, x, SentThenReceive(srcDest, x), p, m);
      BothSends(s, caller, srcDest, x);
      var r := MsgSend(s, caller, srcDest, x, SentThenReceive(srcDest, x)).s;
      if !r.procs[caller].blocked {
        ReceiveSlot(r, caller, srcDest, x, p, m);
      }
  }

  /** The first half of BOTH. */
  lemma BothSends(s: State, caller: Pid, dest: nat, m: Message)
    requires Inv(s) && Running(s.procs, caller) && caller != dest && 0 < dest && m.source == caller
    requires dest < TASK_MAX || dest == ANY_TASK || dest == INTR_TASK
    ensures var r := MsgSend(s, caller, dest, m, SentThenReceive(dest, m));
      r.Ok? ==>
        && dest in s.procs && dest < TASK_MAX && Inv(r.s) && caller in r.s.procs && r.s.procs.Keys == s.procs.Keys
        && r.s == Accept(s, caller, dest, m, SentThenReceive(dest, m))
        && (r.s.procs[caller].blocked || r.s.procs[caller] == s.procs[caller])
  {
    InvPids(s);
    hide Inv, MsgSend, Reaches, Accept;
    if dest in s.procs {
      SendStep(s, caller, dest, m, SentThenReceive(dest, m));
    } else {
      SendStep(s, caller, dest, m, Sent);
      NoTarget(s, caller, dest, m, SentThenReceive(dest, m));
    }
  }

  lemma NoTarget(s: State, sender: Pid, dest: nat, msg: Message, cont: Cont)
    requires sender in s.procs && dest !in s.procs
    ensures MsgSend(s, sender, dest, msg, cont) == Panic
  {
  }

  lemma {:induction false} LeadsSlot(s: State, cs: seq<Call>, t: State, p: Pid, m: Message)
    requires Inv(s) && Leads(s, cs, t) && HasSlot(s, p, m) && Wake(p) !in cs
    ensures HasSlot(t, p, m)
    decreases |cs|
  {
    hide Inv, Exec, Possible, HasSlot;
    if cs != [] {
      SlotOn(s, cs[0], p, m);
      ExecStep(s, cs[0]);
      LeadsSlot(Exec(s, cs[0]).s, cs[1..], t, p, m);
    }
  }

  /** Nor is it if its process waits for any message: whatever anyone does, that process can run, and
      its receive then returns the interrupt. */
  lemma InterruptWakes(s: State, p: Pid, cs: seq<Call>, t: State)
    requires Reachable(s) && AwaitsAny(s, p) && Exec(s, Interrupt(p)).Ok?
    requires Leads(Exec(s, Interrupt(p)).s, cs, t) && Wake(p) !in cs
    ensures Possible(t, Wake(p)) && Exec(t, Wake(p)).Ok?
    ensures var m := Message(INTR_TASK, HARD_INT, s.procs[p].message.payload);
      Exec(t, Wake(p)).s.delivered == t.delivered + [Transfer(INTR_TASK, p, m)]
  {
    hide Leads, Inv, NotifyIntr, Reachable;
    ReachableOk(s);
    InterruptOutcome(s, p);
    ExecStep(s, Interrupt(p));
    var m := Message(INTR_TASK, HARD_INT, s.procs[p].message.payload);
    LeadsSlot(Exec(s, Interrupt(p)).s, cs, t, p, m);
    assert Exec(t, Wake(p)).s.delivered == t.delivered + [Transfer(INTR_TASK, p, m)];
  }

  // ----- what calls send

  /** What the caller of sys_sendrec asks to be sent: its message, with its own number as the source. */
  function SentIn(c: Call): seq<Transfer> {
    if c.Sendrec? && (c.func == SEND || c.func == BOTH)
    then [Transfer(c.caller, c.srcDest, c.msg.(source := c.caller))] else []
  }

  /** The messages that the calls of a run ask to be sent, in order. */
  function SentBy(cs: seq<Call>): seq<Transfer> {
    if cs == [] then [] else SentIn(cs[0]) + SentBy(cs[1..])
  }

  lemma ReceiveAccepts(s: State, receiver: Pid, src: nat, buffer: Message)
    requires receiver in s.procs && MsgReceive(s, receiver, src, buffer).Ok?
    ensures MsgReceive(s, receiver, src, buffer).s.accepted == s.accepted
  {
  }

  /** A call that goes through has what it asks for accepted, word for word, and nothing else. */
  lemma AcceptsExactly(s: State, c: Call)
    requires Inv(s) && Possible(s, c) && Exec(s, c).Ok?
    ensures Exec(s, c).s.accepted == s.accepted + SentIn(c)
  {
    hide Inv, MsgReceive, Reaches, Waits;
    match c
    case Interrupt(_) =>
    case Wake(p) =>
      if s.procs[p].cont.SentThenReceive? {
        ReceiveAccepts(s, p, s.procs[p].cont.src, s.procs[p].cont.buffer);
      }
    case Sendrec(p, func, srcDest, msg) =>
      var m := msg.(source := p);
      if func == RECEIVE {
        ReceiveAccepts(s, p, srcDest, m);
      } else if func == BOTH {
        var r := MsgSend(s, p, srcDest, m, SentThenReceive(srcDest, m)).s;
        if p in r.procs && !r.procs[p].blocked {
          ReceiveAccepts(r, p, srcDest, m);
        }
      }
  }

  lemma {:induction false} AcceptedBy(s: State, cs: seq<Call>, t: State)
    requires Inv(s) && Leads(s, cs, t)
    ensures t.accepted == s.accepted + SentBy(cs)
    decreases |cs|
  {
    hide Inv, Exec, Possible, SentIn;
    if cs != [] {
      AcceptsExactly(s, cs[0]);
      ExecStep(s, cs[0]);
      AcceptedBy(Exec(s, cs[0]).s, cs[1..], t);
    }
  }

  /** Exactly-once delivery, in order and unchanged, over any run: what `b` has been given from `a` is a
      prefix of what the calls of `a` sent it, and what is missing is at most one message in its own
      slot and one that `a` is blocked on. When neither is the case all has been delivered. */
  lemma ExactlyOnce(pids: set<Pid>, cs: seq<Call>, s: State, a: Pid, b: Pid)
    requires ValidPids(pids) && Leads(Initial(pids), cs, s) && a in pids
    ensures a in s.procs
    ensures Between(s.delivered, a, b) <= Between(SentBy(cs), a, b)
    ensures |Between(SentBy(cs), a, b)| <= |Between(s.delivered, a, b)| + 2
    ensures b in s.procs && s.procs[b].cont == User && !s.procs[a].sending ==>
      Between(s.delivered, a, b) == Between(SentBy(cs), a, b)
  {
    hide Leads, SentBy, Between;
    InitialOk(pids);
    LeadsKeepsInv(Initial(pids), cs, s);
    SamePids(Initial(pids), cs, s);
    AcceptedBy(Initial(pids), cs, s);
    assert [] + SentBy(cs) == SentBy(cs);
    assert Conserved(s, a, b);
  }

  lemma {:induction false} SamePids(s: State, cs: seq<Call>, t: State)
    requires Inv(s) && Leads(s, cs, t)
    ensures s.procs.Keys <= t.procs.Keys
    decreases |cs|
  {
    hide Inv, Exec, Possible, EverSending;
    forall p | p in s.procs
      ensures p in t.procs
    {
      NeverSentExactly(s, cs, t, p);
    }
  }

  // ----- what a call returns

  /** What a call asks to be given: nothing, or a message from `src`. */
  datatype Ask = Nothing | From(src: nat)

  function AskIn(func: Func, srcDest: nat): Ask {
    if func == RECEIVE || func == BOTH then From(srcDest) else Nothing
  }

  /** What the last call of `p` in the run asks for. */
  function Asked(cs: seq<Call>, p: Pid): Ask {
    if cs == [] then Nothing
    else
      var c := cs[|cs|-1];
      if c.Sendrec? && c.caller == p then AskIn(c.func, c.srcDest) else Asked(cs[..|cs|-1], p)
  }

  /** A process in the middle of a call that asks for `ask`. */
  predicate AskFits(q: Proc, ask: Ask) {
    match q.cont
    case User => true
    case Sent => ask == Nothing
    case SentThenReceive(src, _) => ask == From(src)
    case Received =>
      ask.From? && if q.receiving then q.recvfrom == ask.src else ask.src == ANY_TASK || q.message.source == ask.src
  }

  /** One message was copied to the buffer of `p`: from `src`, or from anyone if that is ANY_TASK. */
  ghost predicate GivesMessage(s: State, r: State, p: Pid, src: nat) {
    exists m: Message ::
      (src == ANY_TASK || m.source == src) && r.delivered == s.delivered + [Transfer(m.source, p, m)]
  }

  /** A process that was not given a message while it waited is handed an interrupt. */
  predicate HandsInterrupt(q: Proc, src: nat) {
    q.cont != Received && (src == INTR_TASK || (src == ANY_TASK && q.intrPresent))
  }

  /** After `p` has run on a call that asks for `ask`, it is blocked and has been given nothing yet; or it
      is back in user mode, with what it asked for and nothing else. */
  ghost predicate Outcome(s: State, r: State, p: Pid, ask: Ask) {
    && p in s.procs && p in r.procs
    && if r.procs[p].blocked then r.procs[p].cont != User && r.delivered == s.delivered
       else
         && r.procs[p].cont == User
         && match ask
            case Nothing => r.delivered == s.delivered
            case From(src) =>
              if HandsInterrupt(s.procs[p], src) then GivesInterrupt(s, Ok(r), p) else GivesMessage(s, r, p, src)
  }

  lemma SendAsks(s: State, sender: Pid, dest: nat, msg: Message, cont: Cont, x: Pid, ask: Ask)
    requires Inv(s) && sender in s.procs && msg.source == sender && x in s.procs && x != sender
    requires MsgSend(s, sender, dest, msg, cont).Ok? && AskFits(s.procs[x], ask)
    ensures var r := MsgSend(s, sender, dest, msg, cont).s; x in r.procs && AskFits(r.procs[x], ask)
  {
    assert ProcOk(s.procs, x);
    InvPids(s);
    hide Inv, Waits, Reaches;
  }

  lemma ReceiveAsks(s: State, receiver: Pid, src: nat, buffer: Message, x: Pid, ask: Ask)
    requires Inv(s) && receiver in s.procs && x in s.procs && x != receiver
    requires MsgReceive(s, receiver, src, buffer).Ok? && AskFits(s.procs[x], ask)
    ensures var r := MsgReceive(s, receiver, src, buffer).s; x in r.procs && AskFits(r.procs[x], ask)
  {
    InvProcs(s);
    hide Inv, ProcsOk, Source, AskFits;
    var from := Source(s.procs, receiver, src);
    if from != [] && from[0] in s.procs[receiver].queue {
      InQueue(s.procs, receiver, from[0]);
      if x == from[0] {
        DequeuedAsks(s.procs, receiver, x, ask);
      }
    }
  }

  lemma DequeuedAsks(procs: Procs, receiver: Pid, from: Pid, ask: Ask)
    requires receiver in procs && from in procs && from != receiver && procs[from].cont != Received
    requires AskFits(procs[from], ask)
    ensures AskFits(Dequeue(procs, receiver, from)[from], ask)
  {
  }

  lemma ReceiveOutcome(s: State, receiver: Pid, src: nat, buffer: Message)
    requires Inv(s) && Running(s.procs, receiver) && buffer.source == receiver
    requires src < TASK_MAX || src == ANY_TASK || src == INTR_TASK
    requires MsgReceive(s, receiver, src, buffer).Ok?
    ensures var r := MsgReceive(s, receiver, src, buffer).s;
      Outcome(s, r, receiver, From(src)) && AskFits(r.procs[receiver], From(src))
  {
    InvProcs(s);
    hide Inv, ProcsOk, Outcome, AskFits, Source;
    var from := Source(s.procs, receiver, src);
    if (s.procs[receiver].intrPresent && src == ANY_TASK) || src == INTR_TASK {
      TakesInterrupt(s, receiver, src);
    } else if from == [] {
      AwaitsMessage(s, receiver, src, buffer);
    } else if from[0] in s.procs[receiver].queue {
      InQueue(s.procs, receiver, from[0]);
      NamedSource(s.procs, receiver, src);
      TakesMessage(s, receiver, from[0], src);
    }
  }

  lemma NamedSource(procs: Procs, receiver: Pid, src: nat)
    requires receiver in procs && (src < TASK_MAX ==> src in procs) && Source(procs, receiver, src) != []
    ensures src == ANY_TASK || Source(procs, receiver, src) == [src]
  {
  }

  lemma TakesInterrupt(s: State, p: Pid, src: nat)
    requires Running(s.procs, p) && (src == INTR_TASK || (src == ANY_TASK && s.procs[p].intrPresent))
    ensures var r := s.(procs := TakeInterrupt(s.procs, p));
      Outcome(s, r, p, From(src)) && AskFits(r.procs[p], From(src))
  {
  }

  lemma AwaitsMessage(s: State, p: Pid, src: nat, buffer: Message)
    requires Running(s.procs, p)
    ensures var r := s.(procs := Await(s.procs, p, src, buffer));
      Outcome(s, r, p, From(src)) && AskFits(r.procs[p], From(src))
  {
  }

  lemma TakesMessage(s: State, p: Pid, from: Pid, src: nat)
    requires Running(s.procs, p) && from in s.procs && from != p && s.procs[from].message.source == from
    requires (src == ANY_TASK || src == from) && !HandsInterrupt(s.procs[p], src)
    ensures var r := Taking(s, p, from);
      Outcome(s, r, p, From(src)) && AskFits(r.procs[p], From(src))
  {
    hide GivesMessage, Unlink;
    TakenMessage(s, p, from, src);
  }

  lemma TakenMessage(s: State, receiver: Pid, from: Pid, src: nat)
    requires receiver in s.procs && from in s.procs && s.procs[from].message.source == from
    requires src == ANY_TASK || src == from
    ensures GivesMessage(s, Taking(s, receiver, from), receiver, src)
  {
  }

  lemma NotifyAsks(s: State, task: Pid, x: Pid, ask: Ask)
    requires Inv(s) && task in s.procs && x in s.procs && NotifyIntr(s, task).Ok? && AskFits(s.procs[x], ask)
    ensures var r := NotifyIntr(s, task).s; x in r.procs && AskFits(r.procs[x], ask) && r.delivered == s.delivered
  {
    assert ProcOk(s.procs, x);
    InvPids(s);
    hide Inv;
  }

  lemma ResumeAsks(s: State, p: Pid, x: Pid, ask: Ask)
    requires Inv(s) && p in s.procs && s.procs[p].cont != User && !s.procs[p].blocked && Resume(s, p).Ok?
    requires x in s.procs && AskFits(s.procs[x], ask)
    ensures var r := Resume(s, p).s; x in r.procs && AskFits(r.procs[x], ask) && (x == p ==> Outcome(s, r, p, ask))
  {
    assert ProcOk(s.procs, p);
    InvPids(s);
    hide Inv, MsgReceive, GivesInterrupt;
    match s.procs[p].cont
    case SentThenReceive(src, buffer) =>
      hide AskFits, Outcome;
      if x == p {
        ReceiveOutcome(s, p, src, buffer);
        SameAsk(s.procs[p], ask);
      } else {
        ReceiveAsks(s, p, src, buffer, x, ask);
      }
    case Received =>
      var q := s.procs[p];
      assert x == p && ask.From? ==> GivesMessage(s, Resume(s, p).s, p, ask.src) by {
        assert Resume(s, p).s.delivered == s.delivered + [Transfer(q.message.source, p, q.message)];
      }
    case Sent =>
  }

  lemma SameAsk(q: Proc, ask: Ask)
    requires AskFits(q, ask) && q.cont.SentThenReceive?
    ensures ask == From(q.cont.src)
  {
  }

  lemma SendOutcome(s: State, p: Pid, dest: nat, m: Message, cont: Cont)
    requires Inv(s) && Running(s.procs, p) && s.procs[p].cont == User && p != dest && m.source == p && cont != User
    requires dest in s.procs ==> GoodCont(s.procs, p, cont)
    requires MsgSend(s, p, dest, m, cont).Ok?
    ensures var r := MsgSend(s, p, dest, m, cont).s;
      && Inv(r) && p in r.procs && r.delivered == s.delivered
      && (if r.procs[p].blocked then r.procs[p].cont == cont else r.procs[p] == s.procs[p])
  {
    hide Inv, MsgSend, Reaches;
    SendStep(s, p, dest, m, cont);
  }

  lemma SendrecAsks(s: State, p: Pid, func: Func, srcDest: nat, msg: Message, x: Pid, ask: Ask)
    requires Inv(s) && Running(s.procs, p) && s.procs[p].cont == User && SysSendrec(s, p, func, srcDest, msg).Ok?
    requires x in s.procs && if x == p then ask == AskIn(func, srcDest) else AskFits(s.procs[x], ask)
    ensures var r := SysSendrec(s, p, func, srcDest, msg).s;
      x in r.procs && AskFits(r.procs[x], ask) && (x == p ==> Outcome(s, r, p, ask))
  {
    var m := msg.(source := p);
    InvPids(s);
    hide Inv, MsgSend, MsgReceive, GivesInterrupt;
    match func
    case SEND =>
      SendOutcome(s, p, srcDest, m, Sent);
      if x != p {
        SendAsks(s, p, srcDest, m, Sent, x, ask);
      }
    case RECEIVE =>
      hide AskFits, Outcome;
      if x == p {
        ReceiveOutcome(s, p, srcDest, m);
      } else {
        ReceiveAsks(s, p, srcDest, m, x, ask);
      }
    case BOTH => BothAsks(s, p, srcDest, m, x, ask);
  }

  lemma BothAsks(s: State, p: Pid, dest: nat, m: Message, x: Pid, ask: Ask)
    requires Inv(s) && Running(s.procs, p) && s.procs[p].cont == User && p != dest && m.source == p
    requires 0 < dest && (dest < TASK_MAX || dest == ANY_TASK || dest == INTR_TASK)
    requires x in s.procs && if x == p then ask == From(dest) else AskFits(s.procs[x], ask)
    requires MsgSend(s, p, dest, m, SentThenReceive(dest, m)).Ok?
    ensures var a := MsgSend(s, p, dest, m, SentThenReceive(dest, m)).s;
      && p in a.procs
      && var r := if a.procs[p].blocked then Ok(a) else MsgReceive(a, p, dest, m);
      r.Ok? ==> x in r.s.procs && AskFits(r.s.procs[x], ask) && (x == p ==> Outcome(s, r.s, p, ask))
  {
    hide Inv, MsgSend, MsgReceive, GivesInterrupt, Accept;
    BothSends(s, p, dest, m);
    var cont := SentThenReceive(dest, m);
    BothCont(s, p, dest, m);
    SendOutcome(s, p, dest, m, cont);
    var a := MsgSend(s, p, dest, m, cont).s;
    if x != p {
      SendAsks(s, p, dest, m, cont, x, ask);
    }
    if !a.procs[p].blocked && MsgReceive(a, p, dest, m).Ok? {
      if x == p {
        ReceiveOutcome(a, p, dest, m);
        SameOutcome(s, a, MsgReceive(a, p, dest, m).s, p, dest);
      } else {
        ReceiveAsks(a, p, dest, m, x, ask);
      }
    }
  }

  lemma BothCont(s: State, p: Pid, dest: nat, m: Message)
    requires Inv(s) && p in s.procs && dest in s.procs && dest < TASK_MAX && m.source == p
    ensures GoodCont(s.procs, p, SentThenReceive(dest, m))
  {
    InvPids(s);
  }

  lemma SameOutcome(s: State, a: State, r: State, p: Pid, src: nat)
    requires p in s.procs && p in a.procs && a.procs[p] == s.procs[p] && a.delivered == s.delivered
    requires Outcome(a, r, p, From(src))
    ensures Outcome(s, r, p, From(src))
  {
  }

  ghost predicate AllAsk(cs: seq<Call>, s: State) {
    forall p :: p in s.procs ==> AskFits(s.procs[p], Asked(cs, p))
  }

  function Actor(c: Call): Pid {
    match c
    case Sendrec(p, _, _, _) => p
    case Wake(p) => p
    case Interrupt(p) => p
  }

  lemma AskStep(cs: seq<Call>, s: State, c: Call)
    requires Inv(s) && AllAsk(cs, s) && Possible(s, c) && Exec(s, c).Ok?
    ensures AllAsk(cs + [c], Exec(s, c).s)
    ensures if c.Interrupt? then Exec(s, c).s.delivered == s.delivered
            else Outcome(s, Exec(s, c).s, Actor(c), Asked(cs + [c], Actor(c)))
  {
    hide Inv, SysSendrec, Resume, NotifyIntr, AskFits, Outcome;
    assert (cs + [c])[..|cs|] == cs;
    var r := Exec(s, c).s;
    ExecPids(s, c);
    if c.Sendrec? {
      Idle(s, c.caller);
    }
    forall x | x in s.procs
      ensures x in r.procs && AskFits(r.procs[x], Asked(cs + [c], x))
      ensures x == Actor(c) && !c.Interrupt? ==> Outcome(s, r, x, Asked(cs + [c], x))
      ensures c.Interrupt? ==> r.delivered == s.delivered
    {
      match c
      case Sendrec(p, func, srcDest, msg) => SendrecAsks(s, p, func, srcDest, msg, x, Asked(cs + [c], x));
      case Wake(p) => ResumeAsks(s, p, x, Asked(cs, x));
      case Interrupt(p) => NotifyAsks(s, p, x, Asked(cs, x));
    }
  }

  lemma ExecPids(s: State, c: Call)
    requires Inv(s) && Possible(s, c) && Exec(s, c).Ok?
    ensures Exec(s, c).s.procs.Keys == s.procs.Keys && Actor(c) in s.procs
  {
    hide Inv, MsgReceive, Reaches, Waits;
    match c
    case Interrupt(_) =>
    case Wake(p) =>
      if s.procs[p].cont.SentThenReceive? {
        ReceivePids(s, p, s.procs[p].cont.src, s.procs[p].cont.buffer);
      }
    case Sendrec(p, func, srcDest, msg) =>
      var m := msg.(source := p);
      if func == RECEIVE {
        ReceivePids(s, p, srcDest, m);
      } else if func == BOTH {
        var r := MsgSend(s, p, srcDest, m, SentThenReceive(srcDest, m)).s;
        if p in r.procs && !r.procs[p].blocked {
          ReceivePids(r, p, srcDest, m);
        }
      }
  }

  lemma ReceivePids(s: State, receiver: Pid, src: nat, buffer: Message)
    requires receiver in s.procs && MsgReceive(s, receiver, src, buffer).Ok?
    ensures MsgReceive(s, receiver, src, buffer).s.procs.Keys == s.procs.Keys
  {
  }

  lemma {:induction false} LeadsAsk(before: seq<Call>, s: State, cs: seq<Call>, t: State)
    requires Inv(s) && AllAsk(before, s) && Leads(s, cs, t)
    ensures AllAsk(before + cs, t)
    decreases |cs|
  {
    hide Inv, AllAsk, Exec, Possible;
    if cs == [] {
      assert before + cs == before;
    } else {
      AskStep(before, s, cs[0]);
      ExecStep(s, cs[0]);
      LeadsAsk(before + [cs[0]], Exec(s, cs[0]).s, cs[1..], t);
      assert before + cs == before + [cs[0]] + cs[1..];
    }
  }

  /** Over any run from the start, what a process gets when it runs on a call, at once or after it was
      blocked: nothing for SEND, and for RECEIVE and BOTH one message from the process it named, or from
      anyone if it named none, or an interrupt if it asked for that or one was held. It is back in user
      mode then, and blocked otherwise. An interrupt delivers nothing by itself. */
  lemma CallOutcome(pids: set<Pid>, cs: seq<Call>, s: State, c: Call)
    requires ValidPids(pids) && Leads(Initial(pids), cs, s) && Possible(s, c) && Exec(s, c).Ok?
    ensures if c.Interrupt? then Exec(s, c).s.delivered == s.delivered
            else Outcome(s, Exec(s, c).s, Actor(c), Asked(cs + [c], Actor(c)))
  {
    hide Inv, Leads, Exec, Possible, Outcome;
    InitialOk(pids);
    LeadsKeepsInv(Initial(pids), cs, s);
    LeadsAsk([], Initial(pids), cs, s);
    assert [] + cs == cs;
    AskStep(cs, s, c);
  }

  ghost predicate CutOut<T>(q: seq<T>, x: T, r: seq<T>) {
    exists k :: 0 <= k < |q| && q[k] == x && r == q[..k] + q[k+1..]
  }

  lemma FrontIsOldest(s: State, p: Pid)
    requires Inv(s) && p in s.procs && s.procs[p].queue != []
    ensures forall x :: x in s.procs[p].queue ==>
      LastSent(s.accepted, s.procs[p].queue[0]) <= LastSent(s.accepted, x)
  {
    assert InOrder(s, p);
  }

  lemma TakeCutsOut(s: State, p: Pid, from: Pid, named: bool)
    requires Inv(s) && Running(s.procs, p) && from in s.procs[p].queue
    ensures from in s.procs && s.procs[from].sending && s.procs[from].sendto == p
    ensures var r := Take(s, p, from, named);
      && r.Ok? && r.s.delivered == s.delivered + [Transfer(from, p, s.procs[from].message)]
      && p in r.s.procs && CutOut(s.procs[p].queue, from, r.s.procs[p].queue)
  {
    var q := s.procs[p].queue;
    assert QueueOk(s.procs, p) && ProcOk(s.procs, from) && ProcOk(s.procs, p);
    hide ProcsOk, HistoryOk, ProcOk;
    var k :| 0 <= k < |q| && q[k] == from;
    UnlinkAt(q, from, k);
  }

  /** A receive from any sender takes the message of the one that has waited longest, and a
      receive from a named one takes its message and leaves the order of the others alone. */
  lemma OldestFirst(s: State, p: Pid, src: nat, buffer: Message)
    requires Reachable(s) && Running(s.procs, p)
    requires if src == ANY_TASK then !s.procs[p].intrPresent && s.procs[p].queue != []
             else src in s.procs[p].queue && src < TASK_MAX
    ensures var q := s.procs[p].queue;
      var from := if src == ANY_TASK then q[0] else src;
      && (forall x :: x in q ==> LastSent(s.accepted, q[0]) <= LastSent(s.accepted, x))
      && from in s.procs && s.procs[from].sending && s.procs[from].sendto == p
      && var r := MsgReceive(s, p, src, buffer);
      && r.Ok? && r.s.delivered == s.delivered + [Transfer(from, p, s.procs[from].message)]
      && p in r.s.procs && CutOut(q, from, r.s.procs[p].queue)
  {
    ReachableOk(s);
    FrontIsOldest(s, p);
    hide Inv, Reachable, Take, CutOut;
    TakeCutsOut(s, p, if src == ANY_TASK then s.procs[p].queue[0] else src, src != ANY_TASK);
  }

  /** Deadlock detection is exact: a send, alone or as the first half of BOTH, is refused exactly when
      the new edge would close a cycle of processes that wait for each other. */
  lemma DeadlockExactly(s: State, p: Pid, func: Func, dest: Pid, msg: Message)
    requires Reachable(s) && p in s.procs && s.procs[p].cont == User && (func == SEND || func == BOTH)
    requires dest in s.procs && !BadTarget(p, dest)
    ensures SysSendrec(s, p, func, dest, msg) == Panic <==> !Acyclic(Waits(s.procs)[p := dest])
  {
    hide Inv, Acyclic, Reaches, SysSendrec, Reachable;
    ReachableOk(s);
    Idle(s, p);
    SendrecStep(s, p, func, dest, msg);
    AddEdge(Waits(s.procs), p, dest);
  }

  lemma Idle(s: State, p: Pid)
    requires Inv(s) && p in s.procs && s.procs[p].cont == User
    ensures Running(s.procs, p) && p !in Waits(s.procs) && Acyclic(Waits(s.procs))
  {
    assert ProcOk(s.procs, p);
  }

  // ----- the assertion on p_sendto

  /** Some state of the run `cs` from `s` has `p` blocked in a send. */
  ghost predicate EverSending(s: State, cs: seq<Call>, p: Pid)
    decreases |cs|
  {
    || (p in s.procs && s.procs[p].sending)
    || (cs != [] && Possible(s, cs[0]) && Exec(s, cs[0]).Ok? && EverSending(Exec(s, cs[0]).s, cs[1..], p))
  }

  /** p_sendto is still 0. */
  predicate NeverSent(procs: Procs, p: Pid) {
    p in procs && procs[p].sendto == 0
  }

  predicate Sending(procs: Procs, p: Pid) {
    p in procs && procs[p].sending
  }

  /** From `procs` to `procs'`, p_sendto of `p` stays 0 exactly when `p` is not blocked in a send. */
  predicate Tracks(procs: Procs, procs': Procs, p: Pid) {
    p in procs' && (NeverSent(procs', p) <==> NeverSent(procs, p) && !Sending(procs', p))
  }

  lemma SenderNamed(procs: Procs, p: Pid)
    requires ProcsOk(procs) && Sending(procs, p)
    ensures procs[p].sendto > 0
  {
    assert ProcOk(procs, p) && ProcOk(procs, procs[p].sendto);
  }

  lemma Unsent(procs: Procs, procs': Procs, p: Pid)
    requires ProcsOk(procs) && p in procs && p in procs'
    requires procs'[p].sendto == procs[p].sendto && procs'[p].sending == procs[p].sending
    ensures Tracks(procs, procs', p)
  {
    hide ProcsOk;
    if Sending(procs, p) {
      SenderNamed(procs, p);
    }
  }

  lemma SendTracks(s: State, sender: Pid, dest: nat, msg: Message, cont: Cont, p: Pid)
    requires Inv(s) && Running(s.procs, sender) && sender != dest && msg.source == sender
    requires dest in s.procs ==> GoodCont(s.procs, sender, cont)
    requires p in s.procs && MsgSend(s, sender, dest, msg, cont).Ok?
    ensures var r := MsgSend(s, sender, dest, msg, cont).s;
      && Inv(r) && Tracks(s.procs, r.procs, p)
      && (sender in r.procs && !r.procs[sender].blocked ==> SameSending(s, r, p))
  {
    hide Inv, MsgSend, Waits, Reaches, Acyclic;
    SendStep(s, sender, dest, msg, cont);
    InvProcs(s);
    if Expects(s.procs[dest], sender) || (p != sender) {
      Unsent(s.procs, Accept(s, sender, dest, msg, cont).procs, p);
    } else {
      assert dest > 0 by { Positive(s.procs, dest); }
    }
  }

  predicate SameSending(s: State, r: State, p: Pid) {
    && p in s.procs && p in r.procs
    && r.procs[p].sendto == s.procs[p].sendto && r.procs[p].sending == s.procs[p].sending
  }

  lemma InvProcs(s: State)
    requires Inv(s)
    ensures ProcsOk(s.procs)
  {
  }

  lemma Positive(procs: Procs, p: Pid)
    requires ProcsOk(procs) && p in procs
    ensures p > 0
  {
    assert ProcOk(procs, p);
  }

  lemma TakeTracks(procs: Procs, receiver: Pid, from: Pid, p: Pid)
    requires ProcsOk(procs) && receiver in procs && from in procs[receiver].queue && p in procs
    ensures from in procs && Tracks(procs, Dequeue(procs, receiver, from), p)
  {
    hide ProcsOk;
    InQueue(procs, receiver, from);
    if p == from {
      SenderNamed(procs, p);
    } else {
      Unsent(procs, Dequeue(procs, receiver, from), p);
    }
  }

  lemma ReceiveTracks(s: State, receiver: Pid, src: nat, buffer: Message, p: Pid)
    requires Inv(s) && receiver in s.procs && p in s.procs && MsgReceive(s, receiver, src, buffer).Ok?
    ensures Tracks(s.procs, MsgReceive(s, receiver, src, buffer).s.procs, p)
  {
    hide Inv, Tracks, Source, Dequeue;
    InvProcs(s);
    hide ProcsOk;
    var r, t := s.procs[receiver], MsgReceive(s, receiver, src, buffer).s;
    if (r.intrPresent && src == ANY_TASK) || src == INTR_TASK {
      Unsent(s.procs, t.procs, p);
    } else {
      var from := Source(s.procs, receiver, src);
      if from != [] {
        TakeTracks(s.procs, receiver, from[0], p);
      } else {
        Unsent(s.procs, t.procs, p);
      }
    }
  }

  lemma SendrecTracks(s: State, caller: Pid, func: Func, srcDest: nat, msg: Message, p: Pid)
    requires Inv(s) && Running(s.procs, caller) && p in s.procs && SysSendrec(s, caller, func, srcDest, msg).Ok?
    ensures Tracks(s.procs, SysSendrec(s, caller, func, srcDest, msg).s.procs, p)
  {
    hide Inv, Tracks, MsgSend, MsgReceive;
    InvProcs(s);
    var m := msg.(source := caller);
    match func
    case SEND => SendTracks(s, caller, srcDest, m, Sent, p);
    case RECEIVE => ReceiveTracks(s, caller, srcDest, m, p);
    case BOTH =>
      assert srcDest in s.procs ==> GoodCont(s.procs, caller, SentThenReceive(srcDest, m)) by {
        if srcDest in s.procs {
          assert ProcOk(s.procs, srcDest);
        }
      }
      hide ProcsOk;
      SendTracks(s, caller, srcDest, m, SentThenReceive(srcDest, m), p);
      var r := MsgSend(s, caller, srcDest, m, SentThenReceive(srcDest, m)).s;
      if caller in r.procs && !r.procs[caller].blocked {
        ReceiveTracks(r, caller, srcDest, m, p);
        var t := SysSendrec(s, caller, func, srcDest, msg).s;
        assert Tracks(s.procs, t.procs, p) by {
          TracksThen(s, r, t, p);
        }
      }
  }

  lemma TracksThen(s: State, r: State, t: State, p: Pid)
    requires SameSending(s, r, p) && Tracks(r.procs, t.procs, p)
    ensures Tracks(s.procs, t.procs, p)
  {
  }

  lemma ExecTracks(s: State, c: Call, p: Pid)
    requires Inv(s) && Possible(s, c) && Exec(s, c).Ok? && p in s.procs
    ensures Tracks(s.procs, Exec(s, c).s.procs, p)
  {
    hide Inv, Tracks, SysSendrec, MsgReceive, Resume, NotifyIntr;
    InvProcs(s);
    hide ProcsOk;
    match c
    case Sendrec(caller, func, srcDest, msg) =>
      Idle(s, caller);
      SendrecTracks(s, caller, func, srcDest, msg, p);
    case Wake(q) => ResumeTracks(s, q, p);
    case Interrupt(q) => NotifyTracks(s, q, p);
  }

  lemma ResumeTracks(s: State, q: Pid, p: Pid)
    requires Inv(s) && q in s.procs && s.procs[q].cont != User && !s.procs[q].blocked
    requires p in s.procs && Resume(s, q).Ok?
    ensures Tracks(s.procs, Resume(s, q).s.procs, p)
  {
    hide Inv, Tracks, MsgReceive;
    InvProcs(s);
    hide ProcsOk;
    match s.procs[q].cont
    case SentThenReceive(src, buffer) => ReceiveTracks(s, q, src, buffer, p);
    case Received => Unsent(s.procs, Return(s.procs, q), p);
    case Sent => Unsent(s.procs, Return(s.procs, q), p);
  }

  lemma NotifyTracks(s: State, q: Pid, p: Pid)
    requires Inv(s) && q in s.procs && p in s.procs && NotifyIntr(s, q).Ok?
    ensures Tracks(s.procs, NotifyIntr(s, q).s.procs, p)
  {
    hide Inv, Tracks;
    InvProcs(s);
    hide ProcsOk;
    Unsent(s.procs, NotifyIntr(s, q).s.procs, p);
  }

  /** Over any run, p_sendto is 0 exactly when it was 0 before and the process was never blocked in a
      send. */
  lemma {:induction false} NeverSentExactly(s: State, cs: seq<Call>, t: State, p: Pid)
    requires Inv(s) && Leads(s, cs, t) && p in s.procs
    ensures p in t.procs
    ensures t.procs[p].sendto == 0 <==> s.procs[p].sendto == 0 && !EverSending(s, cs, p)
    decreases |cs|
  {
    hide Inv, Exec, Possible, ProcsOk;
    InvProcs(s);
    if Sending(s.procs, p) {
      SenderNamed(s.procs, p);
    }
    if cs != [] {
      ExecTracks(s, cs[0], p);
      ExecStep(s, cs[0]);
      NeverSentExactly(Exec(s, cs[0]).s, cs[1..], t, p);
    }
  }

  /** Over any run from the start, an interrupt stops the machine exactly when the process it is for
      waits for any message and was never blocked in a send in that run. */
  lemma InterruptStopsExactly(pids: set<Pid>, cs: seq<Call>, s: State, p: Pid)
    requires ValidPids(pids) && Leads(Initial(pids), cs, s) && p in pids
    ensures Possible(s, Interrupt(p))
    ensures Exec(s, Interrupt(p)) == Panic <==>
      s.procs[p].receiving && s.procs[p].recvfrom == ANY_TASK && !EverSending(Initial(pids), cs, p)
  {
    hide Inv, Leads, EverSending, NotifyIntr;
    InitialOk(pids);
    LeadsKeepsInv(Initial(pids), cs, s);
    NeverSentExactly(Initial(pids), cs, s, p);
    ExecStep(s, Interrupt(p));
  }

  /** The assertion p_sendto == NO_TASK at the end of notify_intr does not hold of a process
      that init_thread has just zeroed: its first receive is stopped by its first interrupt. */
  lemma FreshReceiverStopped(m: Message) returns (s: State)
    ensures Reachable(s) && Possible(s, Interrupt(1)) && Exec(s, Interrupt(1)) == Panic
  {
    var s0 := Initial({1});
    var c := Sendrec(1, RECEIVE, ANY_TASK, m);
    s := Exec(s0, c).s;
    assert [c][1..] == [];
    assert Leads(s, [], s);
    assert Leads(s0, [c], s);
    assert ValidPids({1});
  }

  /** The test of msg_send lacks parentheses around its two comparisons. In every reachable state
      it means what was intended: only a receiving process expects anyone. */
  lemma UnparenthesisedTest(s: State, p: Pid, sender: Pid)
    requires Reachable(s) && p in s.procs
    ensures Expects(s.procs[p], sender) <==>
      s.procs[p].receiving && (s.procs[p].recvfrom == sender || s.procs[p].recvfrom == ANY_TASK)
  {
    ReachableOk(s);
    assert ProcOk(s.procs, p);
  }

  /** The call hands `p` an interrupt message: it is in its slot, none is held any more, no
      sender's message was delivered and `p` does not wait. */
  predicate GivesInterrupt(s: State, r: Result, p: Pid) {
    && r.Ok? && p in r.s.procs && !r.s.procs[p].blocked
    && r.s.procs[p].message == Message(INTR_TASK, HARD_INT, 0) && !r.s.procs[p].intrPresent
    && r.s.delivered == s.delivered
  }

  /** The first test of msg_receive lacks the same parentheses, and does not mean what was intended: a
      receive is handed an interrupt message with none held exactly when it asks for interrupts only. */
  lemma SpuriousInterrupt(s: State, p: Pid, src: nat, buffer: Message)
    requires Reachable(s) && Running(s.procs, p) && buffer.source == p
    requires src < TASK_MAX || src == ANY_TASK || src == INTR_TASK
    ensures var given, held := GivesInterrupt(s, MsgReceive(s, p, src, buffer), p), s.procs[p].intrPresent;
      && (given <==> src == INTR_TASK || (src == ANY_TASK && held))
      && (given && !held <==> src == INTR_TASK && !held)
  {
    hide Reachable, Inv, Source, Unlink;
    ReachableOk(s);
    ReceiveStep(s, p, src, buffer);
  }

  /** So nobody ever waits for an interrupt only, and the comparison with INTR_TASK in notify_intr never
      holds. */
  lemma NobodyAwaitsInterrupt(s: State, p: Pid)
    requires Reachable(s) && p in s.procs
    ensures !(s.procs[p].receiving && s.procs[p].recvfrom == INTR_TASK)
  {
    ReachableOk(s);
    assert ProcOk(s.procs, p);
  }

  /** A process that asks for an interrupt is told of one although none has ever happened. */
  lemma FreshInterrupt(m: Message) returns (s: State, c: Call)
    ensures Reachable(s) && s == Initial({1}) && Possible(s, c) && c == Sendrec(1, RECEIVE, INTR_TASK, m)
    ensures !s.procs[1].intrPresent && GivesInterrupt(s, Exec(s, c), 1)
  {
    s, c := Initial({1}), Sendrec(1, RECEIVE, INTR_TASK, m);
    assert Leads(s, [], s) && ValidPids({1});
  }

  /** Exactly the processes blocked sending to `p` are on its sending queue, each once and in the
      order in which they blocked. */
  lemma QueueIsWaiters(s: State, p: Pid)
    requires Reachable(s) && p in s.procs
    ensures Distinct(s.procs[p].queue)
    ensures forall x: Pid :: x in s.procs[p].queue <==> x in s.procs && s.procs[x].sending && s.procs[x].sendto == p
    ensures forall i, j :: 0 <= i < j < |s.procs[p].queue| ==>
      LastSent(s.accepted, s.procs[p].queue[i]) < LastSent(s.accepted, s.procs[p].queue[j])
  {
    ReachableOk(s);
    assert QueueOk(s.procs, p) && InOrder(s, p);
  }
}
