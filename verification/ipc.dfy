/** core/ipc/ipc.c on thread control blocks that point to each other, against the steps of
    Rendezvous. A pointer to a control block is the pid it is filed under. */
module Ipc {
  import opened WaitGraph
  import opened Sequences
  import opened Rendezvous

  datatype Pointer = Null | To(pid: Pid)

  /** The part of a thread control block that message passing uses. */
  datatype TCB = TCB(
    sending: bool, receiving: bool, sendto: nat, recvfrom: nat, message: Message, intrPresent: bool,
    sendingQueue: Pointer, nextSending: Pointer, blocked: bool, cont: Cont)

  type Table = map<Pid, TCB>
  type Queues = map<Pid, seq<Pid>>

  function Link(q: seq<Pid>, i: nat): Pointer {
    if i < |q| then To(q[i]) else Null
  }

  /** `q` is the list that starts at `head` and goes on through nextSending. */
  ghost predicate Chain(table: Table, head: Pointer, q: seq<Pid>) {
    && (forall x :: x in q ==> x in table)
    && head == Link(q, 0)
    && (forall i, j :: 0 <= i < |q| && j == i + 1 ==> table[q[i]].nextSending == Link(q, j))
  }

  ghost predicate Chained(table: Table, queues: Queues) {
    && table.Keys == queues.Keys
    && (forall p :: p in table ==> Chain(table, table[p].sendingQueue, queues[p]))
  }

  function Record(t: TCB, queue: seq<Pid>): Proc {
    Proc(t.sending, t.receiving, t.sendto, t.recvfrom, t.message, t.intrPresent, queue, t.blocked, t.cont)
  }

  ghost function ProcsOf(table: Table, queues: Queues): (procs: Procs)
    requires table.Keys == queues.Keys
    ensures procs.Keys == table.Keys
  {
    map p | p in table :: Record(table[p], queues[p])
  }

  lemma ProcsUpdate(table: Table, queues: Queues, p: Pid, t: TCB)
    requires table.Keys == queues.Keys && p in table
    ensures ProcsOf(table[p := t], queues) == ProcsOf(table, queues)[p := Record(t, queues[p])]
  {
  }

  ghost predicate Disjoint(a: seq<Pid>, b: seq<Pid>) {
    forall x :: x in a ==> x !in b
  }

  /** A write to the links of processes outside a list leaves the list alone. */
  lemma ChainFrame(table: Table, table': Table, head: Pointer, q: seq<Pid>)
    requires Chain(table, head, q)
    requires forall x :: x in q ==> x in table' && table'[x].nextSending == table[x].nextSending
    ensures Chain(table', head, q)
  {
    forall i, j | 0 <= i < |q| && j == i + 1
      ensures table'[q[i]].nextSending == Link(q, j)
    {
      assert q[i] in q;
    }
  }

  lemma QueuesApart(table: Table, queues: Queues)
    requires table.Keys == queues.Keys && ProcsOk(ProcsOf(table, queues))
    ensures forall p, x :: p in queues && x in queues[p] ==> x in table && table[x].sending && table[x].sendto == p
    ensures forall p :: p in queues ==> Distinct(queues[p])
    ensures forall p, q :: p in queues && q in queues && p != q ==> Disjoint(queues[p], queues[q])
  {
    var procs := ProcsOf(table, queues);
    forall p | p in queues
      ensures Distinct(queues[p])
      ensures forall x :: x in queues[p] ==> x in table && table[x].sending && table[x].sendto == p
    {
      assert QueueOk(procs, p);
    }
  }

  datatype Outcome = Returned | Panicked | Faulted

  class Kernel {
    var table: Table
    ghost var queues: Queues       // the sending queue of each process
    ghost var accepted: seq<Transfer>
    ghost var delivered: seq<Transfer>

    ghost function Abs(): State
      requires table.Keys == queues.Keys
      reads this
    {
      State(ProcsOf(table, queues), accepted, delivered)
    }

    ghost predicate Valid()
      reads this
    {
      Chained(table, queues) && Inv(Abs())
    }

    /** What a call leaves behind is what `r` says, or the machine has stopped. */
    ghost predicate Did(out: Outcome, r: Result)
      reads this
    {
      match r
      case Ok(s) => out == Returned && Valid() && Abs() == s
      case Panic => out == Panicked
      case Fault => out == Faulted
    }

    constructor (pids: set<Pid>)
      requires ValidPids(pids)
      ensures Valid() && Abs() == Initial(pids)
    {
      table := map p | p in pids :: TCB(false, false, 0, 0, EMPTY_MESSAGE, false, Null, Null, false, User);
      queues := map p | p in pids :: [];
      accepted, delivered := [], [];
      new;
      InitialOk(pids);
      assert Abs().procs == Initial(pids).procs;
    }

    method DetectCycle(src: Pid, dest: Pid) returns (r: bool)
      requires Valid() && dest in table
      ensures r <==> Reaches(Waits(Abs().procs), dest, src)
    {
      ghost var g := Waits(Abs().procs);
      var proc := dest;
      ghost var passed: set<Pid> := {};
      while true
        invariant proc in table
        invariant Reaches(g, dest, src) <==> Reaches(g, proc, src)
        invariant passed <= g.Keys && forall p :: p in passed ==> Reaches(g, p, proc)
        decreases g.Keys - passed
      {
        assert ProcOk(Abs().procs, proc);
        if !table[proc].sending {
          NoWayOn(g, proc, src);
          return false;
        }
        ReachesFromTarget(g, proc, src);
        if table[proc].sendto == src {
          return true;
        }
        assert proc !in passed;
        ExtendAll(g, passed, proc);
        passed := passed + {proc};
        proc := table[proc].sendto;
      }
    }

    /** The walk to the end of a sending queue. */
    method LastSending(head: Pid, ghost q: seq<Pid>) returns (p: Pid)
      requires Chain(table, To(head), q)
      ensures q != [] && p == q[|q|-1]
    {
      p := head;
      ghost var i := 0;
      while table[p].nextSending != Null
        invariant 0 <= i < |q| && p == q[i]
        decreases |q| - i
      {
        assert table[q[i]].nextSending == Link(q, i + 1);
        p := table[p].nextSending.pid;
        i := i + 1;
      }
      assert table[q[i]].nextSending == Link(q, i + 1);
    }

    /** Puts `sender` at the end of the sending queue of `dest`. */
    method Append(sender: Pid, dest: Pid)
      requires Chained(table, queues) && sender in table && dest in table
      requires forall p :: p in queues ==> sender !in queues[p] && Distinct(queues[p])
      requires forall p :: p in queues && p != dest ==> Disjoint(queues[p], queues[dest])
      modifies this`table, this`queues
      ensures Chained(table, queues) && queues == old(queues)[dest := old(queues)[dest] + [sender]]
      ensures SameData(old(table), table)
    {
      ghost var q := queues[dest];
      assert Chain(table, table[dest].sendingQueue, q);
      AppendChains(table, queues, sender, dest);
      hide Chained;
      if table[dest].sendingQueue != Null {
        var p := LastSending(table[dest].sendingQueue.pid, q);
        table := table[p := table[p].(nextSending := To(sender))];
      } else {
        table := table[dest := table[dest].(sendingQueue := To(sender))];
      }
      table := table[sender := table[sender].(nextSending := Null)];
      queues := queues[dest := q + [sender]];
    }

    /** A write to the fields of one control block other than its links. */
    method Write(p: Pid, t: TCB)
      requires Chained(table, queues) && p in table
      requires t.sendingQueue == table[p].sendingQueue && t.nextSending == table[p].nextSending
      modifies this`table
      ensures Chained(table, queues) && table == old(table)[p := t]
      ensures ProcsOf(table, queues) == ProcsOf(old(table), queues)[p := Record(t, queues[p])]
    {
      ProcsUpdate(table, queues, p, t);
      SameLinks(table, table[p := t], queues);
      table := table[p := t];
    }

    method DeliverTo(dest: Pid, msg: Message)
      requires Chained(table, queues) && dest in table
      modifies this`table
      ensures Chained(table, queues)
      ensures ProcsOf(table, queues) == Deliver(ProcsOf(old(table), queues), dest, msg)
    {
      Write(dest, table[dest].(message := msg, receiving := false, recvfrom := NO_TASK, blocked := false));
    }

    method BlockSender(sender: Pid, dest: Pid, msg: Message, cont: Cont)
      requires Chained(table, queues) && sender in table && dest in table && sender != dest
      requires ProcsOk(ProcsOf(table, queues)) && !table[sender].sending
      modifies this`table, this`queues
      ensures Chained(table, queues)
      ensures ProcsOf(table, queues) == Enqueue(ProcsOf(old(table), old(queues)), sender, dest, msg, cont)
    {
      QueuesApart(table, queues);
      hide ProcsOk, Chain, ProcsOf, Enqueue, Disjoint, Distinct;
      ghost var t := table[sender].(sending := true, sendto := dest, message := msg, blocked := true, cont := cont);
      Write(sender, table[sender].(sending := true, sendto := dest, message := msg, blocked := true, cont := cont));
      Append(sender, dest);
      BlockedProcs(old(table), old(queues), table, sender, dest, t, msg, cont);
    }

    method MsgSend(sender: Pid, dest: nat, msg: Message, cont: Cont) returns (out: Outcome)
      requires Valid() && sender in table && Running(Abs().procs, sender)
      requires sender != dest && msg.source == sender
      requires dest in table ==> GoodCont(Abs().procs, sender, cont)
      modifies this
      ensures Did(out, Rendezvous.MsgSend(old(Abs()), sender, dest, msg, cont))
    {
      hide Inv, Reaches, Chain, Accept, Waits, ProcsOf, GoodCont, Rendezvous.MsgSend;
      SendStep(Abs(), sender, dest, msg, cont);
      var refused := Refuses(sender, dest);
      if refused {
        return Panicked;
      }
      Transmit(sender, dest, msg, cont);
      out := Returned;
    }

    method Refuses(sender: Pid, dest: nat) returns (r: bool)
      requires Valid()
      ensures r <==> dest !in table || Reaches(Waits(Abs().procs), dest, sender)
    {
      if dest !in table {
        return true;
      }
      r := DetectCycle(sender, dest);
    }

    /** The part of msg_send after the checks. */
    method Transmit(sender: Pid, dest: Pid, msg: Message, cont: Cont)
      requires Valid() && sender in table && dest in table && sender != dest && Running(Abs().procs, sender)
      modifies this`table, this`queues, this`accepted
      ensures Chained(table, queues)
      ensures Abs() == Accept(old(Abs()), sender, dest, msg, cont)
    {
      hide ProcsOk, HistoryOk, Chain;
      SendAsserts(Abs(), sender, dest);
      if (table[dest].receiving && table[dest].recvfrom == sender) || table[dest].recvfrom == ANY_TASK {
        assert table[dest].message.source > 0 && table[dest].blocked;
        DeliverTo(dest, msg);
      } else {
        assert !table[sender].receiving;
        BlockSender(sender, dest, msg, cont);
      }
      accepted := accepted + [Transfer(sender, dest, msg)];
    }

    /** The walk to the process before `src` in a sending queue; null if `src` is its first. */
    method Before(head: Pointer, src: Pid, ghost q: seq<Pid>)
      returns (prev: Pointer, ghost k: nat)
      requires Chain(table, head, q) && src in q
      ensures k < |q| && q[k] == src && prev == if k == 0 then Null else To(q[k-1])
    {
      prev := Null;
      var p := head;
      k := 0;
      while p != Null && p.pid != src
        invariant 0 <= k <= |q| && src !in q[..k]
        invariant p == Link(q, k)
        invariant prev == if k == 0 then Null else To(q[k-1])
        decreases |q| - k
      {
        assert table[q[k]].nextSending == Link(q, k + 1);
        prev := p;
        p := table[p.pid].nextSending;
        k := k + 1;
      }
    }

    /** Takes the process at place `k` out of the sending queue of `receiver`. */
    method Unqueue(receiver: Pid, from: Pid, prev: Pointer, ghost k: nat)
      requires Chained(table, queues) && receiver in table
      requires forall p :: p in queues ==> Distinct(queues[p])
      requires forall p, q :: p in queues && q in queues && p != q ==> Disjoint(queues[p], queues[q])
      requires k < |queues[receiver]| && queues[receiver][k] == from
      requires prev == if k == 0 then Null else To(queues[receiver][k-1])
      modifies this`table, this`queues
      ensures Chained(table, queues) && queues == old(queues)[receiver := Unlink(old(queues)[receiver], from)]
      ensures SameData(old(table), table)
    {
      hide Chain, Unlink, Disjoint, Distinct, SameData;
      ghost var q := queues[receiver];
      FrontOrNot(table, table[receiver].sendingQueue, q, k);
      UnlinkAt(q, from, k);
      UnlinkedChains(table, queues, receiver, k);
      hide Chained;
      if To(from) == table[receiver].sendingQueue {
        assert prev == Null;
        table := table[receiver := table[receiver].(sendingQueue := table[from].nextSending)];
        table := table[from := table[from].(nextSending := Null)];
      } else {
        assert prev != Null;
        table := table[prev.pid := table[prev.pid].(nextSending := table[from].nextSending)];
        table := table[from := table[from].(nextSending := Null)];
      }
      queues := queues[receiver := Unlink(q, from)];
    }

    /** Moves the message of a blocked sender to the receiver and unblocks the sender. */
    method TakeFrom(receiver: Pid, from: Pid, prev: Pointer, ghost k: nat)
      requires table.Keys == queues.Keys && Chained(table, queues)
      requires receiver in table && from in table && from != receiver
      requires ProcsOk(ProcsOf(table, queues))
      requires k < |queues[receiver]| && queues[receiver][k] == from
      requires prev == if k == 0 then Null else To(queues[receiver][k-1])
      modifies this`table, this`queues, this`delivered
      ensures Chained(table, queues)
      ensures ProcsOf(table, queues) == Dequeue(ProcsOf(old(table), old(queues)), receiver, from)
      ensures delivered == old(delivered) + [Transfer(old(table)[from].message.source, receiver, old(table)[from].message)]
    {
      hide ProcsOk, Chain, Chained, ProcsOf, Dequeue, Disjoint, Distinct, Unlink, SameData;
      QueuesApart(table, queues);
      Unqueue(receiver, from, prev, k);
      TakenProcs(old(table), old(queues), table, receiver, from);
      TakenLinks(table, queues, receiver, from);
      delivered := delivered + [Transfer(table[from].message.source, receiver, table[from].message)];
      table := table[from := table[from].(message := EMPTY_MESSAGE, sendto := NO_TASK, sending := false, blocked := false)];
      table := table[receiver := table[receiver].(cont := User)];
    }

    /** The sender whose message msg_receive copies, with the process before it in the queue. */
    method FindSender(receiver: Pid, src: nat) returns (from: Pointer, prev: Pointer, ghost k: nat)
      requires Chained(table, queues) && receiver in table && QueueOk(ProcsOf(table, queues), receiver)
      requires src == ANY_TASK || (src < TASK_MAX && src in table)
      ensures from == Link(Source(ProcsOf(table, queues), receiver, src), 0)
      ensures from != Null ==> k < |queues[receiver]| && queues[receiver][k] == from.pid
      ensures from != Null ==> prev == if k == 0 then Null else To(queues[receiver][k-1])
    {
      from, prev, k := Null, Null, 0;
      assert Chain(table, table[receiver].sendingQueue, queues[receiver]);
      if src == ANY_TASK {
        if table[receiver].sendingQueue != Null {
          from := table[receiver].sendingQueue;
        }
      } else if table[src].sending && table[src].sendto == receiver {
        from := To(src);
        prev, k := Before(table[receiver].sendingQueue, src, queues[receiver]);
      }
    }

    method TakeOrAwait(receiver: Pid, src: nat, buffer: Message)
      requires Valid() && receiver in table && Running(Abs().procs, receiver)
      requires src == ANY_TASK || (src < TASK_MAX && src in table)
      modifies this
      ensures Chained(table, queues)
      ensures var s := old(Abs()); var from := Source(s.procs, receiver, src);
        if from != [] then from[0] in s.procs && Abs() == Taking(s, receiver, from[0])
        else Abs() == s.(procs := Await(s.procs, receiver, src, buffer))
    {
      hide Inv, Chain, Running, Source, Dequeue, ProcsOk, QueueOk;
      SourceOk(Abs(), receiver, src);
      var from, prev, k := FindSender(receiver, src);
      if from != Null {
        TakeFrom(receiver, from.pid, prev, k);
      } else {
        var t := table[receiver];
        Write(receiver, t.(receiving := true, message := buffer, recvfrom := src, blocked := true, cont := Received));
      }
    }

    method MsgReceive(receiver: Pid, src: nat, buffer: Message) returns (out: Outcome)
      requires Valid() && receiver in table && Running(Abs().procs, receiver) && buffer.source == receiver
      requires src < TASK_MAX || src == ANY_TASK || src == INTR_TASK
      modifies this
      ensures Did(out, Rendezvous.MsgReceive(old(Abs()), receiver, src, buffer))
    {
      hide Inv, Chain, Running, Source, Await;
      ReceiveStep(Abs(), receiver, src, buffer);
      if (table[receiver].intrPresent && src == ANY_TASK) || src == INTR_TASK {
        var t := table[receiver];
        Write(receiver, t.(message := Message(INTR_TASK, HARD_INT, 0), intrPresent := false, cont := User));
        return Returned;
      }
      if src < TASK_MAX && src !in table {
        return Faulted;
      }
      TakeOrAwait(receiver, src, buffer);
      out := Returned;
    }

    method Return(p: Pid)
      requires Chained(table, queues) && p in table
      modifies this`table
      ensures Chained(table, queues)
      ensures ProcsOf(table, queues) == Rendezvous.Return(ProcsOf(old(table), queues), p)
    {
      hide Chain;
      Write(p, table[p].(cont := User));
    }

    /** A blocked process that was unblocked runs again. */
    method Resume(p: Pid) returns (out: Outcome)
      requires Valid() && p in table && table[p].cont != User && !table[p].blocked
      modifies this
      ensures Did(out, Rendezvous.Resume(old(Abs()), p))
    {
      hide Inv, Chain;
      ResumeStep(Abs(), p);
      match table[p].cont
      case SentThenReceive(src, buffer) =>
        ContOk(Abs(), p);
        out := MsgReceive(p, src, buffer);
      case Received =>
        delivered := delivered + [Transfer(table[p].message.source, p, table[p].message)];
        Return(p);
        out := Returned;
      case Sent =>
        Return(p);
        out := Returned;
    }

    method SysSendrec(caller: Pid, func: Func, srcDest: nat, msg: Message) returns (out: Outcome)
      requires Valid() && caller in table && table[caller].cont == User
      modifies this
      ensures Did(out, Rendezvous.SysSendrec(old(Abs()), caller, func, srcDest, msg))
    {
      hide Inv, Chain, Rendezvous.MsgSend, Rendezvous.MsgReceive;
      ExecStep(Abs(), Sendrec(caller, func, srcDest, msg));
      if !(0 < srcDest < TASK_MAX || srcDest == ANY_TASK || srcDest == INTR_TASK) {
        return Panicked;
      }
      var m := msg.(source := caller);
      if m.source == srcDest {
        return Panicked;
      }
      CallerOk(Abs(), caller, srcDest);
      match func
      case SEND => out := MsgSend(caller, srcDest, m, Sent);
      case RECEIVE => out := MsgReceive(caller, srcDest, m);
      case BOTH =>
        SendStep(Abs(), caller, srcDest, m, SentThenReceive(srcDest, m));
        out := MsgSend(caller, srcDest, m, SentThenReceive(srcDest, m));
        if out == Returned && !table[caller].blocked {
          out := MsgReceive(caller, srcDest, m);
        }
      case Other => out := Panicked;
    }

    method NotifyIntr(task: Pid) returns (out: Outcome)
      requires Valid() && task in table
      modifies this
      ensures Did(out, Rendezvous.NotifyIntr(old(Abs()), task))
    {
      hide Inv, Chain;
      InterruptStep(Abs(), task);
      var t := table[task];
      if t.receiving && (t.recvfrom == INTR_TASK || t.recvfrom == ANY_TASK) {
        Write(task, t.(message := Message(INTR_TASK, HARD_INT, t.message.payload), intrPresent := false,
                       receiving := false, recvfrom := NO_TASK, blocked := false));
        if t.sending || !t.blocked || t.sendto != NO_TASK {
          return Panicked;
        }
      } else {
        Write(task, t.(intrPresent := true));
      }
      out := Returned;
    }
  }

  /** The assertions of msg_receive hold when there is a message to take. */
  lemma SourceOk(s: State, receiver: Pid, src: nat)
    requires Inv(s) && Running(s.procs, receiver)
    requires src == ANY_TASK || (src < TASK_MAX && src in s.procs)
    ensures ProcsOk(s.procs) && QueueOk(s.procs, receiver)
    ensures var from := Source(s.procs, receiver, src);
      from != [] ==> from[0] in s.procs[receiver].queue && from[0] in s.procs && from[0] != receiver
  {
    assert QueueOk(s.procs, receiver);
    var from := Source(s.procs, receiver, src);
    if from != [] {
      assert ProcOk(s.procs, from[0]);
    }
  }

  lemma ContOk(s: State, p: Pid)
    requires Inv(s) && p in s.procs && s.procs[p].cont.SentThenReceive? && !s.procs[p].blocked
    ensures Running(s.procs, p)
    ensures s.procs[p].cont.buffer.source == p && s.procs[p].cont.src < TASK_MAX
  {
    assert ProcOk(s.procs, p);
  }

  lemma CallerOk(s: State, caller: Pid, srcDest: nat)
    requires Inv(s) && caller in s.procs && s.procs[caller].cont == User
    requires 0 < srcDest < TASK_MAX || srcDest == ANY_TASK || srcDest == INTR_TASK
    ensures Running(s.procs, caller)
    ensures srcDest in s.procs ==> srcDest < TASK_MAX
  {
    assert ProcOk(s.procs, caller);
    assert srcDest in s.procs ==> ProcOk(s.procs, srcDest);
  }

  /** The assertions of msg_send hold. */
  lemma SendAsserts(s: State, sender: Pid, dest: Pid)
    requires Inv(s) && Running(s.procs, sender) && dest in s.procs
    ensures var d := s.procs[dest]; Expects(d, sender) ==> d.receiving && d.message.source > 0 && d.blocked
    ensures !s.procs[sender].receiving && !s.procs[sender].sending
  {
    assert ProcOk(s.procs, dest) && ProcOk(s.procs, sender);
  }

  lemma SameLinks(table: Table, table': Table, queues: Queues)
    requires Chained(table, queues) && table'.Keys == table.Keys
    requires forall p :: p in table ==>
      table'[p].sendingQueue == table[p].sendingQueue && table'[p].nextSending == table[p].nextSending
    ensures Chained(table', queues)
  {
    forall p | p in table
      ensures Chain(table', table'[p].sendingQueue, queues[p])
    {
      ChainFrame(table, table', table[p].sendingQueue, queues[p]);
    }
  }

  lemma BlockedProcs(table: Table, queues: Queues, table': Table, sender: Pid, dest: Pid, t: TCB, msg: Message,
      cont: Cont)
    requires table.Keys == queues.Keys && sender in table && dest in table && sender != dest
    requires t == table[sender].(sending := true, sendto := dest, message := msg, blocked := true, cont := cont)
    requires SameData(table[sender := t], table')
    ensures ProcsOf(table', queues[dest := queues[dest] + [sender]]) == Enqueue(ProcsOf(table, queues), sender, dest, msg, cont)
  {
    var procs' := ProcsOf(table', queues[dest := queues[dest] + [sender]]);
    var enqueued := Enqueue(ProcsOf(table, queues), sender, dest, msg, cont);
    forall p | p in procs'
      ensures procs'[p] == enqueued[p]
    {
      assert Record(table[sender := t][p], []) == Record(table'[p], []);
    }
  }

  /** The table after the fields of `from` and `receiver` are written. */
  ghost function Taken(t: Table, receiver: Pid, from: Pid): Table
    requires receiver in t && from in t
  {
    var t1 := t[from := t[from].(message := EMPTY_MESSAGE, sendto := NO_TASK, sending := false, blocked := false)];
    t1[receiver := t1[receiver].(cont := User)]
  }

  lemma TakenLinks(t: Table, queues: Queues, receiver: Pid, from: Pid)
    requires Chained(t, queues) && receiver in t && from in t
    ensures Chained(Taken(t, receiver, from), queues)
  {
    SameLinks(t, Taken(t, receiver, from), queues);
  }

  lemma TakenProcs(table: Table, queues: Queues, unqueued: Table, receiver: Pid, from: Pid)
    requires table.Keys == queues.Keys && receiver in table && from in table && from != receiver
    requires SameData(table, unqueued)
    ensures receiver in unqueued && from in unqueued && unqueued[from].message == table[from].message
    ensures ProcsOf(Taken(unqueued, receiver, from), queues[receiver := Unlink(queues[receiver], from)])
      == Dequeue(ProcsOf(table, queues), receiver, from)
  {
    hide Unlink, ProcsOf, SameData, Dequeue;
    SameRecord(table, unqueued, queues, from);
    SameRecord(table, unqueued, queues, receiver);
    var q := Unlink(queues[receiver], from);
    var queues' := queues[receiver := q];
    var f := unqueued[from].(message := EMPTY_MESSAGE, sendto := NO_TASK, sending := false, blocked := false);
    var r := unqueued[receiver].(cont := User);
    ProcsQueue(table, queues, receiver, q);
    SameProcs(table, unqueued, queues');
    ProcsUpdate(unqueued, queues', from, f);
    ProcsUpdate(unqueued[from := f], queues', receiver, r);
    TakenUpdates(ProcsOf(table, queues), receiver, from, q, Record(f, queues[from]), Record(r, q));
  }

  lemma SameRecord(a: Table, b: Table, queues: Queues, p: Pid)
    requires SameData(a, b) && a.Keys == queues.Keys && p in a
    ensures p in b && b.Keys == a.Keys && ProcsOf(a, queues)[p] == Record(b[p], queues[p]) == Record(a[p], queues[p])
  {
    assert Record(a[p], []) == Record(b[p], []);
  }

  lemma TakenUpdates(procs: Procs, receiver: Pid, from: Pid, q: seq<Pid>, f: Proc, r: Proc)
    requires receiver in procs && from in procs && from != receiver && q == Unlink(procs[receiver].queue, from)
    requires f == procs[from].(message := EMPTY_MESSAGE, sendto := NO_TASK, sending := false, blocked := false)
    requires r == procs[receiver].(queue := q, cont := User)
    ensures procs[receiver := procs[receiver].(queue := q)][from := f][receiver := r] == Dequeue(procs, receiver, from)
  {
    hide Unlink;
  }

  lemma SameProcs(a: Table, b: Table, queues: Queues)
    requires SameData(a, b) && a.Keys == queues.Keys
    ensures ProcsOf(a, queues) == ProcsOf(b, queues)
  {
    forall p | p in a ensures ProcsOf(a, queues)[p] == ProcsOf(b, queues)[p] {
      assert Record(a[p], []) == Record(b[p], []);
    }
  }

  lemma ProcsQueue(table: Table, queues: Queues, p: Pid, q: seq<Pid>)
    requires table.Keys == queues.Keys && p in table
    ensures ProcsOf(table, queues[p := q]) == ProcsOf(table, queues)[p := ProcsOf(table, queues)[p].(queue := q)]
  {
  }

  ghost predicate SameData(a: Table, b: Table) {
    a.Keys == b.Keys && forall p :: p in a ==> Record(a[p], []) == Record(b[p], [])
  }

  /** The writes that link `sender` behind the queue `q` of `dest`. */
  ghost function Linked(table: Table, sender: Pid, dest: Pid, q: seq<Pid>): (t: Table)
    requires sender in table && dest in table && forall x :: x in q ==> x in table
    ensures t.Keys == table.Keys
  {
    var t :=
      if q != [] then var p := q[|q|-1]; table[p := table[p].(nextSending := To(sender))]
      else table[dest := table[dest].(sendingQueue := To(sender))];
    t[sender := t[sender].(nextSending := Null)]
  }

  lemma ChainKept(table: Table, queues: Queues, sender: Pid, dest: Pid, p: Pid)
    requires Chained(table, queues) && sender in table && dest in table && p in table && p != dest
    requires sender !in queues[p] && Disjoint(queues[p], queues[dest])
    requires Chain(table, table[dest].sendingQueue, queues[dest])
    ensures var t := Linked(table, sender, dest, queues[dest]); Chain(t, t[p].sendingQueue, queues[p])
  {
    var q := queues[dest];
    assert q != [] ==> q[|q|-1] in q;
    ChainFrame(table, Linked(table, sender, dest, q), table[p].sendingQueue, queues[p]);
  }

  lemma AppendChains(table: Table, queues: Queues, sender: Pid, dest: Pid)
    requires Chained(table, queues) && sender in table && dest in table
    requires forall p :: p in queues ==> sender !in queues[p] && Distinct(queues[p])
    requires forall p :: p in queues && p != dest ==> Disjoint(queues[p], queues[dest])
    ensures var q := queues[dest];
      && (forall x :: x in q ==> x in table)
      && Chained(Linked(table, sender, dest, q), queues[dest := q + [sender]])
      && SameData(table, Linked(table, sender, dest, q))
  {
    var q := queues[dest];
    assert Chain(table, table[dest].sendingQueue, q);
    ChainGrows(table, sender, dest, q);
    forall p | p in table && p != dest
      ensures var t := Linked(table, sender, dest, q); Chain(t, t[p].sendingQueue, queues[p])
    {
      ChainKept(table, queues, sender, dest, p);
    }
    LinkedData(table, sender, dest, q);
    hide Chain, Linked, SameData;
  }

  lemma LinkedData(table: Table, sender: Pid, dest: Pid, q: seq<Pid>)
    requires sender in table && dest in table && forall x :: x in q ==> x in table
    ensures SameData(table, Linked(table, sender, dest, q))
  {
  }

  /** The writes that take the process at place `k` of the queue `q` of `receiver` out of it. */
  ghost function Unlinked(table: Table, receiver: Pid, q: seq<Pid>, k: nat): (t: Table)
    requires receiver in table && k < |q| && forall x :: x in q ==> x in table
    ensures t.Keys == table.Keys
  {
    var next := table[q[k]].nextSending;
    var t :=
      if k == 0 then table[receiver := table[receiver].(sendingQueue := next)]
      else var p := q[k-1]; assert p in q; table[p := table[p].(nextSending := next)];
    t[q[k] := t[q[k]].(nextSending := Null)]
  }

  lemma UnlinkedData(table: Table, receiver: Pid, q: seq<Pid>, k: nat)
    requires receiver in table && k < |q| && forall x :: x in q ==> x in table
    ensures SameData(table, Unlinked(table, receiver, q, k))
  {
  }

  /** The head of a queue points to the process at place `k` exactly when `k` is 0. */
  lemma FrontOrNot(table: Table, head: Pointer, q: seq<Pid>, k: nat)
    requires Chain(table, head, q) && Distinct(q) && k < |q|
    ensures head == To(q[k]) <==> k == 0
    ensures q[k] in table && (k > 0 ==> q[k-1] in table && q[k-1] != q[k])
  {
    assert q[k] in q && (k > 0 ==> q[k-1] in q);
  }

  /** The links of `x` after the writes of Unlinked. */
  lemma UnlinkedLinks(table: Table, receiver: Pid, q: seq<Pid>, k: nat, x: Pid)
    requires receiver in table && k < |q| && (forall y :: y in q ==> y in table) && x in table
    requires k > 0 ==> q[k-1] != q[k]
    ensures var t, next := Unlinked(table, receiver, q, k), table[q[k]].nextSending;
      && t[x].nextSending == (if x == q[k] then Null else if k > 0 && x == q[k-1] then next else table[x].nextSending)
      && t[receiver].sendingQueue == (if k == 0 then next else table[receiver].sendingQueue)
  {
  }

  lemma ShrunkLink(table: Table, receiver: Pid, q: seq<Pid>, k: nat, j: nat)
    requires receiver in table && k < |q| && j < |q| && j != k
    requires Chain(table, table[receiver].sendingQueue, q) && Distinct(q)
    ensures q[j] in table
    ensures Unlinked(table, receiver, q, k)[q[j]].nextSending == Link(q, if j + 1 == k then j + 2 else j + 1)
  {
    assert q[j] in q && table[q[j]].nextSending == Link(q, j + 1);
    assert q[k] in q && table[q[k]].nextSending == Link(q, k + 1);
    hide Chain, Unlinked;
    UnlinkedLinks(table, receiver, q, k, q[j]);
  }

  lemma LinkShift(q: seq<Pid>, k: nat, i: nat)
    requires k < |q| && i < |q| - 1
    ensures var q', j := q[..k] + q[k+1..], if i < k then i else i + 1;
      q'[i] == q[j] && Link(q', i + 1) == Link(q, if j + 1 == k then j + 2 else j + 1)
  {
  }

  lemma ChainShrinks(table: Table, receiver: Pid, q: seq<Pid>, k: nat)
    requires receiver in table && k < |q|
    requires Chain(table, table[receiver].sendingQueue, q) && Distinct(q)
    ensures var t := Unlinked(table, receiver, q, k); Chain(t, t[receiver].sendingQueue, q[..k] + q[k+1..])
  {
    hide Unlinked, Distinct;
    var t, q' := Unlinked(table, receiver, q, k), q[..k] + q[k+1..];
    assert forall x :: x in q' ==> x in q;
    FrontOrNot(table, table[receiver].sendingQueue, q, k);
    UnlinkedLinks(table, receiver, q, k, receiver);
    forall i, j | 0 <= i < |q'| && j == i + 1
      ensures t[q'[i]].nextSending == Link(q', j)
    {
      ShrunkLink(table, receiver, q, k, if i < k then i else i + 1);
      LinkShift(q, k, i);
    }
    assert table[q[k]].nextSending == Link(q, k + 1);
  }

  lemma ChainKept2(table: Table, queues: Queues, receiver: Pid, k: nat, p: Pid)
    requires Chained(table, queues) && receiver in table && p in table && p != receiver
    requires k < |queues[receiver]| && Disjoint(queues[p], queues[receiver])
    requires Chain(table, table[receiver].sendingQueue, queues[receiver])
    ensures var t := Unlinked(table, receiver, queues[receiver], k); Chain(t, t[p].sendingQueue, queues[p])
  {
    var q := queues[receiver];
    assert q[k] in q && (k > 0 ==> q[k-1] in q);
    ChainFrame(table, Unlinked(table, receiver, q, k), table[p].sendingQueue, queues[p]);
  }

  lemma UnlinkedChains(table: Table, queues: Queues, receiver: Pid, k: nat)
    requires Chained(table, queues) && receiver in table && k < |queues[receiver]|
    requires forall p :: p in queues ==> Distinct(queues[p])
    requires forall p, q :: p in queues && q in queues && p != q ==> Disjoint(queues[p], queues[q])
    ensures var q := queues[receiver];
      && (forall x :: x in q ==> x in table)
      && Chained(Unlinked(table, receiver, q, k), queues[receiver := q[..k] + q[k+1..]])
      && SameData(table, Unlinked(table, receiver, q, k))
  {
    var q := queues[receiver];
    assert Chain(table, table[receiver].sendingQueue, q);
    ChainShrinks(table, receiver, q, k);
    forall p | p in table && p != receiver
      ensures var t := Unlinked(table, receiver, q, k); Chain(t, t[p].sendingQueue, queues[p])
    {
      ChainKept2(table, queues, receiver, k, p);
    }
    UnlinkedData(table, receiver, q, k);
    hide Chain, Unlinked, SameData;
  }

  lemma ChainGrows(table: Table, sender: Pid, dest: Pid, q: seq<Pid>)
    requires sender in table && dest in table
    requires Chain(table, table[dest].sendingQueue, q) && Distinct(q) && sender !in q
    ensures var t := Linked(table, sender, dest, q); Chain(t, t[dest].sendingQueue, q + [sender])
  {
    var t, q' := Linked(table, sender, dest, q), q + [sender];
    forall i, j | 0 <= i < |q'| && j == i + 1
      ensures t[q'[i]].nextSending == Link(q', j)
    {
      if i < |q| {
        assert q[i] in q && table[q[i]].nextSending == Link(q, i + 1);
      }
    }
  }

  lemma NoWayOn(g: Graph, p: Pid, b: Pid)
    requires p !in g
    ensures !Reaches(g, p, b)
  {
    assert forall n: nat :: n > 0 ==> !ReachesIn(g, p, b, n);
  }

  lemma ExtendAll(g: Graph, passed: set<Pid>, p: Pid)
    requires p in g && forall x :: x in passed ==> Reaches(g, x, p)
    ensures forall x :: x in passed + {p} ==> Reaches(g, x, g[p])
  {
    assert ReachesIn(g, p, g[p], 1);
    forall x | x in passed
      ensures Reaches(g, x, g[p])
    {
      var n: nat :| n > 0 && ReachesIn(g, x, p, n);
      Concat(g, x, p, g[p], n, 1);
    }
  }
}
