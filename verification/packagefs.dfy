/** core/vfs/packagefs.c: packets in a byte queue, with any number of senders and one receiver.
    Every pass through a critical section of the queue is one step. */
module PackageFs {
  import opened IoQueue
  import B = BlockingQueue
  import opened Sequences

  const QUEUE_SIZE: nat := 4000
  const MAX_PACKET_SIZE: nat := 1024

  type Word = n: nat | n < 0x1_0000_0000
  type Sender = nat

  /** `source` is the address of the client, or 0 for the server. */
  datatype Packet = Packet(source: Word, data: seq<Byte>)

  // ----- frames

  /** The four bytes of a uint_32 in memory. */
  function Encode(n: Word): (b: seq<Byte>)
    ensures |b| == 4
  {
    [n % 0x100, n / 0x100 % 0x100, n / 0x1_0000 % 0x100, n / 0x100_0000]
  }

  function Decode(b: seq<Byte>): Word
    requires |b| == 4
  {
    var b0: nat, b1: nat, b2: nat, b3: nat := b[0], b[1], b[2], b[3];
    b0 + 0x100 * b1 + 0x1_0000 * b2 + 0x100_0000 * b3
  }

  lemma DecodeEncode(n: Word)
    ensures Decode(Encode(n)) == n
  {
    var q1 := n / 0x100;
    var q2 := q1 / 0x100;
    var q3 := q2 / 0x100;
    assert n / 0x1_0000 == q2 && n / 0x100_0000 == q3;
    assert n == 0x100 * q1 + n % 0x100 && q1 == 0x100 * q2 + q1 % 0x100 && q2 == 0x100 * q3 + q2 % 0x100;
  }

  predicate Sendable(p: Packet) {
    |p.data| <= MAX_PACKET_SIZE
  }

  /** A packet as send_to_server and send_to_client lay it out. */
  function Frame(p: Packet): (f: seq<Byte>)
    requires Sendable(p)
    ensures |f| == 8 + |p.data|
  {
    Encode(|p.data|) + Encode(p.source) + p.data
  }

  predicate AllSendable(ps: seq<Packet>) {
    forall i :: 0 <= i < |ps| ==> Sendable(ps[i])
  }

  function Frames(ps: seq<Packet>): seq<Byte>
    requires AllSendable(ps)
  {
    if ps == [] then [] else Frame(ps[0]) + Frames(ps[1..])
  }

  lemma {:induction false} FramesSnoc(ps: seq<Packet>, p: Packet)
    requires AllSendable(ps) && Sendable(p)
    ensures Frames(ps + [p]) == Frames(ps) + Frame(p)
  {
    if ps == [] {
      assert [p][1..] == [];
    } else {
      FramesSnoc(ps[1..], p);
      assert (ps + [p])[1..] == ps[1..] + [p];
    }
  }

  // ----- the steps

  datatype SenderState = Idle | Ready(packet: Packet) | Parked(packet: Packet)

  /** Where the receiver is in receive_packet: before its first get, or before its second, having
      read the size. */
  datatype ReceiverState = Resting | Header | HeaderParked | Body(size: nat) | BodyParked(size: nat)

  datatype State = State(
    contents: seq<Byte>, senders: map<Sender, SenderState>, receiver: ReceiverState,
    sent: seq<Packet>, received: seq<Packet>)

  function WakeReceiver(r: ReceiverState): ReceiverState {
    match r
    case HeaderParked => Header
    case BodyParked(n) => Body(n)
    case _ => r
  }

  function WakeSenders(senders: map<Sender, SenderState>): map<Sender, SenderState> {
    map p | p in senders :: if senders[p].Parked? then Ready(senders[p].packet) else senders[p]
  }

  /** One pass of ioqueue_put_data for a frame. */
  function PutStep(s: State, p: Sender): State
    requires p in s.senders && s.senders[p].Ready? && Sendable(s.senders[p].packet)
  {
    var packet := s.senders[p].packet;
    var awake := s.(receiver := WakeReceiver(s.receiver));
    if Fits(QUEUE_SIZE, s.contents, |Frame(packet)|) then
      awake.(contents := s.contents + Frame(packet), senders := s.senders[p := Idle], sent := s.sent + [packet])
    else
      awake.(senders := s.senders[p := Parked(packet)])
  }

  /** One pass of ioqueue_get_data, for the size or for the rest of the packet. */
  function GetStep(s: State): State
    requires s.receiver.Header? || s.receiver.Body?
  {
    var awake := s.(senders := WakeSenders(s.senders));
    match s.receiver
    case Header =>
      if |s.contents| >= 4 then awake.(contents := s.contents[4..], receiver := Body(Decode(s.contents[..4])))
      else awake.(receiver := HeaderParked)
    case Body(size) =>
      var count := size + 8 - 4;
      if |s.contents| >= count then
        var packet := Packet(Decode(s.contents[..4]), s.contents[4..count]);
        awake.(contents := s.contents[count..], receiver := Resting, received := s.received + [packet])
      else awake.(receiver := BodyParked(size))
  }

  datatype Action = Send(p: Sender, packet: Packet) | Put(p: Sender) | Receive | Get

  /** Senders keep to the size limit that write_client and write_server enforce. */
  predicate Possible(s: State, a: Action) {
    match a
    case Send(p, packet) => p in s.senders && s.senders[p].Idle? && Sendable(packet)
    case Put(p) => p in s.senders && s.senders[p].Ready? && Sendable(s.senders[p].packet)
    case Receive => s.receiver.Resting?
    case Get => s.receiver.Header? || s.receiver.Body?
  }

  function Step(s: State, a: Action): State
    requires Possible(s, a)
  {
    match a
    case Send(p, packet) => s.(senders := s.senders[p := Ready(packet)])
    case Put(p) => PutStep(s, p)
    case Receive => s.(receiver := Header)
    case Get => GetStep(s)
  }

  function Initial(senders: set<Sender>): State {
    State([], map p | p in senders :: Idle, Resting, [], [])
  }

  predicate Leads(s: State, actions: seq<Action>, t: State)
    decreases |actions|
  {
    if actions == [] then s == t
    else Possible(s, actions[0]) && Leads(Step(s, actions[0]), actions[1..], t)
  }

  ghost predicate Reachable(s: State) {
    exists senders, actions :: Leads(Initial(senders), actions, s)
  }

  // ----- the invariant

  /** The packets sent and not yet received, oldest first. */
  function Pending(s: State): seq<Packet>
    requires |s.received| <= |s.sent|
  {
    s.sent[|s.received|..]
  }

  /** The queue holds whole frames, after what is left of the one being received. */
  ghost predicate Framed(s: State) {
    && s.received <= s.sent && AllSendable(s.sent)
    && var pending := Pending(s);
    if s.receiver.Body? then
      && pending != [] && s.receiver.size == |pending[0].data|
      && s.contents == Frame(pending[0])[4..] + Frames(pending[1..])
    else s.contents == Frames(pending)
  }

  ghost predicate Inv(s: State) {
    && Framed(s)
    && !s.receiver.BodyParked?
    && (s.receiver.HeaderParked? ==> s.contents == [])
    && (forall p :: p in s.senders && !s.senders[p].Idle? ==> Sendable(s.senders[p].packet))
    && (forall p :: p in s.senders && s.senders[p].Parked? ==>
          !Fits(QUEUE_SIZE, s.contents, 8 + |s.senders[p].packet.data|))
  }

  lemma PutFrames(s: State, p: Sender)
    requires Framed(s) && Possible(s, Put(p)) && !s.receiver.BodyParked?
    requires Fits(QUEUE_SIZE, s.contents, |Frame(s.senders[p].packet)|)
    ensures Framed(PutStep(s, p))
  {
    hide Frame, Frames;
    var s', packet := PutStep(s, p), s.senders[p].packet;
    var pending := Pending(s);
    assert Pending(s') == pending + [packet];
    assert s'.contents == s.contents + Frame(packet);
    if s.receiver.Body? {
      FramesSnoc(pending[1..], packet);
      assert (pending + [packet])[1..] == pending[1..] + [packet];
      assert s'.contents == Frame(pending[0])[4..] + (Frames(pending[1..]) + Frame(packet));
    } else {
      FramesSnoc(pending, packet);
    }
  }

  lemma PutKeeps(s: State, p: Sender)
    requires Inv(s) && Possible(s, Put(p))
    ensures Inv(Step(s, Put(p)))
  {
    if Fits(QUEUE_SIZE, s.contents, |Frame(s.senders[p].packet)|) {
      PutFrames(s, p);
      hide Framed;
    }
  }

  lemma HeaderKeeps(s: State)
    requires Inv(s) && s.receiver.Header?
    ensures Inv(GetStep(s))
  {
    var pending := Pending(s);
    if pending != [] {
      var f := Frame(pending[0]);
      assert s.contents[..4] == Encode(|pending[0].data|);
      DecodeEncode(|pending[0].data|);
      assert s.contents[4..] == f[4..] + Frames(pending[1..]);
    }
  }

  lemma BodyKeeps(s: State)
    requires Inv(s) && s.receiver.Body?
    ensures Inv(GetStep(s)) && GetStep(s).received == s.received + [Pending(s)[0]]
  {
    var pending := Pending(s);
    var packet := pending[0];
    var rest := Frame(packet)[4..];
    assert rest == Encode(packet.source) + packet.data;
    var count := s.receiver.size + 4;
    assert s.contents[..4] == Encode(packet.source);
    DecodeEncode(packet.source);
    assert s.contents[4..count] == packet.data;
    assert s.contents[count..] == Frames(pending[1..]);
    assert s.sent[..|s.received| + 1] == s.received + [packet];
  }

  lemma StepKeeps(s: State, a: Action)
    requires Inv(s) && Possible(s, a)
    ensures Inv(Step(s, a))
  {
    match a
    case Send(_, _) =>
    case Put(p) => PutKeeps(s, p);
    case Receive =>
    case Get =>
      if s.receiver.Header? {
        HeaderKeeps(s);
      } else {
        BodyKeeps(s);
      }
  }

  lemma {:induction false} LeadsKeeps(s: State, actions: seq<Action>, t: State)
    requires Inv(s) && Leads(s, actions, t)
    ensures Inv(t)
    decreases |actions|
  {
    hide Inv, Step;
    if actions != [] {
      StepKeeps(s, actions[0]);
      LeadsKeeps(Step(s, actions[0]), actions[1..], t);
    }
  }

  lemma ReachableOk(s: State)
    requires Reachable(s)
    ensures Inv(s)
  {
    var senders, actions :| Leads(Initial(senders), actions, s);
    LeadsKeeps(Initial(senders), actions, s);
  }

  // ----- what it means

  /** The receiver is given exactly the packets sent, in the order they were put, and all of them
      once the queue is empty and no packet is half read. */
  lemma PacketsInOrder(s: State)
    requires Reachable(s)
    ensures s.received <= s.sent
    ensures s.contents == [] && !s.receiver.Body? ==> s.received == s.sent
  {
    ReachableOk(s);
  }

  /** A packet and who sent it. */
  datatype Parcel = Parcel(sender: Sender, packet: Packet)

  /** The put that goes through in a step, if one does. */
  function PassedIn(s: State, a: Action): seq<Parcel>
    requires Possible(s, a)
  {
    if a.Put? && Step(s, a).senders[a.p].Idle? then [Parcel(a.p, s.senders[a.p].packet)] else []
  }

  /** The puts that go through in a run, in order. */
  function Passed(s: State, actions: seq<Action>): seq<Parcel>
    decreases |actions|
  {
    if actions == [] || !Possible(s, actions[0]) then []
    else PassedIn(s, actions[0]) + Passed(Step(s, actions[0]), actions[1..])
  }

  function PacketsOf(parcels: seq<Parcel>): seq<Packet> {
    if parcels == [] then [] else [parcels[0].packet] + PacketsOf(parcels[1..])
  }

  function PacketsBy(parcels: seq<Parcel>, p: Sender): seq<Packet> {
    if parcels == [] then []
    else (if parcels[0].sender == p then [parcels[0].packet] else []) + PacketsBy(parcels[1..], p)
  }

  /** The packets that `p` is asked to send in a run, in order. */
  function Asked(actions: seq<Action>, p: Sender): seq<Packet> {
    if actions == [] then []
    else (if actions[0].Send? && actions[0].p == p then [actions[0].packet] else []) + Asked(actions[1..], p)
  }

  /** The packet whose put `p` is in. */
  function InPut(s: State, p: Sender): seq<Packet> {
    if p in s.senders && !s.senders[p].Idle? then [s.senders[p].packet] else []
  }

  lemma StepPasses(s: State, a: Action, p: Sender)
    requires Possible(s, a)
    ensures var r := Step(s, a);
      && r.sent == s.sent + PacketsOf(PassedIn(s, a))
      && InPut(s, p) + Asked([a], p) == PacketsBy(PassedIn(s, a), p) + InPut(r, p)
  {
    hide Frame, Decode;
    assert [a][1..] == [];
    var passed := PassedIn(s, a);
    assert passed != [] ==> passed[1..] == [];
  }

  lemma {:induction false} PacketsJoined(a: seq<Parcel>, b: seq<Parcel>)
    ensures PacketsOf(a + b) == PacketsOf(a) + PacketsOf(b)
  {
    if a == [] {
      assert a + b == b;
    } else {
      PacketsJoined(a[1..], b);
      assert (a + b)[1..] == a[1..] + b;
    }
  }

  lemma {:induction false} SendersJoined(a: seq<Parcel>, b: seq<Parcel>, p: Sender)
    ensures PacketsBy(a + b, p) == PacketsBy(a, p) + PacketsBy(b, p)
  {
    if a == [] {
      assert a + b == b;
    } else {
      SendersJoined(a[1..], b, p);
      assert (a + b)[1..] == a[1..] + b;
      var first := if a[0].sender == p then [a[0].packet] else [];
      assert first + (PacketsBy(a[1..], p) + PacketsBy(b, p)) == first + PacketsBy(a[1..], p) + PacketsBy(b, p);
    }
  }

  lemma {:induction false} LeadsSent(s: State, actions: seq<Action>, t: State)
    requires Leads(s, actions, t)
    ensures t.sent == s.sent + PacketsOf(Passed(s, actions))
    decreases |actions|
  {
    hide Step, Possible, PassedIn, PacketsOf, PacketsBy, InPut, Asked;
    if actions == [] {
      PacketsNone(0);
    } else {
      var r, first := Step(s, actions[0]), PassedIn(s, actions[0]);
      var rest := Passed(r, actions[1..]);
      StepPasses(s, actions[0], 0);
      LeadsSent(r, actions[1..], t);
      PacketsJoined(first, rest);
      Joined(s.sent, PacketsOf(first), PacketsOf(rest));
    }
  }

  lemma {:induction false} LeadsPasses(s: State, actions: seq<Action>, t: State, p: Sender)
    requires Leads(s, actions, t)
    ensures InPut(s, p) + Asked(actions, p) == PacketsBy(Passed(s, actions), p) + InPut(t, p)
    decreases |actions|
  {
    hide Step, Possible, InPut, PassedIn, PacketsBy, PacketsOf, Asked;
    FirstAsked(actions, p);
    if actions == [] {
      PacketsNone(p);
    } else {
      var a, r, first := [actions[0]], Step(s, actions[0]), PassedIn(s, actions[0]);
      var rest := Passed(r, actions[1..]);
      StepPasses(s, actions[0], p);
      LeadsPasses(r, actions[1..], t, p);
      SendersJoined(first, rest, p);
      Joined(InPut(s, p), Asked(a, p), Asked(actions[1..], p));
      Joined(PacketsBy(first, p), InPut(r, p), Asked(actions[1..], p));
      Joined(PacketsBy(first, p), PacketsBy(rest, p), InPut(t, p));
    }
  }

  lemma FirstAsked(actions: seq<Action>, p: Sender)
    ensures actions == [] ==> Asked(actions, p) == []
    ensures actions != [] ==> Asked(actions, p) == Asked([actions[0]], p) + Asked(actions[1..], p)
  {
    if actions != [] {
      assert [actions[0]][1..] == [];
    }
  }

  lemma PacketsNone(p: Sender)
    ensures PacketsOf([]) == [] && PacketsBy([], p) == []
  {
  }

  /** Over any run, the packets that went into the queue are, sender by sender and in order, those that
      each was asked to send, but for the one whose put it is in. */
  lemma SentAsAsked(names: set<Sender>, actions: seq<Action>, s: State, p: Sender)
    requires Leads(Initial(names), actions, s)
    ensures var passed := Passed(Initial(names), actions);
      s.sent == PacketsOf(passed) && Asked(actions, p) == PacketsBy(passed, p) + InPut(s, p)
  {
    LeadsSent(Initial(names), actions, s);
    LeadsPasses(Initial(names), actions, s, p);
    assert [] + PacketsOf(Passed(Initial(names), actions)) == PacketsOf(Passed(Initial(names), actions));
  }

  /** At every moment the queue holds whole frames, behind the rest of at most one frame that is
      being received. */
  lemma WholeFrames(s: State)
    requires Reachable(s)
    ensures Framed(s)
  {
    ReachableOk(s);
  }

  /** The second get of receive_packet finds the rest of the packet and completes it, whatever
      the senders did since the first. */
  lemma SecondGetCompletes(s: State)
    requires Reachable(s) && s.receiver.Body?
    ensures |s.received| < |s.sent|
    ensures GetStep(s).receiver == Resting && GetStep(s).received == s.received + [s.sent[|s.received|]]
  {
    ReachableOk(s);
    BodyKeeps(s);
  }

  /** A parked receiver is woken by the next put that goes through; a parked sender that is woken
      with nobody else waiting goes through once the queue has been emptied. */
  lemma ProgressAfterPark(s: State, p: Sender)
    requires Reachable(s) && Possible(s, Put(p))
    ensures s.receiver.HeaderParked? ==> Step(s, Put(p)).sent == s.sent + [s.senders[p].packet] && Step(s, Put(p)).receiver == Header
    ensures s.contents == [] ==> Step(s, Put(p)).senders[p] == Idle
  {
    ReachableOk(s);
  }

  // ----- the same steps as passes on the blocking ring

  ghost predicate SendersOk(s: State) {
    forall p :: p in s.senders && !s.senders[p].Idle? ==> Sendable(s.senders[p].packet)
  }

  /** Sender `p` is thread `p + 1` of the ring, and the receiver is thread 0. */
  function Threads(s: State): map<B.Tid, B.Op>
    requires SendersOk(s)
  {
    var tids := if s.receiver.Resting? then Busy(s.senders) else Busy(s.senders) + {0};
    map t | t in tids :: if t == 0 then ReceiverOp(s.receiver) else SenderOp(s.senders[t - 1])
  }

  function Busy(senders: map<Sender, SenderState>): set<B.Tid> {
    set p | p in senders && !senders[p].Idle? :: p + 1
  }

  lemma BusyOf(senders: map<Sender, SenderState>, t: B.Tid)
    ensures t in Busy(senders) <==> t > 0 && t - 1 in senders && !senders[t - 1].Idle?
  {
    if t > 0 && t - 1 in senders && !senders[t - 1].Idle? {
      assert t == (t - 1) + 1;
    }
  }

  function SenderOp(r: SenderState): B.Op
    requires !r.Idle? && Sendable(r.packet)
  {
    B.Put(Frame(r.packet), r.Parked?)
  }

  function ReceiverOp(r: ReceiverState): B.Op {
    match r
    case Header => B.Get(4, false)
    case HeaderParked => B.Get(4, true)
    case Body(size) => B.Get(size + 8 - 4, false)
    case BodyParked(size) => B.Get(size + 8 - 4, true)
    case Resting => B.Get(0, false)
  }

  /** `b` is what the ring and its threads look like in `s`. */
  ghost predicate Mirrors(b: B.State, s: State) {
    SendersOk(s) && b.contents == s.contents && b.threads == Threads(s)
  }

  lemma ThreadOf(s: State, t: B.Tid)
    requires SendersOk(s)
    ensures t in Threads(s) <==> if t == 0 then !s.receiver.Resting? else t - 1 in s.senders && !s.senders[t - 1].Idle?
    ensures t in Threads(s) ==> Threads(s)[t] == if t == 0 then ReceiverOp(s.receiver) else SenderOp(s.senders[t - 1])
  {
    hide Busy, ReceiverOp, SenderOp, Frame;
    BusyOf(s.senders, t);
  }

  /** A put of a packet is a put of its frame on the ring. */
  lemma PutMirrors(b: B.State, s: State, p: Sender)
    requires Mirrors(b, s) && Possible(s, Put(p))
    ensures p + 1 in b.threads && b.threads[p + 1] == B.Put(Frame(s.senders[p].packet), false)
    ensures Mirrors(B.PutStep(QUEUE_SIZE, b, p + 1), PutStep(s, p))
  {
    hide Frame, Threads;
    ThreadOf(s, p + 1);
    var r, r' := PutStep(s, p), B.PutStep(QUEUE_SIZE, b, p + 1);
    forall t: nat
      ensures t in r'.threads <==> t in Threads(r)
      ensures t in r'.threads ==> r'.threads[t] == Threads(r)[t]
    {
      ThreadOf(s, t);
      ThreadOf(r, t);
    }
  }

  /** What the ring looks like once the receiver, having the size, has begun its second get. */
  function Next(b: B.State, r: ReceiverState): B.State {
    if r.Body? then b.(threads := b.threads[0 := ReceiverOp(r)]) else b
  }

  /** A get of the receiver is a get on the ring. */
  lemma GetMirrors(b: B.State, s: State)
    requires Mirrors(b, s) && Possible(s, Get)
    ensures 0 in b.threads && b.threads[0] == ReceiverOp(s.receiver)
    ensures GetStep(s).receiver.Body? ==> 0 !in B.GetStep(b, 0).threads
    ensures Mirrors(Next(B.GetStep(b, 0), GetStep(s).receiver), GetStep(s))
  {
    hide Frame, Threads;
    ThreadOf(s, 0);
    var r := GetStep(s);
    var r' := Next(B.GetStep(b, 0), r.receiver);
    forall t: nat
      ensures t in r'.threads <==> t in Threads(r)
      ensures t in r'.threads ==> r'.threads[t] == Threads(r)[t]
    {
      ThreadOf(s, t);
      ThreadOf(r, t);
    }
  }

  /** A client's packet enters a put; the reader enters receive_packet. */
  lemma StartMirrors(b: B.State, s: State, a: Action)
    requires Mirrors(b, s) && Possible(s, a) && (a.Send? || a.Receive?)
    ensures var t, op := if a.Send? then a.p + 1 else 0, if a.Send? then B.Put(Frame(a.packet), false) else B.Get(4, false);
      t !in b.threads && Mirrors(b.(threads := b.threads[t := op]), Step(s, a))
  {
    hide Frame, Threads;
    var r := Step(s, a);
    var t, op := if a.Send? then a.p + 1 else 0, if a.Send? then B.Put(Frame(a.packet), false) else B.Get(4, false);
    forall x: nat
      ensures x in b.threads[t := op] <==> x in Threads(r)
      ensures x in Threads(r) ==> b.threads[t := op][x] == Threads(r)[x]
    {
      ThreadOf(s, x);
      ThreadOf(r, x);
    }
    ThreadOf(s, t);
  }

  /** What the receiver learns from the bytes of a get, if it gets them. */
  lemma GetData(s: State)
    requires s.receiver.Header? || s.receiver.Body?
    ensures var r, count := GetStep(s), ReceiverOp(s.receiver).count;
      && count >= 4
      && (|s.contents| < count ==> r.received == s.received && !r.receiver.Body? && (r.receiver.BodyParked? <==> s.receiver.Body?))
      && (|s.contents| < count && s.receiver.Body? ==> r.receiver.size == s.receiver.size)
      && (|s.contents| >= count && s.receiver.Header? ==> r.received == s.received && r.receiver == Body(Decode(s.contents[..count])))
      && (|s.contents| >= count && s.receiver.Body? ==>
            && r.receiver == Resting
            && r.received == s.received + [Packet(Decode(s.contents[..count][..4]), s.contents[..count][4..])])
  {
    hide Decode;
    var count := ReceiverOp(s.receiver).count;
    if |s.contents| >= count {
      assert s.contents[..count][..4] == s.contents[..4] && s.contents[..count][4..] == s.contents[4..count];
    }
  }

  lemma SameContents(b: B.State, s: State)
    requires Mirrors(b, s)
    ensures b.contents == s.contents
  {
  }

  lemma EmptyMirrors(names: set<Sender>)
    ensures Mirrors(B.EMPTY, Initial(names))
  {
    assert Threads(Initial(names)) == map[];
  }

  lemma MirrorStep(b: B.State, s: State, a: Action) returns (c: B.State)
    requires B.Reachable(QUEUE_SIZE, b) && Mirrors(b, s) && Possible(s, a)
    ensures B.Reachable(QUEUE_SIZE, c) && Mirrors(c, Step(s, a))
  {
    hide Mirrors, Frame, GetStep, PutStep, B.Reachable, B.PutStep, B.GetStep;
    match a
    case Send(p, packet) =>
      StartMirrors(b, s, a);
      c := MirrorMove(b, B.StartPut(p + 1, Frame(packet)));
    case Receive =>
      StartMirrors(b, s, a);
      c := MirrorMove(b, B.StartGet(0, 4));
    case Put(p) =>
      PutMirrors(b, s, p);
      c := MirrorMove(b, B.Pass(p + 1));
    case Get =>
      GetMirrors(b, s);
      c := MirrorMove(b, B.Pass(0));
      var r := GetStep(s).receiver;
      if r.Body? {
        c := MirrorMove(c, B.StartGet(0, r.size + 8 - 4));
      }
  }

  lemma MirrorMove(b: B.State, a: B.Action) returns (c: B.State)
    requires B.Reachable(QUEUE_SIZE, b) && B.Possible(b, a)
    ensures B.Reachable(QUEUE_SIZE, c) && c == B.Step(QUEUE_SIZE, b, a)
  {
    hide B.Reachable;
    B.ReachableStep(QUEUE_SIZE, b, a);
    c := B.Step(QUEUE_SIZE, b, a);
  }

  lemma {:induction false} LeadsMirrored(b: B.State, s: State, actions: seq<Action>, t: State) returns (c: B.State)
    requires B.Reachable(QUEUE_SIZE, b) && Mirrors(b, s) && Leads(s, actions, t)
    ensures B.Reachable(QUEUE_SIZE, c) && Mirrors(c, t)
    decreases |actions|
  {
    hide Mirrors, Step, Possible, B.Reachable;
    c := b;
    if actions != [] {
      c := MirrorStep(b, s, actions[0]);
      c := LeadsMirrored(c, Step(s, actions[0]), actions[1..], t);
    }
  }

  /** The packet system runs on the blocking ring: every state it can reach is one that puts and gets
      of frames on a ring of that size can reach. */
  lemma OnRing(s: State) returns (b: B.State)
    requires Reachable(s)
    ensures B.Reachable(QUEUE_SIZE, b) && Mirrors(b, s)
  {
    hide Mirrors, Leads, B.Reachable;
    var names, actions :| Leads(Initial(names), actions, s);
    EmptyMirrors(names);
    B.StartReachable(QUEUE_SIZE);
    b := LeadsMirrored(B.EMPTY, Initial(names), actions, s);
  }

  /** The receiver and a sender are never parked at the same time, and the receiver never parks
      in the middle of a packet. */
  lemma NoMutualBlocking(s: State, p: Sender)
    requires Reachable(s) && p in s.senders
    ensures !s.receiver.BodyParked?
    ensures !(s.receiver.HeaderParked? && s.senders[p].Parked?)
  {
    hide Reachable, Frame, Threads, B.Reachable;
    NotInPacket(s);
    var b := OnRing(s);
    B.NoMutualParking(QUEUE_SIZE, b);
    ThreadOf(s, 0);
    ThreadOf(s, p + 1);
  }

  lemma NotInPacket(s: State)
    requires Reachable(s)
    ensures !s.receiver.BodyParked?
  {
    ReachableOk(s);
  }

  /** What the receiver asks for is there whenever anything is. */
  lemma ReceiverServed(s: State)
    requires Reachable(s) && !s.receiver.Resting? && s.contents != []
    ensures ReceiverOp(s.receiver).count <= |s.contents|
  {
    ReachableOk(s);
  }

  /** While the receiver is in receive_packet and there is a byte in the queue or a sender in its put,
      they get on among themselves: a pass of one of them goes through. */
  lemma AlwaysProgress(s: State, p: Sender) returns (b: B.State)
    requires Reachable(s) && !s.receiver.Resting?
    requires s.contents != [] || (p in s.senders && !s.senders[p].Idle?)
    ensures B.Reachable(QUEUE_SIZE, b) && Mirrors(b, s) && B.Progresses(QUEUE_SIZE, b)
  {
    hide Reachable, Threads, B.Reachable, B.Progresses, Encode;
    b := OnRing(s);
    B.ProgressExactly(QUEUE_SIZE, b);
    if s.contents != [] {
      ReceiverServed(s);
      ThreadOf(s, 0);
      assert B.GoesThrough(QUEUE_SIZE, b, 0);
    } else {
      ThreadOf(s, p + 1);
      assert B.GoesThrough(QUEUE_SIZE, b, p + 1);
    }
  }

  // ----- the calls

  class Channel {
    const ring: B.BlockingRing
    var second: bool        // receive_packet is in its second get
    var dataSize: nat       // what its first get read
    var inbox: seq<Packet>  // the packets that receive_packet has returned
    ghost var state: State

    ghost predicate Valid()
      reads this, ring, ring.queue, ring.queue.buf
    {
      && ring.Valid() && ring.queue.size == QUEUE_SIZE && Mirrors(ring.Abs(), state)
      && inbox == state.received && second == (state.receiver.Body? || state.receiver.BodyParked?)
      && (second ==> dataSize == state.receiver.size)
    }

    constructor (names: set<Sender>)
      ensures Valid() && state == Initial(names) && fresh(ring) && fresh(ring.queue) && fresh(ring.queue.buf)
    {
      hide Mirrors, Threads;
      ring := new B.BlockingRing(QUEUE_SIZE);
      second, dataSize, inbox, state := false, 0, [], Initial(names);
      new;
      EmptyMirrors(names);
    }

    /** send_to_server or send_to_client up to its put: the packet is laid out in one buffer. */
    method Send(p: Sender, packet: Packet)
      requires Valid() && Possible(state, Action.Send(p, packet))
      modifies `state, ring
      ensures Valid() && state == Step(old(state), Action.Send(p, packet))
    {
      hide Mirrors, Encode;
      StartMirrors(ring.Abs(), state, Action.Send(p, packet));
      ring.Start(p + 1, B.Put(Encode(|packet.data|) + Encode(packet.source) + packet.data, false));
      state := Step(state, Action.Send(p, packet));
    }

    method PutPass(p: Sender)
      requires Valid() && Possible(state, Put(p))
      modifies `state, ring, ring.queue, ring.queue.buf
      ensures Valid() && state == PutStep(old(state), p)
    {
      hide Mirrors, Frame, B.PutStep;
      PutMirrors(ring.Abs(), state, p);
      ring.PutPass(p + 1);
      state := PutStep(state, p);
    }

    method Receive()
      requires Valid() && Possible(state, Action.Receive)
      modifies `state, ring
      ensures Valid() && state == Step(old(state), Action.Receive)
    {
      hide Mirrors;
      StartMirrors(ring.Abs(), state, Action.Receive);
      ring.Start(0, B.Get(4, false));
      state := Step(state, Action.Receive);
    }

    /** A pass of the get that receive_packet is in; the size that the first one brings is what the
        second one asks for, and the second one completes the packet. */
    method GetPass()
      requires Valid() && Possible(state, Get)
      modifies this, ring, ring.queue, ring.queue.buf
      ensures Valid() && state == GetStep(old(state))
    {
      hide Mirrors, Decode, GetStep, B.GetStep;
      SameContents(ring.Abs(), state);
      GetMirrors(ring.Abs(), state);
      GetData(state);
      var data := ring.GetPass(0);
      state := GetStep(state);
      if data != [] {
        if !second {
          second, dataSize := true, Decode(data);
          ring.Start(0, B.Get(dataSize + 8 - 4, false));
        } else {
          second, inbox := false, inbox + [Packet(Decode(data[..4]), data[4..])];
        }
      }
    }
  }
}
