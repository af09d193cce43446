// The receive side of the bond: readLoop per path, the shared queue, ReadFrom.
//
// Steps: a reader's conn.Read returns, a reader puts its packet on the queue or
// gives up because the bond is closed, ReadFrom takes one packet off the queue.
module PacketFlow {
  import opened Prelude

  type Byte = x: int | 0 <= x < 256
  type Packet = seq<Byte>
  type PathId = nat

  const QUEUE_SIZE := 1024
  const HEADROOM := 128

  datatype Reader = Waiting | Sending(packet: Packet) | Ended

  // received, delivered and lost are history. lost holds the packets readers gave
  // up on; delivered pairs the packet with what ReadFrom copied out of it.
  datatype State = State(
    closed: bool,
    readers: seq<Reader>,
    received: seq<seq<Packet>>,
    lost: seq<seq<Packet>>,
    queue: seq<Queued>,
    delivered: seq<Delivery>)

  datatype Queued = Queued(path: PathId, packet: Packet)
  datatype Delivery = Delivery(item: Queued, bufferSize: nat, copied: Packet)

  datatype Label =
    | Join
    | Receive(p: PathId, packet: Packet)
    | ReadError(p: PathId)
    | Enqueue(p: PathId)
    | GiveUp(p: PathId)
    | ReadFrom(bufferSize: nat)
    | CloseBond

  const START := State(false, [], [], [], [], [])

  // readLoop skips empty records and drops those over the MTU plus headroom.
  predicate Acceptable(packet: Packet, mtu: nat) {
    0 < |packet| <= mtu + HEADROOM
  }

  // copy(p, pkt.data)
  function CopyOut(packet: Packet, bufferSize: nat): Packet {
    if |packet| <= bufferSize then packet else packet[..bufferSize]
  }

  function Step(s: State, l: Label, mtu: nat): State
    requires Shape(s)
  {
    match l
    case Join => s.(readers := s.readers + [Waiting], received := s.received + [[]], lost := s.lost + [[]])
    case Receive(p, packet) =>
      if p < |s.readers| && s.readers[p].Waiting? then
        s.(received := s.received[p := s.received[p] + [packet]],
           readers := if Acceptable(packet, mtu) then s.readers[p := Sending(packet)] else s.readers)
      else s
    case ReadError(p) =>
      if p < |s.readers| && s.readers[p].Waiting? then s.(readers := s.readers[p := Ended]) else s
    case Enqueue(p) =>
      if p < |s.readers| && s.readers[p].Sending? && |s.queue| < QUEUE_SIZE then
        s.(queue := s.queue + [Queued(p, s.readers[p].packet)], readers := s.readers[p := Waiting])
      else s
    case GiveUp(p) =>
      if p < |s.readers| && s.readers[p].Sending? && s.closed then
        s.(lost := s.lost[p := s.lost[p] + [s.readers[p].packet]], readers := s.readers[p := Ended])
      else s
    case ReadFrom(bufferSize) =>
      if s.queue == [] then s
      else s.(queue := s.queue[1..],
              delivered := s.delivered + [Delivery(s.queue[0], bufferSize, CopyOut(s.queue[0].packet, bufferSize))])
    case CloseBond => s.(closed := true)
  }

  predicate Shape(s: State) {
    |s.readers| == |s.received| == |s.lost|
  }

  function Exec(ls: seq<Label>, mtu: nat): (s: State)
    ensures Shape(s)
  {
    if ls == [] then START else Step(Exec(ls[..|ls| - 1], mtu), ls[|ls| - 1], mtu)
  }

  // ---- What a path's packets amount to ------------------------------------

  // Those of a length from 1 to the MTU plus 128, in order.
  function Kept(ps: seq<Packet>, mtu: nat): seq<Packet> {
    if ps == [] then []
    else Kept(ps[..|ps| - 1], mtu) + if 1 <= |ps[|ps| - 1]| <= mtu + 128 then [ps[|ps| - 1]] else []
  }

  // The places of the empty ones and the larger ones.
  function Dropped(ps: seq<Packet>, mtu: nat): set<nat> {
    set k | 0 <= k < |ps| && (|ps[k]| == 0 || |ps[k]| > mtu + 128)
  }

  function Of(q: seq<Queued>, p: PathId): seq<Packet> {
    if q == [] then [] else (if q[0].path == p then [q[0].packet] else []) + Of(q[1..], p)
  }

  function Items(ds: seq<Delivery>): seq<Queued> {
    seq(|ds|, i requires 0 <= i < |ds| => ds[i].item)
  }

  function InHand(r: Reader): seq<Packet> {
    if r.Sending? then [r.packet] else []
  }

  lemma {:induction false} OfConcat(a: seq<Queued>, b: seq<Queued>, p: PathId)
    ensures Of(a + b, p) == Of(a, p) + Of(b, p)
  {
    if a == [] {
      assert a + b == b;
    } else {
      OfConcat(a[1..], b, p);
      assert (a + b)[1..] == a[1..] + b;
      Assoc(if a[0].path == p then [a[0].packet] else [], Of(a[1..], p), Of(b, p));
    }
  }

  lemma {:induction false} KeptAndDropped(ps: seq<Packet>, mtu: nat)
    ensures |Kept(ps, mtu)| + |Dropped(ps, mtu)| == |ps|
  {
    if ps == [] {
      assert Dropped(ps, mtu) == {};
    } else {
      var last := |ps| - 1;
      KeptAndDropped(ps[..last], mtu);
      var more := if |ps[last]| == 0 || |ps[last]| > mtu + 128 then {last} else {};
      assert Dropped(ps, mtu) == Dropped(ps[..last], mtu) + more;
    }
  }

  // ---- The invariant ------------------------------------------------------

  // Of the acceptable packets a path received, in order: first those ReadFrom
  // returned, then those queued, then the one in the reader's hand, then the one
  // given up on.
  ghost predicate Balanced(s: State, p: PathId, mtu: nat)
    requires Shape(s) && p < |s.readers|
  {
    Kept(s.received[p], mtu) ==
    Of(Items(s.delivered) + s.queue, p) + InHand(s.readers[p]) + s.lost[p]
  }

  ghost predicate Inv(s: State, mtu: nat) {
    && Shape(s)
    && |s.queue| <= QUEUE_SIZE
    && (forall p :: 0 <= p < |s.readers| ==> Balanced(s, p, mtu))
    && (forall p :: 0 <= p < |s.readers| && s.lost[p] != [] ==> s.closed && s.readers[p].Ended?)
    && (forall p :: 0 <= p < |s.readers| && s.readers[p].Sending? ==> Acceptable(s.readers[p].packet, mtu))
    && (forall i :: 0 <= i < |s.queue| ==> Sound(s, s.queue[i], mtu))
    && (forall i :: 0 <= i < |s.delivered| ==>
          && Sound(s, s.delivered[i].item, mtu)
          && s.delivered[i].copied == CopyOut(s.delivered[i].item.packet, s.delivered[i].bufferSize))
  }

  ghost predicate Sound(s: State, item: Queued, mtu: nat) {
    item.path < |s.readers| && Acceptable(item.packet, mtu)
  }

  lemma ReceiveKept(ps: seq<Packet>, packet: Packet, mtu: nat)
    ensures Kept(ps + [packet], mtu) == Kept(ps, mtu) + if Acceptable(packet, mtu) then [packet] else []
  {
    assert (ps + [packet])[..|ps|] == ps;
  }

  lemma ReaderStep(s: State, l: Label, mtu: nat)
    requires Inv(s, mtu) && (l.Join? || l.Receive? || l.ReadError? || l.GiveUp?)
    ensures forall p :: 0 <= p < |Step(s, l, mtu).readers| ==> Balanced(Step(s, l, mtu), p, mtu)
  {
    var s' := Step(s, l, mtu);
    forall p | 0 <= p < |s'.readers|
      ensures Balanced(s', p, mtu)
    {
      if p < |s.readers| {
        assert Balanced(s, p, mtu);
        if l.Receive? {
          ReceiveKept(s.received[p], l.packet, mtu);
        }
      } else {
        NoneOf(Items(s.delivered) + s.queue, p);
      }
    }
  }

  lemma {:induction false} NoneOf(q: seq<Queued>, p: PathId)
    requires forall i :: 0 <= i < |q| ==> q[i].path != p
    ensures Of(q, p) == []
  {
    if q != [] {
      NoneOf(q[1..], p);
    }
  }

  lemma EnqueueStep(s: State, l: Label, mtu: nat)
    requires Inv(s, mtu) && l.Enqueue?
    ensures forall p :: 0 <= p < |Step(s, l, mtu).readers| ==> Balanced(Step(s, l, mtu), p, mtu)
  {
    var s' := Step(s, l, mtu);
    var before, after := Items(s.delivered) + s.queue, Items(s'.delivered) + s'.queue;
    forall p | 0 <= p < |s'.readers|
      ensures Balanced(s', p, mtu)
    {
      assert Balanced(s, p, mtu);
      if s' != s {
        var item := Queued(l.p, s.readers[l.p].packet);
        Assoc(Items(s.delivered), s.queue, [item]);
        OfConcat(before, [item], p);
      }
    }
  }

  lemma ReadFromStep(s: State, l: Label, mtu: nat)
    requires Inv(s, mtu) && l.ReadFrom?
    ensures forall p :: 0 <= p < |Step(s, l, mtu).readers| ==> Balanced(Step(s, l, mtu), p, mtu)
  {
    var s' := Step(s, l, mtu);
    assert Items(s.delivered) + s.queue == Items(s'.delivered) + s'.queue;
    forall p | 0 <= p < |s'.readers|
      ensures Balanced(s', p, mtu)
    {
      assert Balanced(s, p, mtu);
    }
  }

  lemma CloseStep(s: State, mtu: nat)
    requires Inv(s, mtu)
    ensures Inv(Step(s, CloseBond, mtu), mtu)
  {
    forall p | 0 <= p < |s.readers|
      ensures Balanced(Step(s, CloseBond, mtu), p, mtu)
    {
      assert Balanced(s, p, mtu);
    }
  }

  lemma InvStep(s: State, l: Label, mtu: nat)
    requires Inv(s, mtu)
    ensures Inv(Step(s, l, mtu), mtu)
  {
    match l
    case Enqueue(_) => EnqueueStep(s, l, mtu);
    case ReadFrom(_) => ReadFromStep(s, l, mtu);
    case CloseBond => CloseStep(s, mtu);
    case _ => ReaderStep(s, l, mtu);
  }

  lemma {:induction false} ExecInv(ls: seq<Label>, mtu: nat)
    ensures Inv(Exec(ls, mtu), mtu)
  {
    if ls != [] {
      ExecInv(ls[..|ls| - 1], mtu);
      InvStep(Exec(ls[..|ls| - 1], mtu), ls[|ls| - 1], mtu);
    }
  }

  // ---- Theorems -----------------------------------------------------------

  // What ReadFrom returns is an interleaving of the paths' packets: every packet
  // comes from a path, and those of one path come out in the order it received
  // them, without gaps.
  lemma EachPathInOrder(ls: seq<Label>, mtu: nat, p: PathId)
    requires p < |Exec(ls, mtu).readers|
    ensures var s := Exec(ls, mtu);
            && Of(Items(s.delivered), p) <= Kept(s.received[p], mtu)
            && forall i :: 0 <= i < |s.delivered| ==> s.delivered[i].item.path < |s.readers|
  {
    ExecInv(ls, mtu);
    var s := Exec(ls, mtu);
    assert Balanced(s, p, mtu);
    OfConcat(Items(s.delivered), s.queue, p);
  }

  // ReadFrom copies the packet as far as the buffer goes; one of the MTU plus 128 is
  // never too small.
  lemma ContentsUnchanged(ls: seq<Label>, mtu: nat, i: nat)
    requires i < |Exec(ls, mtu).delivered|
    ensures var d := Exec(ls, mtu).delivered[i];
            && d.copied <= d.item.packet
            && |d.copied| == (if d.bufferSize < |d.item.packet| then d.bufferSize else |d.item.packet|)
            && (d.bufferSize >= mtu + 128 ==> d.copied == d.item.packet)
  {
    ExecInv(ls, mtu);
  }

  // What one step does: a packet that a waiting reader receives is in its hand
  // afterwards exactly if its length is from 1 to the MTU plus 128; a packet in hand
  // goes to the end of the queue as long as that has fewer than 1024; ReadFrom takes
  // the first; a reader gives up only when the bond is closed.
  lemma FlowSteps(s: State, mtu: nat, p: PathId, packet: Packet, bufferSize: nat)
    requires Shape(s) && p < |s.readers|
    ensures s.readers[p].Waiting? ==>
              Step(s, Receive(p, packet), mtu).readers[p] ==
              if 1 <= |packet| <= mtu + 128 then Sending(packet) else Waiting
    ensures s.readers[p].Sending? && |s.queue| < 1024 ==>
              var s' := Step(s, Enqueue(p), mtu);
              s'.queue == s.queue + [Queued(p, s.readers[p].packet)] && s'.readers[p] == Waiting
    ensures s.readers[p].Sending? && |s.queue| >= 1024 ==> Step(s, Enqueue(p), mtu) == s
    ensures s.queue != [] ==>
              var s' := Step(s, ReadFrom(bufferSize), mtu);
              && s'.queue == s.queue[1..] && |s'.delivered| == |s.delivered| + 1
              && s'.delivered[|s.delivered|].item == s.queue[0]
    ensures !s.closed ==> Step(s, GiveUp(p), mtu) == s
    ensures Step(s, ReadError(p), mtu).readers[p] == if s.readers[p].Waiting? then Ended else s.readers[p]
    ensures Step(s, CloseBond, mtu).closed
    ensures var s' := Step(s, Join, mtu); s'.readers == s.readers + [Waiting] && s'.received == s.received + [[]]
  {
  }

  // While the bond is open, every packet a path received was returned, is queued,
  // is in its reader's hand, or was dropped for its size.
  lemma NothingLostWhileOpen(ls: seq<Label>, mtu: nat, p: PathId)
    requires p < |Exec(ls, mtu).readers| && !Exec(ls, mtu).closed
    ensures var s := Exec(ls, mtu);
            && Kept(s.received[p], mtu) == Of(Items(s.delivered), p) + Of(s.queue, p) + InHand(s.readers[p])
            && |s.received[p]| ==
               |Of(Items(s.delivered), p)| + |Of(s.queue, p)| + |InHand(s.readers[p])| + |Dropped(s.received[p], mtu)|
  {
    ExecInv(ls, mtu);
    var s := Exec(ls, mtu);
    assert Balanced(s, p, mtu);
    OfConcat(Items(s.delivered), s.queue, p);
    KeptAndDropped(s.received[p], mtu);
  }
}
