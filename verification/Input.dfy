// Input packets of a control lease (apps/capture/src/state.rs): which of them
// reach the guard, and in which order.
//
// A packet's event is opaque but for the channel it belongs to.  Calls for one
// channel come one after another.
module ControlInput {
  import opened Basics

  datatype Packet = Packet(session: string, epoch: nat, generation: nat, sequence: nat, isMotion: bool, event: string)

  /** What surrounds a call: policy, the view's own checks, and the guard's queue. */
  datatype Moment = Moment(now: nat, shared: bool, allowControl: bool, presenting: bool, live: bool, room: bool)

  datatype Outcome = Unavailable | WrongChannel | Ignored | TooFast | LeaseExpired | QueueFull | Sent

  const RATE_WINDOW := 1000
  const MAX_RATE := 1000

  /** The packets of one channel, in order. */
  function Channel(packets: seq<Packet>, motion: bool): seq<Packet> {
    if packets == [] then []
    else
      var p := packets[|packets| - 1];
      Channel(packets[..|packets| - 1], motion) + if p.isMotion == motion then [p] else []
  }

  ghost predicate Increasing(packets: seq<Packet>) {
    forall i, j :: 0 <= i < j < |packets| ==> packets[i].sequence < packets[j].sequence
  }

  /** The latest sequence number of a channel that got past the check. */
  ghost predicate UpTo(packets: seq<Packet>, last: nat) {
    forall i :: 0 <= i < |packets| ==> 0 < packets[i].sequence <= last
  }

  lemma ChannelMore(packets: seq<Packet>, p: Packet, motion: bool)
    ensures Channel(packets + [p], motion) == Channel(packets, motion) + if p.isMotion == motion then [p] else []
  {
    assert (packets + [p])[..|packets|] == packets;
  }

  /** One channel of what was sent, with `last` the latest number used on it. */
  ghost predicate InOrder(packets: seq<Packet>, motion: bool, last: nat) {
    Increasing(Channel(packets, motion)) && UpTo(Channel(packets, motion), last)
  }

  lemma InOrderLater(packets: seq<Packet>, motion: bool, last: nat, later: nat)
    requires InOrder(packets, motion, last) && last <= later
    ensures InOrder(packets, motion, later)
  {
  }

  /** A packet with a number of its own may follow; the other channel does not see it. */
  lemma InOrderMore(packets: seq<Packet>, p: Packet, motion: bool, last: nat)
    requires InOrder(packets, motion, last) && (p.isMotion == motion ==> last < p.sequence)
    ensures InOrder(packets + [p], motion, if p.isMotion == motion then p.sequence else last)
  {
    hide Channel, Increasing, UpTo;
    var before := Channel(packets, motion);
    ChannelMore(packets, p, motion);
    if p.isMotion == motion {
      IncreasingMore(before, p, last);
    } else {
      assert before + [] == before;
    }
  }

  lemma IncreasingMore(packets: seq<Packet>, p: Packet, last: nat)
    requires Increasing(packets) && UpTo(packets, last) && last < p.sequence
    ensures Increasing(packets + [p]) && UpTo(packets + [p], p.sequence)
  {
  }

  class Lease {
    const session: string
    const epoch: nat
    const generation: nat
    var lastEvent: nat
    var lastMotion: nat
    var rateStart: nat
    var rateCount: nat
    var valid: bool
    ghost var sent: seq<Packet>   // what reached the guard

    function Last(motion: bool): nat
      reads this`lastEvent, this`lastMotion
    {
      if motion then lastMotion else lastEvent
    }

    /** Each channel reaches the guard in order and without repetition, and only for this lease. */
    ghost predicate Valid()
      reads this
    {
      && InOrder(sent, true, lastMotion) && InOrder(sent, false, lastEvent)
      && (forall p :: p in sent ==> ForThis(p))
    }

    /** A packet of this lease, on its channel, under a number not used yet. */
    predicate Fresh(p: Packet, motion: bool, at: Moment)
      reads this`lastEvent, this`lastMotion
    {
      && at.shared && at.allowControl && at.presenting
      && p.session == session && p.epoch == epoch && p.generation == generation
      && p.isMotion == motion && Last(motion) < p.sequence
    }

    /** The packets of the current second, with one more. */
    function Counted(now: nat): nat
      reads this`rateStart, this`rateCount
    {
      if now - rateStart >= 1000 then 1 else rateCount + 1
    }

    predicate ForThis(p: Packet) {
      p.session == session && p.epoch == epoch && p.generation == generation
    }

    constructor (session: string, epoch: nat, generation: nat, now: nat)
      ensures Valid() && valid && sent == [] && lastEvent == lastMotion == 0
      ensures this.session == session && this.epoch == epoch && this.generation == generation
    {
      this.session, this.epoch, this.generation := session, epoch, generation;
      lastEvent, lastMotion, rateStart, rateCount, valid := 0, 0, now, 0, true;
      sent := [];
    }

    /** `View::input`, past parsing, on the channel `motion`. */
    method Input(p: Packet, motion: bool, at: Moment) returns (r: Outcome)
      requires Valid() && rateStart <= at.now
      modifies this
      ensures Valid()
      ensures r.Unavailable? <==> !at.shared || !at.allowControl || !at.presenting
      ensures r.WrongChannel? <==>
                at.shared && at.allowControl && at.presenting
                && p.session == session && p.epoch == epoch && p.generation == generation && p.isMotion != motion
      ensures r.Ignored? <==>
                at.shared && at.allowControl && at.presenting
                && (p.session != session || p.epoch != epoch || p.generation != generation
                    || (p.isMotion == motion && p.sequence <= old(Last(motion))))
      ensures r.TooFast? <==> old(Fresh(p, motion, at)) && old(Counted(at.now)) > 1000
      ensures r.LeaseExpired? <==> old(Fresh(p, motion, at)) && old(Counted(at.now)) <= 1000
                                   && !(old(valid) && at.live)
      ensures r.QueueFull? <==> old(Fresh(p, motion, at)) && old(Counted(at.now)) <= 1000
                                && old(valid) && at.live && !at.room
      ensures r.Sent? <==> old(Fresh(p, motion, at)) && old(Counted(at.now)) <= 1000
                           && old(valid) && at.live && at.room
      ensures sent == if r.Sent? then old(sent) + [p] else old(sent)
      ensures valid == (old(valid) && r !in {TooFast, QueueFull})
      ensures Last(motion) == if old(Fresh(p, motion, at)) then p.sequence else old(Last(motion))
      ensures Last(!motion) == old(Last(!motion))
      ensures rateCount == if old(Fresh(p, motion, at)) then old(Counted(at.now)) else old(rateCount)
      ensures rateStart == if old(Fresh(p, motion, at)) && at.now - old(rateStart) >= 1000 then at.now else old(rateStart)
    {
      hide InOrder;
      if !at.shared || !at.allowControl || !at.presenting {
        return Unavailable;
      }
      if !ForThis(p) {
        return Ignored;
      }
      if p.isMotion != motion {
        return WrongChannel;
      }
      if p.sequence == 0 || p.sequence <= Last(motion) {
        return Ignored;
      }
      ghost var last := Last(motion);
      Advance(p, motion);
      if at.now - rateStart >= RATE_WINDOW {
        rateStart, rateCount := at.now, 0;
      }
      rateCount := rateCount + 1;
      if rateCount > MAX_RATE {
        valid := false;
        return TooFast;
      }
      if !valid || !at.live {
        return LeaseExpired;
      }
      if !at.room {
        valid := false;
        return QueueFull;
      }
      Deliver(p, motion, last);
      r := Sent;
    }

    /** The number is used up, whatever becomes of the packet. */
    method Advance(p: Packet, motion: bool)
      requires Valid() && p.sequence > Last(motion)
      modifies this`lastEvent, this`lastMotion
      ensures Valid() && Last(motion) == p.sequence && Last(!motion) == old(Last(!motion))
      ensures InOrder(sent, motion, old(Last(motion)))
    {
      hide InOrder, ForThis;
      InOrderLater(sent, motion, Last(motion), p.sequence);
      if motion {
        lastMotion := p.sequence;
      } else {
        lastEvent := p.sequence;
      }
    }

    method Deliver(p: Packet, motion: bool, ghost last: nat)
      requires Valid() && ForThis(p) && p.isMotion == motion && last < p.sequence == Last(motion)
      requires InOrder(sent, motion, last)
      modifies this`sent
      ensures Valid() && sent == old(sent) + [p]
    {
      hide InOrder, ForThis;
      InOrderMore(sent, p, motion, last);
      InOrderMore(sent, p, !motion, Last(!motion));
      sent := sent + [p];
    }
  }

  /** No packet reaches the guard twice on a channel. */
  lemma SentOnce(lease: Lease, motion: bool, i: nat, j: nat)
    requires lease.Valid() && i < j < |Channel(lease.sent, motion)|
    ensures Channel(lease.sent, motion)[i].sequence < Channel(lease.sent, motion)[j].sequence <= lease.Last(motion)
  {
    assert InOrder(lease.sent, motion, lease.Last(motion));
  }

  /** Only packets of this session, this lease and this target reach the guard. */
  lemma SentForLease(lease: Lease, p: Packet)
    requires lease.Valid() && p in lease.sent
    ensures p.session == lease.session && p.epoch == lease.epoch && p.generation == lease.generation
  {
  }
}
