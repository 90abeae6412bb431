// The keyframe gate of the capture engine (apps/capture/src/engine.rs): frames
// dropped at a full queue never leave the viewer with an undecodable stream.
module KeyframeGate {
  import opened Basics

  datatype Frame = Frame(size: nat, key: bool, repeat: bool)

  const MAX_FRAME := 8 * 1024 * 1024

  predicate Usable(f: Frame) {
    0 < f.size <= MAX_FRAME
  }

  /** A frame that is not a keyframe builds on the one right before it. */
  ghost predicate Supported(frames: seq<Frame>, sent: seq<bool>, i: nat)
    requires |sent| == |frames| && i < |frames|
  {
    sent[i] && !frames[i].key ==> i > 0 && sent[i - 1]
  }

  /** Everything a delivered frame builds on, back to a keyframe, was delivered. */
  ghost predicate Decodable(frames: seq<Frame>, sent: seq<bool>, i: nat)
    requires |sent| == |frames| && i < |frames|
  {
    exists k: nat :: k <= i && frames[k].key && AllSent(sent, k, i)
  }

  ghost predicate AllSent(sent: seq<bool>, k: nat, i: nat) {
    k <= i < |sent| && forall j :: k <= j <= i ==> sent[j]
  }

  lemma {:induction false} SupportedIsDecodable(frames: seq<Frame>, sent: seq<bool>, i: nat)
    requires |sent| == |frames| && i < |frames| && sent[i]
    requires forall j :: 0 <= j <= i ==> Supported(frames, sent, j)
    ensures Decodable(frames, sent, i)
  {
    if frames[i].key {
      assert AllSent(sent, i, i);
    } else {
      assert Supported(frames, sent, i);
      SupportedIsDecodable(frames, sent, i - 1);
      var k: nat :| k <= i - 1 && frames[k].key && AllSent(sent, k, i - 1);
      assert AllSent(sent, k, i);
    }
  }

  lemma OneMoreSupported(frames: seq<Frame>, sent: seq<bool>, f: Frame, b: bool)
    requires |sent| == |frames| && forall i :: 0 <= i < |frames| ==> Supported(frames, sent, i)
    requires b && !f.key ==> frames != [] && sent[|sent| - 1]
    ensures forall i :: 0 <= i <= |frames| ==> Supported(frames + [f], sent + [b], i)
  {
    forall i | 0 <= i <= |frames| ensures Supported(frames + [f], sent + [b], i) {
      if i < |frames| {
        assert Supported(frames, sent, i);
      }
    }
  }

  class Callbacks {
    var waitingKeyframe: bool
    var keyframeNeeded: bool
    ghost var frames: seq<Frame>   // every usable frame the encoder handed over
    ghost var sent: seq<bool>      // which of them entered the queue

    ghost predicate Valid()
      reads this
    {
      && |sent| == |frames|
      && (!waitingKeyframe <==> frames != [] && sent[|sent| - 1])
      && (forall i :: 0 <= i < |frames| ==> Supported(frames, sent, i))
    }

    constructor ()
      ensures Valid() && waitingKeyframe && !keyframeNeeded && frames == []
    {
      waitingKeyframe, keyframeNeeded := true, false;
      frames, sent := [], [];
    }

    lemma WaitsAfterDrop()
      requires Valid()
      ensures |sent| == |frames| && (waitingKeyframe <==> frames == [] || !sent[|sent| - 1])
    {
    }

    lemma AllDecodable()
      requires Valid()
      ensures forall i :: 0 <= i < |frames| && sent[i] ==> Decodable(frames, sent, i)
    {
      forall i | 0 <= i < |frames| && sent[i] ensures Decodable(frames, sent, i) {
        SupportedIsDecodable(frames, sent, i);
      }
    }

    /** `video_callback`; `room` while the queue takes another frame. */
    method Video(frame: Frame, room: bool)
      requires Valid()
      modifies this
      ensures Valid()
      ensures frames == if 0 < frame.size <= 8388608 then old(frames) + [frame] else old(frames)
      ensures sent == if !(0 < frame.size <= 8388608) then old(sent)
                      else old(sent) + [room && (frame.key || !old(waitingKeyframe))]
      ensures keyframeNeeded <==> old(keyframeNeeded)
                                  || (0 < frame.size <= 8388608 && !room && (frame.key || !old(waitingKeyframe)))
      ensures waitingKeyframe && !old(waitingKeyframe) ==> keyframeNeeded
    {
      if !Usable(frame) {
        return;
      }
      OneMoreSupported(frames, sent, frame, room && (frame.key || !waitingKeyframe));
      frames := frames + [frame];
      if waitingKeyframe && !frame.key {
        sent := sent + [false];
        return;
      }
      sent := sent + [room];
      if !room {
        waitingKeyframe, keyframeNeeded := true, true;
      } else if frame.key {
        waitingKeyframe := false;
      }
    }
  }

  // ----- Whole streams -----

  /** A frame handed over by the encoder, and whether the queue takes another one then. */
  datatype Call = Call(frame: Frame, room: bool)

  function UsableCalls(script: seq<Call>): seq<Call> {
    if script == [] then []
    else
      var last := script[|script| - 1];
      UsableCalls(script[..|script| - 1]) + if 0 < last.frame.size <= 8388608 then [last] else []
  }

  /** From the keyframe at `k` on, the queue had room up to `i`. */
  predicate Clear(calls: seq<Call>, k: int, i: int) {
    0 <= k <= i < |calls| && calls[k].frame.key && forall j :: k <= j <= i ==> calls[j].room
  }

  ghost predicate Reached(calls: seq<Call>, i: int) {
    exists k :: Clear(calls, k, i)
  }

  lemma ReachedNext(calls: seq<Call>, i: nat)
    requires i < |calls|
    ensures Reached(calls, i) <==> calls[i].room && (calls[i].frame.key || (i > 0 && Reached(calls, i - 1)))
  {
    if Reached(calls, i) {
      var k :| Clear(calls, k, i);
      assert k < i ==> Clear(calls, k, i - 1);
    }
    if calls[i].room && calls[i].frame.key {
      assert Clear(calls, i, i);
    }
    if calls[i].room && i > 0 && Reached(calls, i - 1) {
      var k :| Clear(calls, k, i - 1);
      assert Clear(calls, k, i);
    }
  }

  lemma ReachedStays(calls: seq<Call>, last: Call, i: nat)
    requires i < |calls|
    ensures Reached(calls + [last], i) <==> Reached(calls, i)
  {
    if Reached(calls, i) {
      var k :| Clear(calls, k, i);
      assert Clear(calls + [last], k, i);
    }
    if Reached(calls + [last], i) {
      var k :| Clear(calls + [last], k, i);
      assert forall j :: k <= j <= i ==> calls[j] == (calls + [last])[j];
      assert Clear(calls, k, i);
    }
  }

  lemma GatedNext(calls: seq<Call>, last: Call, sent: seq<bool>, b: bool)
    requires |sent| == |calls| && forall i :: 0 <= i < |calls| ==> (sent[i] <==> Reached(calls, i))
    requires b <==> last.room && (last.frame.key || (calls != [] && sent[|calls| - 1]))
    ensures forall i :: 0 <= i <= |calls| ==> ((sent + [b])[i] <==> Reached(calls + [last], i))
  {
    hide Reached;
    ReachedNext(calls + [last], |calls|);
    forall i | 0 <= i < |calls| ensures Reached(calls + [last], i) <==> Reached(calls, i) {
      ReachedStays(calls, last, i);
    }
  }

  /** The callbacks saw `calls`, and let through what the queue had room for since a keyframe. */
  ghost predicate Gated(cb: Callbacks, calls: seq<Call>)
    reads cb
  {
    && |cb.frames| == |cb.sent| == |calls|
    && (forall i :: 0 <= i < |calls| ==> cb.frames[i] == calls[i].frame)
    && (forall i :: 0 <= i < |calls| ==> (cb.sent[i] <==> Reached(calls, i)))
  }

  /**
   * Of the usable frames, in order, exactly those are delivered that had room
   * back to a keyframe; so every delivered frame can be decoded.
   */
  method Stream(script: seq<Call>) returns (cb: Callbacks)
    ensures fresh(cb) && cb.Valid() && Gated(cb, UsableCalls(script))
    ensures forall i :: 0 <= i < |cb.frames| && cb.sent[i] ==> Decodable(cb.frames, cb.sent, i)
  {
    hide Reached, Callbacks.Valid;
    cb := new Callbacks();
    for n := 0 to |script|
      invariant fresh(cb) && cb.Valid() && Gated(cb, UsableCalls(script[..n]))
    {
      assert script[..n + 1][..n] == script[..n];
      ghost var calls, before := UsableCalls(script[..n]), cb.sent;
      cb.WaitsAfterDrop();
      cb.Video(script[n].frame, script[n].room);
      if Usable(script[n].frame) {
        assert UsableCalls(script[..n + 1]) == calls + [script[n]];
        GatedNext(calls, script[n], before, cb.sent[|calls|]);
      } else {
        assert UsableCalls(script[..n + 1]) == calls;
      }
    }
    assert script[..|script|] == script;
    cb.AllDecodable();
  }
}
