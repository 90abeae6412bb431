// What an archive does to the context it replaces (apps/agent/src/archive.rs):
// the pairing of calls and results survives, and so does the served prompt.
module Archives {
  import opened Basics
  import opened Protocol
  import opened SessionLog
  import opened Recovery

  lemma {:induction false} SelectedRange(ms: seq<Message>, lo: nat, hi: nat)
    requires lo <= hi <= |ms|
    ensures Selected(ms, Range(lo, hi)) == ms[lo..hi]
    decreases hi
  {
    if lo < hi {
      assert Range(lo, hi)[..hi - lo - 1] == Range(lo, hi - 1);
      SelectedRange(ms, lo, hi - 1);
    }
  }

  lemma {:induction false} SelectedConcat(ms: seq<Message>, a: seq<nat>, b: seq<nat>)
    ensures Selected(ms, a + b) == Selected(ms, a) + Selected(ms, b)
  {
    if b == [] {
      assert a + b == a;
    } else {
      assert (a + b)[..|a + b| - 1] == a + b[..|b| - 1];
      SelectedConcat(ms, a, b[..|b| - 1]);
    }
  }

  lemma {:induction false} SelectedInRange(ms: seq<Message>, kept: seq<nat>)
    requires forall i :: 0 <= i < |kept| ==> kept[i] < |ms|
    ensures |Selected(ms, kept)| == |kept|
    ensures forall i :: 0 <= i < |kept| ==> Selected(ms, kept)[i] == ms[kept[i]]
  {
    if kept != [] {
      var n := |kept| - 1;
      SelectedInRange(ms, kept[..n]);
      var before := Selected(ms, kept[..n]);
      assert Selected(ms, kept) == before + [ms[kept[n]]];
      forall i | 0 <= i < n ensures before[i] == ms[kept[i]] {
        assert kept[..n][i] == kept[i];
      }
    }
  }

  lemma SelectedShape(ms: seq<Message>, pinned: nat, shape: Shape)
    requires pinned < |ms| && Allowed(ms, pinned, shape)
    ensures Selected(ms, KeptBy(ms, pinned, shape))
            == (if shape.Tail? then [] else ms[PinStart(ms, pinned)..pinned + 1]) + ms[shape.cut..]
  {
    var start := PinStart(ms, pinned);
    SelectedRange(ms, shape.cut, |ms|);
    assert ms[shape.cut..|ms|] == ms[shape.cut..];
    if shape.PinAndTail? {
      SelectedConcat(ms, Range(start, pinned + 1), Range(shape.cut, |ms|));
      SelectedRange(ms, start, pinned + 1);
    } else {
      assert [] + ms[shape.cut..] == ms[shape.cut..];
    }
  }

  /** A slice between two boundaries of a closed list is closed. */
  lemma ClosedSlice(ms: seq<Message>, a: nat, b: nat)
    requires Closed(ms) && a <= b && Boundary(ms, a) && Boundary(ms, b)
    ensures Closed(ms[a..b])
  {
    ClosedSplit(ms, b);
    if a < b {
      ClosedSplit(ms[..b], a);
    }
    assert ms[..b][a..] == ms[a..b];
  }

  /** What may be cut: where both parts are closed on their own, and an answer stays with its question. */
  lemma LegalCutMeans(ms: seq<Message>, cut: nat)
    requires Closed(ms) && 0 < cut <= |ms|
    ensures LegalCut(ms, cut)
            <==> && Closed(ms[..cut]) && Closed(ms[cut..])
                 && !(cut < |ms| && ms[cut].User? && ms[cut - 1].ToolResult?
                      && ms[cut - 1].toolName == "request_user_input")
  {
    if cut == |ms| || !ms[cut].ToolResult? {
      ClosedSplit(ms, cut);
    } else {
      var rest := ms[cut..];
      assert rest == [rest[0]] + rest[1..];
      OwedFromConcat(Some([]), [rest[0]], rest[1..]);
      assert [rest[0]][..0] == [];
      BrokenStaysBroken(rest[1..]);
    }
  }

  /** In a closed list a tool result has its call, or a result of the same call, right before it. */
  lemma ResultFollowsExchange(ms: seq<Message>, j: nat)
    requires Closed(ms) && j < |ms| && ms[j].ToolResult?
    ensures j > 0 && !ms[j - 1].User?
  {
    ClosedIsPaired(ms);
    assert Owned(ms, j);
    var i :| Owns(ms, i, j);
    assert Answered(ms, i);
  }

  /** The pinned block starts and ends where nothing is owed. */
  lemma PinIsBlock(ms: seq<Message>, pinned: nat)
    requires Closed(ms) && pinned < |ms| && ms[pinned].User?
    ensures Boundary(ms, PinStart(ms, pinned)) && Boundary(ms, pinned + 1)
  {
    var start := PinStart(ms, pinned);
    if start < |ms| && ms[start].ToolResult? {
      ResultFollowsExchange(ms, start);
    }
    if pinned + 1 < |ms| && ms[pinned + 1].ToolResult? {
      ResultFollowsExchange(ms, pinned + 1);
    }
  }

  lemma ClosedPieces(ms: seq<Message>, a: nat, b: nat, cut: nat, summary: Message)
    requires Closed(ms) && summary.User? && a <= b <= cut <= |ms|
    requires Boundary(ms, a) && Boundary(ms, b) && Boundary(ms, cut)
    ensures Closed([summary] + (ms[a..b] + ms[cut..]))
  {
    ClosedSlice(ms, a, b);
    ClosedSplit(ms, cut);
    ClosedConcat(ms[a..b], ms[cut..]);
    ClosedAppend([], summary);
    assert [] + [summary] == [summary];
    ClosedConcat([summary], ms[a..b] + ms[cut..]);
  }

  /** No call is separated from its results, and no result from its call. */
  lemma PlanKeepsClosed(ms: seq<Message>, pinned: nat, tail: nat, estimate: Estimate, summary: Message)
    requires Closed(ms) && pinned < |ms| && ms[pinned].User? && summary.User?
    requires Plan(ms, pinned, tail, estimate).Some?
    ensures Closed([summary] + Selected(ms, Plan(ms, pinned, tail, estimate).value))
  {
    var shape := PlanShape(ms, pinned, tail, estimate);
    SelectedShape(ms, pinned, shape);
    if shape.Tail? {
      ClosedPieces(ms, shape.cut, shape.cut, shape.cut, summary);
      assert ms[shape.cut..shape.cut] == [];
    } else {
      PinIsBlock(ms, pinned);
      ClosedPieces(ms, PinStart(ms, pinned), pinned + 1, shape.cut, summary);
    }
  }

  /** `position(..).unwrap_or(0)`. */
  function PositionOf(kept: seq<nat>, x: nat): (p: nat)
    ensures x in kept ==> p < |kept| && kept[p] == x
  {
    if kept == [] then 0
    else if kept[0] == x then 0
    else if x in kept[1..] then 1 + PositionOf(kept[1..], x)
    else 0
  }

  function NewPinned(kept: seq<nat>, pinned: nat): nat {
    1 + PositionOf(kept, pinned)
  }

  /** The new pinned index points at the message the old one pointed at. */
  lemma PinnedSurvives(ms: seq<Message>, pinned: nat, tail: nat, estimate: Estimate, summary: Message)
    requires Plan(ms, pinned, tail, estimate).Some?
    ensures pinned < |ms|
    ensures var kept := Plan(ms, pinned, tail, estimate).value;
            var after := [summary] + Selected(ms, kept);
            NewPinned(kept, pinned) < |after| && after[NewPinned(kept, pinned)] == ms[pinned]
  {
    PlanIsProper(ms, pinned, tail, estimate);
    SelectedInRange(ms, Plan(ms, pinned, tail, estimate).value);
  }

  /** `context_tokens` never counts on a report from a context that no longer exists. */
  lemma ReportIsFresh(log: seq<Entry>, copied: seq<bool>)
    requires |copied| == |log| && Owing(log, copied).Some?
    ensures var c := Replay(log);
            var i := LastReport(c.messages, c.usageFloor);
            i.Some? ==> i.value < |Stale(log, copied)| && !Stale(log, copied)[i.value]
  {
    FreshFromFloor(log, copied);
  }
}
