// What of a conversation a provider reads after the clean-up
// (apps/agent/src/provider/transform.rs): who said what, block by block.
module Arrival {
  import opened Basics
  import opened Protocol
  import opened Transform

  // ----- Blocks of one reply -----

  /** Thinking that is neither signed nor says anything. */
  predicate Idle(b: Content) {
    b.Thinking? && !b.redacted && (b.signature.None? || b.signature.value == "") && Blank(b.thinking)
  }

  /** With its own model a reply keeps every block as it is, in order, but for idle thinking. */
  ghost predicate OwnBlocks(content: seq<Content>, shown: seq<Content>) {
    if content == [] then shown == []
    else
      var n := |content| - 1;
      if Idle(content[n]) then OwnBlocks(content[..n], shown)
      else shown != [] && shown[|shown| - 1] == content[n] && OwnBlocks(content[..n], shown[..|shown| - 1])
  }

  /** What another model reads of a block that stays: text as it is, thinking as text, calls under their new ids. */
  predicate OtherBlock(b: Content, shown: Content, rename: Rename) {
    match b
    case Text(_) => shown == b
    case Thinking(thinking, _, _) => shown == Text(thinking)
    case ToolCall(id, name, arguments) => shown == ToolCall(rename(id), name, arguments)
  }

  /** With another model every block arrives like that, in order, but for redacted and blank thinking. */
  ghost predicate OtherBlocks(content: seq<Content>, shown: seq<Content>, rename: Rename) {
    if content == [] then shown == []
    else
      var n := |content| - 1;
      if content[n].Thinking? && (content[n].redacted || Blank(content[n].thinking))
      then OtherBlocks(content[..n], shown, rename)
      else shown != [] && OtherBlock(content[n], shown[|shown| - 1], rename)
           && OtherBlocks(content[..n], shown[..|shown| - 1], rename)
  }

  lemma ShownFromStart(content: seq<Content>, same: bool, rename: Rename)
    requires content != []
    ensures var first := Shown(content[0], same, rename);
            ShownAll(content, same, rename)
            == (if first.Some? then [first.value] else []) + ShownAll(content[1..], same, rename)
  {
  }

  lemma ShownNothing(same: bool, rename: Rename)
    ensures ShownAll([], same, rename) == []
  {
  }

  lemma {:induction false} ShownConcat(a: seq<Content>, b: seq<Content>, same: bool, rename: Rename)
    ensures ShownAll(a + b, same, rename) == ShownAll(a, same, rename) + ShownAll(b, same, rename)
  {
    hide Shown, ShownAll;
    if a == [] {
      assert a + b == b;
      ShownNothing(same, rename);
    } else {
      assert (a + b)[1..] == a[1..] + b;
      ShownConcat(a[1..], b, same, rename);
      ShownFromStart(a + b, same, rename);
      ShownFromStart(a, same, rename);
    }
  }

  lemma ShownAtEnd(content: seq<Content>, same: bool, rename: Rename)
    requires content != []
    ensures var n := |content| - 1;
            var last := Shown(content[n], same, rename);
            ShownAll(content, same, rename)
            == ShownAll(content[..n], same, rename) + if last.Some? then [last.value] else []
  {
    hide Shown, ShownAll;
    var n := |content| - 1;
    ShownConcat(content[..n], [content[n]], same, rename);
    assert content == content[..n] + [content[n]] && [content[n]][1..] == [];
    ShownFromStart([content[n]], same, rename);
    ShownNothing(same, rename);
  }

  lemma {:induction false} OwnBlocksArrive(content: seq<Content>, rename: Rename)
    ensures OwnBlocks(content, ShownAll(content, true, rename))
  {
    hide ShownAll, Blank;
    if content == [] {
      ShownNothing(true, rename);
    } else {
      var n := |content| - 1;
      OwnBlocksArrive(content[..n], rename);
      ShownAtEnd(content, true, rename);
      var before, shown := ShownAll(content[..n], true, rename), ShownAll(content, true, rename);
      assert shown != before ==> shown[..|shown| - 1] == before;
    }
  }

  lemma {:induction false} OtherBlocksArrive(content: seq<Content>, rename: Rename)
    ensures OtherBlocks(content, ShownAll(content, false, rename), rename)
  {
    hide ShownAll, Blank;
    if content == [] {
      ShownNothing(false, rename);
    } else {
      var n := |content| - 1;
      OtherBlocksArrive(content[..n], rename);
      ShownAtEnd(content, false, rename);
      var before, shown := ShownAll(content[..n], false, rename), ShownAll(content, false, rename);
      assert shown != before ==> shown[..|shown| - 1] == before;
    }
  }

  /** Where nothing idle was thought, a reply goes back to its own model as it came. */
  lemma {:induction false} WholeReplyArrives(content: seq<Content>, shown: seq<Content>)
    requires OwnBlocks(content, shown) && forall i :: 0 <= i < |content| ==> !Idle(content[i])
    ensures shown == content
  {
    if content != [] {
      var n := |content| - 1;
      WholeReplyArrives(content[..n], shown[..|shown| - 1]);
      assert content == content[..n] + [content[n]] && shown == shown[..|shown| - 1] + [content[n]];
    }
  }

  /** Another model reads no thinking as such, and so no redacted block. */
  lemma {:induction false} NoThinkingArrives(content: seq<Content>, shown: seq<Content>, rename: Rename, i: nat)
    requires OtherBlocks(content, shown, rename) && i < |shown|
    ensures !shown[i].Thinking?
  {
    var n := |content| - 1;
    if content[n].Thinking? && (content[n].redacted || Blank(content[n].thinking)) {
      NoThinkingArrives(content[..n], shown, rename, i);
    } else if i < |shown| - 1 {
      NoThinkingArrives(content[..n], shown[..|shown| - 1], rename, i);
    }
  }

  // ----- Who speaks -----

  function Spoken(ms: seq<Message>): seq<Message> {
    if ms == [] then []
    else Spoken(ms[..|ms| - 1]) + if ms[|ms| - 1].ToolResult? then [] else [ms[|ms| - 1]]
  }

  predicate Speaks(m: Message) {
    m.User? || (m.Assistant? && m.stopReason !in {Error, Aborted})
  }

  /** `heard` is what the provider gets of `m`: a user message verbatim, a reply block by block. */
  ghost predicate Conveys(m: Message, heard: Message, same: bool, rename: Rename) {
    if m.User? then heard == m
    else m.Assistant? && heard.Assistant? && heard == m.(content := heard.content)
         && if same then OwnBlocks(m.content, heard.content) else OtherBlocks(m.content, heard.content, rename)
  }

  /** `said` is what the provider gets of `ms`: everyone who speaks, in order, and nobody else. */
  ghost predicate Hears(ms: seq<Message>, same: seq<bool>, rename: Rename, said: seq<Message>)
    requires |same| == |ms|
  {
    if ms == [] then said == []
    else
      var n := |ms| - 1;
      if !Speaks(ms[n]) then Hears(ms[..n], same[..n], rename, said)
      else said != [] && Conveys(ms[n], said[|said| - 1], same[n], rename)
           && Hears(ms[..n], same[..n], rename, said[..|said| - 1])
  }

  lemma SpokenAppend(ms: seq<Message>, m: Message)
    ensures Spoken(ms + [m]) == Spoken(ms) + if m.ToolResult? then [] else [m]
  {
    assert (ms + [m])[..|ms|] == ms;
  }

  lemma {:induction false} SpokenResults(ms: seq<Message>, results: seq<Message>)
    requires forall i :: 0 <= i < |results| ==> results[i].ToolResult?
    ensures Spoken(ms + results) == Spoken(ms)
  {
    if results == [] {
      assert ms + results == ms;
    } else {
      var n := |results| - 1;
      assert ms + results == (ms + results[..n]) + [results[n]];
      SpokenResults(ms, results[..n]);
      SpokenAppend(ms + results[..n], results[n]);
    }
  }

  /** Matching calls and results silences nobody. */
  lemma {:induction false} MatchingKeepsSpoken(ms: seq<Message>)
    ensures Spoken(Matched(ms).out) == Spoken(ms)
  {
    hide Missing, HasCall, CallsIn;
    if ms != [] {
      var before, m := ms[..|ms| - 1], ms[|ms| - 1];
      MatchingKeepsSpoken(before);
      var p := Matched(before);
      FlushKeepsSpoken(p);
      if m.ToolResult? {
        SpokenAppend(p.out, m);
      } else {
        SpokenAppend(Flushed(p).out, m);
      }
    }
  }

  lemma FlushKeepsSpoken(p: Matching)
    ensures Spoken(Flushed(p).out) == Spoken(p.out)
  {
    MissingShape(p.pending, p.answered);
    SpokenResults(p.out, Missing(p.pending, p.answered));
  }

  lemma ShownConveys(m: Message, same: bool, rename: Rename)
    requires m.Assistant?
    ensures Conveys(m, m.(content := ShownAll(m.content, same, rename)), same, rename)
  {
    if same {
      OwnBlocksArrive(m.content, rename);
    } else {
      OtherBlocksArrive(m.content, rename);
    }
  }

  /** What one more message adds to what is said. */
  lemma HeardLast(c: Cleaned, m: Message, same: bool, rename: Rename) returns (heard: Message)
    ensures Spoken(CleanOne(c, m, same, rename).out) == Spoken(c.out) + if Speaks(m) then [heard] else []
    ensures Speaks(m) ==> Conveys(m, heard, same, rename)
  {
    hide ShownAll, Learned, CallsIn, Spoken, OwnBlocks, OtherBlocks;
    heard := m;
    match m
    case User(_, _) => SpokenAppend(c.out, m);
    case Assistant(content, _, _, _) =>
      heard := m.(content := ShownAll(content, same, rename));
      ShownConveys(m, same, rename);
      SpokenAppend(c.out, heard);
    case ToolResult(callId, _, _, _) =>
      SpokenAppend(c.out, if callId in c.ids then m.(callId := c.ids[callId]) else m);
  }

  lemma {:induction false} CleanIsHeard(ms: seq<Message>, same: seq<bool>, rename: Rename)
    requires |same| == |ms|
    ensures Hears(ms, same, rename, Spoken(Clean(ms, same, rename).out))
  {
    hide Conveys, CleanOne, Speaks;
    if ms != [] {
      var n := |ms| - 1;
      CleanIsHeard(ms[..n], same[..n], rename);
      var c := Clean(ms[..n], same[..n], rename);
      var heard := HeardLast(c, ms[n], same[n], rename);
      assert (Spoken(c.out) + [heard])[..|Spoken(c.out)|] == Spoken(c.out);
      assert Spoken(c.out) + [] == Spoken(c.out);
    }
  }

  /**
   * Whatever the context is, the provider reads every user message verbatim and
   * every reply that did not fail, in order and block by block, and nothing else
   * but tool results.
   */
  lemma EveryoneIsHeard(ms: seq<Message>, same: seq<bool>, rename: Rename)
    requires |same| == |ms|
    ensures Hears(ms, same, rename, Spoken(PairResults(Clean(ms, same, rename).out)))
  {
    hide Hears, Clean, Matched;
    CleanIsHeard(ms, same, rename);
    MatchingKeepsSpoken(Clean(ms, same, rename).out);
    FlushKeepsSpoken(Matched(Clean(ms, same, rename).out));
  }

  function Users(ms: seq<Message>): seq<Message> {
    if ms == [] then []
    else Users(ms[..|ms| - 1]) + if ms[|ms| - 1].User? then [ms[|ms| - 1]] else []
  }

  /** In particular, what the person said reaches every provider word for word. */
  lemma {:induction false} PeopleAreQuoted(ms: seq<Message>, same: seq<bool>, rename: Rename, said: seq<Message>)
    requires |same| == |ms| && Hears(ms, same, rename, said)
    ensures Users(said) == Users(ms)
    decreases |ms|
  {
    hide OwnBlocks, OtherBlocks;
    if ms != [] {
      var n := |ms| - 1;
      PeopleAreQuoted(ms[..n], same[..n], rename, if Speaks(ms[n]) then said[..|said| - 1] else said);
    }
  }

  // ----- Tool results -----

  /** A result that was in the conversation, under its own id or its new one. */
  ghost predicate Carries(ms: seq<Message>, rename: Rename, r: Message) {
    exists i :: CarriesAt(ms, rename, r, i)
  }

  predicate CarriesAt(ms: seq<Message>, rename: Rename, r: Message, i: int) {
    0 <= i < |ms| && ms[i].ToolResult? && r.ToolResult? && r == ms[i].(callId := r.callId)
    && (r.callId == ms[i].callId || r.callId == rename(ms[i].callId))
  }

  /** The error that stands in for a result that is not there. */
  predicate MadeUp(r: Message) {
    r.ToolResult? && r.isError && r.output == [Text(NO_RESULT_TEXT)]
  }

  lemma {:induction false} CleanCarries(ms: seq<Message>, same: seq<bool>, rename: Rename)
    requires |same| == |ms|
    ensures forall m | m in Clean(ms, same, rename).out && m.ToolResult? :: Carries(ms, rename, m)
  {
    hide ShownAll, Learned, CallsIn, RenamedIn;
    if ms != [] {
      var n := |ms| - 1;
      var c := Clean(ms[..n], same[..n], rename);
      CleanCarries(ms[..n], same[..n], rename);
      IdsKnown(ms[..n], same[..n], rename);
      forall m | m in Clean(ms, same, rename).out && m.ToolResult? ensures Carries(ms, rename, m) {
        if m in c.out {
          assert Carries(ms[..n], rename, m);
          var i :| CarriesAt(ms[..n], rename, m, i);
          assert CarriesAt(ms, rename, m, i);
        } else {
          assert CarriesAt(ms, rename, m, n);
        }
      }
    }
  }

  lemma {:induction false} MissingIsMadeUp(calls: seq<Call>, answered: set<string>)
    ensures forall m | m in Missing(calls, answered) :: MadeUp(m)
  {
    if calls != [] {
      MissingIsMadeUp(calls[..|calls| - 1], answered);
    }
  }

  lemma {:induction false} MatchingCarries(ms: seq<Message>)
    ensures forall m | m in Matched(ms).out && m.ToolResult? :: m in ms || MadeUp(m)
  {
    hide Missing, HasCall, CallsIn, MadeUp;
    if ms != [] {
      var before := ms[..|ms| - 1];
      MatchingCarries(before);
      MissingIsMadeUp(Matched(before).pending, Matched(before).answered);
      assert ms == before + [ms[|ms| - 1]];
    }
  }

  /** Each result the provider reads is one of the conversation, with its output and error flag, or a made-up error. */
  lemma ResultsAreHeard(ms: seq<Message>, same: seq<bool>, rename: Rename)
    requires |same| == |ms|
    ensures forall m | m in PairResults(Clean(ms, same, rename).out) && m.ToolResult? :: Carries(ms, rename, m) || MadeUp(m)
  {
    hide Carries, MadeUp, Clean, Matched, Missing;
    var out := Clean(ms, same, rename).out;
    CleanCarries(ms, same, rename);
    MatchingCarries(out);
    MissingIsMadeUp(Matched(out).pending, Matched(out).answered);
  }

  // ----- A conversation with one model -----

  /** Not a failed reply, and no idle thinking in it: nothing to leave out for the model that wrote it. */
  ghost predicate WorthSending(m: Message) {
    m.Assistant? ==>
      m.stopReason !in {Error, Aborted} && forall i :: 0 <= i < |m.content| ==> !Idle(m.content[i])
  }

  ghost predicate AllWorthSending(ms: seq<Message>) {
    forall k :: 0 <= k < |ms| ==> WorthSending(ms[k])
  }

  lemma OwnMessageStays(c: Cleaned, m: Message, rename: Rename)
    requires c.ids == map[] && WorthSending(m)
    ensures CleanOne(c, m, true, rename) == Cleaned(c.out + [m], map[])
  {
    hide ShownAll, Learned, CallsIn, Idle;
    if m.Assistant? {
      OwnBlocksArrive(m.content, rename);
      WholeReplyArrives(m.content, ShownAll(m.content, true, rename));
    }
  }

  lemma {:induction false} CleanLeavesOwn(ms: seq<Message>, same: seq<bool>, rename: Rename)
    requires |same| == |ms| && (forall i :: 0 <= i < |same| ==> same[i]) && AllWorthSending(ms)
    ensures Clean(ms, same, rename) == Cleaned(ms, map[])
  {
    hide CleanOne, WorthSending;
    if ms != [] {
      var n := |ms| - 1;
      CleanLeavesOwn(ms[..n], same[..n], rename);
      OwnMessageStays(Clean(ms[..n], same[..n], rename), ms[n], rename);
      assert ms == ms[..n] + [ms[n]];
    }
  }

  /** A paired conversation with one model is sent to it word for word, unless a reply uses one id for two calls. */
  lemma OwnContextArrives(ms: seq<Message>, same: seq<bool>, rename: Rename)
    requires |same| == |ms| && (forall i :: 0 <= i < |same| ==> same[i]) && AllWorthSending(ms) && Paired(ms)
    ensures PairResults(Clean(ms, same, rename).out) == ms <==> IdsDistinct(ms)
  {
    hide PairResults, Clean, IdsDistinct, Closed, Paired;
    PairedIsClosed(ms);
    CleanLeavesOwn(ms, same, rename);
    CleanHasNoFailures(ms, same, rename);
    ClosedIsKept(ms);
  }

  // ----- The clean-up as it runs -----

  /** `transform_messages` */
  method TransformMessages(ms: seq<Message>, same: seq<bool>, rename: Rename) returns (out: seq<Message>)
    requires |same| == |ms|
    ensures out == PairResults(Clean(ms, same, rename).out)
    ensures Acceptable(out) && Hears(ms, same, rename, Spoken(out))
    ensures forall m | m in out && m.ToolResult? :: Carries(ms, rename, m) || MadeUp(m)
  {
    hide Hears, Carries, MadeUp, Acceptable, PairResults, CleanOne;
    var c := Cleaned([], map[]);
    for i := 0 to |ms|
      invariant c == Clean(ms[..i], same[..i], rename)
    {
      assert ms[..i + 1][..i] == ms[..i] && same[..i + 1][..i] == same[..i];
      c := CleanOne(c, ms[i], same[i], rename);
    }
    assert ms[..|ms|] == ms && same[..|ms|] == same;
    out := PairToolResults(c.out);
    CleanHasNoFailures(ms, same, rename);
    PairingServes(c.out);
    EveryoneIsHeard(ms, same, rename);
    ResultsAreHeard(ms, same, rename);
  }

  method PairToolResults(ms: seq<Message>) returns (out: seq<Message>)
    ensures out == PairResults(ms)
  {
    var p := Matching([], [], {});
    for i := 0 to |ms|
      invariant p == Matched(ms[..i])
    {
      assert ms[..i + 1][..i] == ms[..i];
      p := MatchOne(p, ms[i]);
    }
    assert ms[..|ms|] == ms;
    out := Flushed(p).out;
  }
}
