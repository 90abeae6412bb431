// Runs after which a call is left without a result (apps/agent/src/agent.rs:128-171):
// which scripts cannot end like that, and one that does.
module AgentDangling {
  import opened Basics
  import opened Protocol
  import opened SessionLog
  import opened Recovery
  import opened Archives
  import opened AgentState
  import opened AgentSteps

  /** A reply cut off by the token limit that carries calls and yet reports no output. */
  predicate ZeroOutputCalls(r: Reply) {
    !r.aborted && r.providerError.None? && r.done.Length? && r.usage.output == 0 && CallsIn(r.content) != []
  }

  predicate Quiet(script: seq<Turn>) {
    forall i :: 0 <= i < |script| ==> !ZeroOutputCalls(script[i].reply)
  }

  predicate Finishes(m: Message, r: Reply) {
    m == FinishReply(r, false) || m == FinishReply(r, true)
  }

  /** A run that gives up on an overflow gives up on a reply of its script. */
  lemma {:induction false} GaveUpOn(p: Point, script: seq<Turn>, c: Config) returns (i: nat)
    requires var exit := Course(p, script, c).exit; exit.Some? && exit.value.OverflowGaveUp?
    ensures i < |script| && Finishes(Course(p, script, c).exit.value.reply, script[i].reply)
    decreases |script|
  {
    var last := |script| - 1;
    if Course(p, script[..last], c).exit.Some? {
      i := GaveUpOn(p, script[..last], c);
    } else {
      i := last;
      PassGaveUpOn(Course(p, script[..last], c).next, script[last], c);
    }
  }

  lemma PassGaveUpOn(p: Point, turn: Turn, c: Config)
    requires var exit := PassFrom(p, turn, c).exit; exit.Some? && exit.value.OverflowGaveUp?
    ensures Finishes(PassFrom(p, turn, c).exit.value.reply, turn.reply)
  {
    hide FinishReply, Plan, OnlyArchives, Overflows, Transient, KeepFrom, HandledAll;
    var q := Interfered(p, turn.before, true);
    var reply := ReplyTo(Checked(q), turn);
    var judged := Extended(Interfered(Checked(q), turn.duringReply, true), [reply]);
    KeptNeverOverflows(judged, turn, reply);
  }

  lemma KeptNeverOverflows(p: Point, turn: Turn, reply: Message)
    requires p.context != [] && reply.Assistant?
    ensures var exit := KeepFrom(p, turn, reply).exit; exit.None? || !exit.value.OverflowGaveUp?
  {
  }

  /** Only a zero-output reply can both overflow and leave live calls. */
  lemma QuietReply(r: Reply, m: Message, window: Option<nat>)
    requires Finishes(m, r) && Overflowed(m, window) && !ZeroOutputCalls(r)
    ensures LiveCalls(m) == []
  {
  }

  // ----- A run that leaves calls behind -----

  /** A pass during which nobody interferes and nothing is cancelled, over a window of 100 tokens. */
  function PlainTurn(reply: Reply): Turn {
    Turn([], true, Some(100), 0, Some(1), [], false, "", [], reply, false, false, false, [], false, [],
         (k: nat) => Outcome([], false), false, [], false, [])
  }

  const ONE_CALL := [ToolCall("1", "read", "{}")]
  const USES_TOOL := Reply(ONE_CALL, Usage(false, 0, 0, 0, 0, 0), ToolUse, None, false, None, None)
  const CUT_OFF := Reply(ONE_CALL, Usage(true, 100, 0, 0, 0, 100), Length, None, false, None, None)
  const OVERFLOWS_TWICE := [PlainTurn(USES_TOOL), PlainTurn(CUT_OFF), PlainTurn(CUT_OFF)]

  lemma {:induction false} UnitCosts(ms: seq<Message>, a: nat, estimate: Estimate)
    requires a <= |ms| && forall m :: estimate(m) == 1
    ensures Cost(ms, a, |ms|, estimate) == |ms| - a
    decreases |ms| - a
  {
    if a < |ms| {
      UnitCosts(ms, a + 1, estimate);
    }
  }

  lemma FitsEasily(p: Point, reply: Reply, c: Config)
    requires |p.context| <= 3 && forall m :: c.estimate(m) == 1
    requires forall i :: p.floor <= i < |p.context| ==> !UsableReport(p.context[i])
    ensures !Due(p, PlainTurn(reply), c)
  {
    UnitCosts(p.context, 0, c.estimate);
  }

  lemma UsesToolOnce(p: Point, c: Config)
    requires |p.context| == 1 && p.context[0].User? && p.promptIndex == 0 && !p.retryWithoutAnswer
    requires p.shared == Shared(true, true, [], []) && forall m :: c.estimate(m) == 1
    ensures PassFrom(p, PlainTurn(USES_TOOL), c)
            == Result(Extended(p, [FinishReply(USES_TOOL, false), ToolResult("1", "read", [], false)])
                      .(checkedAt := Some(1), retryAttempt := 0, sideEffects := true, segment := p.segment + 1), None)
  {
    hide KeepFrom;
    FitsEasily(p, USES_TOOL, c);
    var replied := Extended(p, [FinishReply(USES_TOOL, false)]).(checkedAt := Some(1));
    ServesTool(replied, c);
    var both := [FinishReply(USES_TOOL, false)] + [ToolResult("1", "read", [], false)];
    assert replied.told + [ToolResult("1", "read", [], false)] == p.told + both;
    assert replied.context + [ToolResult("1", "read", [], false)] == p.context + both;
  }

  lemma ServesTool(p: Point, c: Config)
    requires p.context != [] && !p.retryWithoutAnswer && p.shared == Shared(true, true, [], [])
    ensures KeepFrom(p, PlainTurn(USES_TOOL), FinishReply(USES_TOOL, false))
            == Result(Extended(p, [ToolResult("1", "read", [], false)])
                      .(retryAttempt := 0, sideEffects := true, segment := p.segment + 1), None)
  {
  }

  /** With no budget for a tail, only the prompt is kept. */
  lemma KeepsPromptOnly(ms: seq<Message>, estimate: Estimate)
    requires |ms| == 3 && forall m :: estimate(m) == 1
    ensures Plan(ms, 0, 0, estimate) == Some([0])
  {
    assert Range(0, 1) + Range(3, 3) == [0];
  }

  lemma OverflowsOnce(p: Point, c: Config)
    requires |p.context| == 3 && p.promptIndex == 0 && p.floor == 0 && p.checkedAt != Some(3)
    requires !p.retryWithoutAnswer && !p.overflowRecovered
    requires p.shared == Shared(true, true, [], []) && forall m :: c.estimate(m) == 1
    requires forall i :: 0 <= i < |p.context| ==> !UsableReport(p.context[i])
    ensures PassFrom(p, PlainTurn(CUT_OFF), c)
            == Result(p.(context := [SummaryMessage(""), p.context[0]], floor := 2, promptIndex := 1,
                         checkedAt := Some(3), overflowRecovered := true,
                         told := p.told + [FinishReply(CUT_OFF, false)]), None)
  {
    hide JudgeFrom;
    FitsEasily(p, CUT_OFF, c);
    var sent := Extended(p, [FinishReply(CUT_OFF, false)]).(checkedAt := Some(3));
    assert sent.context[..3] == p.context;
    JudgesOverflow(sent, c);
  }

  lemma JudgesOverflow(p: Point, c: Config)
    requires |p.context| == 4 && p.promptIndex == 0 && p.floor == 0 && !p.overflowRecovered
    requires p.shared == Shared(true, true, [], []) && forall m :: c.estimate(m) == 1
    ensures JudgeFrom(p, PlainTurn(CUT_OFF), true, FinishReply(CUT_OFF, false), c)
            == Result(p.(context := [SummaryMessage(""), p.context[0]], floor := 2, promptIndex := 1,
                         overflowRecovered := true), None)
  {
    hide KeepFrom, BackoffFrom, Plan;
    KeepsPromptOnly(p.context[..3], c.estimate);
  }

  lemma OverflowsAgain(p: Point, c: Config)
    requires |p.context| == 2 && p.floor == 2 && p.overflowRecovered && p.sideEffects && !p.retryWithoutAnswer
    requires p.shared == Shared(true, true, [], []) && forall m :: c.estimate(m) == 1
    ensures var reply := FinishReply(CUT_OFF, false);
            PassFrom(p, PlainTurn(CUT_OFF), c)
            == Result(Extended(p.(checkedAt := Some(2)), [reply]), Some(OverflowGaveUp(reply, Some(100))))
  {
    FitsEasily(p, CUT_OFF, c);
  }

  /** The zero-output hypothesis is needed: tool results, one archive, then a second overflow that carries a call. */
  lemma SecondOverflowDangles(prompt: Message, c: Config)
    requires prompt.User? && forall m :: c.estimate(m) == 1
    ensures var r := RunFrom(Opened([], 0, Shared(true, true, [], []), prompt), OVERFLOWS_TWICE, c);
            && r.exit == Some(OverflowGaveUp(FinishReply(CUT_OFF, false), Some(100)))
            && r.next.context == [SummaryMessage(""), prompt, FinishReply(CUT_OFF, false)]
            && !Paired(r.next.context)
  {
    hide PassFrom, Course, Paired, Overflowed;
    var top := Opened([], 0, Shared(true, true, [], []), prompt);
    UsesToolOnce(top, c);
    var used := PassFrom(top, OVERFLOWS_TWICE[0], c).next;
    OverflowsOnce(used, c);
    var archived := PassFrom(used, OVERFLOWS_TWICE[1], c).next;
    OverflowsAgain(archived, c);
    ThreePasses(top, OVERFLOWS_TWICE, c);
    var ended := RunFrom(top, OVERFLOWS_TWICE, c).next.context;
    LeftUnanswered(ended, 2);
  }

  lemma LeftUnanswered(ms: seq<Message>, i: nat)
    requires |ms| == i + 1 && LiveCalls(ms[i]) != []
    ensures !Paired(ms)
  {
    assert !Protocol.Answered(ms, i);
  }

  lemma ThreePasses(p: Point, script: seq<Turn>, c: Config)
    requires |script| == 3
    requires PassFrom(p, script[0], c).exit.None?
    requires PassFrom(PassFrom(p, script[0], c).next, script[1], c).exit.None?
    ensures Course(p, script, c) == PassFrom(PassFrom(PassFrom(p, script[0], c).next, script[1], c).next, script[2], c)
  {
    hide PassFrom;
    assert script[..2][..1] == script[..1] && script[..1][..0] == [];
    assert Course(p, script[..1], c) == PassFrom(p, script[0], c);
    assert Course(p, script[..2], c) == PassFrom(PassFrom(p, script[0], c).next, script[1], c);
  }
}
