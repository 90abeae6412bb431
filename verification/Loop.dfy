// One pass of the agent loop as a function (apps/agent/src/agent.rs): what a
// pass does to the conversation, the run's flags and the queues, given what the
// environment decides during it.  `Agent.dfy` proves that the loop computes this
// function; the lemmas here are about the function.
module AgentSteps {
  import opened Basics
  import opened Protocol
  import opened SessionLog
  import opened Recovery
  import opened Archives
  import opened AgentState

  // ----- What the environment decides -----

  /** What streaming a reply came to, before `stream_assistant` settles its outcome. */
  datatype Reply = Reply(content: seq<Content>, usage: Usage, done: StopReason,
                         providerError: Option<string>, aborted: bool,
                         status: Option<nat>, retryAfterMs: Option<nat>)

  datatype Outcome = Outcome(output: seq<Content>, isError: bool)

  datatype Turn = Turn(
    before: seq<Command>, hasModel: bool, window: Option<nat>, overhead: nat,
    archiveWindow: Option<nat>, duringArchive: seq<Command>, archiveCancelled: bool, summary: string,
    duringReply: seq<Command>, reply: Reply,
    named: bool, nonRetryable: bool, retryable: bool,
    duringBackoff: seq<Command>, backoffCancelled: bool,
    duringTools: seq<Command>, outcome: nat -> Outcome, validQuestion: bool,
    attachments: seq<Attachment>, abortAfterTools: bool,
    beforeLook: seq<Command>)

  // ----- What comes of a pass -----

  datatype Trigger = Threshold | Overflow

  datatype Exit =
    | NoModel
    | ArchiveCancelled(trigger: Trigger)
    | OverflowGaveUp(reply: Message, window: Option<nat>)
    | NothingLeftToArchive
    | BackoffCancelled
    | ReplyFailed(reply: Message)
    | Answered
    | AskedUser
    | CancelledAfterTools

  /** One provider request; `segment` counts the progress points before it. */
  datatype Request = Request(messages: seq<Message>, promptIndex: nat, segment: nat)

  datatype ArchiveOutcome = Archived(pinned: nat) | NothingToArchive | Cancelled

  // ----- Replies -----

  predicate HasVisibleAnswerOrTool(content: seq<Content>) {
    exists i :: 0 <= i < |content| && (content[i].ToolCall? || (content[i].Text? && !Blank(content[i].text)))
  }

  predicate Empty(m: Message) {
    m.Assistant? && (m.stopReason.Stop? || m.stopReason.Length?) && !HasVisibleAnswerOrTool(m.content)
  }

  predicate IsError(m: Message) {
    m.Assistant? && m.stopReason.Error?
  }

  const ABORTED_TEXT := "Aborted"
  const EMPTY_TWICE_TEXT := "two replies in a row without a visible answer or a tool call"

  /** The end of `stream_assistant`: a second empty answer in a row counts as an error. */
  function FinishReply(r: Reply, continuation: bool): (m: Message)
    ensures m.Assistant? && m.usage == r.usage && ToolCalls(m) == CallsIn(r.content)
    ensures m.content == if !r.aborted && r.providerError.Some? && r.content == [] then [Text(r.providerError.value)]
                         else r.content
    ensures r.aborted ==> m.stopReason.Aborted?
    ensures !r.aborted && r.providerError.Some? ==> m.stopReason.Error? && m.errorMessage == r.providerError
    ensures !r.aborted && r.providerError.None? && !(continuation && r.done in {Stop, Length}) ==>
              m.stopReason == r.done && m.errorMessage.None?
    ensures continuation ==> !Empty(m)
    ensures continuation && !r.aborted && r.done in {Stop, Length} && !HasVisibleAnswerOrTool(r.content) ==> IsError(m)
    ensures m.stopReason.Length? <==> !r.aborted && r.providerError.None? && r.done.Length?
                                      && !(continuation && !HasVisibleAnswerOrTool(r.content))
  {
    if r.aborted then Assistant(r.content, r.usage, Aborted, Some(ABORTED_TEXT))
    else if r.providerError.Some? then
      Assistant(if r.content == [] then [Text(r.providerError.value)] else r.content, r.usage, Error, r.providerError)
    else
      var m := Assistant(r.content, r.usage, r.done, None);
      if continuation && Empty(m) then Assistant(r.content, r.usage, Error, Some(EMPTY_TWICE_TEXT)) else m
  }

  const TRUNCATED_TEXT := "was not executed: the response hit the output token limit"

  /** One result per call, in order (`fail_truncated_calls`, `execute_calls`). */
  function ResultsFor(calls: seq<Call>, outcome: nat -> Outcome): (results: seq<Message>)
    ensures AllAnswer(results, calls)
  {
    seq(|calls|, k requires 0 <= k < |calls| =>
      ToolResult(calls[k].id, calls[k].name, outcome(k).output, outcome(k).isError))
  }

  /** What each call of a reply cut off by the token limit gets instead of being run. */
  function Truncated(calls: seq<Call>): nat -> Outcome {
    (k: nat) => Outcome([Text("Tool call \"" + (if k < |calls| then calls[k].name else "") + "\" " + TRUNCATED_TEXT)], true)
  }

  /** Already attached to the conversation, by path or by content. */
  predicate Attached(ms: seq<Message>, a: Attachment) {
    exists m | m in ms :: m.User? && exists b | b in m.attachments ::
      (b.path.Some? && b.path == a.path) || (b.data.Some? && b.mime == a.mime && b.data == a.data)
  }

  function FreshAttachments(ms: seq<Message>, attachments: seq<Attachment>): seq<Attachment> {
    if attachments == [] then []
    else
      var n := |attachments| - 1;
      FreshAttachments(ms, attachments[..n]) + if Attached(ms, attachments[n]) then [] else [attachments[n]]
  }

  function Names(attachments: seq<Attachment>): string {
    if attachments == [] then ""
    else if |attachments| == 1 then attachments[0].name
    else attachments[0].name + ", " + Names(attachments[1..])
  }

  function TailBudget(turn: Turn): nat {
    BudgetForWindow(turn.archiveWindow).tailTokens
  }

  /** The question was put to the person, so the run waits for them. */
  predicate Asks(turn: Turn, reply: Message)
    requires reply.Assistant?
  {
    var calls := ToolCalls(reply);
    !reply.stopReason.Length? && |calls| == 1 && calls[0].name == ASK_USER && turn.validQuestion
  }

  /** What comes back for a reply's calls: errors for all of them when the reply was cut off. */
  function ResultsOf(turn: Turn, reply: Message): seq<Message>
    requires reply.Assistant?
  {
    var calls := ToolCalls(reply);
    ResultsFor(calls, if reply.stopReason.Length? then Truncated(calls) else turn.outcome)
  }

  /** The user message that carries newly registered media, if any. */
  function MediaFor(ms: seq<Message>, attachments: seq<Attachment>): seq<Message> {
    var unseen := FreshAttachments(ms, attachments);
    if unseen == [] then [] else [User(Names(unseen), unseen)]
  }

  function Media(turn: Turn, reply: Message): seq<Attachment>
    requires reply.Assistant?
  {
    if reply.stopReason.Length? then [] else turn.attachments
  }

  /** The reply is put down to an overflowing context. */
  predicate Overflows(turn: Turn, autoArchive: bool, reply: Message)
    requires reply.Assistant?
  {
    autoArchive && !reply.stopReason.Stop? && IsContextOverflow(reply, turn.named, turn.window)
  }

  /** Such a reply failed, or was cut off without output by a full window. */
  predicate Overflowed(reply: Message, window: Option<nat>) {
    && reply.Assistant?
    && (|| Failed(reply)
        || (&& reply.stopReason.Length? && reply.usage.output == 0
            && window.Some? && 100 * (reply.usage.input + reply.usage.cacheRead) >= 99 * window.value))
  }

  lemma OverflowsMeans(turn: Turn, autoArchive: bool, reply: Message)
    requires reply.Assistant? && Overflows(turn, autoArchive, reply)
    ensures Overflowed(reply, turn.window)
  {
  }

  predicate Transient(turn: Turn, reply: Message) {
    IsRetryable(reply, turn.named, turn.nonRetryable, turn.retryable, turn.reply.status, turn.window)
  }

  const NO_MODEL_TEXT := "No model is configured."

  function NoModelMessage(): Message {
    Assistant([Text(NO_MODEL_TEXT)], Usage(false, 0, 0, 0, 0, 0), Error, Some(NO_MODEL_TEXT))
  }

  // ----- Where a run stands -----

  /** What the passes of a run share, the conversation included. */
  datatype Point = Point(
    context: seq<Message>, floor: nat, promptIndex: nat,
    retryWithoutAnswer: bool, retryAttempt: nat, overflowRecovered: bool, checkedAt: Option<nat>,
    sideEffects: bool, segment: nat, rolledBack: bool, shared: Shared, told: seq<Message>)

  datatype Config = Config(estimate: Estimate, maxRetries: nat)

  /** Where a pass, or a run, leads; `exit` when the run stops there. */
  datatype Result = Result(next: Point, exit: Option<Exit>)

  /** Other clients' commands. */
  function Interfered(p: Point, commands: seq<Command>, open: bool): Point {
    p.(shared := HandledAll(p.shared, commands, open))
  }

  /** Messages join the conversation, and clients are told of them. */
  function Extended(p: Point, ms: seq<Message>): Point {
    Joined(Told(p, ms), ms)
  }

  function Joined(p: Point, ms: seq<Message>): Point {
    p.(context := p.context + ms)
  }

  function Told(p: Point, ms: seq<Message>): Point {
    p.(told := p.told + ms)
  }

  lemma JoinedMore(p: Point, ms: seq<Message>, m: Message)
    ensures Joined(p, []) == p && Joined(Joined(p, ms), [m]) == Joined(p, ms + [m])
  {
    assert p.context + [] == p.context && p.context + ms + [m] == p.context + (ms + [m]);
  }

  lemma ToldMore(p: Point, ms: seq<Message>, m: Message)
    ensures Told(p, []) == p && Told(Told(p, ms), [m]) == Told(p, ms + [m])
  {
    assert p.told + [] == p.told && p.told + ms + [m] == p.told + (ms + [m]);
  }

  /** `rollback_failed_turn` */
  function Retained(p: Point, n: nat): Point {
    if n < |p.context| then p.(context := p.context[..n], floor := Min(p.floor, n)) else p
  }

  /** `rollback_if_clean` */
  function RolledBack(p: Point): Point {
    if p.sideEffects then p else Retained(p, p.promptIndex).(rolledBack := true)
  }

  /** A fact the run may not roll back past. */
  function Progressed(p: Point): Point {
    p.(sideEffects := true, segment := p.segment + 1)
  }

  /** The next queued message, if there is one, becomes the next user turn. */
  function Injected(p: Point, stopping: bool): Point {
    var next := NextQueued(p.shared, stopping);
    if next.None? then p
    else Extended(p.(shared := Popped(p.shared, stopping)), [next.value.message])
  }

  function PlanOf(p: Point, turn: Turn, c: Config): Option<seq<nat>> {
    Plan(p.context, p.promptIndex, TailBudget(turn), c.estimate)
  }

  /** An archive is in place; the prompt moves with it. */
  function Compacted(p: Point, summary: string, plan: seq<nat>): Point {
    var context := [SummaryMessage(summary)] + Selected(p.context, plan);
    p.(context := context, floor := |context|, promptIndex := NewPinned(plan, p.promptIndex))
  }

  /** `archive` */
  function ArchiveFrom(p: Point, turn: Turn, c: Config): (Point, ArchiveOutcome) {
    var plan := PlanOf(p, turn, c);
    if plan.None? then (p, NothingToArchive)
    else
      var q := Interfered(p, turn.duringArchive, false);
      if turn.archiveCancelled then (q, Cancelled)
      else
        var done := Compacted(q, turn.summary, plan.value);
        (done, Archived(done.promptIndex))
  }

  /** The context overflowed; its last message is the reply. */
  function RecoverFrom(p: Point, turn: Turn, reply: Message, c: Config): Result
    requires p.context != []
  {
    if p.overflowRecovered then Result(RolledBack(p), Some(OverflowGaveUp(reply, turn.window)))
    else
      var (q, o) := ArchiveFrom(Retained(p, |p.context| - 1), turn, c);
      Result(if o.Archived? then q.(overflowRecovered := true) else q, Replayed(o))
  }

  /** Whether a run goes on after its first overflow. */
  function Replayed(o: ArchiveOutcome): Option<Exit> {
    match o
    case Archived(_) => None
    case NothingToArchive => Some(NothingLeftToArchive)
    case Cancelled => Some(ArchiveCancelled(Overflow))
  }

  /** A transient failure. */
  function BackoffFrom(p: Point, turn: Turn): Result
    requires p.context != []
  {
    var base := Retained(p.(retryAttempt := p.retryAttempt + 1), |p.context| - 1);
    Result(Interfered(base, turn.duringBackoff, true), if turn.backoffCancelled then Some(BackoffCancelled) else None)
  }

  /** A complete answer. */
  function AnswerFrom(p: Point, turn: Turn): Result {
    LookFrom(Interfered(p, turn.beforeLook, true))
  }

  /** The last look into the queues. */
  function LookFrom(p: Point): Result {
    if NextQueued(p.shared, true).None? then Result(p, Some(Answered))
    else Result(Injected(Progressed(p), true), None)
  }

  /** A reply's calls are served: one result each, then the media they registered. */
  function Served(p: Point, turn: Turn, reply: Message): Point
    requires reply.Assistant?
  {
    var q := Progressed(Extended(p, ResultsOf(turn, reply)));
    Extended(q, MediaFor(q.context, Media(turn, reply)))
  }

  /** A reply with calls. */
  function ServeFrom(p: Point, turn: Turn, reply: Message): Result
    requires reply.Assistant?
  {
    var q := if reply.stopReason.Length? then p else Interfered(p, turn.duringTools, true);
    var served := Served(q, turn, reply);
    if Asks(turn, reply) then Result(served, Some(AskedUser))
    else if turn.abortAfterTools then Result(served, Some(CancelledAfterTools))
    else Result(Injected(Interfered(served, turn.beforeLook, true), false), None)
  }

  /** A reply that is neither replayed nor empty. */
  function ConcludeFrom(p: Point, turn: Turn, reply: Message): Result
    requires p.context != [] && reply.Assistant?
  {
    var q := p.(retryWithoutAnswer := false);
    if Failed(reply) then Result(if IsError(reply) then RolledBack(q) else q, Some(ReplyFailed(reply)))
    else if ToolCalls(reply) == [] then AnswerFrom(q, turn)
    else ServeFrom(q, turn, reply)
  }

  /** A reply that is not replayed. */
  function KeepFrom(p: Point, turn: Turn, reply: Message): Result
    requires p.context != [] && reply.Assistant?
  {
    var q := p.(retryAttempt := 0);
    if Empty(reply) then Result(q.(retryWithoutAnswer := true), None) else ConcludeFrom(q, turn, reply)
  }

  /** What the loop does with a reply it just appended; `auto` as read at the top of the pass. */
  function JudgeFrom(p: Point, turn: Turn, auto: bool, reply: Message, c: Config): Result
    requires p.context != [] && reply.Assistant?
  {
    if Overflows(turn, auto, reply) then RecoverFrom(p, turn, reply, c)
    else if p.shared.retryEnabled && p.retryAttempt < c.maxRetries && Transient(turn, reply) then BackoffFrom(p, turn)
    else KeepFrom(p, turn, reply)
  }

  /** The context is over the threshold and was not checked at this length yet. */
  predicate Due(p: Point, turn: Turn, c: Config) {
    && p.shared.autoArchive && p.checkedAt != Some(|p.context|)
    && OverThreshold(ContextTokens(p.context, p.floor, turn.overhead, c.estimate), turn.window)
  }

  /** The pass replaces the context, or is cancelled doing so, instead of making a request. */
  predicate OnlyArchives(p: Point, turn: Turn, c: Config) {
    turn.hasModel && Due(p, turn, c) && PlanOf(p, turn, c).Some?
  }

  function ArchivePassFrom(p: Point, turn: Turn, c: Config): Result {
    var (q, o) := ArchiveFrom(p, turn, c);
    if o.Archived? then Result(q.(checkedAt := Some(|q.context|)), None)
    else Result(q, Some(ArchiveCancelled(Threshold)))
  }

  /** The context was found fit to be sent. */
  function Checked(p: Point): Point {
    if p.shared.autoArchive then p.(checkedAt := Some(|p.context|)) else p
  }

  function ReplyTo(p: Point, turn: Turn): (m: Message)
    ensures m.Assistant?
  {
    FinishReply(turn.reply, p.retryWithoutAnswer)
  }

  /** A request and its reply, which joins the context that was sent; `auto` as read at the top of the pass. */
  function AskFrom(p: Point, turn: Turn, auto: bool, c: Config): Result {
    var reply := ReplyTo(p, turn);
    JudgeFrom(Extended(Interfered(p, turn.duringReply, true), [reply]), turn, auto, reply, c)
  }

  /** A pass, once it has taken the lock. */
  function PassOnFrom(p: Point, turn: Turn, c: Config): Result {
    if !turn.hasModel then Result(Extended(p, [NoModelMessage()]), Some(NoModel))
    else if OnlyArchives(p, turn, c) then ArchivePassFrom(p, turn, c)
    else AskFrom(Checked(p), turn, p.shared.autoArchive, c)
  }

  function PassFrom(p: Point, turn: Turn, c: Config): Result {
    PassOnFrom(Interfered(p, turn.before, true), turn, c)
  }

  /** The request of a pass, unless it archives or has no model. */
  function RequestOf(p: Point, turn: Turn, c: Config): seq<Request> {
    var q := Interfered(p, turn.before, true);
    if !turn.hasModel || OnlyArchives(q, turn, c) then []
    else [Request(q.context, q.promptIndex, q.segment)]
  }

  // ----- What one pass leaves to the next -----

  /** A failed reply that does not overflow is replayed, or it ends the run and a clean run is rolled back. */
  lemma FailedReplies(p: Point, turn: Turn, auto: bool, reply: Message, c: Config)
    requires p.context != [] && p.context[|p.context| - 1] == reply && Failed(reply) && !Overflows(turn, auto, reply)
    ensures var r := JudgeFrom(p, turn, auto, reply, c);
            var replays := p.shared.retryEnabled && p.retryAttempt < c.maxRetries && Transient(turn, reply);
            && (r.exit == Some(ReplyFailed(reply)) <==> !replays)
            && (r.exit.None? <==> replays && !turn.backoffCancelled)
            && (replays ==> r.next.context == p.context[..|p.context| - 1] && r.next.retryAttempt == p.retryAttempt + 1)
            && (!replays && !p.rolledBack ==> (r.next.rolledBack <==> reply.stopReason.Error? && !p.sideEffects))
            && (!replays && reply.stopReason.Aborted? ==> r.next.context == p.context)
            && (!replays && reply.stopReason.Error? && !p.sideEffects && p.promptIndex < |p.context| ==>
                  r.next.context == p.context[..p.promptIndex])
  {
  }

  /** The pass makes a request. */
  predicate Asked(p: Point, turn: Turn, c: Config) {
    RequestOf(p, turn, c) != []
  }

  /** A pass that makes a request is the judgement of its reply. */
  lemma AskedIsJudged(p: Point, turn: Turn, c: Config)
    requires Asked(p, turn, c)
    ensures var q := Checked(Interfered(p, turn.before, true));
            var reply := ReplyTo(q, turn);
            var judged := Extended(Interfered(q, turn.duringReply, true), [reply]);
            && PassFrom(p, turn, c)
               == JudgeFrom(judged, turn, Interfered(p, turn.before, true).shared.autoArchive, reply, c)
            && RequestOf(p, turn, c) == [Request(p.context, p.promptIndex, p.segment)]
            && judged.context == p.context + [reply]
            && judged.(context := p.context, shared := p.shared, checkedAt := p.checkedAt, told := p.told) == p
            && judged.told == p.told + [reply]
  {
    hide FinishReply, OnlyArchives, HandledAll, JudgeFrom;
  }

  lemma JudgedRetry(p: Point, turn: Turn, auto: bool, reply: Message, c: Config)
    requires p.context != [] && reply.Assistant?
    requires var r := JudgeFrom(p, turn, auto, reply, c); r.exit.None? && r.next.retryAttempt > p.retryAttempt
    ensures var r := JudgeFrom(p, turn, auto, reply, c);
            r.next.context == p.context[..|p.context| - 1] && r.next.promptIndex == p.promptIndex
            && r.next.segment == p.segment
  {
    hide Overflows, Transient, HandledAll, ConcludeFrom, Plan, Empty;
    ConcludedEndsRetries(p.(retryAttempt := 0), turn, reply);
  }

  lemma ConcludedEndsRetries(p: Point, turn: Turn, reply: Message)
    requires p.context != [] && reply.Assistant?
    ensures ConcludeFrom(p, turn, reply).next.retryAttempt == p.retryAttempt
    ensures !ConcludeFrom(p, turn, reply).next.retryWithoutAnswer
  {
    hide AnswerFrom, ServeFrom, Retained;
    var q := p.(retryWithoutAnswer := false);
    RetainedKeeps(q, p.promptIndex);
    AnsweredGrows(q, turn);
    ServedGrows(q, turn, reply);
  }

  lemma RetainedKeeps(p: Point, n: nat)
    ensures Retained(p, n).retryAttempt == p.retryAttempt && Retained(p, n).retryWithoutAnswer == p.retryWithoutAnswer
  {
  }

  /** The conversation only grew; retries, continuations and checks are as they were. */
  predicate Grows(p: Point, q: Point) {
    && p.context <= q.context && q.retryAttempt == p.retryAttempt && q.retryWithoutAnswer == p.retryWithoutAnswer
    && q.checkedAt == p.checkedAt
  }

  lemma InjectedGrows(p: Point, stopping: bool)
    ensures Grows(p, Injected(p, stopping))
  {
    hide NextQueued, Popped;
  }

  lemma AnsweredGrows(p: Point, turn: Turn)
    ensures Grows(p, AnswerFrom(p, turn).next)
  {
    hide HandledAll, NextQueued, Injected;
    InjectedGrows(Progressed(Interfered(p, turn.beforeLook, true)), true);
  }

  lemma ServedGrows(p: Point, turn: Turn, reply: Message)
    requires reply.Assistant?
    ensures Grows(p, ServeFrom(p, turn, reply).next)
  {
    hide HandledAll, Asks, Injected, Served;
    var q := if reply.stopReason.Length? then p else Interfered(p, turn.duringTools, true);
    ServedStands(q, turn, reply);
    InjectedGrows(Interfered(Served(q, turn, reply), turn.beforeLook, true), false);
  }

  lemma ServedStands(p: Point, turn: Turn, reply: Message)
    requires reply.Assistant?
    ensures Grows(p, Served(p, turn, reply))
  {
    hide MediaFor, ResultsOf;
  }

  /** A retry makes the very same request again. */
  lemma RetriesRepeat(p: Point, failed: Turn, again: Turn, c: Config)
    requires Asked(p, failed, c)
    requires var r := PassFrom(p, failed, c);
             r.exit.None? && r.next.retryAttempt > p.retryAttempt && Asked(r.next, again, c)
    ensures RequestOf(PassFrom(p, failed, c).next, again, c) == RequestOf(p, failed, c)
  {
    hide PassFrom, RequestOf, JudgeFrom, ReplyTo, HandledAll, Asked;
    AskedIsJudged(p, failed, c);
    var q := Checked(Interfered(p, failed.before, true));
    var reply := ReplyTo(q, failed);
    var judged := Extended(Interfered(q, failed.duringReply, true), [reply]);
    JudgedRetry(judged, failed, Interfered(p, failed.before, true).shared.autoArchive, reply, c);
    AskedIsJudged(PassFrom(p, failed, c).next, again, c);
  }

  lemma JudgedExtends(p: Point, turn: Turn, auto: bool, reply: Message, c: Config)
    requires p.context != [] && reply.Assistant?
    requires var r := JudgeFrom(p, turn, auto, reply, c); r.exit.None? && r.next.overflowRecovered == p.overflowRecovered
    ensures p.context[..|p.context| - 1] <= JudgeFrom(p, turn, auto, reply, c).next.context
  {
    hide Overflows, Transient, HandledAll, ConcludeFrom, ArchiveFrom, Empty;
    ConcludedExtends(p.(retryAttempt := 0), turn, reply);
  }

  lemma ConcludedExtends(p: Point, turn: Turn, reply: Message)
    requires p.context != [] && reply.Assistant?
    ensures var r := ConcludeFrom(p, turn, reply); r.exit.None? ==> p.context <= r.next.context
  {
    hide AnswerFrom, ServeFrom, RolledBack;
    AnsweredGrows(p.(retryWithoutAnswer := false), turn);
    ServedGrows(p.(retryWithoutAnswer := false), turn, reply);
  }

  /** Unless it is replayed over an archived context, what was sent stays the beginning of what is sent next. */
  lemma RequestsExtend(p: Point, turn: Turn, c: Config)
    requires Asked(p, turn, c)
    requires var r := PassFrom(p, turn, c); r.exit.None? && r.next.overflowRecovered == p.overflowRecovered
    ensures p.context <= PassFrom(p, turn, c).next.context
  {
    hide PassFrom, RequestOf, JudgeFrom, ReplyTo, HandledAll, Asked;
    AskedIsJudged(p, turn, c);
    var q := Checked(Interfered(p, turn.before, true));
    var reply := ReplyTo(q, turn);
    var judged := Extended(Interfered(q, turn.duringReply, true), [reply]);
    JudgedExtends(judged, turn, Interfered(p, turn.before, true).shared.autoArchive, reply, c);
  }

  // ----- Whole runs -----

  /** Where `script` leads from the top of the loop. */
  function Course(p: Point, script: seq<Turn>, c: Config): Result {
    if script == [] then Result(p, None)
    else
      var before := Course(p, script[..|script| - 1], c);
      if before.exit.Some? then before else PassFrom(before.next, script[|script| - 1], c)
  }

  /** A run that has stopped stays where it is. */
  lemma {:induction false} CourseStays(p: Point, script: seq<Turn>, c: Config, n: nat)
    requires n <= |script| && Course(p, script[..n], c).exit.Some?
    ensures Course(p, script, c) == Course(p, script[..n], c)
    ensures RequestsOn(p, script, c) == RequestsOn(p, script[..n], c)
    decreases |script|
  {
    if n == |script| {
      assert script[..n] == script;
    } else {
      assert script[..|script| - 1][..n] == script[..n];
      CourseStays(p, script[..|script| - 1], c, n);
    }
  }

  /** Every request on the way. */
  function RequestsOn(p: Point, script: seq<Turn>, c: Config): seq<Request> {
    if script == [] then []
    else
      var before := Course(p, script[..|script| - 1], c);
      RequestsOn(p, script[..|script| - 1], c)
      + if before.exit.Some? then [] else RequestOf(before.next, script[|script| - 1], c)
  }

  lemma {:induction false} RequestsStart(p: Point, script: seq<Turn>, c: Config)
    requires script != []
    ensures RequestOf(p, script[0], c) <= RequestsOn(p, script, c)
    decreases |script|
  {
    hide RequestOf, PassFrom;
    var last := |script| - 1;
    if last == 0 {
      assert script[..0] == [];
    } else {
      RequestsStart(p, script[..last], c);
    }
  }

  /** Where a run starts: the prompt is the last message. */
  function Opened(context: seq<Message>, floor: nat, shared: Shared, prompt: Message): Point {
    Point(context + [prompt], floor, |context|, false, 0, false, None, false, 0, false, shared, [prompt])
  }

  /** The end of a run: what is still queued joins the conversation, or goes with a rolled-back run. */
  function Settled(p: Point, exit: Exit): Point {
    if exit.Answered? then p
    else
      var left := if p.rolledBack then [] else p.shared.steering + p.shared.followUp;
      Extended(Drained(p), left)
  }

  /** What `RunPrompt` comes to: a run that stops is settled. */
  function RunFrom(p: Point, script: seq<Turn>, c: Config): Result {
    var course := Course(p, script, c);
    if course.exit.None? then course else Result(Settled(course.next, course.exit.value), course.exit)
  }

  function Drained(p: Point): Point {
    p.(shared := p.shared.(steering := [], followUp := []))
  }
}
