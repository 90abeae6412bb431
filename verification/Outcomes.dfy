// What a pass of the agent loop leaves behind, read off the conversation itself
// (apps/agent/src/agent.rs:59-361): results, media, steering, and which reply
// takes which way.
module AgentOutcomes {
  import opened Basics
  import opened Protocol
  import opened SessionLog
  import opened Recovery
  import opened Archives
  import opened AgentState
  import opened AgentSteps

  // ----- Calls and their results -----

  /** The context before, then one result for each call, then whatever else the pass adds; nothing of it is taken back. */
  lemma ServedInOrder(p: Point, turn: Turn, reply: Message)
    requires reply.Assistant?
    ensures p.context + ResultsOf(turn, reply) <= ServeFrom(p, turn, reply).next.context
    ensures ServeFrom(p, turn, reply).next.sideEffects
  {
    hide ResultsOf, MediaFor, Media, HandledAll, NextQueued, Popped, Asks;
  }

  /** The k-th message after the reply is the result of its k-th call: what the tool said, or an error if the reply was cut off. */
  lemma ServedResult(p: Point, turn: Turn, reply: Message, k: nat)
    requires reply.Assistant? && k < |CallsIn(reply.content)|
    ensures var ms, call := ServeFrom(p, turn, reply).next.context, CallsIn(reply.content)[k];
            && |p.context| + k < |ms|
            && var r := ms[|p.context| + k];
               if reply.stopReason.Length?
               then r.ToolResult? && r.callId == call.id && r.toolName == call.name && r.isError
               else r == ToolResult(call.id, call.name, turn.outcome(k).output, turn.outcome(k).isError)
  {
    ServedInOrder(p, turn, reply);
    assert (p.context + ResultsOf(turn, reply))[|p.context| + k] == ResultsOf(turn, reply)[k];
  }

  /** Nothing of what tools would have done reaches the conversation when the reply was cut off. */
  lemma CutOffRunsNothing(p: Point, turn: Turn, other: Turn, reply: Message)
    requires reply.Assistant? && reply.stopReason.Length?
    requires other == turn.(outcome := other.outcome, attachments := other.attachments,
                            validQuestion := other.validQuestion, duringTools := other.duringTools)
    ensures ServeFrom(p, turn, reply) == ServeFrom(p, other, reply)
  {
  }

  /** The run waits for the person exactly when the one call asks and the question is well formed. */
  lemma AsksExactly(p: Point, turn: Turn, reply: Message)
    requires reply.Assistant?
    ensures var exit := ServeFrom(p, turn, reply).exit;
            && (exit == Some(AskedUser)
                <==> !reply.stopReason.Length? && turn.validQuestion
                     && |CallsIn(reply.content)| == 1 && CallsIn(reply.content)[0].name == "request_user_input")
            && (exit == Some(CancelledAfterTools) <==> exit != Some(AskedUser) && turn.abortAfterTools)
            && (exit.None? || exit.value in {AskedUser, CancelledAfterTools})
  {
  }

  // ----- Media -----

  /** Some user message carries it already: the same file, or the same bytes under the same type. */
  ghost predicate Carried(ms: seq<Message>, a: Attachment) {
    exists i, j :: CarriedAt(ms, a, i, j)
  }

  predicate CarriedAt(ms: seq<Message>, a: Attachment, i: int, j: int) {
    0 <= i < |ms| && ms[i].User? && 0 <= j < |ms[i].attachments|
    && var b := ms[i].attachments[j];
       (b.path.Some? && b.path == a.path) || (b.data.Some? && b.data == a.data && b.mime == a.mime)
  }

  lemma AttachedIsCarried(ms: seq<Message>, a: Attachment)
    ensures Attached(ms, a) <==> Carried(ms, a)
  {
    if Attached(ms, a) {
      var m :| m in ms && m.User? && exists b | b in m.attachments ::
        (b.path.Some? && b.path == a.path) || (b.data.Some? && b.mime == a.mime && b.data == a.data);
      var b :| b in m.attachments
               && ((b.path.Some? && b.path == a.path) || (b.data.Some? && b.mime == a.mime && b.data == a.data));
      var i :| 0 <= i < |ms| && ms[i] == m;
      var j :| 0 <= j < |m.attachments| && m.attachments[j] == b;
      assert CarriedAt(ms, a, i, j);
    }
    if Carried(ms, a) {
      var i, j :| CarriedAt(ms, a, i, j);
      assert ms[i] in ms && ms[i].attachments[j] in ms[i].attachments;
    }
  }

  lemma FreshAtEnd(ms: seq<Message>, attachments: seq<Attachment>)
    requires attachments != []
    ensures var n := |attachments| - 1;
            FreshAttachments(ms, attachments)
            == FreshAttachments(ms, attachments[..n]) + if Carried(ms, attachments[n]) then [] else [attachments[n]]
  {
    AttachedIsCarried(ms, attachments[|attachments| - 1]);
  }

  lemma {:induction false} FreshInOrder(ms: seq<Message>, attachments: seq<Attachment>) returns (picked: seq<nat>)
    ensures Ascends(picked, |attachments|) && |picked| == |FreshAttachments(ms, attachments)|
    ensures forall k :: 0 <= k < |picked| ==> FreshAttachments(ms, attachments)[k] == attachments[picked[k]]
    ensures forall i :: 0 <= i < |attachments| ==> (i in picked <==> !Carried(ms, attachments[i]))
  {
    hide Carried, FreshAttachments;
    if attachments == [] {
      picked := [];
      NothingFresh(ms);
    } else {
      var n := |attachments| - 1;
      var before := FreshInOrder(ms, attachments[..n]);
      FreshAtEnd(ms, attachments);
      AscendsMore(before, n);
      picked := if Carried(ms, attachments[n]) then before else before + [n];
      forall i | 0 <= i < n ensures i in picked <==> !Carried(ms, attachments[i]) {
        assert attachments[..n][i] == attachments[i];
        assert i in picked <==> i in before;
      }
    }
  }

  lemma NothingFresh(ms: seq<Message>)
    ensures FreshAttachments(ms, []) == []
  {
  }

  /** Tool results carry no media. */
  lemma ResultsCarryNothing(ms: seq<Message>, results: seq<Message>, a: Attachment)
    requires forall i :: 0 <= i < |results| ==> results[i].ToolResult?
    ensures Carried(ms + results, a) <==> Carried(ms, a)
  {
    if Carried(ms, a) {
      var i, j :| CarriedAt(ms, a, i, j);
      assert CarriedAt(ms + results, a, i, j);
    }
    if Carried(ms + results, a) {
      var i, j :| CarriedAt(ms + results, a, i, j);
      assert i < |ms| ==> CarriedAt(ms, a, i, j);
    }
  }

  /** Everything a pass adds after a reply with calls: results, media, steering. */
  lemma ServedShape(p: Point, turn: Turn, reply: Message)
    requires reply.Assistant?
    ensures var r, results := ServeFrom(p, turn, reply), ResultsOf(turn, reply);
            var served := p.context + results + MediaFor(p.context + results, Media(turn, reply));
            served <= r.next.context && |r.next.context| <= |served| + 1
            && (r.exit.Some? ==> r.next.context == served)
  {
    hide ResultsOf, MediaFor, Media, HandledAll, NextQueued, Popped, Asks;
  }

  /**
   * Media that tools registered and no user message carries yet enter in one
   * user message, in order, right after the results.
   */
  lemma ServedMedia(p: Point, turn: Turn, reply: Message) returns (picked: seq<nat>)
    requires reply.Assistant? && !reply.stopReason.Length?
    ensures Ascends(picked, |turn.attachments|)
    ensures forall i :: 0 <= i < |turn.attachments| ==> (i in picked <==> !Carried(p.context, turn.attachments[i]))
    ensures var ms, n := ServeFrom(p, turn, reply).next.context, |p.context| + |CallsIn(reply.content)|;
            if picked == [] then |ms| <= n + 1
            else n < |ms| && ms[n].User? && |ms[n].attachments| == |picked|
                 && forall k :: 0 <= k < |picked| ==> ms[n].attachments[k] == turn.attachments[picked[k]]
  {
    hide Carried, FreshAttachments, Names, ServeFrom, ResultsOf;
    var results := ResultsOf(turn, reply);
    picked := FreshInOrder(p.context + results, turn.attachments);
    forall i | 0 <= i < |turn.attachments| ensures i in picked <==> !Carried(p.context, turn.attachments[i]) {
      ServedAreResults(turn, reply);
      ResultsCarryNothing(p.context, results, turn.attachments[i]);
    }
    ServedAreResults(turn, reply);
    ServedShape(p, turn, reply);
    var served := p.context + results + MediaFor(p.context + results, Media(turn, reply));
    var ms := ServeFrom(p, turn, reply).next.context;
    if picked != [] {
      assert served[|p.context| + |results|] == ms[|p.context| + |results|];
    }
  }

  lemma ServedAreResults(turn: Turn, reply: Message)
    requires reply.Assistant?
    ensures |ResultsOf(turn, reply)| == |CallsIn(reply.content)|
    ensures forall i :: 0 <= i < |ResultsOf(turn, reply)| ==> ResultsOf(turn, reply)[i].ToolResult?
  {
  }

  // ----- Queued messages -----

  /** After tool results the oldest steering message follows; follow-ups stay queued. */
  lemma SteeringFollowsTools(p: Point, turn: Turn, reply: Message)
    requires reply.Assistant? && ServeFrom(p, turn, reply).exit.None?
    ensures var next := ServeFrom(p, turn, reply).next;
            var during := if reply.stopReason.Length? then p.shared else HandledAll(p.shared, turn.duringTools, true);
            var w := HandledAll(during, turn.beforeLook, true);
            && next.shared.followUp == w.followUp
            && (w.steering == [] ==> next.shared == w)
            && (w.steering != [] ==>
                  next.shared.steering == w.steering[1..] && next.context != []
                  && next.context[|next.context| - 1] == w.steering[0])
  {
    hide ResultsOf, MediaFor, Media, HandledAll, Asks;
  }

  /** After a complete answer steering goes before follow-ups, oldest first; the run ends exactly when both are empty. */
  lemma QueuesFollowAnswer(p: Point, turn: Turn)
    ensures var r, w := AnswerFrom(p, turn), HandledAll(p.shared, turn.beforeLook, true);
            && (r.exit == Some(Answered) <==> w.steering == [] && w.followUp == [])
            && (r.exit.None? <==> w.steering != [] || w.followUp != [])
            && (r.exit.None? ==> r.next.sideEffects)
            && (w.steering != [] ==>
                  r.next.context == p.context + [w.steering[0]]
                  && r.next.shared == w.(steering := w.steering[1..]))
            && (w.steering == [] && w.followUp != [] ==>
                  r.next.context == p.context + [w.followUp[0]]
                  && r.next.shared == w.(followUp := w.followUp[1..]))
            && (w.steering == [] && w.followUp == [] ==> r.next.context == p.context && r.next.shared == w)
  {
    hide HandledAll;
  }

  /** What is left when a run stops joins the conversation, steering first, unless the run was rolled back. */
  lemma LeftoversJoin(p: Point, exit: Exit)
    requires !exit.Answered?
    ensures Settled(p, exit).context
            == if p.rolledBack then p.context else p.context + p.shared.steering + p.shared.followUp
    ensures Settled(p, exit).shared == p.shared.(steering := [], followUp := [])
  {
    assert p.context + (p.shared.steering + p.shared.followUp) == p.context + p.shared.steering + p.shared.followUp;
    assert p.context + [] == p.context;
  }

  // ----- Archives -----

  /** The summary, then kept messages in order and among them the prompt; nothing is admitted meanwhile. */
  lemma ArchiveLeaves(p: Point, turn: Turn, c: Config) returns (kept: seq<nat>)
    requires ArchiveFrom(p, turn, c).1.Archived?
    ensures Ascends(kept, |p.context|) && |kept| < |p.context| && p.promptIndex < |p.context|
    ensures var q := ArchiveFrom(p, turn, c).0;
            && q.context != [] && q.context[0] == SummaryMessage(turn.summary) && |q.context| == 1 + |kept|
            && (forall k :: 0 <= k < |kept| ==> q.context[1 + k] == p.context[kept[k]])
            && 0 < q.promptIndex < |q.context| && kept[q.promptIndex - 1] == p.promptIndex
            && q.floor == |q.context|
            && q.shared.steering == p.shared.steering && q.shared.followUp == p.shared.followUp
  {
    hide Plan, Selected, SummaryMessage;
    kept := PlanOf(p, turn, c).value;
    PlanIsProper(p.context, p.promptIndex, TailBudget(turn), c.estimate);
    SelectedInRange(p.context, kept);
    NothingAdmitted(p.shared, turn.duringArchive);
  }

  lemma {:induction false} NothingAdmitted(w: Shared, commands: seq<Command>)
    ensures var after := HandledAll(w, commands, false);
            after.steering == w.steering && after.followUp == w.followUp
  {
    if commands != [] {
      NothingAdmitted(w, commands[..|commands| - 1]);
    }
  }

  /** An archive is made exactly when there is something to archive and nobody cancels it; else the conversation stays. */
  lemma ArchivesExactly(p: Point, turn: Turn, c: Config)
    ensures var (q, o) := ArchiveFrom(p, turn, c);
            var plan := Plan(p.context, p.promptIndex, BudgetForWindow(turn.archiveWindow).tailTokens, c.estimate);
            && (o.Archived? <==> plan.Some? && !turn.archiveCancelled)
            && (o.Cancelled? <==> plan.Some? && turn.archiveCancelled)
            && (!o.Archived? ==> q.context == p.context && q.floor == p.floor && q.promptIndex == p.promptIndex)
  {
    hide Plan, Selected, SummaryMessage, BudgetForWindow;
  }

  /** The first overflow is answered by an archive of what was sent, without the reply; the second fails the run. */
  lemma OverflowsRecoverOnce(p: Point, turn: Turn, reply: Message, c: Config)
    requires p.context != []
    ensures var r, sent := RecoverFrom(p, turn, reply, c), Retained(p, |p.context| - 1);
            && sent.context == p.context[..|p.context| - 1]
            && (p.overflowRecovered ==>
                  r.exit == Some(OverflowGaveUp(reply, turn.window))
                  && (p.sideEffects ==> r.next.context == p.context)
                  && (!p.sideEffects && p.promptIndex < |p.context| ==> r.next.context == p.context[..p.promptIndex]))
            && (r.exit == Some(NothingLeftToArchive) ==> ArchiveFrom(sent, turn, c).1.NothingToArchive?)
            && (!p.overflowRecovered ==>
                  (r.exit.None? <==> ArchiveFrom(sent, turn, c).1.Archived?)
                  && r.next.context == ArchiveFrom(sent, turn, c).0.context
                  && (r.exit.None? ==> r.next.overflowRecovered))
  {
    hide ArchiveFrom;
  }

  // ----- Which way a reply goes -----

  /** An overflow is looked for only with archiving on, and not in a reply that completed. */
  lemma OverflowsExactly(turn: Turn, auto: bool, reply: Message)
    requires reply.Assistant?
    ensures Overflows(turn, auto, reply)
            <==> && auto
                 && (|| (reply.stopReason.Error? && reply.errorMessage.Some? && turn.named)
                     || (&& reply.stopReason.Length? && turn.window.Some? && turn.window.value > 0
                         && reply.usage.output == 0
                         && 99 * turn.window.value <= 100 * (reply.usage.input + reply.usage.cacheRead)))
  {
    OverflowMeans(reply, turn.named, turn.window);
  }

  lemma BlankMeans(content: seq<Content>)
    ensures !HasVisibleAnswerOrTool(content)
            <==> forall i :: 0 <= i < |content| ==>
                               content[i].Thinking?
                               || (content[i].Text? && forall k :: 0 <= k < |content[i].text| ==> IsSpace(content[i].text[k]))
  {
  }

  /** A kept reply is asked to go on exactly when it ended by itself or at the limit with nothing but thinking and blanks. */
  lemma ContinuesExactly(p: Point, turn: Turn, reply: Message)
    requires p.context != [] && reply.Assistant? && !p.retryWithoutAnswer
    ensures KeepFrom(p, turn, reply).next.retryWithoutAnswer
            <==> reply.stopReason in {Stop, Length} && !HasVisibleAnswerOrTool(reply.content)
    ensures KeepFrom(p, turn, reply).next.retryWithoutAnswer ==>
              KeepFrom(p, turn, reply).exit.None? && KeepFrom(p, turn, reply).next.context == p.context
  {
    hide ConcludeFrom, HasVisibleAnswerOrTool;
    ConcludedEndsRetries(p.(retryAttempt := 0), turn, reply);
  }

  /** An error is replayed exactly when retries are on and left, and it is the server's trouble rather than the request's. */
  lemma RetriedExactly(p: Point, turn: Turn, auto: bool, reply: Message, c: Config)
    requires p.context != [] && p.context[|p.context| - 1] == reply && reply.Assistant? && reply.stopReason.Error?
    requires !Overflows(turn, auto, reply)
    ensures var r, status := JudgeFrom(p, turn, auto, reply, c), turn.reply.status;
            r.exit != Some(ReplyFailed(reply))
            <==> && p.shared.retryEnabled && p.retryAttempt < c.maxRetries
                 && reply.errorMessage.Some? && !turn.named && !turn.nonRetryable
                 && (status.Some? ==> status.value !in {401, 403})
                 && (turn.retryable
                     || (status.Some? && (status.value in {408, 409, 425, 429} || 500 <= status.value < 600)))
  {
    FailedReplies(p, turn, auto, reply, c);
    RetryableMeans(reply, turn.named, turn.nonRetryable, turn.retryable, turn.reply.status, turn.window);
  }

  /** A failed reply ends the run as that failure; any other kept reply without calls is an answer. */
  lemma ConcludesExactly(p: Point, turn: Turn, reply: Message)
    requires p.context != [] && reply.Assistant?
    ensures var r := ConcludeFrom(p, turn, reply);
            && (r.exit == Some(ReplyFailed(reply)) <==> reply.stopReason in {Error, Aborted})
            && (reply.stopReason !in {Error, Aborted} && CallsIn(reply.content) == [] ==>
                  r == AnswerFrom(p.(retryWithoutAnswer := false), turn))
  {
    hide MediaFor, ResultsOf, HandledAll, Asks, NextQueued, Popped;
  }

  // ----- Whether a pass makes a request -----

  /** A pass makes one request, unless there is no model, or it archives because the context is too long. */
  lemma RequestsUnlessFull(p: Point, turn: Turn, c: Config)
    ensures var q := Interfered(p, turn.before, true);
            var tokens := ContextTokens(q.context, q.floor, turn.overhead, c.estimate);
            RequestOf(p, turn, c)
            == if turn.hasModel
                  && !(&& q.shared.autoArchive && q.checkedAt != Some(|q.context|)
                       && turn.window.Some? && turn.window.value > 0 && OverThreshold(tokens, turn.window)
                       && Plan(q.context, q.promptIndex, BudgetForWindow(turn.archiveWindow).tailTokens, c.estimate).Some?)
               then [Request(q.context, q.promptIndex, q.segment)]
               else []
  {
  }

  /** What was sent was under the threshold, unless archiving is off, useless, or was just done. */
  lemma SentUnderThreshold(p: Point, turn: Turn, c: Config)
    requires RequestOf(p, turn, c) != [] && turn.window.Some? && 0 < turn.window.value < 0x200_0000_0000_0000
    ensures var q := Interfered(p, turn.before, true);
            || !q.shared.autoArchive || q.checkedAt == Some(|q.context|)
            || Plan(q.context, q.promptIndex, BudgetForWindow(turn.archiveWindow).tailTokens, c.estimate).None?
            || 5 * ContextTokens(q.context, q.floor, turn.overhead, c.estimate) <= 4 * turn.window.value
  {
    var q := Interfered(p, turn.before, true);
    RequestsUnlessFull(p, turn, c);
    ThresholdIsExact(ContextTokens(q.context, q.floor, turn.overhead, c.estimate), turn.window.value);
  }

  /** One check for each length of the context: what a pass checks is what it sends, or what its archive leaves. */
  lemma ChecksWhatIsSent(p: Point, turn: Turn, c: Config)
    ensures var q, r := Interfered(p, turn.before, true), PassFrom(p, turn, c);
            && (Asked(p, turn, c) ==>
                  r.next.checkedAt == if q.shared.autoArchive then Some(|q.context|) else p.checkedAt)
            && (OnlyArchives(q, turn, c) && r.exit.None? ==> r.next.checkedAt == Some(|r.next.context|))
  {
    var q := Interfered(p, turn.before, true);
    if Asked(p, turn, c) {
      AskedIsJudged(p, turn, c);
      var checked := Checked(q);
      var reply := ReplyTo(checked, turn);
      JudgedChecksNothing(Extended(Interfered(checked, turn.duringReply, true), [reply]), turn, q.shared.autoArchive, reply, c);
    } else {
      hide Plan, Selected, SummaryMessage, Due, HandledAll, AskFrom;
    }
  }

  lemma JudgedChecksNothing(p: Point, turn: Turn, auto: bool, reply: Message, c: Config)
    requires p.context != [] && reply.Assistant?
    ensures JudgeFrom(p, turn, auto, reply, c).next.checkedAt == p.checkedAt
  {
    hide Overflows, Transient, HandledAll, Plan, Selected, SummaryMessage, AnswerFrom, ServeFrom;
    var kept := p.(retryAttempt := 0, retryWithoutAnswer := false);
    AnsweredGrows(kept, turn);
    ServedGrows(kept, turn, reply);
  }

  // ----- How a run starts -----

  /** The first request of a run carries the context it found and the prompt as its last message. */
  lemma FirstRequestAsks(context: seq<Message>, floor: nat, shared: Shared, prompt: Message, turn: Turn, c: Config)
    requires turn.hasModel && !OnlyArchives(Interfered(Opened(context, floor, shared, prompt), turn.before, true), turn, c)
    ensures RequestOf(Opened(context, floor, shared, prompt), turn, c)
            == [Request(context + [prompt], |context|, 0)]
  {
  }

  /** Every run has all its retries and its one recovery, whatever earlier runs used up. */
  lemma FirstReplyIsRecoverable(context: seq<Message>, floor: nat, shared: Shared, prompt: Message, turn: Turn, c: Config)
    requires Asked(Opened(context, floor, shared, prompt), turn, c)
    ensures var p := Opened(context, floor, shared, prompt);
            var r, reply := PassFrom(p, turn, c), FinishReply(turn.reply, false);
            var auto := Interfered(p, turn.before, true).shared.autoArchive;
            && (Overflows(turn, auto, reply) ==> r.exit.None? || r.exit.value in {NothingLeftToArchive, ArchiveCancelled(Overflow)})
            && (!Overflows(turn, auto, reply) && reply.stopReason.Error? && c.maxRetries > 0 && Transient(turn, reply)
                && HandledAll(HandledAll(shared, turn.before, true), turn.duringReply, true).retryEnabled ==>
                  r.exit in {None, Some(BackoffCancelled)} && r.next.context == context + [prompt])
            && (!Overflows(turn, auto, reply) && reply.stopReason.Error?
                && !HandledAll(HandledAll(shared, turn.before, true), turn.duringReply, true).retryEnabled ==>
                  r.exit == Some(ReplyFailed(reply)) && r.next.context == context)
  {
    hide HandledAll, Overflows, Transient, FinishReply, OnlyArchives, RequestOf, JudgeFrom;
    var p := Opened(context, floor, shared, prompt);
    AskedIsJudged(p, turn, c);
    var q := Checked(Interfered(p, turn.before, true));
    var reply := ReplyTo(q, turn);
    FirstJudgement(Extended(Interfered(q, turn.duringReply, true), [reply]), turn,
                   Interfered(p, turn.before, true).shared.autoArchive, reply, c);
    assert (context + [prompt] + [reply])[..|context| + 1] == context + [prompt];
    assert (context + [prompt] + [reply])[..|context|] == context;
  }

  lemma FirstJudgement(p: Point, turn: Turn, auto: bool, reply: Message, c: Config)
    requires p.context != [] && reply.Assistant? && p.retryAttempt == 0 && !p.overflowRecovered && !p.sideEffects
    requires p.promptIndex < |p.context|
    ensures var r := JudgeFrom(p, turn, auto, reply, c);
            if Overflows(turn, auto, reply) then r.exit.None? || r.exit.value in {NothingLeftToArchive, ArchiveCancelled(Overflow)}
            else reply.stopReason.Error? ==>
                   if p.shared.retryEnabled && c.maxRetries > 0 && Transient(turn, reply)
                   then r.exit in {None, Some(BackoffCancelled)} && r.next.context == p.context[..|p.context| - 1]
                   else r.exit == Some(ReplyFailed(reply)) && r.next.context == p.context[..p.promptIndex]
  {
    hide Overflows, Transient, HandledAll, Plan, Selected, SummaryMessage, AnswerFrom, ServeFrom;
  }

  // ----- What clients are told -----

  /** `q` is `p` with `added` to the conversation, which clients were told of. */
  ghost predicate Adds(p: Point, q: Point, added: seq<Message>) {
    && q.context == p.context + added && q.told == p.told + added
    && q.rolledBack == p.rolledBack && q.overflowRecovered == p.overflowRecovered
  }

  lemma AddsBoth(p: Point, q: Point, r: Point, a: seq<Message>, b: seq<Message>)
    requires Adds(p, q, a) && Adds(q, r, b)
    ensures Adds(p, r, a + b)
  {
    assert p.context + a + b == p.context + (a + b) && p.told + a + b == p.told + (a + b);
  }

  lemma InjectedAdds(p: Point, stopping: bool) returns (added: seq<Message>)
    ensures Adds(p, Injected(p, stopping), added) && |added| <= 1
  {
    hide NextQueued, Popped;
    var next := NextQueued(p.shared, stopping);
    added := if next.None? then [] else [next.value.message];
    assert p.context + [] == p.context && p.told + [] == p.told;
  }

  lemma ServedAdds(p: Point, turn: Turn, reply: Message) returns (added: seq<Message>)
    requires reply.Assistant?
    ensures Adds(p, Served(p, turn, reply), added)
  {
    hide ResultsOf, MediaFor, Media;
    var results := ResultsOf(turn, reply);
    var q := Progressed(Extended(p, results));
    var media := MediaFor(q.context, Media(turn, reply));
    AddsBoth(p, q, Served(p, turn, reply), results, media);
    added := results + media;
  }

  lemma CallsTell(p: Point, turn: Turn, reply: Message) returns (added: seq<Message>)
    requires reply.Assistant?
    ensures Adds(p, ServeFrom(p, turn, reply).next, added)
  {
    hide Served, HandledAll, Asks, Injected, Adds;
    var q := if reply.stopReason.Length? then p else Interfered(p, turn.duringTools, true);
    var first := ServedAdds(q, turn, reply);
    var served := Served(q, turn, reply);
    var looked := Interfered(served, turn.beforeLook, true);
    var second := InjectedAdds(looked, false);
    OnlyShared(p, q, served, first);
    added := first;
    if !Asks(turn, reply) && !turn.abortAfterTools {
      OnlyShared(served, looked, Injected(looked, false), second);
      AddsBoth(p, served, Injected(looked, false), first, second);
      added := first + second;
    }
  }

  /** Other clients' commands add nothing themselves. */
  lemma OnlyShared(p: Point, q: Point, r: Point, added: seq<Message>)
    requires q == p.(shared := q.shared) && Adds(q, r, added)
    ensures Adds(p, r, added)
  {
  }

  lemma AnswerTells(p: Point, turn: Turn) returns (added: seq<Message>)
    ensures Adds(p, AnswerFrom(p, turn).next, added)
  {
    hide HandledAll, NextQueued, Injected, Adds;
    var q := Interfered(p, turn.beforeLook, true);
    if NextQueued(q.shared, true).None? {
      added := [];
      AddsNothing(p, q);
    } else {
      added := InjectedAdds(Progressed(q), true);
      ProgressOnly(p, q, Injected(Progressed(q), true), added);
    }
  }

  lemma AddsNothing(p: Point, q: Point)
    requires q == p.(shared := q.shared)
    ensures Adds(p, q, [])
  {
    assert p.context + [] == p.context && p.told + [] == p.told;
  }

  lemma ProgressOnly(p: Point, q: Point, r: Point, added: seq<Message>)
    requires q == p.(shared := q.shared) && Adds(Progressed(q), r, added)
    ensures Adds(p, r, added)
  {
  }

  /**
   * A kept reply stays, and so does all that joins it; clients are told of each
   * message once, in order.  Only a clean failure takes messages back.
   */
  lemma KeptIsTold(p: Point, turn: Turn, reply: Message) returns (added: seq<Message>)
    requires p.context != [] && reply.Assistant? && !p.rolledBack
    ensures var r := KeepFrom(p, turn, reply);
            if r.next.rolledBack then r.exit == Some(ReplyFailed(reply)) && r.next.told == p.told
            else Adds(p, r.next, added)
  {
    hide AnswerFrom, ServeFrom, Adds;
    var q := p.(retryAttempt := 0);
    var c := q.(retryWithoutAnswer := false);
    if !Empty(reply) && !Failed(reply) && ToolCalls(reply) == [] {
      added := AnswerTells(c, turn);
      FlagsOnly(p, c, AnswerFrom(c, turn).next, added);
    } else if !Empty(reply) && !Failed(reply) {
      added := CallsTell(c, turn, reply);
      FlagsOnly(p, c, ServeFrom(c, turn, reply).next, added);
    } else {
      added := [];
      NothingJoins(p, turn, reply);
    }
  }

  lemma FlagsOnly(p: Point, q: Point, r: Point, added: seq<Message>)
    requires q == p.(retryAttempt := 0, retryWithoutAnswer := false) && Adds(q, r, added)
    ensures Adds(p, r, added)
  {
  }

  lemma NothingJoins(p: Point, turn: Turn, reply: Message)
    requires p.context != [] && reply.Assistant? && !p.rolledBack && (Empty(reply) || Failed(reply))
    ensures var r := KeepFrom(p, turn, reply);
            if r.next.rolledBack then r.exit == Some(ReplyFailed(reply)) && r.next.told == p.told
            else Adds(p, r.next, [])
  {
    assert p.context + [] == p.context && p.told + [] == p.told;
  }

  /** Of a reply that is replayed clients are told as well; an archive by itself tells nothing. */
  lemma ReplaysAreTold(p: Point, turn: Turn, c: Config)
    ensures var q, r := Interfered(p, turn.before, true), PassFrom(p, turn, c);
            && (OnlyArchives(q, turn, c) ==> r.next.told == p.told)
            && (!turn.hasModel ==> Adds(p, r.next, [NoModelMessage()]))
            && (Asked(p, turn, c) ==> p.told + [ReplyTo(Checked(q), turn)] <= r.next.told)
  {
    var q := Interfered(p, turn.before, true);
    if Asked(p, turn, c) {
      AskedIsJudged(p, turn, c);
      var checked := Checked(q);
      var reply := ReplyTo(checked, turn);
      JudgedTells(Extended(Interfered(checked, turn.duringReply, true), [reply]), turn, q.shared.autoArchive, reply, c);
    } else {
      hide Plan, Selected, SummaryMessage, Due, HandledAll, AskFrom;
    }
  }

  lemma JudgedTells(p: Point, turn: Turn, auto: bool, reply: Message, c: Config)
    requires p.context != [] && reply.Assistant?
    ensures p.told <= JudgeFrom(p, turn, auto, reply, c).next.told
  {
    hide Overflows, Transient, HandledAll, KeepFrom, Plan, Selected, SummaryMessage;
    KeptTells(p, turn, reply);
  }

  lemma KeptTells(p: Point, turn: Turn, reply: Message)
    requires p.context != [] && reply.Assistant?
    ensures p.told <= KeepFrom(p, turn, reply).next.told
  {
    hide AnswerFrom, ServeFrom;
    var c := p.(retryAttempt := 0, retryWithoutAnswer := false);
    var a := AnswerTells(c, turn);
    var s := CallsTell(c, turn, reply);
  }
}
