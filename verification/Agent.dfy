// The agent loop (apps/agent/src/agent.rs).
//
// A run is driven by a script: one `Turn` per pass of the loop holds everything
// the environment decides during that pass (other clients' commands, the
// provider's reply, tool outcomes, cancellations, verdicts of the error-text
// patterns).  Nothing is assumed about a script, so what holds for every script
// holds for every run, and for every unfinished prefix of one.
module AgentLoop {
  import opened Basics
  import opened Protocol
  import opened SessionLog
  import opened Recovery
  import opened Archives
  import opened AgentState
  import opened AgentSteps
  import opened AgentDangling

  // ----- What a run does -----

  datatype Frame =
    | AgentStart
    | TurnStart
    | MessageEnd(message: Message)
    | TurnEnd(message: Message, results: seq<Message>)
    | RetryStart(attempt: nat, delayMs: nat)
    | RetryEnd(success: bool, attempt: nat)
    | ArchiveStart(trigger: Trigger)
    | ArchiveEnd(trigger: Trigger, willRetry: bool, failed: bool, cancelled: bool)
    | AgentEnd(messages: seq<Message>)

  /** A queued message that entered the conversation, and its log entry. */
  datatype Delivery = Delivery(queue: Queue, message: Message, entry: nat)

  function CountIn(requests: seq<Request>, segment: nat): nat {
    if requests == [] then 0
    else
      var n := |requests| - 1;
      CountIn(requests[..n], segment) + if requests[n].segment == segment then 1 else 0
  }

  lemma CountAppend(requests: seq<Request>, r: Request, segment: nat)
    ensures CountIn(requests + [r], segment) == CountIn(requests, segment) + if r.segment == segment then 1 else 0
  {
    assert (requests + [r])[..|requests|] == requests;
  }

  lemma {:induction false} CountNone(requests: seq<Request>, segment: nat)
    requires forall i :: 0 <= i < |requests| ==> requests[i].segment < segment
    ensures CountIn(requests, segment) == 0
  {
    if requests != [] {
      CountNone(requests[..|requests| - 1], segment);
    }
  }

  // ----- Frames -----

  datatype Phase = Unstarted | Between | InTurn | Ended | Broken

  function Advance(p: Phase, f: Frame): Phase {
    match f
    case AgentStart => if p == Unstarted then Between else Broken
    case TurnStart => if p == Between then InTurn else Broken
    case TurnEnd(_, _) => if p == InTurn then Between else Broken
    case AgentEnd(_) => if p == Between || p == InTurn then Ended else Broken
    case _ => if p == Between || p == InTurn then p else Broken
  }

  function PhaseOf(frames: seq<Frame>): Phase {
    if frames == [] then Unstarted else Advance(PhaseOf(frames[..|frames| - 1]), frames[|frames| - 1])
  }

  /** The messages the frames complete, in order. */
  function Completed(frames: seq<Frame>): seq<Message> {
    if frames == [] then []
    else
      var f := frames[|frames| - 1];
      Completed(frames[..|frames| - 1]) + if f.MessageEnd? then [f.message] else []
  }

  /** Turns opening (true) and closing (false). */
  function TurnMarks(frames: seq<Frame>): seq<bool> {
    if frames == [] then []
    else
      var f := frames[|frames| - 1];
      TurnMarks(frames[..|frames| - 1]) + if f.TurnStart? then [true] else if f.TurnEnd? then [false] else []
  }

  /** What an unbroken stream of frames looks like: its two ends, and turns that open and close in turn. */
  lemma {:induction false} FramesInOrder(frames: seq<Frame>)
    requires PhaseOf(frames) != Broken
    ensures forall i :: 0 <= i < |frames| ==> (frames[i].AgentStart? <==> i == 0)
    ensures forall i :: 0 <= i < |frames| && frames[i].AgentEnd? ==> i == |frames| - 1
    ensures PhaseOf(frames) == Ended <==> frames != [] && frames[|frames| - 1].AgentEnd?
    ensures PhaseOf(frames) == Unstarted <==> frames == []
    ensures forall i :: 0 <= i < |TurnMarks(frames)| ==> (TurnMarks(frames)[i] <==> i % 2 == 0)
    ensures PhaseOf(frames) == InTurn ==> |TurnMarks(frames)| % 2 == 1
    ensures PhaseOf(frames) == Between || frames == [] ==> |TurnMarks(frames)| % 2 == 0
  {
    if frames != [] {
      FramesInOrder(frames[..|frames| - 1]);
    }
  }

  function ToolResults(ms: seq<Message>): nat {
    if ms == [] then 0
    else ToolResults(ms[..|ms| - 1]) + if ms[|ms| - 1].ToolResult? then 1 else 0
  }

  lemma ToolResultsAppend(ms: seq<Message>, m: Message)
    ensures ToolResults(ms + [m]) == ToolResults(ms) + if m.ToolResult? then 1 else 0
  {
    assert (ms + [m])[..|ms|] == ms;
  }

  function MessagesOf(items: seq<Admission>): (r: seq<Message>)
    ensures |r| == |items|
  {
    seq(|items|, i requires 0 <= i < |items| => items[i].message)
  }

  lemma MessagesDrained(steering: seq<Message>, followUp: seq<Message>)
    ensures MessagesOf(Tagged(steering, Steering) + Tagged(followUp, FollowUps)) == steering + followUp
  {
  }

  function Admissions(deliveries: seq<Delivery>): (r: seq<Admission>)
    ensures |r| == |deliveries|
  {
    seq(|deliveries|, i requires 0 <= i < |deliveries| => Admission(deliveries[i].queue, deliveries[i].message))
  }

  /** Each delivery is in the log, in order. */
  ghost predicate InLog(deliveries: seq<Delivery>, from: nat, log: seq<Entry>) {
    && (forall i :: 0 <= i < |deliveries| ==>
                      from <= deliveries[i].entry < |log|
                      && log[deliveries[i].entry].body == MessageBody(deliveries[i].message))
    && (forall i, j :: 0 <= i < j < |deliveries| ==> deliveries[i].entry < deliveries[j].entry)
  }

  /** How a recovery from an overflow is reported, after the turn it ends. */
  function RecoveryFrames(exit: Option<Exit>): seq<Frame> {
    match exit
    case None => [ArchiveStart(Overflow), ArchiveEnd(Overflow, true, false, false), TurnStart]
    case Some(ArchiveCancelled(_)) => [ArchiveStart(Overflow), ArchiveEnd(Overflow, false, false, true)]
    case Some(_) => [ArchiveEnd(Overflow, false, true, false)]
  }

  /** A turn is still open only when a threshold archive is cancelled. */
  function LastPhase(exit: Exit): Phase {
    if exit == ArchiveCancelled(Threshold) then InTurn else Between
  }

  /** Requests allowed between two progress points. */
  function RequestBound(maxRetries: nat): nat {
    2 * maxRetries + 3
  }

  class Run {
    const state: State
    const session: Session
    const prompt: Message
    const estimate: Estimate
    var promptIndex: nat
    var retryWithoutAnswer: bool
    var retryAttempt: nat
    var overflowRecovered: bool
    var thresholdCheckedAt: Option<nat>
    var sideEffects: bool
    var settled: bool
    var rolledBack: bool
    var produced: seq<Message>
    var frames: seq<Frame>
    ghost var requests: seq<Request>
    ghost const start: Context
    ghost const startLog: seq<Entry>
    ghost const startTaken: seq<Admission>
    ghost var segment: nat             // progress points so far
    ghost var archived: bool           // an archive replaced the context
    ghost var passes: nat              // passes of the loop that did not end the run
    ghost var idlePasses: nat          // of those, the ones since the last request, which only archived
    ghost var injected: seq<Delivery>
    ghost var hand: seq<Admission>       // taken but not injected (dropped, once the run is over)

    ghost function Here(): Point
      reads this`promptIndex, this`retryWithoutAnswer, this`retryAttempt, this`overflowRecovered,
            this`thresholdCheckedAt, this`sideEffects, this`segment, this`rolledBack, this`produced,
            session`messages, session`usageFloor,
            state`autoArchive, state`retryEnabled, state`steering, state`followUp
    {
      Point(session.messages, session.usageFloor, promptIndex, retryWithoutAnswer, retryAttempt, overflowRecovered,
            thresholdCheckedAt, sideEffects, segment, rolledBack, state.World(), produced)
    }

    lemma HereIs()
      ensures var p := Here();
              && p.context == session.messages && p.retryAttempt == retryAttempt
              && p.overflowRecovered == overflowRecovered && p.shared == state.World()
    {
    }

    function Cfg(): Config {
      Config(estimate, state.maxRetries)
    }

    /** The run, the state and the log fit together; `on` while the run is on. */
    ghost predicate Plumbing(on: bool)
      reads this`injected, this`hand, state, session
    {
      && session == state.session && state.Valid() && state.streaming == on && !state.manual
      && !state.compacting
      && startLog <= session.log
      && InLog(injected, |startLog|, session.log)
      && state.taken == startTaken + Admissions(injected) + hand
    }

    /** A run keeps its context closed if it found it so. */
    ghost predicate Whole(ms: seq<Message>) {
      Closed(start.messages) ==> Closed(ms)
    }

    /** `ms` is a context from which the prompt is being served. */
    ghost predicate Serving(ms: seq<Message>)
      reads this`promptIndex, this`sideEffects, this`segment, this`injected, this`archived, session`usageFloor
    {
      && Whole(ms)
      && promptIndex < |ms| && ms[promptIndex] == prompt && prompt.User?
      && (sideEffects <==> segment > 0)
      && (!sideEffects ==> injected == [])
      && (!archived ==>
            && promptIndex == |start.messages| && ms[..promptIndex] == start.messages
            && Min(session.usageFloor, promptIndex) == Min(start.usageFloor, promptIndex))
    }

    /** Requests the run may still make before its next progress point. */
    ghost function Left(): nat
      reads this`retryAttempt, this`overflowRecovered, this`retryWithoutAnswer
      requires retryAttempt <= state.maxRetries
    {
      (if overflowRecovered then 0 else 1)
      + (state.maxRetries - retryAttempt + 1)
      + (if retryWithoutAnswer then 0 else state.maxRetries + 1)
    }

    ghost predicate Bounded()
      reads this`requests, this`segment
    {
      && (forall i :: 0 <= i < |requests| ==> requests[i].segment <= segment)
      && (forall g: nat :: CountIn(requests, g) <= RequestBound(state.maxRetries))
    }

    ghost predicate Counted(spent: nat)
      reads this`requests, this`segment, this`retryAttempt, this`overflowRecovered, this`retryWithoutAnswer
    {
      && retryAttempt <= state.maxRetries && Bounded()
      && CountIn(requests, segment) + Left() <= RequestBound(state.maxRetries) + spent
    }

    ghost predicate Framed(phase: Phase)
      reads this`frames, this`produced
    {
      PhaseOf(frames) == phase && Completed(frames) == produced
    }

    /** A pass that neither ended the run nor made a request archived; progress is facts in the conversation. */
    ghost predicate Paced()
      reads this`passes, this`requests, this`idlePasses, this`segment, this`produced, this`injected, this`hand
    {
      passes <= 2 * |requests| + idlePasses && idlePasses <= 1 && segment <= Facts()
    }

    /** Tool results shown and queued messages taken. */
    ghost function Facts(): nat
      reads this`produced, this`injected, this`hand
    {
      ToolResults(produced) + |injected| + |hand|
    }

    /** Every request so far carried such a context with the prompt in its place. */
    ghost predicate Requested()
      reads this`requests
    {
      forall i :: 0 <= i < |requests| ==>
                    var r := requests[i];
                    Whole(r.messages) && r.promptIndex < |r.messages| && r.messages[r.promptIndex] == prompt
    }

    /** Between two steps of the loop: `ms` is being served, and `spent` requests await judgement. */
    ghost predicate Ready(ms: seq<Message>, phase: Phase, spent: nat)
      reads this, state, session
    {
      && Plumbing(true) && !settled && !rolledBack
      && Serving(ms)
      && Counted(spent) && Framed(phase) && Requested() && Paced()
      && (idlePasses == 0 || (idlePasses == 1 && thresholdCheckedAt == Some(|ms|)))
    }

    /** At the top of the loop. */
    ghost predicate Inv()
      reads this, state, session
    {
      Ready(session.messages, InTurn, 0) && hand == []
    }

    /** A reply was just appended to a context being served. */
    ghost predicate Judging(reply: Message, before: nat)
      reads this, state, session
    {
      && |session.messages| == before + 1 && session.messages[before] == reply && reply.Assistant?
      && (retryWithoutAnswer ==> !Empty(reply))
      && Ready(session.messages[..before], InTurn, 1) && idlePasses == 0 && hand == []
    }

    /** Where the loop stops, before anything still queued is settled. */
    ghost predicate StoppedIn(exit: Exit, phase: Phase)
      reads this, state, session
    {
      && Plumbing(!settled) && hand == [] && (settled <==> exit.Answered?)
      && Bounded() && Requested() && Framed(phase) && Paced()
      && (sideEffects <==> segment > 0)
      && (rolledBack ==> !sideEffects && injected == [])
      && Verdict(exit)
    }

    /** Which exits roll the run back, and what every exit leaves behind. */
    ghost predicate Verdict(exit: Exit)
      reads this`rolledBack, this`sideEffects, this`archived, session`messages, session`usageFloor
    {
      && (rolledBack <==> !sideEffects && (exit.OverflowGaveUp? || (exit.ReplyFailed? && IsError(exit.reply))))
      && (exit.OverflowGaveUp? ==> Overflowed(exit.reply, exit.window))
      && (Closed(start.messages) ==> (Closed(session.messages) <==> !Dangling(exit)))
      && (rolledBack && !archived ==>
            && session.messages == start.messages
            && session.usageFloor == Min(start.usageFloor, |start.messages|))
    }

    /** The one way a run can leave calls without results behind. */
    ghost predicate Dangling(exit: Exit)
      reads this`rolledBack
    {
      exit.OverflowGaveUp? && !rolledBack && LiveCalls(exit.reply) != []
    }

    ghost predicate Stopped(exit: Exit)
      reads this, state, session
    {
      StoppedIn(exit, LastPhase(exit))
    }

    /** Over: nothing runs, nothing is queued, and the log replays to the context. */
    ghost predicate Over(exit: Exit)
      reads this, state, session
    {
      && Plumbing(false) && Bounded() && Requested() && Paced()
      && frames != [] && frames[|frames| - 1] == AgentEnd(produced)
      && PhaseOf(frames) == Ended && PhaseOf(frames[..|frames| - 1]) == LastPhase(exit)
      && Completed(frames) == produced
      && (sideEffects <==> segment > 0)
      && (hand != [] ==> rolledBack) && (rolledBack ==> !sideEffects && injected == [])
      && Verdict(exit)
    }

    /** A run that is still going, or is over. */
    ghost predicate At(exit: Option<Exit>)
      reads this, state, session
    {
      match exit
      case None => Inv()
      case Some(e) => Over(e)
    }

    constructor (state: State, prompt: Message, estimate: Estimate)
      ensures this.state == state && session == state.session && this.prompt == prompt && this.estimate == estimate
      ensures promptIndex == |session.messages| && thresholdCheckedAt == None
      ensures !retryWithoutAnswer && retryAttempt == 0 && !overflowRecovered
      ensures !sideEffects && !settled && !rolledBack
      ensures produced == [] && frames == [] && requests == []
      ensures start == session.Now() && startLog == session.log && startTaken == state.taken
      ensures segment == 0 && !archived && passes == idlePasses == 0 && injected == [] && hand == []
    {
      this.state, this.session, this.prompt, this.estimate := state, state.session, prompt, estimate;
      promptIndex := |state.session.messages|;
      retryWithoutAnswer, retryAttempt, overflowRecovered := false, 0, false;
      thresholdCheckedAt, sideEffects, settled, rolledBack := None, false, false, false;
      produced, frames, requests := [], [], [];
      start, startLog, startTaken := state.session.Now(), state.session.log, state.taken;
      segment, archived, injected, hand := 0, false, [], [];
      passes, idlePasses := 0, 0;
    }

    /** Nothing has happened in this run yet. */
    ghost predicate Unstarted()
      reads this, state, session
    {
      && session == state.session && state.Valid() && state.streaming && !state.manual && !state.compacting
      && prompt.User? && start == session.Now() && startLog == session.log
      && startTaken == state.taken && injected == [] && hand == []
      && promptIndex == |session.messages| && !sideEffects && segment == 0
      && !settled && !rolledBack && passes == idlePasses == 0
      && !retryWithoutAnswer && retryAttempt == 0 && !overflowRecovered && thresholdCheckedAt == None
      && produced == [] && frames == [] && requests == []
    }

    /** The opening of `run_prompt_with_attachments`. */
    method Open()
      requires Unstarted()
      modifies this`frames, this`produced, session
      ensures Inv()
      ensures Here() == Opened(old(session.messages), old(session.usageFloor), old(state.World()), prompt)
    {
      hide Ready, Unstarted;
      Enter();
      Report(AgentStart, session.messages, Phase.Unstarted, 0);
      Report(TurnStart, session.messages, Between, 0);
      Show(prompt, session.messages, InTurn, 0);
    }

    method Enter()
      requires Unstarted()
      modifies session
      ensures Ready(session.messages, Phase.Unstarted, 0) && hand == []
      ensures Here() == Opened(old(session.messages), old(session.usageFloor), old(state.World()), prompt).(told := [])
    {
      hide Session.Valid, State.Ledger, Closed;
      if Closed(session.messages) {
        ClosedAppend(session.messages, prompt);
      }
      session.AppendMessage(prompt);
      assert session.messages[..promptIndex] == start.messages;
    }

    method Emit(f: Frame)
      modifies this`frames
      ensures frames == old(frames) + [f]
      ensures PhaseOf(frames) == Advance(old(PhaseOf(frames)), f)
      ensures !f.MessageEnd? ==> Completed(frames) == old(Completed(frames))
      ensures f.MessageEnd? ==> Completed(frames) == old(Completed(frames)) + [f.message]
    {
      frames := frames + [f];
      assert frames[..|frames| - 1] == old(frames);
    }

    /** `message_end` for a message that also counts as produced. */
    method Produce(m: Message)
      requires PhaseOf(frames) == Between || PhaseOf(frames) == InTurn
      requires Completed(frames) == produced
      modifies this`frames, this`produced
      ensures Framed(old(PhaseOf(frames))) && produced == old(produced) + [m]
      ensures frames == old(frames) + [MessageEnd(m)]
    {
      Emit(MessageEnd(m));
      produced := produced + [m];
    }

    /** A frame that completes no message. */
    method Report(f: Frame, ghost ms: seq<Message>, ghost phase: Phase, ghost spent: nat)
      requires Ready(ms, phase, spent) && !f.MessageEnd?
      modifies this`frames
      ensures Ready(ms, Advance(phase, f), spent) && frames == old(frames) + [f]
    {
      hide Plumbing, Serving, Counted, Requested, PhaseOf, Completed, Advance;
      Emit(f);
    }

    /** Other commands get the lock; the context being served does not change. */
    method Yield(commands: seq<Command>, ghost ms: seq<Message>, ghost phase: Phase, ghost spent: nat)
      requires Ready(ms, phase, spent)
      modifies state`streaming, state`compacting, state`autoArchive, state`retryEnabled,
               state`steering, state`followUp, state`accepted, state`manual, session
      ensures Ready(ms, phase, spent) && session.messages == old(session.messages)
      ensures Here() == Interfered(old(Here()), commands, true)
    {
      hide Session.Valid, State.Ledger, Closed, Counted, Framed, Requested, HandledAll;
      state.Interfere(commands);
    }

    lemma StopsCleanly(exit: Exit, spent: nat)
      requires Ready(session.messages, Between, spent) && hand == []
      requires !exit.Answered? && !exit.ReplyFailed? && !exit.OverflowGaveUp? && exit != ArchiveCancelled(Threshold)
      ensures Stopped(exit)
    {
      hide Plumbing, Framed, Requested, Bounded, Closed;
    }

    /** `archive`: replaces the context around the served prompt, unless cancelled. */
    method Archive(turn: Turn, trigger: Trigger, ghost phase: Phase, ghost spent: nat) returns (o: ArchiveOutcome)
      requires Ready(session.messages, phase, spent) && phase in {Between, InTurn} && idlePasses == 0
      modifies this`frames, this`promptIndex, this`archived,
               state`streaming, state`compacting, state`autoArchive, state`retryEnabled,
               state`steering, state`followUp, state`accepted, state`manual, session
      ensures Ready(session.messages, phase, spent)
      ensures (Here(), o) == ArchiveFrom(old(Here()), turn, Cfg())
      ensures frames == old(frames) + if o.NothingToArchive? then [] else [ArchiveStart(trigger)]
    {
      hide Plan, Serving, Plumbing, Counted, Requested, PhaseOf, Completed, TailBudget, SummaryMessage, Selected;
      var messages := session.messages;
      var tail := TailBudget(turn);
      var plan := PlanArchive(messages, promptIndex, tail, estimate);
      if plan.None? {
        return NothingToArchive;
      }
      Report(ArchiveStart(trigger), messages, phase, spent);
      Compact(turn.duringArchive, messages, phase, spent);
      if turn.archiveCancelled {
        return Cancelled;
      }
      Commit(turn.summary, tail, plan.value, phase, spent);
      o := Archived(promptIndex);
    }

    /** The archived context replaces the old one; the prompt moves with it. */
    method Commit(summary: string, ghost tail: nat, plan: seq<nat>, ghost phase: Phase, ghost spent: nat)
      requires Ready(session.messages, phase, spent) && idlePasses == 0
      requires Plan(session.messages, promptIndex, tail, estimate) == Some(plan)
      modifies this`promptIndex, this`archived, session
      ensures Ready(session.messages, phase, spent) && archived
      ensures Here() == Compacted(old(Here()), summary, plan)
    {
      hide Plumbing, Closed, Plan, Selected, SummaryMessage, PositionOf, Counted, Requested, Framed, ToolResults;
      PinnedSurvives(session.messages, promptIndex, tail, estimate, SummaryMessage(summary));
      if Closed(session.messages) {
        PlanKeepsClosed(session.messages, promptIndex, tail, estimate, SummaryMessage(summary));
      }
      Rewrite(summary, plan);
      promptIndex, archived := NewPinned(plan, promptIndex), true;
    }

    method Rewrite(summary: string, plan: seq<nat>)
      requires Plumbing(true)
      modifies session
      ensures Plumbing(true) && session.messages == [SummaryMessage(summary)] + Selected(old(session.messages), plan)
      ensures session.usageFloor == |session.messages|
    {
      hide Session.Valid, State.Ledger, Selected, AppendedAll, ArchiveBodies, SummaryMessage, Admissions;
      session.ReplaceWithArchive(summary, plan);
    }

    /** `rollback_failed_turn`, as the run sees it. */
    method Retract(retain: nat, ghost on: bool)
      requires Plumbing(on) && retain < |session.messages|
      modifies session
      ensures Plumbing(on) && session.messages == old(session.messages)[..retain]
      ensures session.usageFloor == Min(old(session.usageFloor), retain)
    {
      hide Session.Valid, State.Ledger, Admissions;
      session.RollbackFailedTurn(retain);
    }

    /** While the archive is prepared, nothing is admitted. */
    method Compact(commands: seq<Command>, ghost ms: seq<Message>, ghost phase: Phase, ghost spent: nat)
      requires Ready(ms, phase, spent)
      modifies state`streaming, state`compacting, state`autoArchive, state`retryEnabled,
               state`steering, state`followUp, state`accepted, state`manual, session
      ensures Ready(ms, phase, spent) && session.messages == old(session.messages)
      ensures Here() == Interfered(old(Here()), commands, false)
    {
      hide Session.Valid, State.Ledger, Closed, Counted, Framed, Requested, HandledAll;
      state.compacting := true;
      state.Interfere(commands);
      state.compacting := false;
    }

    /** One provider request and the reply it came to. */
    method StreamAssistant(turn: Turn) returns (reply: Message)
      requires Inv()
      modifies this`requests, this`passes, this`idlePasses, state`streaming, state`compacting, state`autoArchive,
               state`retryEnabled, state`steering, state`followUp, state`accepted, state`manual, session
      ensures Ready(session.messages, InTurn, 1) && idlePasses == 0
      ensures session.messages == old(session.messages)
      ensures Here() == Interfered(old(Here()), turn.duringReply, true)
      ensures requests == old(requests) + [Request(session.messages, promptIndex, segment)] && passes == old(passes) + 1
      ensures reply == FinishReply(turn.reply, retryWithoutAnswer)
    {
      hide Plumbing, Framed, PhaseOf, Completed, FinishReply, CountIn, Interfered;
      ghost var request := Request(session.messages, promptIndex, segment);
      forall g: nat
        ensures CountIn(requests + [request], g) == CountIn(requests, g) + if g == segment then 1 else 0
      {
        CountAppend(requests, request, g);
      }
      requests := requests + [request];
      passes, idlePasses := passes + 1, 0;
      Yield(turn.duringReply, session.messages, InTurn, 1);
      reply := FinishReply(turn.reply, retryWithoutAnswer);
    }

    /** The failed reply leaves the context but stays in the log. */
    method DropReply(before: nat, ghost phase: Phase, ghost spent: nat)
      requires before < |session.messages| && Ready(session.messages[..before], phase, spent)
      modifies session
      ensures Ready(session.messages, phase, spent) && session.messages == old(session.messages)[..before]
      ensures Here() == Retained(old(Here()), before)
    {
      hide Plumbing, Closed, Counted, Framed, Requested, ToolResults;
      Retract(before, true);
      assert old(session.messages)[..before][..promptIndex] == old(session.messages)[..promptIndex];
    }

    /** The context overflowed again, or the reply failed for good: `rollback_if_clean`. */
    method GiveUp(reply: Message, before: nat, exit: Exit, ghost phase: Phase, ghost spent: nat)
      requires |session.messages| == before + 1 && session.messages[before] == reply && reply.Assistant?
      requires Ready(session.messages[..before], phase, spent) && hand == []
      requires (exit.OverflowGaveUp? && exit.reply == reply && Overflowed(reply, exit.window))
               || (exit == ReplyFailed(reply) && Failed(reply))
      modifies this`rolledBack, session
      ensures StoppedIn(exit, phase)
      ensures Here() == if exit.OverflowGaveUp? || IsError(reply) then RolledBack(old(Here())) else old(Here())
    {
      hide Plumbing, Closed, Framed, Requested, Bounded, ToolCalls, Overflowed, Paced;
      ghost var base := session.messages[..before];
      assert session.messages == base + [reply];
      if Closed(base) {
        ClosedAppend(base, reply);
        ClosedSplit(base, promptIndex);
      }
      if !sideEffects && (exit.OverflowGaveUp? || reply.stopReason.Error?) {
        assert session.messages[..promptIndex] == base[..promptIndex];
        Retract(promptIndex, true);
        rolledBack := true;
      }
    }

    method ReportLast(f: Frame, exit: Exit, ghost phase: Phase)
      requires StoppedIn(exit, phase) && !f.MessageEnd?
      modifies this`frames
      ensures StoppedIn(exit, Advance(phase, f)) && frames == old(frames) + [f]
    {
      hide Plumbing, Requested, Bounded, Verdict, PhaseOf, Completed, Advance, Paced;
      Emit(f);
    }

    /** The context overflowed: archive and replay once. */
    method RecoverOverflow(turn: Turn, reply: Message, before: nat) returns (exit: Option<Exit>)
      requires Judging(reply, before) && Overflowed(reply, turn.window)
      modifies this`frames, this`promptIndex, this`archived, this`overflowRecovered, this`rolledBack, state, session
      ensures exit.None? ==> Inv()
      ensures exit.Some? ==> Stopped(exit.value)
      ensures Result(Here(), exit) == RecoverFrom(old(Here()), turn, reply, Cfg())
      ensures frames == old(frames) + [TurnEnd(reply, [])] + RecoveryFrames(exit)
    {
      hide Ready, StoppedIn, ArchiveFrom, Overflowed, RolledBack, Retained, Here, RecoveryFrames, Replayed, Empty;
      HereIs();
      ghost var base := session.messages[..before];
      Report(TurnEnd(reply, []), base, InTurn, 1);
      if overflowRecovered {
        exit := RefuseOverflow(turn, reply, before);
      } else {
        DropReply(before, Between, 1);
        exit := ReplayOverflow(turn);
      }
    }

    /** The second overflow of a run fails it. */
    method RefuseOverflow(turn: Turn, reply: Message, before: nat) returns (exit: Option<Exit>)
      requires |session.messages| == before + 1 && session.messages[before] == reply && reply.Assistant?
      requires Ready(session.messages[..before], Between, 1) && hand == [] && Overflowed(reply, turn.window)
      modifies this`rolledBack, this`frames, session
      ensures exit == Some(OverflowGaveUp(reply, turn.window)) && Stopped(exit.value)
      ensures Here() == RolledBack(old(Here())) && frames == old(frames) + RecoveryFrames(exit)
    {
      hide Ready, StoppedIn, Overflowed, RolledBack, Here;
      Report(ArchiveEnd(Overflow, false, true, false), session.messages[..before], Between, 1);
      exit := Some(OverflowGaveUp(reply, turn.window));
      GiveUp(reply, before, exit.value, Between, 1);
    }

    /** The first overflow: the request is made again over an archived context. */
    method ReplayOverflow(turn: Turn) returns (exit: Option<Exit>)
      requires Ready(session.messages, Between, 1) && hand == [] && idlePasses == 0 && !overflowRecovered
      modifies this`frames, this`promptIndex, this`archived, this`overflowRecovered, state, session
      ensures exit.None? ==> Inv()
      ensures exit.Some? ==> Stopped(exit.value)
      ensures var (q, o) := ArchiveFrom(old(Here()), turn, Cfg());
              && exit == Replayed(o)
              && Here() == if o.Archived? then q.(overflowRecovered := true) else q
      ensures frames == old(frames) + RecoveryFrames(exit)
    {
      hide Ready, StoppedIn, ArchiveFrom, Here;
      var o := Archive(turn, Overflow, Between, 1);
      exit := Replayed(o);
      match o {
        case Archived(_) =>
          SpendOverflow(session.messages);
          Report(ArchiveEnd(Overflow, true, false, false), session.messages, Between, 0);
          Report(TurnStart, session.messages, Between, 0);
        case NothingToArchive =>
          Report(ArchiveEnd(Overflow, false, true, false), session.messages, Between, 1);
          StopsCleanly(exit.value, 1);
        case Cancelled =>
          Report(ArchiveEnd(Overflow, false, false, true), session.messages, Between, 1);
          StopsCleanly(exit.value, 1);
      }
    }

    /** The one overflow recovery of a run is used up. */
    method SpendOverflow(ghost base: seq<Message>)
      requires Ready(base, Between, 1) && !overflowRecovered
      modifies this`overflowRecovered
      ensures Ready(base, Between, 0) && Here() == old(Here()).(overflowRecovered := true)
    {
      hide Plumbing, Serving, Framed, Requested, Bounded, CountIn;
      overflowRecovered := true;
    }

    /** A transient failure: drop the reply, wait, and replay. */
    method Backoff(turn: Turn, reply: Message, before: nat) returns (exit: Option<Exit>)
      requires Judging(reply, before) && retryAttempt < state.maxRetries
      modifies this`retryAttempt, this`frames, state, session
      ensures exit.None? ==> Inv()
      ensures exit.Some? ==> Stopped(exit.value)
      ensures Result(Here(), exit) == BackoffFrom(old(Here()), turn)
      ensures var delay := RetryDelayMs(state.baseDelayMs, retryAttempt, turn.reply.retryAfterMs);
              frames == old(frames) + [TurnEnd(reply, []), RetryStart(retryAttempt, delay),
                                       if turn.backoffCancelled then RetryEnd(false, retryAttempt) else TurnStart]
    {
      hide Ready, StoppedIn, RetryDelayMs, Interfered, Retained, Here, Empty;
      HereIs();
      ghost var base := session.messages[..before];
      SpendRetry(base);
      Report(TurnEnd(reply, []), base, InTurn, 0);
      Report(RetryStart(retryAttempt, RetryDelayMs(state.baseDelayMs, retryAttempt, turn.reply.retryAfterMs)),
             base, Between, 0);
      DropReply(before, Between, 0);
      exit := Wait(turn);
    }

    /** The wait before a retry; other clients go on meanwhile. */
    method Wait(turn: Turn) returns (exit: Option<Exit>)
      requires Ready(session.messages, Between, 0) && hand == []
      modifies this`frames, state, session
      ensures exit.None? ==> Inv()
      ensures exit.Some? ==> Stopped(exit.value)
      ensures exit == if turn.backoffCancelled then Some(BackoffCancelled) else None
      ensures Here() == Interfered(old(Here()), turn.duringBackoff, true)
      ensures frames == old(frames) + [if turn.backoffCancelled then RetryEnd(false, retryAttempt) else TurnStart]
    {
      hide Ready, StoppedIn, Interfered, Here;
      Yield(turn.duringBackoff, session.messages, Between, 0);
      if turn.backoffCancelled {
        Report(RetryEnd(false, retryAttempt), session.messages, Between, 0);
        StopsCleanly(BackoffCancelled, 0);
        return Some(BackoffCancelled);
      }
      Report(TurnStart, session.messages, Between, 0);
      exit := None;
    }

    method SpendRetry(ghost base: seq<Message>)
      requires Ready(base, InTurn, 1) && retryAttempt < state.maxRetries
      modifies this`retryAttempt
      ensures Ready(base, InTurn, 0) && retryAttempt == old(retryAttempt) + 1
      ensures Here() == old(Here()).(retryAttempt := old(Here()).retryAttempt + 1)
    {
      hide Plumbing, Serving, Framed, Requested, Bounded, CountIn;
      retryAttempt := retryAttempt + 1;
    }

    // ----- Judging a reply -----

    /** The context moves on to `ms`, which extends what was being served. */
    lemma MovesOn(base: seq<Message>, ms: seq<Message>, phase: Phase, spent: nat)
      requires Ready(base, phase, spent) && base <= ms && (Closed(base) ==> Closed(ms)) && idlePasses == 0
      ensures Ready(ms, phase, spent)
    {
      hide Plumbing, Closed, Counted, Framed, Requested;
      assert ms[..promptIndex] == base[..promptIndex];
    }

    /** A reply that was neither retried nor replayed ends the retries. */
    method EndRetries(reply: Message, ghost base: seq<Message>)
      requires Ready(base, InTurn, 1)
      modifies this`retryAttempt, this`frames
      ensures Ready(base, InTurn, 1 + state.maxRetries) && retryAttempt == 0
      ensures Here() == old(Here()).(retryAttempt := 0)
      ensures frames == old(frames) + if old(retryAttempt) == 0 then [] else [RetryEnd(!Failed(reply), old(retryAttempt))]
    {
      hide Ready;
      if retryAttempt > 0 {
        Report(RetryEnd(!Failed(reply), retryAttempt), base, InTurn, 1);
      }
      ResetRetries(base);
    }

    method ResetRetries(ghost base: seq<Message>)
      requires Ready(base, InTurn, 1)
      modifies this`retryAttempt
      ensures Ready(base, InTurn, 1 + state.maxRetries) && retryAttempt == 0
      ensures Here() == old(Here()).(retryAttempt := 0)
    {
      hide Plumbing, Serving, Framed, Requested, Bounded, CountIn;
      retryAttempt := 0;
    }

    /** The one continuation after an empty answer is used up. */
    method SpendContinuation(ghost ms: seq<Message>)
      requires Ready(ms, InTurn, 1 + state.maxRetries) && !retryWithoutAnswer
      modifies this`retryWithoutAnswer
      ensures Ready(ms, InTurn, 0) && Here() == old(Here()).(retryWithoutAnswer := true)
    {
      hide Plumbing, Serving, Framed, Requested, Bounded, CountIn;
      retryWithoutAnswer := true;
    }

    method ClearContinuation(ghost ms: seq<Message>, ghost spent: nat)
      requires Ready(ms, InTurn, spent)
      modifies this`retryWithoutAnswer
      ensures Ready(ms, InTurn, spent + state.maxRetries + 1) && !retryWithoutAnswer
      ensures Here() == old(Here()).(retryWithoutAnswer := false)
    {
      hide Plumbing, Serving, Framed, Requested, Bounded, CountIn;
      retryWithoutAnswer := false;
    }

    /** Tool results or a queued message: a fact the run may not roll back past. */
    method Progress(ghost ms: seq<Message>, ghost phase: Phase, ghost spent: nat)
      requires Ready(ms, phase, spent) && retryAttempt == 0 && !retryWithoutAnswer && segment < Facts()
      modifies this`sideEffects, this`segment
      ensures Ready(ms, phase, 0) && sideEffects && Here() == Progressed(old(Here()))
    {
      hide Plumbing, Framed, Requested, CountIn;
      sideEffects := true;
      segment := segment + 1;
      CountNone(requests, segment);
    }

    /** `take_queued` for a run that will go on. */
    method TakeNext() returns (next: Option<Admission>)
      requires Inv()
      modifies this`hand, state`streaming, state`steering, state`followUp, state`taken
      ensures Ready(session.messages, InTurn, 0)
      ensures next == NextQueued(old(Here()).shared, false)
      ensures Here() == if next.None? then old(Here()) else old(Here()).(shared := Popped(old(Here()).shared, false))
      ensures next.None? ==> hand == []
      ensures next.Some? ==> hand == [next.value] && next.value.message.User?
    {
      hide Session.Valid, State.Ledger, Serving, Counted, Framed, Requested, InLog, Admissions;
      next := state.TakeQueued(false);
      if next.Some? {
        hand := [next.value];
      }
    }

    /** `inject_queued`: the message in hand becomes the next user turn. */
    method Inject(item: Admission)
      requires Ready(session.messages, InTurn, 0) && hand == [item] && item.message.User?
      requires sideEffects && idlePasses == 0
      modifies this`hand, this`injected, this`frames, this`produced, session
      ensures Inv() && old(frames) <= frames
      ensures Here() == Extended(old(Here()), [item.message])
    {
      hide Ready;
      InjectInto(item, session.messages);
      Show(item.message, session.messages, InTurn, 0);
    }

    method InjectInto(item: Admission, ghost base: seq<Message>)
      requires Ready(base, InTurn, 0) && base == session.messages && hand == [item] && item.message.User?
      requires sideEffects && idlePasses == 0
      modifies this`hand, this`injected, session
      ensures Inv()
      ensures Here() == Joined(old(Here()), [item.message])
    {
      hide Plumbing, Closed, Counted, Framed, Requested, ToolResults;
      Deliver(item, true);
      if Closed(base) {
        ClosedAppend(base, item.message);
      }
      MovesOn(base, session.messages, InTurn, 0);
    }

    /** Appends the first message in hand and records where. */
    method Deliver(item: Admission, ghost on: bool)
      requires Plumbing(on) && hand != [] && hand[0] == item
      modifies this`hand, this`injected, session
      ensures Plumbing(on) && hand == old(hand)[1..] && |injected| == |old(injected)| + 1
      ensures session.messages == old(session.messages) + [item.message]
      ensures session.usageFloor == old(session.usageFloor)
    {
      hide Session.Valid, State.Ledger;
      ghost var d := Delivery(item.queue, item.message, |session.log|);
      assert Admissions(injected + [d]) == Admissions(injected) + [item];
      assert hand == [item] + hand[1..];
      session.AppendMessage(item.message);
      injected := injected + [d];
      hand := hand[1..];
    }

    /** A completed message among the frames. */
    method Show(m: Message, ghost ms: seq<Message>, ghost phase: Phase, ghost spent: nat)
      requires Ready(ms, phase, spent) && phase in {Between, InTurn}
      modifies this`frames, this`produced
      ensures frames == old(frames) + [MessageEnd(m)]
      ensures Ready(ms, phase, spent) && Facts() == old(Facts()) + if m.ToolResult? then 1 else 0
      ensures Here() == Told(old(Here()), [m])
    {
      hide Plumbing, Serving, Counted, Requested, PhaseOf, Completed, ToolResults;
      ToolResultsAppend(produced, m);
      Produce(m);
    }

    method ShowResults(results: seq<Message>, ghost base: seq<Message>, ghost phase: Phase, ghost spent: nat)
      requires Ready(base, phase, spent) && phase in {Between, InTurn}
      requires forall i :: 0 <= i < |results| ==> results[i].ToolResult?
      modifies this`frames, this`produced
      ensures Ready(base, phase, spent) && segment + |results| <= Facts()
      ensures Here() == Told(old(Here()), results)
    {
      hide Ready, Here, Told;
      Grounded(base, phase, spent);
      ToldMore(Here(), [], NoModelMessage());
      for i := 0 to |results|
        invariant Ready(base, phase, spent) && segment + i <= Facts()
        invariant Here() == Told(old(Here()), results[..i])
      {
        Show(results[i], base, phase, spent);
        ToldMore(old(Here()), results[..i], results[i]);
        assert results[..i + 1] == results[..i] + [results[i]];
      }
      assert results[..|results|] == results;
    }

    lemma Grounded(ms: seq<Message>, phase: Phase, spent: nat)
      requires Ready(ms, phase, spent)
      ensures segment <= Facts()
    {
      hide Plumbing, Serving, Counted, Framed, Requested;
    }

    /** Appends messages while `base` is still what is being served. */
    method AppendAll(ms: seq<Message>, ghost base: seq<Message>, ghost phase: Phase, ghost spent: nat)
      requires Ready(base, phase, spent)
      modifies session
      ensures Ready(base, phase, spent) && session.messages == old(session.messages) + ms
      ensures Here() == Joined(old(Here()), ms)
    {
      hide Ready, Here, Joined;
      JoinedMore(Here(), [], NoModelMessage());
      for i := 0 to |ms|
        invariant Ready(base, phase, spent) && session.messages == old(session.messages) + ms[..i]
        invariant Here() == Joined(old(Here()), ms[..i])
      {
        AppendOne(ms[i], base, phase, spent);
        JoinedMore(old(Here()), ms[..i], ms[i]);
        assert ms[..i + 1] == ms[..i] + [ms[i]];
      }
      assert ms[..|ms|] == ms;
    }

    method AppendOne(m: Message, ghost base: seq<Message>, ghost phase: Phase, ghost spent: nat)
      requires Ready(base, phase, spent)
      modifies session
      ensures Ready(base, phase, spent) && session.messages == old(session.messages) + [m]
      ensures Here() == Joined(old(Here()), [m])
    {
      hide Session.Valid, State.Ledger, Closed, Counted, Framed, Requested;
      session.AppendMessage(m);
    }

    /** A complete answer ends the run, unless something is queued. */
    method Answer(turn: Turn, reply: Message, ghost base: seq<Message>, ghost spent: nat) returns (exit: Option<Exit>)
      requires Ready(base, InTurn, spent) && hand == [] && idlePasses == 0
      requires session.messages == base + [reply] && reply.Assistant? && LiveCalls(reply) == []
      requires retryAttempt == 0 && !retryWithoutAnswer
      modifies this`hand, this`injected, this`settled, this`frames, this`produced, this`sideEffects, this`segment,
               state, session
      ensures exit.None? ==> Inv()
      ensures exit.Some? ==> Stopped(exit.value)
      ensures Result(Here(), exit) == AnswerFrom(old(Here()), turn)
    {
      hide Ready, StoppedIn, Closed, LiveCalls, Interfered, LookFrom, Here;
      if Closed(base) {
        ClosedAppend(base, reply);
      }
      MovesOn(base, session.messages, InTurn, spent);
      Report(TurnEnd(reply, []), session.messages, InTurn, spent);
      Yield(turn.beforeLook, session.messages, Between, spent);
      exit := LookAround(spent);
    }

    /** The last look into the queues, and the next turn if it finds something. */
    method LookAround(ghost spent: nat) returns (exit: Option<Exit>)
      requires Ready(session.messages, Between, spent) && hand == [] && idlePasses == 0
      requires retryAttempt == 0 && !retryWithoutAnswer
      modifies this`hand, this`injected, this`settled, this`frames, this`produced, this`sideEffects, this`segment,
               state`streaming, state`steering, state`followUp, state`taken, session
      ensures exit.None? ==> Inv()
      ensures exit.Some? ==> Stopped(exit.value)
      ensures Result(Here(), exit) == LookFrom(old(Here()))
    {
      hide Ready, StoppedIn, Closed, NextQueued, Popped, Here, Joined, Told;
      var next := LastLook(spent);
      if next.None? {
        return Some(Answered);
      }
      Progress(session.messages, Between, spent);
      Report(TurnStart, session.messages, Between, 0);
      Inject(next.value);
      exit := None;
    }

    /** `take_queued` for a run about to stop. */
    method LastLook(ghost spent: nat) returns (next: Option<Admission>)
      requires Ready(session.messages, Between, spent) && hand == []
      modifies this`hand, this`settled, state`streaming, state`steering, state`followUp, state`taken
      ensures next == NextQueued(old(Here()).shared, true)
      ensures Here() == if next.None? then old(Here()) else old(Here()).(shared := Popped(old(Here()).shared, true))
      ensures next.None? ==> Stopped(Answered)
      ensures next.Some? ==> Ready(session.messages, Between, spent)
                             && hand == [next.value] && next.value.message.User? && segment < Facts()
    {
      hide Session.Valid, State.Ledger, Framed, Requested, Bounded, InLog, Admissions, Closed, ToolResults;
      next := state.TakeQueued(true);
      if next.Some? {
        hand := [next.value];
      } else {
        settled := true;
      }
    }

    /** Runs the reply's calls and appends one result for each, in order. */
    method ServeCalls(turn: Turn, reply: Message, ghost base: seq<Message>, ghost spent: nat)
      returns (exit: Option<Exit>)
      requires Ready(base, InTurn, spent) && hand == [] && idlePasses == 0
      requires session.messages == base + [reply] && reply.Assistant? && !Failed(reply)
      requires ToolCalls(reply) != [] && retryAttempt == 0 && !retryWithoutAnswer
      modifies this`hand, this`injected, this`frames, this`produced, this`sideEffects, this`segment,
               state, session
      ensures exit.None? ==> Inv()
      ensures exit.Some? ==> Stopped(exit.value)
      ensures Result(Here(), exit) == ServeFrom(old(Here()), turn, reply)
      ensures TurnEnd(reply, ResultsOf(turn, reply)) in frames
    {
      hide Ready, StoppedIn, Closed, ToolCalls, ResultsOf, MediaFor, Asks, Interfered, Injected, Progressed, Here;
      if !reply.stopReason.Length? {
        Yield(turn.duringTools, base, InTurn, spent);
      }
      var results := ResultsOf(turn, reply);
      CommitResults(turn, reply, results, base, spent);
      AttachMedia(Media(turn, reply));
      Report(TurnEnd(reply, results), session.messages, InTurn, 0);
      ghost var last := |frames| - 1;
      assert frames[last] == TurnEnd(reply, results);
      assert old(session.messages)[..|old(session.messages)| - 1] == base;
      if Asks(turn, reply) || turn.abortAfterTools {
        var why := if Asks(turn, reply) then AskedUser else CancelledAfterTools;
        StopsCleanly(why, 0);
        return Some(why);
      }
      Steer(turn);
      assert frames[last] == TurnEnd(reply, results);
      exit := None;
    }

    /** The results are shown and appended; from here on the run may not be rolled back. */
    method CommitResults(turn: Turn, reply: Message, results: seq<Message>, ghost base: seq<Message>, ghost spent: nat)
      requires Ready(base, InTurn, spent) && idlePasses == 0
      requires session.messages == base + [reply] && reply.Assistant? && !Failed(reply)
      requires ToolCalls(reply) != [] && results == ResultsOf(turn, reply)
      requires retryAttempt == 0 && !retryWithoutAnswer
      modifies this`frames, this`produced, this`sideEffects, this`segment, session
      ensures Ready(session.messages, InTurn, 0) && sideEffects
      ensures Here() == Progressed(Extended(old(Here()), results)) && session.messages == old(session.messages) + results
    {
      hide Ready, Closed, ToolCalls;
      ShowResults(results, base, InTurn, spent);
      AppendAll(results, base, InTurn, spent);
      if Closed(base) {
        ExchangeCloses(base, reply, results);
      }
      MovesOn(base, session.messages, InTurn, spent);
      Progress(session.messages, InTurn, spent);
    }

    /** The next turn opens with a steering message, if one is waiting. */
    method Steer(turn: Turn)
      requires Ready(session.messages, Between, 0) && hand == [] && idlePasses == 0 && sideEffects
      modifies this`hand, this`injected, this`frames, this`produced, state, session
      ensures Inv() && Here() == Injected(Interfered(old(Here()), turn.beforeLook, true), false)
      ensures old(frames) <= frames
    {
      hide Ready, Interfered, NextQueued, Popped;
      Report(TurnStart, session.messages, Between, 0);
      Yield(turn.beforeLook, session.messages, InTurn, 0);
      var next := TakeNext();
      if next.Some? {
        Inject(next.value);
      }
    }

    /** Media a tool registered enters as a user message, unless already attached. */
    method AttachMedia(attachments: seq<Attachment>)
      requires Inv() && idlePasses == 0
      modifies this`frames, this`produced, session
      ensures Inv() && idlePasses == 0
      ensures Here() == Extended(old(Here()), MediaFor(old(Here()).context, attachments))
    {
      hide Ready, Closed, FreshAttachments, Names;
      var unseen := FreshAttachments(session.messages, attachments);
      if unseen != [] {
        ghost var base := session.messages;
        var message := User(Names(unseen), unseen);
        AppendOne(message, base, InTurn, 0);
        if Closed(base) {
          ClosedAppend(base, message);
        }
        MovesOn(base, session.messages, InTurn, 0);
        Show(message, session.messages, InTurn, 0);
      }
    }

    /** What the loop does with a reply. */
    method Judge(turn: Turn, autoArchive: bool, reply: Message, before: nat) returns (exit: Option<Exit>)
      requires Judging(reply, before)
      modifies this`promptIndex, this`archived, this`overflowRecovered, this`retryAttempt, this`retryWithoutAnswer,
               this`rolledBack, this`hand, this`injected, this`settled, this`frames, this`produced, this`sideEffects,
               this`segment, state, session
      ensures exit.None? ==> Inv()
      ensures exit.Some? ==> Stopped(exit.value)
      ensures Result(Here(), exit) == JudgeFrom(old(Here()), turn, autoArchive, reply, Cfg())
    {
      hide Ready, StoppedIn, Closed, Overflows, Transient, Empty, RecoverFrom, BackoffFrom, ConcludeFrom, Overflowed;
      if Overflows(turn, autoArchive, reply) {
        OverflowsMeans(turn, autoArchive, reply);
        exit := RecoverOverflow(turn, reply, before);
        return;
      }
      if state.retryEnabled && retryAttempt < state.maxRetries && Transient(turn, reply) {
        exit := Backoff(turn, reply, before);
        return;
      }
      exit := KeepReply(turn, reply, before);
    }

    /** The reply stays: it ends the retries, and is continued if it is empty. */
    method KeepReply(turn: Turn, reply: Message, before: nat) returns (exit: Option<Exit>)
      requires Judging(reply, before)
      modifies this`retryAttempt, this`retryWithoutAnswer, this`rolledBack, this`hand, this`injected, this`settled,
               this`frames, this`produced, this`sideEffects, this`segment, state, session
      ensures exit.None? ==> Inv()
      ensures exit.Some? ==> Stopped(exit.value)
      ensures Result(Here(), exit) == KeepFrom(old(Here()), turn, reply)
    {
      hide Ready, StoppedIn, Closed, Empty, ConcludeFrom;
      ghost var base := session.messages[..before];
      assert session.messages == base + [reply];
      EndRetries(reply, base);
      if Empty(reply) {
        exit := Continue(reply, base);
      } else {
        exit := Conclude(turn, reply, before, base);
      }
    }

    /** A reply that is neither replayed nor empty fails the run, answers it, or asks for tools. */
    method Conclude(turn: Turn, reply: Message, before: nat, ghost base: seq<Message>) returns (exit: Option<Exit>)
      requires before == |base| && session.messages == base + [reply] && reply.Assistant?
      requires Ready(base, InTurn, 1 + state.maxRetries) && retryAttempt == 0 && hand == [] && idlePasses == 0
      modifies this`retryWithoutAnswer, this`rolledBack, this`hand, this`injected, this`settled, this`frames,
               this`produced, this`sideEffects, this`segment, state, session
      ensures exit.None? ==> Inv()
      ensures exit.Some? ==> Stopped(exit.value)
      ensures Result(Here(), exit) == ConcludeFrom(old(Here()), turn, reply)
    {
      hide Ready, StoppedIn, Closed, LiveCalls, ToolCalls, AnswerFrom, ServeFrom, RolledBack;
      ClearContinuation(base, 1 + state.maxRetries);
      if Failed(reply) {
        GiveUp(reply, before, ReplyFailed(reply), InTurn, 2 * state.maxRetries + 2);
        ReportLast(TurnEnd(reply, []), ReplyFailed(reply), InTurn);
        return Some(ReplyFailed(reply));
      }
      if ToolCalls(reply) == [] {
        NoLiveCalls(reply);
        exit := Answer(turn, reply, base, 2 * state.maxRetries + 2);
      } else {
        exit := ServeCalls(turn, reply, base, 2 * state.maxRetries + 2);
      }
    }

    lemma NoLiveCalls(reply: Message)
      requires ToolCalls(reply) == []
      ensures LiveCalls(reply) == []
    {
    }

    lemma {:induction false} EmptyHasNoCalls(content: seq<Content>)
      requires !HasVisibleAnswerOrTool(content)
      ensures CallsIn(content) == []
    {
      if content != [] {
        assert !content[0].ToolCall?;
        forall i | 0 <= i < |content[1..]|
          ensures !(content[1..][i].ToolCall? || (content[1..][i].Text? && !Blank(content[1..][i].text)))
        {
          assert content[1..][i] == content[i + 1];
        }
        EmptyHasNoCalls(content[1..]);
      }
    }

    /** An empty answer stays, and one more request may turn it into a real one. */
    method Continue(reply: Message, ghost base: seq<Message>) returns (exit: Option<Exit>)
      requires Ready(base, InTurn, 1 + state.maxRetries) && hand == [] && idlePasses == 0
      requires session.messages == base + [reply] && Empty(reply) && !retryWithoutAnswer
      modifies this`frames, this`retryWithoutAnswer
      ensures exit.None? && Inv() && Here() == old(Here()).(retryWithoutAnswer := true)
      ensures frames == old(frames) + [TurnEnd(reply, []), TurnStart]
    {
      hide Ready, Closed;
      EmptyHasNoCalls(reply.content);
      if Closed(base) {
        ClosedAppend(base, reply);
      }
      MovesOn(base, session.messages, InTurn, 1 + state.maxRetries);
      SpendContinuation(session.messages);
      Report(TurnEnd(reply, []), session.messages, InTurn, 0);
      Report(TurnStart, session.messages, Between, 0);
      exit := None;
    }

    // ----- One pass of the loop -----

    method Pass(turn: Turn) returns (exit: Option<Exit>)
      requires Inv()
      modifies this, state, session
      ensures exit.None? ==> Inv()
      ensures exit.Some? ==> Stopped(exit.value)
      ensures passes <= old(passes) + 1 && (exit.None? ==> passes == old(passes) + 1)
      ensures Result(Here(), exit) == PassFrom(old(Here()), turn, Cfg())
      ensures requests == old(requests) + RequestOf(old(Here()), turn, Cfg())
    {
      hide Ready, StoppedIn, PassOnFrom, Interfered, OnlyArchives;
      Yield(turn.before, session.messages, InTurn, 0);
      exit := PassOn(turn);
    }

    /** A pass, once it has taken the lock: archive, or make one request and judge the reply. */
    method PassOn(turn: Turn) returns (exit: Option<Exit>)
      requires Inv()
      modifies this, state, session
      ensures exit.None? ==> Inv()
      ensures exit.Some? ==> Stopped(exit.value)
      ensures passes <= old(passes) + 1 && (exit.None? ==> passes == old(passes) + 1)
      ensures Result(Here(), exit) == PassOnFrom(old(Here()), turn, Cfg())
      ensures requests == old(requests)
                          + if !turn.hasModel || OnlyArchives(old(Here()), turn, Cfg()) then []
                            else [Request(old(session.messages), old(promptIndex), old(segment))]
    {
      hide Ready, StoppedIn, Closed, ArchivePassFrom, AskFrom, OnlyArchives;
      if !turn.hasModel {
        FinishWithoutModel();
        return Some(NoModel);
      }
      var autoArchive := state.autoArchive;
      var again;
      again, exit := CheckContext(turn);
      if !again && exit.None? {
        exit := Ask(turn, autoArchive);
      }
    }

    /** The check before a request: `again` when an archive replaced the context. */
    method CheckContext(turn: Turn) returns (again: bool, exit: Option<Exit>)
      requires Inv() && turn.hasModel
      modifies this`frames, this`promptIndex, this`archived, this`thresholdCheckedAt, this`passes, this`idlePasses,
               state, session
      ensures exit.None? ==> Inv()
      ensures exit.Some? ==> Stopped(exit.value)
      ensures again || exit.Some? <==> OnlyArchives(old(Here()), turn, Cfg())
      ensures again || exit.Some? ==> Result(Here(), exit) == ArchivePassFrom(old(Here()), turn, Cfg())
      ensures !again && exit.None? ==> Here() == Checked(old(Here()))
      ensures again ==> exit.None?
      ensures passes == old(passes) + if again then 1 else 0
    {
      hide Ready, StoppedIn, PlanOf, ContextTokens, OverThreshold, ArchivePassFrom;
      again, exit := false, None;
      if state.autoArchive && thresholdCheckedAt != Some(|session.messages|) {
        var tokens := ContextTokens(session.messages, session.usageFloor, turn.overhead, estimate);
        if OverThreshold(tokens, turn.window) {
          again, exit := ArchiveAtThreshold(turn);
          if again || exit.Some? {
            return;
          }
        }
        CheckThreshold();
      }
    }

    /** One request, and what its reply comes to. */
    method Ask(turn: Turn, autoArchive: bool) returns (exit: Option<Exit>)
      requires Inv()
      modifies this, state, session
      ensures exit.None? ==> Inv()
      ensures exit.Some? ==> Stopped(exit.value)
      ensures passes == old(passes) + 1
      ensures Result(Here(), exit) == AskFrom(old(Here()), turn, autoArchive, Cfg())
      ensures requests == old(requests) + [Request(old(session.messages), old(promptIndex), old(segment))]
    {
      hide Ready, StoppedIn, JudgeFrom, Interfered, FinishReply;
      var reply := StreamAssistant(turn);
      var before := AppendReply(reply);
      exit := Judge(turn, autoArchive, reply, before);
    }

    /** `finish_without_model`, up to settling what is queued. */
    method FinishWithoutModel()
      requires Inv()
      modifies this`frames, this`produced, session
      ensures Stopped(NoModel)
      ensures Here() == Extended(old(Here()), [NoModelMessage()])
      ensures frames == old(frames) + [MessageEnd(NoModelMessage()), TurnEnd(NoModelMessage(), [])]
    {
      hide Ready, StoppedIn, Closed, Here, Joined, Told;
      ghost var base := session.messages;
      Show(NoModelMessage(), base, InTurn, 0);
      Report(TurnEnd(NoModelMessage(), []), base, InTurn, 0);
      AppendOne(NoModelMessage(), base, Between, 0);
      if Closed(base) {
        ClosedAppend(base, NoModelMessage());
      }
      StopsWithoutModel(base);
    }

    lemma StopsWithoutModel(base: seq<Message>)
      requires Ready(base, Between, 0) && hand == [] && (Closed(base) ==> Closed(session.messages))
      ensures Stopped(NoModel)
    {
      hide Plumbing, Framed, Requested, Bounded, Closed;
    }

    /** The context is over the threshold: `again` when an archive replaced it. */
    method ArchiveAtThreshold(turn: Turn) returns (again: bool, exit: Option<Exit>)
      requires Inv() && thresholdCheckedAt != Some(|session.messages|)
      modifies this`frames, this`promptIndex, this`archived, this`thresholdCheckedAt, this`passes, this`idlePasses,
               state, session
      ensures exit == None ==> Inv()
      ensures exit.Some? ==> Stopped(exit.value)
      ensures again || exit.Some? <==> PlanOf(old(Here()), turn, Cfg()).Some?
      ensures again || exit.Some? ==> Result(Here(), exit) == ArchivePassFrom(old(Here()), turn, Cfg())
      ensures !again && exit.None? ==> idlePasses == 0 && Here() == old(Here())
      ensures again ==> exit.None?
      ensures passes == old(passes) + if again then 1 else 0
    {
      hide Ready, StoppedIn, Plan, TailBudget, Interfered, Compacted, Here;
      assert idlePasses == 0 by {
        NotIdle();
      }
      var o := Archive(turn, Threshold, InTurn, 0);
      again, exit := false, None;
      match o {
        case Archived(_) =>
          PassIdly();
          Report(ArchiveEnd(Threshold, false, false, false), session.messages, InTurn, 0);
          again := true;
        case NothingToArchive =>
        case Cancelled =>
          Report(ArchiveEnd(Threshold, false, false, true), session.messages, InTurn, 0);
          StopsOpen();
          exit := Some(ArchiveCancelled(Threshold));
      }
    }

    lemma NotIdle()
      requires Inv() && thresholdCheckedAt != Some(|session.messages|)
      ensures idlePasses == 0
    {
      hide Plumbing, Serving, Counted, Framed, Requested, Paced;
    }

    /** A pass that only archived: the context it left is not checked again. */
    method PassIdly()
      requires Inv() && idlePasses == 0
      modifies this`thresholdCheckedAt, this`passes, this`idlePasses
      ensures Inv() && passes == old(passes) + 1
      ensures Here() == old(Here()).(checkedAt := Some(|old(Here()).context|))
    {
      hide Plumbing, Serving, Counted, Framed, Requested;
      thresholdCheckedAt := Some(|session.messages|);
      passes, idlePasses := passes + 1, idlePasses + 1;
    }

    lemma StopsOpen()
      requires Inv()
      ensures Stopped(ArchiveCancelled(Threshold))
    {
      hide Plumbing, Framed, Requested, Bounded, Closed;
    }

    method CheckThreshold()
      requires Inv()
      modifies this`thresholdCheckedAt
      ensures Inv() && Here() == old(Here()).(checkedAt := Some(|old(Here()).context|))
    {
      hide Plumbing, Serving, Counted, Framed, Requested;
      thresholdCheckedAt := Some(|session.messages|);
    }

    /** The reply is shown, then joins the context. */
    method AppendReply(reply: Message) returns (before: nat)
      requires Ready(session.messages, InTurn, 1) && idlePasses == 0 && hand == []
      requires reply.Assistant? && (retryWithoutAnswer ==> !Empty(reply))
      modifies this`frames, this`produced, session
      ensures Judging(reply, before) && session.messages[..before] == old(session.messages)
      ensures Here() == Extended(old(Here()), [reply]) && session.messages == old(session.messages) + [reply]
    {
      hide Ready, Empty;
      ghost var base := session.messages;
      Show(reply, base, InTurn, 1);
      before := |session.messages|;
      AppendOne(reply, base, InTurn, 1);
      assert session.messages[..before] == base;
    }

    /** The loop, until it stops or the script runs out. */
    method Follow(script: seq<Turn>) returns (exit: Option<Exit>)
      requires Inv() && passes == 0
      modifies this, state, session
      ensures exit.None? ==> Inv() && passes == |script|
      ensures exit.Some? ==> Stopped(exit.value) && passes <= |script|
      ensures Result(Here(), exit) == Course(old(Here()), script, Cfg())
      ensures requests == old(requests) + RequestsOn(old(Here()), script, Cfg())
    {
      hide Ready, StoppedIn, PassFrom, RequestOf, Here;
      exit := None;
      ghost var top, c := Here(), Cfg();
      for i := 0 to |script|
        invariant exit == None && Inv() && passes == i
        invariant Course(top, script[..i], c) == Result(Here(), None)
        invariant requests == old(requests) + RequestsOn(top, script[..i], c)
      {
        assert script[..i + 1][..i] == script[..i];
        exit := Pass(script[i]);
        if exit.Some? {
          CourseStays(top, script, c, i + 1);
          return;
        }
      }
      assert script[..|script|] == script;
    }

    // ----- The end of a run -----

    /** No longer running; what was queued is in hand, and only `agent_end` is missing. */
    ghost predicate Settling(exit: Exit)
      reads this, state, session
    {
      && Plumbing(false) && Bounded() && Requested() && Framed(LastPhase(exit)) && Paced()
      && (sideEffects <==> segment > 0)
      && (rolledBack ==> !sideEffects && injected == [])
      && Verdict(exit)
    }

    /** `settle`: what is still queued joins the conversation, or goes with a rolled-back run. */
    method Settle(exit: Exit)
      requires Stopped(exit)
      modifies this, state, session
      ensures Settling(exit) && (hand != [] ==> rolledBack) && passes == old(passes)
      ensures Here() == Settled(old(Here()), exit) && requests == old(requests)
    {
      hide Plumbing, Framed, Requested, Bounded, Verdict, Paced;
      if settled {
        return;
      }
      var leftovers := Drain(exit);
      if !rolledBack {
        Keep(leftovers, exit);
      }
    }

    /** The end of the run and the emptying of the queues are one section. */
    method Drain(exit: Exit) returns (leftovers: seq<Admission>)
      requires Stopped(exit) && !settled
      modifies this`hand, state`streaming, state`steering, state`followUp, state`taken
      ensures Settling(exit) && hand == leftovers
      ensures Here() == Drained(old(Here())) && session.messages == old(session.messages)
      ensures MessagesOf(leftovers) == old(state.steering) + old(state.followUp)
      ensures forall i :: 0 <= i < |leftovers| ==> leftovers[i].message.User?
    {
      hide Session.Valid, State.Ledger, Framed, Requested, Bounded, Closed, Admissions;
      MessagesDrained(state.steering, state.followUp);
      leftovers := state.DrainAndStop();
      hand := leftovers;
    }

    method Keep(leftovers: seq<Admission>, exit: Exit)
      requires Settling(exit) && !rolledBack && hand == leftovers
      requires forall i :: 0 <= i < |leftovers| ==> leftovers[i].message.User?
      modifies this`hand, this`injected, this`frames, this`produced, session
      ensures Settling(exit) && hand == []
      ensures Here() == Extended(old(Here()), MessagesOf(leftovers))
    {
      hide Settling;
      for i := 0 to |leftovers|
        invariant Settling(exit) && !rolledBack && hand == leftovers[i..]
        invariant Here() == Joined(old(Here()), MessagesOf(leftovers[..i]))
      {
        KeepOne(leftovers[i], exit);
        assert MessagesOf(leftovers[..i + 1]) == MessagesOf(leftovers[..i]) + [leftovers[i].message];
      }
      assert leftovers[..|leftovers|] == leftovers;
      for i := 0 to |leftovers|
        invariant Settling(exit) && hand == []
        invariant Here() == Told(Joined(old(Here()), MessagesOf(leftovers)), MessagesOf(leftovers[..i]))
      {
        ShowKept(leftovers[i].message, exit);
        assert MessagesOf(leftovers[..i + 1]) == MessagesOf(leftovers[..i]) + [leftovers[i].message];
      }
    }

    method KeepOne(item: Admission, exit: Exit)
      requires Settling(exit) && !rolledBack && hand != [] && hand[0] == item && item.message.User?
      modifies this`hand, this`injected, session
      ensures Settling(exit) && hand == old(hand)[1..]
      ensures Here() == Joined(old(Here()), [item.message])
    {
      hide Framed, Requested, Bounded, Closed, Dangling, ToolResults, Overflowed;
      UserSettlesNothing(session.messages, item.message);
      Deliver(item, false);
    }

    method ShowKept(m: Message, exit: Exit)
      requires Settling(exit)
      modifies this`frames, this`produced
      ensures Settling(exit) && Here() == Told(old(Here()), [m])
    {
      hide Plumbing, Requested, Bounded, Verdict, PhaseOf, Completed, ToolResults;
      ToolResultsAppend(produced, m);
      Produce(m);
    }

    method Finish(exit: Exit)
      requires Stopped(exit)
      modifies this, state, session
      ensures Over(exit) && Here() == Settled(old(Here()), exit)
      ensures passes == old(passes) && requests == old(requests)
    {
      hide Plumbing, Requested, Bounded, Verdict, Stopped, Completed, PhaseOf, Paced, Settled;
      Settle(exit);
      ghost var before := frames;
      Emit(AgentEnd(produced));
      assert frames[..|frames| - 1] == before;
    }
  }

  /**
   * `run_prompt_with_attachments`: serve `prompt` until the loop stops or the
   * script runs out; `exit` is None when the run is still going.
   */
  method RunPrompt(state: State, prompt: Message, estimate: Estimate, script: seq<Turn>)
    returns (run: Run, exit: Option<Exit>)
    requires state.Valid() && state.streaming && !state.manual && !state.compacting && prompt.User?
    modifies state, state.session
    ensures fresh(run) && run.state == state && run.session == state.session && run.prompt == prompt
    ensures run.start == old(state.session.Now()) && run.startLog == old(state.session.log)
    ensures run.startTaken == old(state.taken)
    ensures run.At(exit) && run.passes <= |script| && (exit.None? ==> run.passes == |script|)
    ensures var c := Config(estimate, state.maxRetries);
            var top := Opened(old(state.session.messages), old(state.session.usageFloor), old(state.World()), prompt);
            && Result(run.Here(), exit) == RunFrom(top, script, c)
            && run.requests == RequestsOn(top, script, c)
  {
    hide State.Valid, Run.Over, Run.Inv, Run.StoppedIn, Course, RequestsOn, Settled, Opened, Run.Here;
    run := new Run(state, prompt, estimate);
    run.Open();
    exit := run.Follow(script);
    if exit.Some? {
      run.Finish(exit.value);
    }
  }

  // ----- What follows for whole runs -----

  /** Once a run is over, its frames complete exactly the messages it told of, in order, and end with their list. */
  lemma FramesTellAll(run: Run, exit: Exit)
    requires run.Over(exit)
    ensures Completed(run.frames) == run.Here().told
    ensures run.frames != [] && run.frames[|run.frames| - 1] == AgentEnd(run.Here().told)
  {
  }

  /** At most `bound` requests in each of `n` segments are at most n * bound in all. */
  lemma {:induction false} TotalRequests(requests: seq<Request>, n: nat, bound: nat)
    requires forall i :: 0 <= i < |requests| ==> requests[i].segment < n
    requires forall g: nat :: CountIn(requests, g) <= bound
    ensures |requests| <= n * bound
    decreases n
  {
    hide CountIn, Without;
    if requests != [] {
      FirstBelow(requests, n);
      var earlier := Without(requests, n - 1);
      forall g: nat ensures CountIn(earlier, g) <= bound {
        CountWithout(requests, n - 1, g);
        assert CountIn(requests, g) <= bound;
      }
      forall i | 0 <= i < |earlier| ensures earlier[i].segment < n - 1 {
        assert earlier[i] in requests;
      }
      TotalRequests(earlier, n - 1, bound);
      assert CountIn(requests, n - 1) <= bound;
      Distribute(n - 1, bound, |requests|, |earlier|);
    }
  }

  lemma FirstBelow(requests: seq<Request>, n: nat)
    requires requests != [] && forall i :: 0 <= i < |requests| ==> requests[i].segment < n
    ensures n > 0
  {
    assert requests[0].segment < n;
  }

  lemma Distribute(n: nat, bound: nat, all: nat, earlier: nat)
    requires earlier <= n * bound && all <= earlier + bound
    ensures all <= (n + 1) * bound
  {
  }

  function Without(requests: seq<Request>, segment: nat): (r: seq<Request>)
    ensures |r| + CountIn(requests, segment) == |requests|
    ensures forall i :: 0 <= i < |r| ==> r[i] in requests && r[i].segment != segment
  {
    if requests == [] then []
    else
      var n := |requests| - 1;
      Without(requests[..n], segment) + if requests[n].segment == segment then [] else [requests[n]]
  }

  lemma {:induction false} CountWithout(requests: seq<Request>, segment: nat, g: nat)
    ensures CountIn(Without(requests, segment), g) <= CountIn(requests, g)
  {
    if requests != [] {
      var n := |requests| - 1;
      CountWithout(requests[..n], segment, g);
      if requests[n].segment == segment {
        assert Without(requests, segment) == Without(requests[..n], segment);
      } else {
        CountAppend(Without(requests[..n], segment), requests[n], g);
      }
    }
  }

  /** A run cannot go on without progress, and progress is a fact in the conversation. */
  lemma RunsEnd(run: Run, exit: Option<Exit>)
    requires run.At(exit)
    ensures forall g: nat :: CountIn(run.requests, g) <= RequestBound(run.state.maxRetries)
    ensures |run.requests| <= (run.segment + 1) * RequestBound(run.state.maxRetries)
    ensures run.passes <= 2 * ((run.segment + 1) * RequestBound(run.state.maxRetries)) + 1
    ensures run.segment <= ToolResults(run.produced) + |run.injected|
  {
    TotalRequests(run.requests, run.segment + 1, RequestBound(run.state.maxRetries));
  }

  /**
   * A run that fails before any tool result or queued input, with no archive,
   * restores the messages, in memory and in what the log replays to; the floor
   * comes back exactly when it was not beyond the end of the context.
   */
  lemma CleanFailureRestores(run: Run, reply: Message)
    requires run.Over(ReplyFailed(reply)) && reply.Assistant? && reply.stopReason.Error?
    requires !run.sideEffects && !run.archived
    ensures run.session.messages == run.start.messages
    ensures Replay(run.session.log).messages == run.start.messages
    ensures Replay(run.session.log).usageFloor == run.session.usageFloor == Min(run.start.usageFloor, |run.start.messages|)
    ensures run.session.usageFloor == run.start.usageFloor <==> run.start.usageFloor <= |run.start.messages|
    ensures run.startLog <= run.session.log
  {
  }

  /** Such a floor comes from a log cut inside an archive: here the one message it kept was lost. */
  lemma CutArchiveLosesFloor(kept: Message, prompt: Message, failed: Message)
    ensures var cut := AppendedAll([], ArchiveBodies("", [kept])[..1]);
            var failedRun := Appended(Appended(Appended(cut, MessageBody(prompt)), MessageBody(failed)), RollbackBody(1));
            && Replay(cut).usageFloor == 2 && |Replay(cut).messages| == 1
            && Replay(failedRun).messages == Replay(cut).messages && Replay(failedRun).usageFloor == 1
  {
    var written := ArchiveBodies("", [kept])[..1];
    var cut := AppendedAll([], written);
    CutArchiveReplays([], "", [kept], 0, written, cut);
    var ms := Replay(cut).messages;
    assert |ms| == 1;
    var prompted := Appended(cut, MessageBody(prompt));
    var replied := Appended(prompted, MessageBody(failed));
    ReplayAppended(cut, MessageBody(prompt));
    ReplayAppended(prompted, MessageBody(failed));
    ReplayAppended(replied, RollbackBody(1));
    assert Replay(replied).messages == ms + [prompt] + [failed];
    assert (ms + [prompt] + [failed])[..1] == ms;
  }

  /**
   * Once a run is over, everything a client was told is queued was injected, in
   * order and in the log, or was dropped; and only a rolled-back run drops.
   */
  lemma QueuedIsInjected(run: Run, exit: Exit, queue: Queue)
    requires run.Over(exit)
    ensures Of(run.state.accepted, queue) == Of(run.startTaken + Admissions(run.injected), queue) + Of(run.hand, queue)
    ensures InLog(run.injected, |run.startLog|, run.session.log)
    ensures !run.rolledBack ==> run.hand == []
    ensures run.rolledBack ==> run.injected == []
  {
    OfConcat(run.startTaken + Admissions(run.injected), run.hand, queue);
  }

  // ----- Pairing -----

  /** What a provider was sent: every call of a completed reply answered in place, and no orphans. */
  lemma RequestsArePaired(run: Run, k: nat)
    requires run.Requested() && k < |run.requests| && Paired(run.start.messages)
    ensures Paired(run.requests[k].messages)
    ensures var r := run.requests[k]; r.promptIndex < |r.messages| && r.messages[r.promptIndex] == run.prompt
  {
    PairedIsClosed(run.start.messages);
    ClosedIsPaired(run.requests[k].messages);
  }

  lemma ClosedExactlyPaired(ms: seq<Message>)
    ensures Closed(ms) <==> Paired(ms)
  {
    if Closed(ms) {
      ClosedIsPaired(ms);
    }
    if Paired(ms) {
      PairedIsClosed(ms);
    }
  }

  /** That the run starts from a paired context is needed: its first request shows when it does not. */
  lemma FirstRequestDecides(context: seq<Message>, floor: nat, shared: Shared, prompt: Message,
                            script: seq<Turn>, c: Config)
    requires prompt.User? && script != []
    requires var top := Opened(context, floor, shared, prompt); RequestOf(top, script[0], c) != []
    ensures var sent := RequestsOn(Opened(context, floor, shared, prompt), script, c);
            sent != [] && (Paired(sent[0].messages) <==> Paired(context))
  {
    hide OnlyArchives, HandledAll, Paired, Closed, RequestsOn;
    RequestsStart(Opened(context, floor, shared, prompt), script, c);
    UserSettlesNothing(context, prompt);
    ClosedExactlyPaired(context);
    ClosedExactlyPaired(context + [prompt]);
  }

  /** Calls stay unanswered only behind a second overflow that could not be rolled back. */
  lemma DanglingOnly(run: Run, exit: Exit)
    requires run.Over(exit) && Paired(run.start.messages)
    ensures Paired(run.session.messages) <==>
            !(exit.OverflowGaveUp? && run.sideEffects && LiveCalls(exit.reply) != [])
  {
    PairedIsClosed(run.start.messages);
    ClosedExactlyPaired(run.session.messages);
  }

  /** Whatever a quiet script does, the next run starts from a paired context again. */
  lemma QuietRunsStayPaired(run: Run, exit: Option<Exit>, top: Point, script: seq<Turn>, c: Config)
    requires run.At(exit) && exit == RunFrom(top, script, c).exit
    requires Quiet(script) && Paired(run.start.messages)
    ensures Paired(run.session.messages)
  {
    hide Run.Plumbing, Run.Bounded, Run.Requested, Run.Paced, Run.Framed, Run.Counted, Course, PhaseOf, Completed, Closed;
    PairedIsClosed(run.start.messages);
    ClosedExactlyPaired(run.session.messages);
    if exit.Some? && exit.value.OverflowGaveUp? {
      var i := GaveUpOn(top, script, c);
      QuietReply(script[i].reply, exit.value.reply, exit.value.window);
    }
  }
}
