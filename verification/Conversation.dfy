// A whole conversation: commands, runs, compactions and reopenings of one
// session file (apps/agent/src/lib.rs, session.rs, agent.rs), one after another.
//
// A run whose script ends before it stops is a process that died between two
// passes; the file is reopened after it.
module AgentConversation {
  import opened Basics
  import opened Protocol
  import opened SessionLog
  import opened Recovery
  import opened AgentState
  import opened AgentSteps
  import opened AgentDangling
  import opened AgentLoop
  import Transform

  /**
   * A command sent while nothing runs.  If it starts a run, `meanwhile` arrives
   * before the run takes the lock and `script` drives it; if it starts a
   * compaction, `meanwhile` arrives during it and `summary` comes of it.
   */
  datatype Happening =
    | Sent(command: Command, meanwhile: seq<Command>, script: seq<Turn>, summary: string)
    | Reopened

  /** What a session carries from one happening to the next. */
  datatype Rest = Rest(context: seq<Message>, floor: nat, shared: Shared)

  const DEFAULTS := Shared(true, true, [], [])

  function StartOf(d: Rest, c: Command, meanwhile: seq<Command>): Point
    requires c.Submit?
  {
    Opened(d.context, d.floor, HandledAll(d.shared, meanwhile, true), User(c.text, c.attachments))
  }

  function After(d: Rest, h: Happening, c: Config): Rest {
    match h
    case Reopened => d.(shared := DEFAULTS)
    case Sent(command, meanwhile, script, summary) =>
      if command.Submit? then
        var r := RunFrom(StartOf(d, command, meanwhile), script, c);
        Rest(r.next.context, r.next.floor, if r.exit.None? then DEFAULTS else r.next.shared)
      else if command.Compact? then Rest([SummaryMessage(summary)], 1, HandledAll(d.shared, meanwhile, false))
      else d.(shared := Handled(d.shared, command, false))
  }

  /** The requests a happening makes. */
  function RequestsIn(d: Rest, h: Happening, c: Config): seq<Request> {
    if h.Sent? && h.command.Submit? then RequestsOn(StartOf(d, h.command, h.meanwhile), h.script, c) else []
  }

  function Life(d: Rest, hs: seq<Happening>, c: Config): Rest {
    if hs == [] then d else After(Life(d, hs[..|hs| - 1], c), hs[|hs| - 1], c)
  }

  function LifeRequests(d: Rest, hs: seq<Happening>, c: Config): seq<Request> {
    if hs == [] then []
    else
      var n := |hs| - 1;
      LifeRequests(d, hs[..n], c) + RequestsIn(Life(d, hs[..n], c), hs[n], c)
  }

  ghost predicate AtRest(state: State)
    reads state, state.session
  {
    state.Valid() && !state.streaming && !state.compacting
  }

  ghost function RestOf(state: State): Rest
    reads state, state.session
  {
    Rest(state.session.messages, state.session.usageFloor, state.World())
  }

  /** No reply of a run reports zero output and yet carries calls. */
  predicate QuietIn(h: Happening) {
    h.Sent? ==> Quiet(h.script)
  }

  ghost predicate AllPaired(requests: seq<Request>) {
    forall i :: 0 <= i < |requests| ==> Paired(requests[i].messages)
  }

  /** Reopening the file restores the context; queued messages and switches do not survive. */
  method Reopen(state: State) returns (next: State)
    requires state.Valid()
    ensures AtRest(next) && fresh(next) && fresh(next.session)
    ensures next.maxRetries == state.maxRetries && next.session.log == state.session.log
    ensures RestOf(next) == Rest(state.session.messages, state.session.usageFloor, DEFAULTS)
  {
    hide Replay, Chain, Owing;
    var session := new Session.Open(state.session.log, state.session.copied);
    next := new State(session, state.maxRetries, state.baseDelayMs);
  }

  /** A run from its start to its end, or to the death of the process. */
  method Serve(state: State, prompt: Message, meanwhile: seq<Command>, estimate: Estimate, script: seq<Turn>)
    returns (next: State, ghost requests: seq<Request>)
    requires state.Valid() && state.streaming && !state.manual && !state.compacting && prompt.User?
    modifies state, state.session
    ensures AtRest(next) && (next == state || fresh(next)) && (next.session == state.session || fresh(next.session))
    ensures next.maxRetries == state.maxRetries && old(state.session.log) <= next.session.log
    ensures var c := Config(estimate, state.maxRetries);
            var top := Opened(old(state.session.messages), old(state.session.usageFloor),
                              HandledAll(old(state.World()), meanwhile, true), prompt);
            var r := RunFrom(top, script, c);
            && requests == RequestsOn(top, script, c)
            && RestOf(next) == Rest(r.next.context, r.next.floor, if r.exit.None? then DEFAULTS else r.next.shared)
    ensures Paired(old(state.session.messages)) ==> AllPaired(requests)
    ensures Paired(old(state.session.messages)) && Quiet(script) ==> Paired(next.session.messages)
  {
    hide Course, RequestsOn, HandledAll, Closed;
    state.Interfere(meanwhile);
    ghost var top := Opened(state.session.messages, state.session.usageFloor, state.World(), prompt);
    var run, exit := RunPrompt(state, prompt, estimate, script);
    requests := run.requests;
    if Paired(run.start.messages) {
      AllArePaired(run, exit);
      if Quiet(script) {
        QuietRunsStayPaired(run, exit, top, script, Config(estimate, state.maxRetries));
      }
    }
    next := state;
    if exit.None? {
      next := Reopen(state);
    }
  }

  lemma AllArePaired(run: Run, exit: Option<Exit>)
    requires run.At(exit) && Paired(run.start.messages)
    ensures AllPaired(run.requests)
  {
    hide Paired;
    forall i | 0 <= i < |run.requests| ensures Paired(run.requests[i].messages) {
      RequestsArePaired(run, i);
    }
  }

  /** One command, or a reopening, and everything that comes of it. */
  method Happen(state: State, h: Happening, estimate: Estimate) returns (next: State, ghost requests: seq<Request>)
    requires AtRest(state)
    modifies state, state.session
    ensures AtRest(next) && (next == state || fresh(next)) && (next.session == state.session || fresh(next.session))
    ensures next.maxRetries == state.maxRetries && old(state.session.log) <= next.session.log
    ensures var c := Config(estimate, state.maxRetries);
            && RestOf(next) == After(old(RestOf(state)), h, c)
            && requests == RequestsIn(old(RestOf(state)), h, c)
    ensures Paired(old(state.session.messages)) ==> AllPaired(requests)
    ensures Paired(old(state.session.messages)) && QuietIn(h) ==> Paired(next.session.messages)
  {
    hide State.Valid, RunFrom, RequestsOn, HandledAll, Paired, Quiet;
    next, requests := state, [];
    match h {
      case Reopened =>
        next := Reopen(state);
      case Sent(command, meanwhile, script, summary) =>
        var r := state.Handle(command);
        if r.Invoked? {
          if command.Compact? {
            state.RunCompaction(meanwhile, summary);
            LoneUserIsPaired(SummaryMessage(summary));
          } else {
            next, requests := Serve(state, User(command.text, command.attachments), meanwhile, estimate, script);
          }
        }
    }
  }

  lemma LoneUserIsPaired(m: Message)
    requires m.User?
    ensures Paired([m])
  {
  }

  /**
   * A conversation over one file.  From a paired context, with no reply that
   * reports zero output and yet carries calls, every request of every run is
   * paired, whatever was sent, cancelled, compacted or reopened in between.
   */
  method Converse(file: seq<Entry>, ghost copied: seq<bool>, maxRetries: nat, baseDelayMs: nat, estimate: Estimate,
                  happenings: seq<Happening>)
    returns (state: State, ghost requests: seq<Request>)
    requires Chain(file) && |copied| == |file| && Owing(file, copied).Some?
    ensures fresh(state) && fresh(state.session) && AtRest(state) && file <= state.session.log
    ensures var c := Config(estimate, maxRetries);
            var start := Rest(Replay(file).messages, Replay(file).usageFloor, DEFAULTS);
            && RestOf(state) == Life(start, happenings, c)
            && requests == LifeRequests(start, happenings, c)
    ensures Paired(Replay(file).messages) && (forall i :: 0 <= i < |happenings| ==> QuietIn(happenings[i])) ==>
              AllPaired(requests) && Paired(state.session.messages)
  {
    hide State.Valid, After, RequestsIn, Paired, QuietIn, Replay, Chain, Owing;
    ghost var c := Config(estimate, maxRetries);
    var session := new Session.Open(file, copied);
    state := new State(session, maxRetries, baseDelayMs);
    requests := [];
    ghost var start := RestOf(state);
    for i := 0 to |happenings|
      invariant fresh(state) && fresh(state.session) && AtRest(state)
      invariant state.maxRetries == maxRetries && file <= state.session.log
      invariant RestOf(state) == Life(start, happenings[..i], c)
      invariant requests == LifeRequests(start, happenings[..i], c)
      invariant Paired(start.context) && (forall k :: 0 <= k < i ==> QuietIn(happenings[k])) ==>
                  AllPaired(requests) && Paired(state.session.messages)
    {
      assert happenings[..i + 1][..i] == happenings[..i];
      ghost var more;
      state, more := Happen(state, happenings[i], estimate);
      requests := requests + more;
    }
    assert happenings[..|happenings|] == happenings;
  }

  function AskOnce(prompt: Message, script: seq<Turn>): Happening
    requires prompt.User?
  {
    Sent(Submit(prompt.text, prompt.attachments, None), [], script, "")
  }

  lemma TwoHappenings(d: Rest, first: Happening, second: Happening, c: Config)
    ensures LifeRequests(d, [first, second], c) == RequestsIn(d, first, c) + RequestsIn(After(d, first, c), second, c)
  {
    hide After, RequestsIn;
    var hs := [first, second];
    assert hs[..1] == [first] && [first][..0] == [];
    assert Life(d, [first], c) == After(d, first, c);
    assert LifeRequests(d, [first], c) == RequestsIn(d, first, c);
  }

  /** Without that hypothesis the next run may send what it inherits: here its first request is not paired. */
  lemma ZeroOutputBreaksNextRun(prompt: Message, c: Config)
    requires prompt.User? && forall m :: c.estimate(m) == 1
    ensures var hs := [AskOnce(prompt, OVERFLOWS_TWICE), AskOnce(prompt, [PlainTurn(USES_TOOL).(window := None)])];
            !AllPaired(LifeRequests(Rest([], 0, DEFAULTS), hs, c))
  {
    hide RunFrom, RequestsOn, Paired, HandledAll, PlanOf;
    var none := Rest([], 0, DEFAULTS);
    var first, second := AskOnce(prompt, OVERFLOWS_TWICE), AskOnce(prompt, [PlainTurn(USES_TOOL).(window := None)]);
    SecondOverflowDangles(prompt, c);
    NoMeanwhile(DEFAULTS);
    var d := After(none, first, c);
    NoMeanwhile(d.shared);
    FirstRequestDecides(d.context, d.floor, d.shared, prompt, second.script, c);
    TwoHappenings(none, first, second, c);
    var before, sent := RequestsIn(none, first, c), RequestsIn(d, second, c);
    assert (before + sent)[|before|] == sent[0];
  }

  lemma NoMeanwhile(w: Shared)
    ensures HandledAll(w, [], true) == w
  {
  }

  /** A process that dies between a reply and its results leaves a file that is not paired when reopened. */
  lemma CutReplyIsUnpaired(log: seq<Entry>, reply: Message)
    requires LiveCalls(reply) != []
    ensures !Paired(Replay(Appended(log, MessageBody(reply))).messages)
  {
    ReplayAppended(log, MessageBody(reply));
    LeftUnanswered(Replay(log).messages + [reply], |Replay(log).messages|);
  }

  /**
   * Requests of a conversation with one model reach it as they stand, but for
   * failed replies and empty thinking: no result is dropped and none made up,
   * as long as no reply uses one id for two calls.
   */
  lemma PairedReachesModel(requests: seq<Request>, k: nat, rename: Transform.Rename)
    requires AllPaired(requests) && k < |requests| && Transform.LiveIdsDistinct(requests[k].messages)
    ensures var ms := requests[k].messages;
            var out := Transform.Clean(ms, seq(|ms|, _ => true), rename).out;
            && Transform.PairResults(out) == out && Paired(out) && Transform.Results(out) == Transform.Results(ms)
  {
    hide Transform.PairResults, Transform.Clean, Transform.LiveIdsDistinct, Closed, Paired, Transform.Results;
    var ms := requests[k].messages;
    ClosedExactlyPaired(ms);
    var own := seq(|ms|, _ => true);
    Transform.OwnContextIsKept(ms, own, rename);
    ClosedExactlyPaired(Transform.Clean(ms, own, rename).out);
  }
}
