// Shared session state (apps/agent/src/state.rs) and the admission of commands
// while a run is on (apps/agent/src/lib.rs).
//
// Every method is one section under the state lock, so `Valid` on entry and
// exit is what holds whenever the lock is free, for every interleaving.
module AgentState {
  import opened Basics
  import opened Protocol
  import opened SessionLog

  datatype Queue = Steering | FollowUps

  datatype Command =
    | Submit(text: string, attachments: seq<Attachment>, behavior: Option<Queue>)
    | Enqueue(queue: Queue, text: string, attachments: seq<Attachment>)
    | Compact
    | SetAutoArchive(enabled: bool)
    | SetAutoRetry(enabled: bool)
    | SetName(name: string)
    | SetSetting(setting: string)

  datatype Response = Queued(pending: nat) | Invoked | Done | Compacting | Busy | NotStreaming

  datatype Admission = Admission(queue: Queue, message: Message)

  /** The messages of one queue among `items`, in order. */
  function Of(items: seq<Admission>, queue: Queue): seq<Message> {
    if items == [] then []
    else
      var n := |items| - 1;
      Of(items[..n], queue) + if items[n].queue == queue then [items[n].message] else []
  }

  lemma OfAppend(items: seq<Admission>, a: Admission, queue: Queue)
    ensures Of(items + [a], queue) == Of(items, queue) + if a.queue == queue then [a.message] else []
  {
    assert (items + [a])[..|items|] == items;
  }

  /** What `queue` admitted is what left it, in order, then what is waiting. */
  ghost predicate Balanced(accepted: seq<Admission>, taken: seq<Admission>, waiting: seq<Message>, queue: Queue) {
    Of(accepted, queue) == Of(taken, queue) + waiting
  }

  lemma AdmitBalances(accepted: seq<Admission>, taken: seq<Admission>, waiting: seq<Message>, queue: Queue, a: Admission)
    requires Balanced(accepted, taken, waiting, queue)
    ensures Balanced(accepted + [a], taken, if a.queue == queue then waiting + [a.message] else waiting, queue)
  {
    OfAppend(accepted, a, queue);
    assert Of(taken, queue) + waiting + [a.message] == Of(taken, queue) + (waiting + [a.message]);
  }

  lemma TakeBalances(accepted: seq<Admission>, taken: seq<Admission>, waiting: seq<Message>, queue: Queue, a: Admission)
    requires Balanced(accepted, taken, waiting, queue)
    requires a.queue == queue ==> waiting != [] && waiting[0] == a.message
    ensures Balanced(accepted, taken + [a], if a.queue == queue then waiting[1..] else waiting, queue)
  {
    OfAppend(taken, a, queue);
    if a.queue == queue {
      assert waiting == [a.message] + waiting[1..];
      assert Of(taken, queue) + [a.message] + waiting[1..] == Of(taken, queue) + waiting;
    }
  }

  function Tagged(messages: seq<Message>, queue: Queue): (r: seq<Admission>)
    ensures |r| == |messages|
  {
    seq(|messages|, i requires 0 <= i < |messages| => Admission(queue, messages[i]))
  }

  lemma {:induction false} OfConcat(a: seq<Admission>, b: seq<Admission>, queue: Queue)
    ensures Of(a + b, queue) == Of(a, queue) + Of(b, queue)
  {
    if b == [] {
      assert a + b == a;
    } else {
      assert (a + b)[..|a + b| - 1] == a + b[..|b| - 1];
      OfConcat(a, b[..|b| - 1], queue);
    }
  }

  lemma {:induction false} OfTagged(messages: seq<Message>, tag: Queue, queue: Queue)
    ensures Of(Tagged(messages, tag), queue) == if tag == queue then messages else []
  {
    if messages != [] {
      var n := |messages| - 1;
      OfTagged(messages[..n], tag, queue);
      assert Tagged(messages, tag)[..n] == Tagged(messages[..n], tag);
    }
  }

  lemma DrainedLedger(taken: seq<Admission>, steering: seq<Message>, followUp: seq<Message>)
    ensures var all := taken + (Tagged(steering, Steering) + Tagged(followUp, FollowUps));
            && Of(all, Steering) == Of(taken, Steering) + steering
            && Of(all, FollowUps) == Of(taken, FollowUps) + followUp
  {
    var s, f := Tagged(steering, Steering), Tagged(followUp, FollowUps);
    OfConcat(taken, s + f, Steering);
    OfConcat(taken, s + f, FollowUps);
    OfConcat(s, f, Steering);
    OfConcat(s, f, FollowUps);
    OfTagged(steering, Steering, Steering);
    OfTagged(steering, Steering, FollowUps);
    OfTagged(followUp, FollowUps, Steering);
    OfTagged(followUp, FollowUps, FollowUps);
    assert steering + [] == steering && [] + followUp == followUp;
  }

  // ----- What commands do to a run in progress -----

  /** The part of the state other clients can change under a run. */
  datatype Shared = Shared(autoArchive: bool, retryEnabled: bool, steering: seq<Message>, followUp: seq<Message>)

  /** The queue a command asks for, and the message it brings. */
  function Target(c: Command): Option<Admission> {
    match c
    case Submit(text, attachments, Some(queue)) => Some(Admission(queue, User(text, attachments)))
    case Enqueue(queue, text, attachments) => Some(Admission(queue, User(text, attachments)))
    case _ => None
  }

  function Pushed(w: Shared, a: Admission): Shared {
    if a.queue == Steering then w.(steering := w.steering + [a.message]) else w.(followUp := w.followUp + [a.message])
  }

  /** One command while a run is on; `open` unless the context is being compacted. */
  function Handled(w: Shared, c: Command, open: bool): Shared {
    match c
    case SetAutoArchive(enabled) => w.(autoArchive := enabled)
    case SetAutoRetry(enabled) => w.(retryEnabled := enabled)
    case _ => if open && Target(c).Some? then Pushed(w, Target(c).value) else w
  }

  function HandledAll(w: Shared, commands: seq<Command>, open: bool): Shared {
    if commands == [] then w
    else Handled(HandledAll(w, commands[..|commands| - 1], open), commands[|commands| - 1], open)
  }

  /** The next message to inject; a stopping run takes follow-ups as well. */
  function NextQueued(w: Shared, stopping: bool): Option<Admission> {
    if w.steering != [] then Some(Admission(Steering, w.steering[0]))
    else if stopping && w.followUp != [] then Some(Admission(FollowUps, w.followUp[0]))
    else None
  }

  function Popped(w: Shared, stopping: bool): Shared {
    if w.steering != [] then w.(steering := w.steering[1..])
    else if stopping && w.followUp != [] then w.(followUp := w.followUp[1..])
    else w
  }

  /** What each command does to what a run shares, by itself. */
  lemma CommandsMean(w: Shared, text: string, attachments: seq<Attachment>, on: bool, open: bool)
    ensures Handled(w, SetAutoArchive(on), open) == w.(autoArchive := on)
    ensures Handled(w, SetAutoRetry(on), open) == w.(retryEnabled := on)
    ensures Handled(w, Compact, open) == Handled(w, Submit(text, attachments, None), open) == w
    ensures Handled(w, SetName(text), open) == Handled(w, SetSetting(text), open) == w
    ensures Handled(w, Submit(text, attachments, Some(Steering)), open)
            == Handled(w, Enqueue(Steering, text, attachments), open)
            == if open then w.(steering := w.steering + [User(text, attachments)]) else w
    ensures Handled(w, Submit(text, attachments, Some(FollowUps)), open)
            == Handled(w, Enqueue(FollowUps, text, attachments), open)
            == if open then w.(followUp := w.followUp + [User(text, attachments)]) else w
  {
  }

  /** Steering goes before follow-ups, which only a stopping run takes; each queue is first in, first out. */
  lemma SteeringFirst(w: Shared, stopping: bool)
    ensures w.steering != [] ==>
              NextQueued(w, stopping) == Some(Admission(Steering, w.steering[0]))
              && Popped(w, stopping) == w.(steering := w.steering[1..])
    ensures w.steering == [] && w.followUp != [] && stopping ==>
              NextQueued(w, stopping) == Some(Admission(FollowUps, w.followUp[0]))
              && Popped(w, stopping) == w.(followUp := w.followUp[1..])
    ensures w.steering == [] && (w.followUp == [] || !stopping) ==>
              NextQueued(w, stopping) == None && Popped(w, stopping) == w
  {
  }

  ghost predicate AllUsers(ms: seq<Message>) {
    forall i :: 0 <= i < |ms| ==> ms[i].User?
  }

  class State {
    const session: Session
    const maxRetries: nat
    const baseDelayMs: nat
    var streaming: bool
    var compacting: bool
    var autoArchive: bool
    var retryEnabled: bool
    var steering: seq<Message>
    var followUp: seq<Message>
    ghost var accepted: seq<Admission>  // every message a client was told is queued
    ghost var taken: seq<Admission>     // every message that left a queue
    ghost var manual: bool              // the run in progress is a `compact`

    /** Nothing accepted is lost or duplicated, and each queue is first in, first out. */
    ghost predicate Ledger()
      reads this`accepted, this`taken, this`steering, this`followUp
    {
      && Balanced(accepted, taken, steering, Steering)
      && Balanced(accepted, taken, followUp, FollowUps)
    }

    ghost predicate Valid()
      reads this, session
    {
      && session.Valid()
      && Ledger()
      && AllUsers(steering) && AllUsers(followUp)
      && (!streaming || manual ==> steering == [] && followUp == [])
      && (streaming && manual ==> compacting)
    }

    constructor (session: Session, maxRetries: nat, baseDelayMs: nat)
      requires session.Valid()
      ensures Valid() && this.session == session && this.maxRetries == maxRetries && this.baseDelayMs == baseDelayMs
      ensures !streaming && !compacting && World() == Shared(true, true, [], [])
      ensures accepted == taken == []
    {
      this.session, this.maxRetries, this.baseDelayMs := session, maxRetries, baseDelayMs;
      streaming, compacting, autoArchive, retryEnabled := false, false, true, true;
      steering, followUp := [], [];
      accepted, taken, manual := [], [], false;
    }

    ghost function World(): Shared
      reads this`autoArchive, this`retryEnabled, this`steering, this`followUp
    {
      Shared(autoArchive, retryEnabled, steering, followUp)
    }

    /** `handle`: one command, admitted or refused under the lock. */
    method Handle(command: Command) returns (r: Response)
      requires Valid()
      modifies this`streaming, this`compacting, this`autoArchive, this`retryEnabled,
               this`steering, this`followUp, this`accepted, this`manual, session
      ensures Valid()
      ensures session.messages == old(session.messages) && session.usageFloor == old(session.usageFloor)
      ensures old(session.log) <= session.log
      ensures old(streaming) ==> streaming && manual == old(manual) && compacting == old(compacting)
      ensures World() == Handled(old(World()), command, old(streaming && !compacting))
      ensures r.Queued? <==> Target(command).Some? && old(streaming && !compacting)
      ensures r.Queued? ==> r.pending == |steering| + |followUp|
      ensures accepted == old(accepted) + if r.Queued? then [Target(command).value] else []
      ensures r.Queued? && command.Enqueue? ==>
                Target(command) == Some(Admission(command.queue, User(command.text, command.attachments)))
      ensures r.Queued? && command.Submit? ==>
                command.behavior.Some?
                && Target(command) == Some(Admission(command.behavior.value, User(command.text, command.attachments)))
      ensures r.Invoked? <==> !old(streaming) && (command.Compact? || (command.Submit? && !old(compacting)))
      ensures r.Invoked? ==> streaming && (manual <==> command.Compact?) && (compacting <==> command.Compact?)
      ensures !r.Invoked? ==> streaming == old(streaming) && compacting == old(compacting) && manual == old(manual)
      ensures r.Compacting? <==> old(compacting) && (command.Submit? || command.Enqueue?)
      ensures r.Busy? <==> old(streaming) && (command.Compact?
                                              || (command.Submit? && !old(compacting) && Target(command).None?))
      ensures r.NotStreaming? <==> !old(streaming || compacting) && command.Enqueue?
    {
      hide Balanced, Of, Session.Valid;
      match command {
        case SetAutoArchive(enabled) => autoArchive := enabled; r := Done;
        case SetAutoRetry(enabled) => retryEnabled := enabled; r := Done;
        case SetName(name) => session.SetName(name); r := Done;
        case SetSetting(setting) => session.AppendSetting(setting); r := Done;
        case Compact =>
          if streaming {
            return Busy;
          }
          streaming, compacting, manual := true, true, true;
          r := Invoked;
        case Submit(text, attachments, behavior) =>
          r := Admit(User(text, attachments), behavior, true);
        case Enqueue(queue, text, attachments) =>
          r := Admit(User(text, attachments), Some(queue), false);
      }
    }

    /** `prompt`, `steer` and `follow_up` share this section. */
    method Admit(message: Message, queue: Option<Queue>, isPrompt: bool) returns (r: Response)
      requires Valid() && message.User?
      modifies this`streaming, this`steering, this`followUp, this`accepted, this`manual
      ensures Valid()
      ensures old(streaming) ==> streaming && manual == old(manual)
      ensures r.Queued? <==> old(streaming) && !old(compacting) && queue.Some?
      ensures accepted == old(accepted) + if r.Queued? then [Admission(queue.value, message)] else []
      ensures r.Invoked? <==> !old(compacting) && !old(streaming) && isPrompt
      ensures r.Invoked? ==> streaming && !manual
      ensures !r.Invoked? ==> streaming == old(streaming) && manual == old(manual)
      ensures World() == if r.Queued? then Pushed(old(World()), Admission(queue.value, message)) else old(World())
      ensures r.Queued? ==> r.pending == |steering| + |followUp|
      ensures r.Compacting? <==> old(compacting)
      ensures r.Busy? <==> old(streaming) && !old(compacting) && queue.None?
      ensures r.NotStreaming? <==> !old(streaming || compacting) && !isPrompt
      ensures !r.Done?
    {
      hide Balanced, Of, Session.Valid;
      if compacting {
        return Compacting;
      }
      if streaming {
        match queue {
          case None =>
            r := Busy;
          case Some(q) =>
            AdmitBalances(accepted, taken, steering, Steering, Admission(q, message));
            AdmitBalances(accepted, taken, followUp, FollowUps, Admission(q, message));
            accepted := accepted + [Admission(q, message)];
            match q {
              case Steering => steering := steering + [message];
              case FollowUps => followUp := followUp + [message];
            }
            r := Queued(|steering| + |followUp|);
        }
        return;
      }
      if !isPrompt {
        return NotStreaming;
      }
      streaming, manual := true, false;
      r := Invoked;
    }

    /** Other clients' commands, while a run does not hold the lock. */
    method Interfere(commands: seq<Command>)
      requires Valid() && streaming
      modifies this`streaming, this`compacting, this`autoArchive, this`retryEnabled,
               this`steering, this`followUp, this`accepted, this`manual, session
      ensures Valid() && streaming && manual == old(manual) && compacting == old(compacting)
      ensures session.messages == old(session.messages) && session.usageFloor == old(session.usageFloor)
      ensures old(session.log) <= session.log && old(accepted) <= accepted
      ensures World() == HandledAll(old(World()), commands, !old(compacting))
    {
      hide Ledger, Session.Valid, Handled;
      for i := 0 to |commands|
        invariant Valid() && streaming && manual == old(manual) && compacting == old(compacting)
        invariant session.messages == old(session.messages) && session.usageFloor == old(session.usageFloor)
        invariant old(session.log) <= session.log && old(accepted) <= accepted
        invariant World() == HandledAll(old(World()), commands[..i], !old(compacting))
      {
        assert commands[..i + 1][..i] == commands[..i];
        var _ := Handle(commands[i]);
      }
      assert commands[..|commands|] == commands;
    }

    /**
     * `take_queued`: the next message to inject.  A stopping run that finds none
     * ends in the same section, so nothing is accepted after its last look.
     */
    method TakeQueued(stopping: bool) returns (next: Option<Admission>)
      requires Valid() && streaming && !manual
      modifies this`streaming, this`steering, this`followUp, this`taken
      ensures Valid() && (streaming <==> !(next.None? && stopping))
      ensures taken == old(taken) + if next.Some? then [next.value] else []
      ensures next == NextQueued(old(World()), stopping) && World() == Popped(old(World()), stopping)
      ensures next.Some? ==> next.value.message.User?
      ensures next.None? <==> old(steering) == [] && (stopping ==> old(followUp) == [])
    {
      hide Balanced, Of, Session.Valid;
      if steering == [] && (followUp == [] || !stopping) {
        if stopping {
          streaming := false;
        }
        return None;
      }
      var item := if steering != [] then Admission(Steering, steering[0]) else Admission(FollowUps, followUp[0]);
      TakeBalances(accepted, taken, steering, Steering, item);
      TakeBalances(accepted, taken, followUp, FollowUps, item);
      if steering != [] {
        steering := steering[1..];
      } else {
        followUp := followUp[1..];
      }
      taken := taken + [item];
      next := Some(item);
    }

    /** `Queued::drain`, with the run's end: everything still waiting, steering first. */
    method DrainAndStop() returns (leftovers: seq<Admission>)
      requires Valid() && streaming && !manual
      modifies this`streaming, this`steering, this`followUp, this`taken
      ensures Valid() && !streaming
      ensures leftovers == Tagged(old(steering), Steering) + Tagged(old(followUp), FollowUps)
      ensures forall i :: 0 <= i < |leftovers| ==> leftovers[i].message.User?
      ensures taken == old(taken) + leftovers
      ensures World() == old(World()).(steering := [], followUp := [])
    {
      streaming := false;
      leftovers := Tagged(steering, Steering) + Tagged(followUp, FollowUps);
      DrainedLedger(taken, steering, followUp);
      taken := taken + leftovers;
      steering, followUp := [], [];
    }

    /** `run_compaction`: nothing is admitted until the summary is in place. */
    method RunCompaction(commands: seq<Command>, summary: string)
      requires Valid() && streaming && manual
      modifies this, session
      ensures Valid() && !streaming && !compacting
      ensures session.messages == [SummaryMessage(summary)] && session.usageFloor == 1
      ensures accepted == old(accepted) && taken == old(taken)
      ensures old(session.log) <= session.log && World() == HandledAll(old(World()), commands, false)
    {
      hide Ledger, Session.Valid, Handled;
      for i := 0 to |commands|
        invariant Valid() && streaming && manual && accepted == old(accepted) && taken == old(taken)
        invariant old(session.log) <= session.log && World() == HandledAll(old(World()), commands[..i], false)
      {
        assert commands[..i + 1][..i] == commands[..i];
        var _ := Handle(commands[i]);
      }
      assert commands[..|commands|] == commands;
      session.ReplaceWithCompaction(summary);
      streaming, compacting := false, false;
    }
  }
}
