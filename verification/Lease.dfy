// The lease protocol as a whole: the parent's authority, the two pipes and the
// guard, over every interleaving and every message delay.
//
// A clock ticks in milliseconds.  One pass of the guard loop takes at most
// `pass` milliseconds; nothing else is assumed about speed.  The parent checks
// its authority and sends in one step.
module LeaseProtocol {
  import opened Basics
  import opened HeldInput
  import opened GuardLease

  // ----- The parent -----

  /** `epochKept` until the source policy changes: an epoch never comes back. */
  datatype Authority = Authority(valid: bool, deadline: nat, epochKept: bool) {
    predicate Live(now: nat) {
      valid && epochKept && now < deadline
    }

    function Renewed(now: nat): Authority {
      if valid && now < deadline then this.(deadline := now + LEASE) else this.(valid := false)
    }
  }

  /** When the authority died, which challenge stood then, and the renewals accepted since. */
  datatype Death = Death(at: nat, challenge: nat, renewals: nat)

  /**
   * `began` is when the guard's current pass began; `open` while more commands
   * can reach it; `reading` while the parent answers challenges; `pressed` when
   * the guard last received a key, button or state event.
   */
  datatype System = System(now: nat, began: nat, receiving: bool, guard: Guard,
                           authority: Authority, reading: bool, open: bool,
                           toParent: seq<nat>, toGuard: seq<Command>, died: Option<Death>, pressed: nat) {
    predicate Live() {
      authority.Live(now)
    }

    function Send(c: Command): System {
      if open then this.(toGuard := toGuard + [c]) else this
    }

    /** The authority goes, and the guard is told to stop. */
    function Revoked(): System {
      this.(authority := authority.(valid := false)).Send(Stop)
    }

    /** Records the moment the authority died. */
    function Marked(): System {
      if died.None? && !Live() then this.(died := Some(Death(now, guard.challenge, 0))) else this
    }
  }

  datatype Step =
    | Tick
    | BeginPass(targetLive: bool, writable: bool)
    | Receive
    | ReceiveNothing
    | ReceiveEnd
    | Lose(kept: nat)
    | Answer(sent: bool)
    | ReaderEnds
    | SendInput(event: Event, sent: bool)
    | RenewAuthority
    | Revoke
    | ChangePolicy

  predicate Enabled(s: System, step: Step, pass: nat) {
    match step
    case Tick => s.guard.over || s.now < s.began + pass
    case BeginPass(_, _) => !s.guard.over && !s.receiving
    case Receive => !s.guard.over && s.receiving && s.toGuard != []
    case ReceiveNothing => !s.guard.over && s.receiving
    case ReceiveEnd => !s.guard.over && s.receiving && s.toGuard == [] && !s.open
    case Lose(kept) => kept <= |s.toGuard|
    case Answer(_) => s.reading && s.toParent != []
    case SendInput(_, _) => s.Live()
    case _ => true
  }

  function BeginStep(s: System, targetLive: bool, writable: bool): System {
    var nonce := s.guard.challenge + 1;
    var guard := s.guard.Begin(s.now, targetLive, nonce, writable);
    var asks := s.guard.Asks(s.now, targetLive, nonce, writable);
    s.(guard := guard, began := s.now, receiving := !guard.over,
       toParent := if asks then s.toParent + [guard.challenge] else s.toParent)
  }

  function ReceiveStep(s: System, input: Received): System {
    var died := if s.died.Some? && s.guard.Renews(input)
                then Some(s.died.value.(renewals := s.died.value.renewals + 1)) else s.died;
    var pressed := match input
      case Got(Input(KeyEvent(_, _))) => s.now
      case Got(Input(ButtonEvent(_, _, _, _))) => s.now
      case Got(Input(StateEvent(_, _))) => s.now
      case _ => s.pressed;
    s.(guard := s.guard.Take(s.now, input), receiving := false, died := died, pressed := pressed)
  }

  function AnswerStep(s: System, sent: bool): System
    requires s.toParent != []
  {
    var rest := s.(toParent := s.toParent[1..]);
    if !s.Live() || !sent then rest.(reading := false).Revoked()
    else rest.Send(Renew(s.toParent[0]))
  }

  function Next(s: System, step: Step, pass: nat): System
    requires Enabled(s, step, pass)
  {
    match step
    case Tick => s.(now := s.now + 1)
    case BeginPass(targetLive, writable) => BeginStep(s, targetLive, writable)
    case Receive => ReceiveStep(s.(toGuard := s.toGuard[1..]), Got(s.toGuard[0]))
    case ReceiveNothing => ReceiveStep(s, TimedOut)
    case ReceiveEnd => ReceiveStep(s, Disconnected)
    case Lose(kept) => s.(toGuard := s.toGuard[..kept], open := false)
    case Answer(sent) => AnswerStep(s, sent)
    case ReaderEnds => s.(reading := false).Revoked()
    case SendInput(event, sent) =>
      if sent then s.Send(Input(event)) else s.(authority := s.authority.(valid := false))
    case RenewAuthority => s.(authority := s.authority.Renewed(s.now))
    case Revoke => s.Revoked()
    case ChangePolicy => s.(authority := s.authority.(epochKept := false))
  }

  function Initial(start: nat, authority: Authority): System {
    System(start, start, false, Started(start, 0), authority, true, true, [], [], None, start).Marked()
  }

  /** The state after `steps`, if each was enabled in turn. */
  function After(s: System, steps: seq<Step>, pass: nat): Option<System> {
    if steps == [] then Some(s)
    else
      var n := |steps| - 1;
      var before := After(s, steps[..n], pass);
      if before.None? || !Enabled(before.value, steps[n], pass) then None
      else Some(Next(before.value, steps[n], pass).Marked())
  }

  // ----- What every step keeps -----

  ghost predicate NoncesUpTo(commands: seq<Command>, challenge: nat) {
    forall i :: 0 <= i < |commands| && commands[i].Renew? ==> commands[i].nonce <= challenge
  }

  ghost predicate AllUpTo(nonces: seq<nat>, challenge: nat) {
    forall i :: 0 <= i < |nonces| ==> nonces[i] <= challenge
  }

  /** Passes are on time, and a guard in its loop began its pass with every check passed. */
  ghost predicate OnTime(s: System, pass: nat) {
    && s.began <= s.now && s.guard.deadline <= s.now + LEASE && s.guard.progress == s.pressed <= s.now
    && (!s.guard.over ==>
          && s.now <= s.began + pass && s.began < s.guard.deadline
          && (s.guard.Holds() ==> s.began <= s.guard.progress + IDLE))
    && (s.guard.over ==> !s.guard.Holds())
  }

  ghost predicate NoncesKnown(s: System) {
    AllUpTo(s.toParent, s.guard.challenge) && NoncesUpTo(s.toGuard, s.guard.challenge)
  }

  /** After the authority died, one renewal at most was still under way. */
  ghost predicate Dying(s: System, pass: nat) {
    && (s.died.None? ==> s.Live())
    && (s.died.Some? ==>
          var d := s.died.value;
          && !s.Live() && d.at <= s.now
          && d.challenge <= s.guard.challenge && NoncesUpTo(s.toGuard, d.challenge)
          && d.renewals <= 1
          && (d.renewals == 1 ==> s.guard.consumed || d.challenge < s.guard.challenge)
          && s.guard.deadline <= d.at + LEASE + if d.renewals == 0 then 0 else LEASE + pass)
  }

  ghost predicate Inv(s: System, pass: nat) {
    OnTime(s, pass) && NoncesKnown(s) && Dying(s, pass)
  }

  lemma InitialInv(start: nat, authority: Authority, pass: nat)
    ensures Inv(Initial(start, authority), pass)
  {
  }

  lemma BeginKeeps(g: Guard, now: nat, targetLive: bool, nonce: nat, writable: bool)
    requires !g.over
    ensures var b := g.Begin(now, targetLive, nonce, writable);
            && b.deadline == g.deadline && b.progress == g.progress
            && (b.challenge == nonce || (b.challenge == g.challenge && b.consumed == g.consumed))
            && (if b.over then !b.Holds()
                else now < g.deadline && (b.Holds() ==> now <= g.progress + IDLE))
  {
  }

  lemma TakeKeeps(g: Guard, now: nat, input: Received)
    requires !g.over
    ensures var t := g.Take(now, input);
            && t.challenge == g.challenge && t.consumed == (g.consumed || g.Renews(input))
            && t.deadline == (if g.Renews(input) then now + LEASE else g.deadline)
            && (t.over ==> !t.Holds())
            && (t.Holds() ==> t.progress == now || (g.Holds() && t.progress == g.progress))
  {
  }

  /** The limit on holding follows the presses. */
  lemma PressesCount(s: System, input: Received)
    requires !s.guard.over && s.guard.progress == s.pressed
    ensures ReceiveStep(s, input).guard.progress == ReceiveStep(s, input).pressed
    ensures ReceiveStep(s, input).pressed in {s.pressed, s.now}
  {
    hide Guard.Take;
    TakesExactly(s.guard, s.now, input);
  }

  lemma OnTimeAfterBegin(s: System, targetLive: bool, writable: bool, pass: nat)
    requires OnTime(s, pass) && !s.guard.over
    ensures OnTime(BeginStep(s, targetLive, writable).Marked(), pass)
  {
    hide Guard.Begin, Guard.Asks;
    BeginKeeps(s.guard, s.now, targetLive, s.guard.challenge + 1, writable);
  }

  lemma OnTimeAfterReceive(s: System, input: Received, pass: nat)
    requires OnTime(s, pass) && !s.guard.over
    ensures OnTime(ReceiveStep(s, input).Marked(), pass)
  {
    hide Guard.Take, Guard.Renews;
    TakeKeeps(s.guard, s.now, input);
    PressesCount(s, input);
  }

  lemma OnTimeKept(s: System, step: Step, pass: nat)
    requires Inv(s, pass) && Enabled(s, step, pass)
    ensures OnTime(Next(s, step, pass).Marked(), pass)
  {
    hide Guard.Begin, Guard.Take, BeginStep, ReceiveStep;
    match step
    case BeginPass(targetLive, writable) => OnTimeAfterBegin(s, targetLive, writable, pass);
    case Receive => OnTimeAfterReceive(s.(toGuard := s.toGuard[1..]), Got(s.toGuard[0]), pass);
    case ReceiveNothing => OnTimeAfterReceive(s, TimedOut, pass);
    case ReceiveEnd => OnTimeAfterReceive(s, Disconnected, pass);
    case _ =>
  }

  lemma NoncesAfterBegin(s: System, targetLive: bool, writable: bool)
    requires NoncesKnown(s) && !s.guard.over
    ensures NoncesKnown(BeginStep(s, targetLive, writable).Marked())
  {
    hide Guard.Begin, Guard.Asks;
    BeginKeeps(s.guard, s.now, targetLive, s.guard.challenge + 1, writable);
  }

  lemma NoncesAfterReceive(s: System, input: Received)
    requires NoncesKnown(s) && !s.guard.over
    ensures NoncesKnown(ReceiveStep(s, input).Marked())
  {
    hide Guard.Take, Guard.Renews;
    TakeKeeps(s.guard, s.now, input);
  }

  lemma FewerNonces(commands: seq<Command>, kept: seq<Command>, challenge: nat)
    requires NoncesUpTo(commands, challenge) && forall c :: c in kept ==> c in commands
    ensures NoncesUpTo(kept, challenge)
  {
    forall i | 0 <= i < |kept| && kept[i].Renew? ensures kept[i].nonce <= challenge {
      assert kept[i] in commands;
    }
  }

  lemma MoreNonces(commands: seq<Command>, c: Command, challenge: nat)
    requires NoncesUpTo(commands, challenge) && (c.Renew? ==> c.nonce <= challenge)
    ensures NoncesUpTo(commands + [c], challenge)
  {
  }

  /** The parent and the pipe: what they do to the commands under way. */
  predicate Outside(step: Step) {
    !step.BeginPass? && !step.Receive? && !step.ReceiveNothing? && !step.ReceiveEnd?
  }

  /** Commands are lost, or one is sent; only an answer by a live parent is a renewal. */
  ghost predicate Relays(s: System, s': System) {
    && s'.guard == s.guard
    && (|| s'.toGuard == s.toGuard
        || (exists kept: nat :: kept <= |s.toGuard| && s'.toGuard == s.toGuard[..kept])
        || (|s'.toGuard| == |s.toGuard| + 1 && s'.toGuard[..|s.toGuard|] == s.toGuard
            && (s'.toGuard[|s.toGuard|].Renew? ==>
                  s.Live() && s.toParent != [] && s'.toGuard[|s.toGuard|].nonce == s.toParent[0])))
    && (s'.toParent == s.toParent || (s.toParent != [] && s'.toParent == s.toParent[1..]))
  }

  lemma OutsideRelays(s: System, step: Step, pass: nat)
    requires Enabled(s, step, pass) && Outside(step)
    ensures Relays(s, Next(s, step, pass))
  {
    if step.Lose? {
      assert step.kept <= |s.toGuard| && Next(s, step, pass).toGuard == s.toGuard[..step.kept];
    }
  }

  lemma RelayedNonces(s: System, s': System, challenge: nat)
    requires Relays(s, s') && NoncesUpTo(s.toGuard, challenge)
    requires s.Live() && s.toParent != [] ==> s.toParent[0] <= challenge
    ensures NoncesUpTo(s'.toGuard, challenge)
  {
    if |s'.toGuard| == |s.toGuard| + 1 && s'.toGuard[..|s.toGuard|] == s.toGuard {
      assert s'.toGuard == s.toGuard + [s'.toGuard[|s.toGuard|]];
      MoreNonces(s.toGuard, s'.toGuard[|s.toGuard|], challenge);
    }
  }

  lemma NoncesKept(s: System, step: Step, pass: nat)
    requires NoncesKnown(s) && Enabled(s, step, pass)
    ensures NoncesKnown(Next(s, step, pass).Marked())
  {
    hide Guard.Begin, Guard.Take, Guard.Renews, BeginStep, ReceiveStep, AnswerStep;
    match step
    case BeginPass(targetLive, writable) => NoncesAfterBegin(s, targetLive, writable);
    case Receive =>
      FewerNonces(s.toGuard, s.toGuard[1..], s.guard.challenge);
      NoncesAfterReceive(s.(toGuard := s.toGuard[1..]), Got(s.toGuard[0]));
    case ReceiveNothing => NoncesAfterReceive(s, TimedOut);
    case ReceiveEnd => NoncesAfterReceive(s, Disconnected);
    case _ =>
      OutsideRelays(s, step, pass);
      RelayedNonces(s, Next(s, step, pass), s.guard.challenge);
  }

  lemma DyingAfterBegin(s: System, targetLive: bool, writable: bool, pass: nat)
    requires Inv(s, pass) && !s.guard.over
    ensures Dying(BeginStep(s, targetLive, writable).Marked(), pass)
  {
    hide Guard.Begin, Guard.Asks;
    BeginKeeps(s.guard, s.now, targetLive, s.guard.challenge + 1, writable);
  }

  /** A command that was under way may renew the guard once, and only within its lease. */
  lemma DyingAfterReceive(s: System, input: Received, pass: nat)
    requires Inv(s, pass) && !s.guard.over
    requires s.died.Some? && input.Got? && input.command.Renew? ==> input.command.nonce <= s.died.value.challenge
    ensures Dying(ReceiveStep(s, input).Marked(), pass)
  {
    hide Guard.Take;
    TakeKeeps(s.guard, s.now, input);
  }

  /** Outside the guard, a dead authority stays dead and sends no renewal; a live one dies at the present moment. */
  lemma DyingOutside(s: System, s': System, pass: nat)
    requires Inv(s, pass) && Relays(s, s') && s'.died == s.died && s.now <= s'.now
    requires !s.Live() ==> !s'.Live()
    ensures Dying(s'.Marked(), pass)
  {
    if s.died.Some? {
      RelayedNonces(s, s', s.died.value.challenge);
    } else {
      RelayedNonces(s, s', s.guard.challenge);
    }
  }

  lemma DyingKept(s: System, step: Step, pass: nat)
    requires Inv(s, pass) && Enabled(s, step, pass)
    ensures Dying(Next(s, step, pass).Marked(), pass)
  {
    hide Inv, Guard.Begin, Guard.Take, BeginStep, ReceiveStep, AnswerStep, Dying, System.Marked;
    match step
    case BeginPass(targetLive, writable) => DyingAfterBegin(s, targetLive, writable, pass);
    case Receive => DyingAfterHead(s, pass);
    case ReceiveNothing => DyingAfterReceive(s, TimedOut, pass);
    case ReceiveEnd => DyingAfterReceive(s, Disconnected, pass);
    case _ =>
      OutsideRelays(s, step, pass);
      OutsideTime(s, step, pass);
      DyingOutside(s, Next(s, step, pass), pass);
  }

  lemma OutsideTime(s: System, step: Step, pass: nat)
    requires Enabled(s, step, pass) && Outside(step)
    ensures var s' := Next(s, step, pass); s'.died == s.died && s.now <= s'.now && (!s.Live() ==> !s'.Live())
  {
  }

  lemma DyingAfterHead(s: System, pass: nat)
    requires Inv(s, pass) && Enabled(s, Receive, pass)
    ensures Dying(Next(s, Receive, pass).Marked(), pass)
  {
    hide Guard.Take, Guard.Renews, ReceiveStep, System.Marked;
    FewerNonces(s.toGuard, s.toGuard[1..], s.guard.challenge);
    if s.died.Some? {
      FewerNonces(s.toGuard, s.toGuard[1..], s.died.value.challenge);
    }
    DyingAfterReceive(s.(toGuard := s.toGuard[1..]), Got(s.toGuard[0]), pass);
  }

  lemma {:induction false} AlwaysInv(start: nat, authority: Authority, steps: seq<Step>, pass: nat)
    ensures var s := After(Initial(start, authority), steps, pass); s.Some? ==> Inv(s.value, pass)
  {
    hide Inv, Next, Enabled, System.Marked;
    if steps == [] {
      InitialInv(start, authority, pass);
    } else {
      var n := |steps| - 1;
      AlwaysInv(start, authority, steps[..n], pass);
      var before := After(Initial(start, authority), steps[..n], pass);
      if before.Some? && Enabled(before.value, steps[n], pass) {
        InvKept(before.value, steps[n], pass);
      }
    }
  }

  lemma InvKept(s: System, step: Step, pass: nat)
    requires Inv(s, pass) && Enabled(s, step, pass)
    ensures Inv(Next(s, step, pass).Marked(), pass)
  {
    hide OnTime, NoncesKnown, Dying, Next, Enabled, System.Marked;
    OnTimeKept(s, step, pass);
    NoncesKept(s, step, pass);
    DyingKept(s, step, pass);
  }

  // ----- What holds in every run -----

  /** A renewed authority lives three seconds from then; one that has run out is not revived. */
  lemma RenewalLasts(s: System, pass: nat, later: nat)
    requires s.authority.epochKept
    ensures var a := Next(s, RenewAuthority, pass).authority;
            && (s.Live() ==> (a.Live(later) <==> later < s.now + 3000))
            && (!s.Live() ==> !a.Live(later) || later < s.now)
  {
  }

  /** Whoever ends the authority tells the guard to stop, behind everything sent before. */
  lemma EndingTells(s: System, step: Step, pass: nat)
    requires Enabled(s, step, pass) && s.open
    requires step.Revoke? || step.ReaderEnds? || (step.Answer? && (!step.sent || !s.Live()))
    ensures !Next(s, step, pass).Live() && Next(s, step, pass).toGuard == s.toGuard + [Stop]
  {
  }

  /** Both pipes hand over in order, and what is lost is the end. */
  lemma PipesInOrder(s: System, step: Step, pass: nat)
    requires Enabled(s, step, pass)
    ensures var s' := Next(s, step, pass);
            && (step.Receive? ==>
                  s'.toGuard == s.toGuard[1..] && s'.guard == s.guard.Take(s.now, Got(s.toGuard[0])) && !s'.receiving)
            && (step.ReceiveNothing? ==> s'.toGuard == s.toGuard && s'.guard == s.guard.Take(s.now, TimedOut))
            && (step.ReceiveEnd? ==> s.toGuard == [] && !s.open && s'.guard == s.guard.Take(s.now, Disconnected))
            && (step.Lose? ==> s'.toGuard <= s.toGuard && !s'.open && s'.guard == s.guard)
            && (step.Tick? ==> s' == s.(now := s.now + 1))
            && (step.SendInput? && !step.sent ==> !s'.Live() && s'.toGuard == s.toGuard)
            && (step.SendInput? && step.sent && s.open ==> s'.toGuard == s.toGuard + [Input(step.event)])
  {
    hide Guard.Take, Guard.Begin;
  }

  /** A pass of the guard begins now, and challenges the parent once a second unless it leaves. */
  lemma BeginsExactly(s: System, targetLive: bool, writable: bool, pass: nat)
    requires Enabled(s, BeginPass(targetLive, writable), pass)
    ensures var s' := Next(s, BeginPass(targetLive, writable), pass);
            && s'.guard == s.guard.Begin(s.now, targetLive, s.guard.challenge + 1, writable)
            && s'.began == s.now && s'.receiving == !s'.guard.over
            && s'.toParent == s.toParent + if !s'.guard.over && s.now - s.guard.lastSend >= 1000 then [s'.guard.challenge]
                                           else []
  {
    hide Guard.Begin;
  }

  /** A change of the source's policy ends the authority at once. */
  lemma PolicyEnds(s: System, pass: nat)
    ensures !Next(s, ChangePolicy, pass).Live() && !Next(s, ChangePolicy, pass).authority.epochKept
  {
  }

  /** The authority lives while it is valid, its epoch stands and its three seconds last. */
  lemma LivesExactly(s: System)
    ensures s.Live() <==> s.authority.valid && s.authority.epochKept && s.now < s.authority.deadline
  {
  }

  /** Nothing but a live authority sends input to the guard. */
  lemma InputNeedsLife(s: System, step: Step, pass: nat)
    requires Enabled(s, step, pass)
    ensures var sent := Next(s, step, pass).toGuard;
            |sent| > |s.toGuard| && sent[|s.toGuard|].Input? ==>
              s.Live() && step.SendInput? && sent == s.toGuard + [Input(step.event)]
  {
  }

  /** A live authority answers each challenge, oldest first, with its own nonce. */
  lemma AnswersInOrder(s: System, pass: nat)
    requires Enabled(s, Answer(true), pass) && s.Live() && s.open
    ensures var next := Next(s, Answer(true), pass);
            next.toGuard == s.toGuard + [Renew(s.toParent[0])] && next.toParent == s.toParent[1..] && next.Live()
  {
  }

  /** A dead authority stays dead. */
  lemma DeadForGood(s: System, step: Step, pass: nat)
    requires Enabled(s, step, pass) && !s.Live()
    ensures !Next(s, step, pass).Live()
  {
  }

  lemma {:induction false} DeadForever(s: System, steps: seq<Step>, pass: nat)
    requires !s.Live()
    ensures After(s, steps, pass).Some? ==> !After(s, steps, pass).value.Live()
  {
    hide Next, Enabled;
    if steps != [] {
      var n := |steps| - 1;
      DeadForever(s, steps[..n], pass);
      var before := After(s, steps[..n], pass);
      if before.Some? && Enabled(before.value, steps[n], pass) {
        DeadForGood(before.value, steps[n], pass);
      }
    }
  }

  /**
   * Once the parent's authority is dead the guard accepts at most one more
   * renewal, and within two leases and two passes it has left its loop with
   * everything released.
   */
  lemma LeaseRunsOut(start: nat, authority: Authority, steps: seq<Step>, pass: nat)
    ensures var s := After(Initial(start, authority), steps, pass);
            s.Some? && s.value.died.Some? ==>
              var d := s.value.died.value;
              && !s.value.Live() && d.renewals <= 1
              && (s.value.now >= d.at + 6000 + 2 * pass ==> s.value.guard.over && !s.value.guard.Holds())
  {
    AlwaysInv(start, authority, steps, pass);
  }

  /** Nothing is down longer than a second and a pass after the guard last received a key, button or state event. */
  lemma HeldBriefly(start: nat, authority: Authority, steps: seq<Step>, pass: nat)
    ensures var s := After(Initial(start, authority), steps, pass);
            s.Some? ==> s.value.pressed <= s.value.now
                        && (s.value.guard.Holds() ==> s.value.now <= s.value.pressed + 1000 + pass)
  {
    AlwaysInv(start, authority, steps, pass);
  }

  /** Such an event counts from the moment it is received; nothing else does. */
  lemma PressesAre(s: System, step: Step, pass: nat)
    requires Enabled(s, step, pass)
    ensures Next(s, step, pass).pressed
            == if step.Receive? && s.toGuard[0].Input?
                  && (s.toGuard[0].event.KeyEvent? || s.toGuard[0].event.ButtonEvent? || s.toGuard[0].event.StateEvent?)
               then s.now else s.pressed
  {
  }

  /** Up to a second after the last press the limit lets go of nothing: a pass that finds no other reason stays. */
  lemma HeldWhilePressed(start: nat, authority: Authority, steps: seq<Step>, pass: nat)
    ensures var s := After(Initial(start, authority), steps, pass);
            s.Some? && Enabled(s.value, BeginPass(true, true), pass)
            && s.value.now < s.value.guard.deadline && s.value.now <= s.value.pressed + 1000 ==>
              var next := Next(s.value, BeginPass(true, true), pass);
              !next.guard.over && next.guard.held == s.value.guard.held
  {
    AlwaysInv(start, authority, steps, pass);
  }

  lemma AfterOne(s: System, steps: seq<Step>, step: Step, pass: nat)
    requires After(s, steps, pass).Some? && Enabled(After(s, steps, pass).value, step, pass)
    ensures After(s, steps + [step], pass) == Some(Next(After(s, steps, pass).value, step, pass).Marked())
  {
    assert (steps + [step])[..|steps|] == steps;
  }

  lemma {:induction false} AfterConcat(s: System, a: seq<Step>, b: seq<Step>, pass: nat)
    requires After(s, a, pass).Some?
    ensures After(s, a + b, pass) == After(After(s, a, pass).value, b, pass)
  {
    hide Next, Enabled, System.Marked;
    if b == [] {
      assert a + b == a;
    } else {
      assert (a + b)[..|a + b| - 1] == a + b[..|b| - 1];
      AfterConcat(s, a, b[..|b| - 1], pass);
    }
  }

  /** The guard never keeps time from passing: whenever it is in its loop it can move on. */
  lemma GuardCanMove(s: System, pass: nat) returns (step: Step)
    requires !s.guard.over
    ensures step in {BeginPass(true, true), ReceiveNothing} && Enabled(s, step, pass)
    ensures var s' := Next(s, step, pass).Marked();
            s'.now == s.now && (if step.BeginPass? then s'.began == s.now else !s'.receiving)
  {
    step := if s.receiving then ReceiveNothing else BeginPass(true, true);
  }

  /** So from every state there is a way on to the next millisecond. */
  lemma ClockAdvances(s: System, pass: nat) returns (more: seq<Step>)
    requires pass > 0
    ensures After(s, more, pass).Some? && After(s, more, pass).value.now == s.now + 1
    decreases if s.guard.over || s.now < s.began + pass then 0 else if s.receiving then 2 else 1
  {
    if s.guard.over || s.now < s.began + pass {
      more := [Tick];
      AfterOne(s, [], Tick, pass);
      assert [] + [Tick] == [Tick];
    } else {
      var step := GuardCanMove(s, pass);
      AfterOne(s, [], step, pass);
      assert [] + [step] == [step];
      var rest := ClockAdvances(After(s, [step], pass).value, pass);
      AfterConcat(s, [step], rest, pass);
      more := [step] + rest;
    }
  }

  lemma TimePasses(s: System, until: nat, pass: nat) returns (more: seq<Step>)
    requires pass > 0
    ensures After(s, more, pass).Some? && After(s, more, pass).value.now >= until
    decreases until - s.now
  {
    hide Next, Enabled, System.Marked;
    if s.now >= until {
      more := [];
    } else {
      var first := ClockAdvances(s, pass);
      var rest := TimePasses(After(s, first, pass).value, until, pass);
      AfterConcat(s, first, rest, pass);
      more := first + rest;
    }
  }

  /** The bound of `LeaseRunsOut` is no dead end: every run whose authority died goes on to the release. */
  lemma ReleaseIsReached(start: nat, authority: Authority, steps: seq<Step>, pass: nat) returns (more: seq<Step>)
    requires pass > 0
    requires var s := After(Initial(start, authority), steps, pass); s.Some? && s.value.died.Some?
    ensures var s := After(Initial(start, authority), steps + more, pass);
            s.Some? && s.value.guard.over && !s.value.guard.Holds()
  {
    hide Next, Enabled, System.Marked, Inv;
    var s0 := Initial(start, authority);
    var s := After(s0, steps, pass).value;
    more := TimePasses(s, s.died.value.at + 6000 + 2 * pass, pass);
    AfterConcat(s0, steps, more, pass);
    DeathStands(s, more, pass);
    LeaseRunsOut(start, authority, steps + more, pass);
  }

  /** The moment of death is recorded once. */
  lemma {:induction false} DeathStands(s: System, steps: seq<Step>, pass: nat)
    requires s.died.Some?
    ensures var t := After(s, steps, pass);
            t.Some? ==> t.value.died.Some? && t.value.died.value.at == s.died.value.at
  {
    hide Next, Enabled, System.Marked;
    if steps != [] {
      var n := |steps| - 1;
      DeathStands(s, steps[..n], pass);
      var before := After(s, steps[..n], pass);
      if before.Some? && Enabled(before.value, steps[n], pass) {
        DeathKept(before.value, steps[n], pass);
      }
    }
  }

  lemma DeathKept(s: System, step: Step, pass: nat)
    requires Enabled(s, step, pass) && s.died.Some?
    ensures var s' := Next(s, step, pass).Marked(); s'.died.Some? && s'.died.value.at == s.died.value.at
  {
  }

  /** One renewal does slip through: answered in time, delivered after the authority died. */
  lemma OneRenewalSlipsThrough(pass: nat)
    ensures var steps := [BeginPass(true, true), Answer(true), Revoke, Receive];
            var s := After(Initial(0, Authority(true, LEASE, true)), steps, pass);
            s.Some? && s.value.died.Some? && s.value.died.value.renewals == 1
  {
    var s0 := Initial(0, Authority(true, LEASE, true));
    var a, b, c, d := BeginPass(true, true), Answer(true), Revoke, Receive;
    assert After(s0, [], pass) == Some(s0);
    var s1 := Next(s0, a, pass).Marked();
    assert s1.toParent == [0] && s1.receiving && s1.Live();
    AfterOne(s0, [], a, pass);
    var s2 := Next(s1, b, pass).Marked();
    assert s2.toGuard == [Renew(0)] && s2.Live();
    AfterOne(s0, [a], b, pass);
    assert [] + [a] == [a] && [a] + [b] == [a, b];
    var s3 := Next(s2, c, pass).Marked();
    assert s3.toGuard == [Renew(0), Stop] && s3.died.Some?;
    AfterOne(s0, [a, b], c, pass);
    assert [a, b] + [c] == [a, b, c];
    AfterOne(s0, [a, b, c], d, pass);
    assert [a, b, c] + [d] == [a, b, c, d];
  }
}
