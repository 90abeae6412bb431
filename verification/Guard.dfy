// The remote-input lease (apps/capture/src/guard.rs): a guard process that holds
// keys down only while its parent, over two pipes, keeps answering challenges.
//
// Time is in milliseconds.  Challenge texts are numbers, drawn afresh each time.
module GuardLease {
  import opened Basics
  import opened HeldInput

  datatype Command = Renew(nonce: nat) | Input(event: Event) | Stop

  /** What `recv_timeout` returns. */
  datatype Received = Got(command: Command) | TimedOut | Disconnected

  const LEASE := 3000
  const CHALLENGE_EVERY := 1000
  const CHECK_EVERY := 50
  const IDLE := 1000

  predicate ShowsProgress(e: Event) {
    e.StateEvent? || e.KeyEvent? || e.ButtonEvent?
  }

  // ----- The guard, pass by pass -----

  /** The local variables of the guard loop; `over` once it has left the loop and released. */
  datatype Guard = Guard(challenge: nat, consumed: bool, deadline: nat, lastSend: int, lastCheck: int,
                         progress: nat, held: Holding, over: bool) {
    predicate Holds() {
      held.keys != {} || held.buttons != {}
    }

    function Leave(): Guard {
      this.(over := true, held := held.Released())
    }

    /** The first half of a pass: every reason to leave, then a challenge when one is due. */
    function Begin(now: nat, targetLive: bool, nonce: nat, writable: bool): Guard {
      if now >= deadline then Leave()
      else
        var checked := now - lastCheck >= CHECK_EVERY;
        if checked && !targetLive then Leave()
        else
          var g := if checked then this.(lastCheck := now) else this;
          if g.Holds() && now - progress > IDLE then g.Leave()
          else if now - lastSend >= CHALLENGE_EVERY then
            var asked := if consumed then g.(challenge := nonce, consumed := false) else g;
            if writable then asked.(lastSend := now) else asked.Leave()
          else g
    }

    /** A challenge goes out in this pass. */
    predicate Asks(now: nat, targetLive: bool, nonce: nat, writable: bool) {
      var g := Begin(now, targetLive, nonce, writable);
      !g.over && now - lastSend >= CHALLENGE_EVERY
    }

    /** The second half: one command, a timeout, or the end of the pipe. */
    function Take(now: nat, input: Received): Guard {
      match input
      case TimedOut => this
      case Disconnected => Leave()
      case Got(Stop) => Leave()
      case Got(Renew(nonce)) => if Renews(input) then this.(consumed := true, deadline := now + LEASE) else this
      case Got(Input(event)) =>
        var g := if ShowsProgress(event) then this.(progress := now) else this;
        if Accepts(held, event) then g.(held := Then(held, event)) else g.Leave()
    }

    predicate Renews(input: Received) {
      input.Got? && input.command.Renew? && !consumed && input.command.nonce == challenge
    }
  }

  /** Why a pass leaves: the lease, the target, a second without a press, or a broken pipe. */
  lemma LeavesExactly(g: Guard, now: nat, targetLive: bool, nonce: nat, writable: bool)
    requires !g.over
    ensures g.Begin(now, targetLive, nonce, writable).over
            <==> || now >= g.deadline || (now - g.lastCheck >= 50 && !targetLive)
                 || ((g.held.keys != {} || g.held.buttons != {}) && now > g.progress + 1000)
                 || (now - g.lastSend >= 1000 && !writable)
  {
  }

  /** A pass that stays asks once a second, with a fresh challenge exactly when the last one was answered. */
  lemma AsksEverySecond(g: Guard, now: nat, targetLive: bool, nonce: nat, writable: bool)
    requires !g.over && !g.Begin(now, targetLive, nonce, writable).over
    ensures var b := g.Begin(now, targetLive, nonce, writable);
            && b.held == g.held && b.deadline == g.deadline && b.progress == g.progress
            && (g.Asks(now, targetLive, nonce, writable) <==> now - g.lastSend >= 1000)
            && (now - g.lastSend >= 1000 ==>
                  b.lastSend == now && !b.consumed && b.challenge == if g.consumed then nonce else g.challenge)
            && (now - g.lastSend < 1000 ==>
                  b.lastSend == g.lastSend && b.consumed == g.consumed && b.challenge == g.challenge)
            && b.lastCheck == if now - g.lastCheck >= 50 then now else g.lastCheck
  {
  }

  /** What each received command does: presses refresh the limit on holding, and the first right answer the lease. */
  lemma TakesExactly(g: Guard, now: nat, input: Received)
    requires !g.over
    ensures var t := g.Take(now, input);
            && t.progress == (match input
                              case Got(Input(KeyEvent(_, _))) => now
                              case Got(Input(ButtonEvent(_, _, _, _))) => now
                              case Got(Input(StateEvent(_, _))) => now
                              case _ => g.progress)
            && t.deadline == (if input == Got(Renew(g.challenge)) && !g.consumed then now + 3000 else g.deadline)
            && (t.consumed <==> g.consumed || input == Got(Renew(g.challenge)))
            && (t.over <==> input.Disconnected? || input == Got(Stop)
                            || (input.Got? && input.command.Input? && !Accepts(g.held, input.command.event)))
            && (!t.over ==>
                  t.held == if input.Got? && input.command.Input? then Then(g.held, input.command.event) else g.held)
            && (t.over ==> t.held.keys == {} && t.held.buttons == {})
  {
    hide Accepts, Then;
  }

  function Started(now: nat, challenge: nat): Guard {
    Guard(challenge, false, now + LEASE, now - 2 * CHALLENGE_EVERY, now - 1000, now,
          Holding({}, {}, (0.0, 0.0)), false)
  }

  // ----- The guard loop -----

  /** What the environment decides in one pass. */
  datatype Pass = Pass(now: nat, targetLive: bool, nonce: nat, writable: bool, at: nat, input: Received)

  function OnePass(g: Guard, p: Pass): Guard {
    var begun := g.Begin(p.now, p.targetLive, p.nonce, p.writable);
    if begun.over then begun else begun.Take(p.at, p.input)
  }

  function Passes(g: Guard, script: seq<Pass>): Guard {
    if script == [] then g
    else
      var before := Passes(g, script[..|script| - 1]);
      if before.over then before else OnePass(before, script[|script| - 1])
  }

  lemma {:induction false} OverStays(g: Guard, script: seq<Pass>, n: nat)
    requires n <= |script| && Passes(g, script[..n]).over
    ensures Passes(g, script) == Passes(g, script[..n])
    decreases |script|
  {
    if n < |script| {
      assert script[..|script| - 1][..n] == script[..n];
      OverStays(g, script[..|script| - 1], n);
    } else {
      assert script[..n] == script;
    }
  }

  /** The guard process and what it holds down. */
  class GuardProcess {
    const held: Held
    var challenge: nat
    var consumed: bool
    var deadline: nat
    var lastSend: int
    var lastCheck: int
    var progress: nat

    ghost function Now(over: bool): Guard
      reads this, held
    {
      Guard(challenge, consumed, deadline, lastSend, lastCheck, progress, held.Now(), over)
    }

    constructor (session: NativeSession, start: nat, challenge: nat)
      requires session.live && session.injected == []
      ensures fresh(held) && held.session == session && held.Valid() && Now(false) == Started(start, challenge)
    {
      held := new Held(session);
      this.challenge, consumed, deadline := challenge, false, start + LEASE;
      lastSend, lastCheck, progress := start - 2 * CHALLENGE_EVERY, start - 1000, start;
    }

    /** Everything held goes up, and the native session ends. */
    method Leave()
      requires held.Valid()
      modifies held, held.session
      ensures !held.session.live && Now(true) == old(Now(false)).Leave()
      ensures PressAll(Some({}), held.session.injected) == Some(Now(true).held.Controls())
    {
      hide PressAll;
      held.Release();
      held.session.Stop();
    }

    /** Whether the pass goes on to wait for a command. */
    method Begin(p: Pass) returns (stays: bool)
      requires held.Valid()
      modifies this
      ensures stays ==> Now(false) == old(Now(false)).Begin(p.now, p.targetLive, p.nonce, p.writable)
      ensures !stays ==> Now(false).Leave() == old(Now(false)).Begin(p.now, p.targetLive, p.nonce, p.writable)
    {
      hide Held.Valid;
      if p.now >= deadline {
        return false;
      }
      if p.now - lastCheck >= CHECK_EVERY {
        if !p.targetLive {
          return false;
        }
        lastCheck := p.now;
      }
      if (held.keys != {} || held.buttons != {}) && p.now - progress > IDLE {
        return false;
      }
      if p.now - lastSend >= CHALLENGE_EVERY {
        if consumed {
          challenge, consumed := p.nonce, false;
        }
        if !p.writable {
          return false;
        }
        lastSend := p.now;
      }
      stays := true;
    }

    /** Whether the loop goes on after what was received. */
    method Take(p: Pass) returns (stays: bool)
      requires held.Valid()
      modifies this, held, held.session`injected
      ensures held.Valid()
      ensures stays ==> Now(false) == old(Now(false)).Take(p.at, p.input)
      ensures !stays ==> Now(false).Leave() == old(Now(false)).Take(p.at, p.input)
    {
      hide Held.Valid, Accepts, Then, Injects;
      match p.input {
        case Got(Renew(nonce)) =>
          if !consumed && nonce == challenge {
            consumed, deadline := true, p.at + LEASE;
          }
        case Got(Input(event)) =>
          if event.StateEvent? || event.KeyEvent? || event.ButtonEvent? {
            progress := p.at;
          }
          stays := held.Apply(event);
          return;
        case Got(Stop) => return false;
        case Disconnected => return false;
        case TimedOut =>
      }
      stays := true;
    }

    /** One pass of the loop; a guard that leaves has released everything. */
    method Step(p: Pass) returns (stays: bool)
      requires held.Valid()
      modifies this, held, held.session
      ensures stays ==> held.Valid() && Now(false) == OnePass(old(Now(false)), p)
      ensures !stays ==> !held.session.live && Now(true) == OnePass(old(Now(false)), p)
      ensures PressAll(Some({}), held.session.injected) == Some(Now(!stays).held.Controls())
    {
      hide Guard.Begin, Guard.Take, PressAll;
      stays := Begin(p);
      BeginStays(old(Now(false)), p, Now(false), stays);
      if stays {
        stays := Take(p);
      }
      if !stays {
        Leave();
      }
    }
  }

  /** Only leaving sets `over`. */
  lemma BeginStays(before: Guard, p: Pass, after: Guard, stays: bool)
    requires !after.over
    requires var begun := before.Begin(p.now, p.targetLive, p.nonce, p.writable);
             if stays then begun == after else begun == after.Leave()
    ensures before.Begin(p.now, p.targetLive, p.nonce, p.writable).over == !stays
  {
  }

  /**
   * `run`, from the ready line on: whatever arrives and whichever way it leaves,
   * strokes alternate, text is typed with nothing down, and the end is released.
   */
  method Run(session: NativeSession, start: nat, challenge: nat, script: seq<Pass>) returns (over: bool)
    requires session.live && session.injected == []
    modifies session
    ensures over == Passes(Started(start, challenge), script).over
    ensures PressAll(Some({}), session.injected) == Some(Passes(Started(start, challenge), script).held.Controls())
    ensures over ==> !session.live && forall c :: |Strokes(session.injected, c)| % 2 == 0
    ensures (forall c :: Alternating(Strokes(session.injected, c))) && TypesFreely(session.injected)
  {
    hide Guard.Begin, Guard.Take, PressAll, Strokes, Alternating, TypesFreely, OnePass;
    var guard := new GuardProcess(session, start, challenge);
    ghost var g0 := Started(start, challenge);
    for i := 0 to |script|
      invariant fresh(guard) && fresh(guard.held) && guard.held.session == session && guard.held.Valid()
      invariant guard.Now(false) == Passes(g0, script[..i])
    {
      assert script[..i + 1][..i] == script[..i];
      var stays := guard.Step(script[i]);
      if !stays {
        OverStays(g0, script, i + 1);
        OverHoldsNothing(g0, script);
        PressingMeans(session.injected);
        return true;
      }
    }
    assert script[..|script|] == script;
    PressingMeans(session.injected);
    over := false;
  }

  lemma {:induction false} OverHoldsNothing(g: Guard, script: seq<Pass>)
    requires !g.over
    ensures Passes(g, script).over ==> Passes(g, script).held.Controls() == {}
  {
    if script != [] {
      OverHoldsNothing(g, script[..|script| - 1]);
      var before := Passes(g, script[..|script| - 1]);
      if !before.over {
        OnePassReleases(before, script[|script| - 1]);
      }
    }
  }

  lemma OnePassReleases(g: Guard, p: Pass)
    requires !g.over
    ensures OnePass(g, p).over ==> OnePass(g, p).held.Controls() == {}
  {
  }
}
