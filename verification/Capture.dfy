// Who may control the source (apps/capture/src/state.rs): views, their control
// leases, the policy epoch, and input releases that could not be confirmed.
//
// Every asynchronous call is a process; one step of it reaches up to its next
// lock, await or shared write, and any two steps may have any others between
// them.  Checks whose inputs are not modelled (frames, media, permissions,
// deadlines) succeed or fail freely.
module CaptureControl {
  import opened Basics

  /** The guard process: running, ended with its release confirmed, or given up on. */
  datatype Child = Running | Released | Unconfirmed

  datatype Guard = Guard(issued: nat, valid: bool, expired: bool, child: Child) {
    predicate Live(epoch: nat) {
      valid && !expired && issued == epoch
    }
  }

  datatype Control = Control(owner: string, lease: nat, guard: Guard)

  /** What a finished close told the client. */
  datatype Report = Pending | ToldReleased | ToldUnconfirmed

  /** `control` is the committed lease; `lock` the process in the control mutex. */
  datatype View = View(closing: bool, control: Option<Control>, lock: Option<nat>, report: Report)

  datatype Acquiring =
    | Reading
    | CheckingFlag(issued: nat)
    | WaitingToAcquire(issued: nat)
    | Rechecking(issued: nat)
    | Starting(issued: nat)
    | Confirming(guard: Guard)
    | Committing(guard: Guard)
    | Abandoning

  datatype Releasing =
    | WaitingToRelease
    | Looking
    | Stopping
    | Settling(confirmed: bool)
    | Unlocking
    | Reporting
    | Clearing

  datatype Process =
    | Acquire(view: nat, owner: string, acquiring: Acquiring)
    | Release(view: nat, asker: Option<string>, closes: bool, releasing: Releasing)
    | Done

  /** Views and processes are numbered in the order they came to be; `current` is `App::view`. */
  datatype App = App(views: seq<View>, current: Option<nat>, shared: bool, allowControl: bool,
                     epoch: nat, unconfirmed: bool, leases: nat, processes: seq<Process>) {
    predicate At(p: nat) {
      p < |processes| && !processes[p].Done? && processes[p].view < |views|
    }

    function Of(p: nat): View
      requires At(p)
    {
      views[processes[p].view]
    }

    /** Process `p` moves on, and its view becomes `v`. */
    function Moved(p: nat, process: Process, v: View): App
      requires At(p)
    {
      this.(views := views[processes[p].view := v], processes := processes[p := process])
    }
  }

  datatype Step =
    | Open
    | StartAcquire(view: nat, owner: string)
    | StartRelease(view: nat, asker: Option<string>)
    | StartClose(view: nat)
    | SetShared(shared: bool)
    | SetAllowControl(allow: bool)
    | ChangeEpoch
    | Invalidate(view: nat)
    | Expire(view: nat)
    | Continue(process: nat, ok: bool)

  const NEW_VIEW := View(false, None, None, Pending)

  predicate WaitsForLock(process: Process) {
    || (process.Acquire? && process.acquiring.WaitingToAcquire?)
    || (process.Release? && process.releasing.WaitingToRelease?)
  }

  predicate Enabled(s: App, step: Step) {
    match step
    case Open => s.shared && s.current.None?
    case StartAcquire(v, _) => v < |s.views|
    case StartRelease(v, _) => v < |s.views|
    case StartClose(v) => v < |s.views| && !s.views[v].closing
    case Invalidate(v) => v < |s.views| && s.views[v].control.Some?
    case Expire(v) => v < |s.views| && s.views[v].control.Some?
    case Continue(p, _) => s.At(p) && (WaitsForLock(s.processes[p]) ==> s.Of(p).lock.None?)
    case _ => true
  }

  /** `View::acquire` */
  function AcquireStep(s: App, p: nat, ok: bool): App
    requires s.At(p) && s.processes[p].Acquire?
  {
    var a, v := s.processes[p], s.Of(p);
    match a.acquiring
    case Reading => s.Moved(p, a.(acquiring := CheckingFlag(s.epoch)), v)
    case CheckingFlag(issued) =>
      s.Moved(p, if !ok || s.unconfirmed then Done else a.(acquiring := WaitingToAcquire(issued)), v)
    case WaitingToAcquire(issued) => s.Moved(p, a.(acquiring := Rechecking(issued)), v.(lock := Some(p)))
    case Rechecking(issued) =>
      if ok && !v.closing && s.shared && s.allowControl && issued == s.epoch && v.control.None?
      then s.Moved(p, a.(acquiring := Starting(issued)), v)
      else s.Moved(p, Done, v.(lock := None))
    case Starting(issued) =>
      if ok then s.Moved(p, a.(acquiring := Confirming(Guard(issued, true, false, Running))), v)
      else s.Moved(p, Done, v.(lock := None))
    case Confirming(guard) =>
      s.Moved(p, a.(acquiring := if ok && !v.closing && guard.Live(s.epoch) && s.shared && s.allowControl
                                 then Committing(guard) else Abandoning), v)
    case Committing(guard) =>
      var control := Control(a.owner, s.leases + 1, guard.(valid := ok));
      s.Moved(p, Done, v.(control := Some(control), lock := None)).(leases := s.leases + 1)
    case Abandoning => s.Moved(p, Done, v.(lock := None))
  }

  /** `InputGuard::stop`: only the first stop waits for the process to end. */
  function Stopped(g: Guard, ended: bool): Guard {
    if g.child.Running? then g.(valid := false, child := if ended then Released else Unconfirmed)
    else g.(valid := false)
  }

  /** `View::release_control`, and what `View::close` does around it. */
  function ReleaseStep(s: App, p: nat, ok: bool): App
    requires s.At(p) && s.processes[p].Release?
  {
    var r, v := s.processes[p], s.Of(p);
    match r.releasing
    case WaitingToRelease => s.Moved(p, r.(releasing := Looking), v.(lock := Some(p)))
    case Looking =>
      if v.control.None? || (r.asker.Some? && r.asker.value != v.control.value.owner)
      then s.Moved(p, r.(releasing := Unlocking), v)
      else
        var c := v.control.value;
        s.Moved(p, r.(releasing := Stopping), v.(control := Some(c.(guard := c.guard.(valid := false)))))
    case Stopping =>
      if v.control.None? then s.Moved(p, r.(releasing := Unlocking), v)
      else
        var c := v.control.value;
        var g := Stopped(c.guard, ok);
        s.Moved(p, r.(releasing := Settling(g.child.Released?)), v.(control := Some(c.(guard := g))))
    case Settling(confirmed) =>
      if confirmed then s.Moved(p, r.(releasing := Unlocking), v.(control := None))
      else s.Moved(p, r.(releasing := Unlocking), v).(unconfirmed := true)
    case Unlocking => s.Moved(p, if r.closes then r.(releasing := Reporting) else Done, v.(lock := None))
    case Reporting =>
      s.Moved(p, r.(releasing := Clearing), v.(report := if s.unconfirmed then ToldUnconfirmed else ToldReleased))
    case Clearing =>
      s.Moved(p, Done, v).(current := if s.current == Some(r.view) then None else s.current)
  }

  function OnGuard(v: View, g: Guard): View
    requires v.control.Some?
  {
    v.(control := Some(v.control.value.(guard := g)))
  }

  function Next(s: App, step: Step): App
    requires Enabled(s, step)
  {
    match step
    case Open => s.(views := s.views + [NEW_VIEW], current := Some(|s.views|))
    case StartAcquire(v, owner) => s.(processes := s.processes + [Acquire(v, owner, Reading)])
    case StartRelease(v, asker) => s.(processes := s.processes + [Release(v, asker, false, WaitingToRelease)])
    case StartClose(v) =>
      s.(views := s.views[v := s.views[v].(closing := true)],
         processes := s.processes + [Release(v, None, true, WaitingToRelease)])
    case SetShared(shared) => s.(shared := shared)
    case SetAllowControl(allow) => s.(allowControl := allow)
    case ChangeEpoch => s.(epoch := s.epoch + 1)
    case Invalidate(v) =>
      s.(views := s.views[v := OnGuard(s.views[v], s.views[v].control.value.guard.(valid := false))])
    case Expire(v) =>
      s.(views := s.views[v := OnGuard(s.views[v], s.views[v].control.value.guard.(expired := true))])
    case Continue(p, ok) => if s.processes[p].Acquire? then AcquireStep(s, p, ok) else ReleaseStep(s, p, ok)
  }

  function Initial(shared: bool, allowControl: bool): App {
    App([], None, shared, allowControl, 0, false, 0, [])
  }

  function After(s: App, steps: seq<Step>): Option<App> {
    if steps == [] then Some(s)
    else
      var n := |steps| - 1;
      var before := After(s, steps[..n]);
      if before.None? || !Enabled(before.value, steps[n]) then None else Some(Next(before.value, steps[n]))
  }

  // ----- What every step keeps -----

  predicate HoldsLock(process: Process) {
    || (process.Acquire? && !process.acquiring.Reading? && !process.acquiring.CheckingFlag?
        && !process.acquiring.WaitingToAcquire?)
    || (process.Release? && !process.releasing.WaitingToRelease? && !process.releasing.Reporting?
        && !process.releasing.Clearing?)
  }

  /** Past the recheck, and so on the way to a commit. */
  predicate Committed(process: Process) {
    process.Acquire?
    && (process.acquiring.Starting? || process.acquiring.Confirming? || process.acquiring.Committing?)
  }

  /** Past the check of the flag. */
  predicate Unchecked(process: Process) {
    process.Acquire? && (process.acquiring.WaitingToAcquire? || process.acquiring.Rechecking?)
  }

  ghost predicate Stuck(v: View) {
    v.control.Some? && v.control.value.guard.child.Unconfirmed?
  }

  /** No lease will ever be committed in this view again. */
  ghost predicate Spent(s: App, v: nat)
    requires v < |s.views|
  {
    && s.views[v].closing
    && (s.views[v].control.None? || (Stuck(s.views[v]) && s.unconfirmed))
    && (forall p :: 0 <= p < |s.processes| && Committed(s.processes[p]) ==> s.processes[p].view != v)
  }

  /** Where a process stands, and what that says of its view. */
  ghost predicate Placed(s: App, p: nat)
    requires p < |s.processes|
  {
    var process := s.processes[p];
    !process.Done? ==>
      && process.view < |s.views|
      && var v := s.views[process.view];
         && (HoldsLock(process) ==> v.lock == Some(p))
         && (Committed(process) ==> v.control.None?)
         && (process.Acquire? ==>
               match process.acquiring
               case Reading => true
               case Abandoning => true
               case Confirming(g) => g.issued <= s.epoch && g.child.Running?
               case Committing(g) => g.issued <= s.epoch && g.child.Running?
               case _ => process.acquiring.issued <= s.epoch)
         && (process.Release? ==>
               && (process.closes ==> v.closing && process.asker.None?)
               && (process.releasing.Reporting? || process.releasing.Clearing? ==> process.closes)
               && (process.releasing.Stopping? ==> v.control.Some?)
               && (process.releasing.Settling? ==>
                     v.control.Some?
                     && v.control.value.guard.child == if process.releasing.confirmed then Released else Unconfirmed)
               && (process.closes
                   && (process.releasing.Unlocking? || process.releasing.Reporting? || process.releasing.Clearing?)
                   ==> Spent(s, process.view)))
  }

  ghost predicate Kept(s: App, v: nat)
    requires v < |s.views|
  {
    var view := s.views[v];
    && (s.current != Some(v) ==> Spent(s, v))
    && (view.control.Some? ==> view.control.value.guard.issued <= s.epoch && view.control.value.lease <= s.leases)
    && (view.control.Some? && !view.control.value.guard.child.Running? ==>
          (Stuck(view) && s.unconfirmed) || exists p :: IsSettling(s, p, v))
    && (view.report.ToldReleased? ==> view.control.None? && Spent(s, v))
    && (view.report.ToldUnconfirmed? ==> s.unconfirmed)
  }

  ghost predicate IsSettling(s: App, p: nat, v: nat) {
    p < |s.processes| && s.processes[p].Release? && s.processes[p].releasing.Settling? && s.processes[p].view == v
  }

  /** Once the flag is up, an acquire past its check is stuck behind it. */
  ghost predicate FlagHolds(s: App) {
    s.unconfirmed ==>
      forall p :: 0 <= p < |s.processes| ==>
                    && !Committed(s.processes[p])
                    && (Unchecked(s.processes[p]) && s.processes[p].view < |s.views| ==>
                          s.views[s.processes[p].view].closing || Stuck(s.views[s.processes[p].view]))
  }

  ghost predicate OneControl(s: App) {
    forall u, v ::
      (0 <= u < |s.views| && 0 <= v < |s.views| && s.views[u].control.Some? && s.views[v].control.Some?) ==> u == v
  }

  ghost predicate Inv(s: App) {
    && (s.current.Some? ==> s.current.value < |s.views|)
    && (forall p :: 0 <= p < |s.processes| ==> Placed(s, p))
    && (forall v :: 0 <= v < |s.views| ==> Kept(s, v))
    && FlagHolds(s) && OneControl(s)
  }

  // ----- One process moves -----

  /** What a step of process `p` leaves alone. */
  ghost predicate Moves(s: App, s': App, p: nat) {
    && s.At(p) && |s'.views| == |s.views| && |s'.processes| == |s.processes|
    && s'.epoch == s.epoch && s.leases <= s'.leases && (s.unconfirmed ==> s'.unconfirmed)
    && var v := s.processes[p].view;
       && (s'.processes[p].Done? || s'.processes[p].view == v)
       && (s'.current == s.current || (s'.current.None? && s.current == Some(v)))
       && (forall q :: 0 <= q < |s.processes| && q != p ==> s'.processes[q] == s.processes[q])
       && (forall u :: 0 <= u < |s.views| && u != v ==> s'.views[u] == s.views[u])
       && s'.views[v].closing == s.views[v].closing
       && (s.views[v].lock.None? || s.views[v].lock == Some(p)
           || (s'.views[v].lock == s.views[v].lock && s'.views[v].control == s.views[v].control))
  }

  lemma SpentStays(s: App, s': App, p: nat, v: nat)
    requires Moves(s, s', p) && v < |s.views| && Spent(s, v)
    requires v == s.processes[p].view ==>
               && (s'.views[v].control.None? || Stuck(s'.views[v]))
               && (Committed(s'.processes[p]) ==> Committed(s.processes[p]))
    requires v == s.processes[p].view && s'.views[v].control.Some? ==> s'.unconfirmed
    ensures Spent(s', v)
  {
  }

  /** The view of a moving process: what must be shown of it besides the invariant of the others. */
  ghost predicate StillSpent(s: App, s': App, p: nat)
    requires Moves(s, s', p)
  {
    var v := s.processes[p].view;
    Spent(s, v) ==> Spent(s', v)
  }

  lemma OthersPlaced(s: App, s': App, p: nat, q: nat)
    requires Moves(s, s', p) && StillSpent(s, s', p)
    requires q < |s.processes| && q != p && Placed(s, q)
    ensures Placed(s', q)
  {
    var process := s.processes[q];
    if !process.Done? && process.view != s.processes[p].view && Spent(s, process.view) {
      SpentStays(s, s', p, process.view);
    }
  }

  lemma OthersKept(s: App, s': App, p: nat, u: nat)
    requires Moves(s, s', p) && u < |s.views| && u != s.processes[p].view && Kept(s, u)
    ensures Kept(s', u)
  {
    if Spent(s, u) {
      SpentStays(s, s', p, u);
    }
    if q: nat :| IsSettling(s, q, u) {
      assert IsSettling(s', q, u);
    }
  }

  /** A step of one process keeps the invariant if it does so for itself and its view. */
  lemma MoveKeeps(s: App, s': App, p: nat)
    requires Inv(s) && Moves(s, s', p) && StillSpent(s, s', p)
    requires Placed(s', p) && Kept(s', s.processes[p].view) && FlagHolds(s') && OneControl(s')
    ensures Inv(s')
  {
    hide Placed, Kept, FlagHolds, OneControl, Spent;
    forall q | 0 <= q < |s'.processes| ensures Placed(s', q) {
      if q != p {
        OthersPlaced(s, s', p, q);
      }
    }
    forall u | 0 <= u < |s'.views| ensures Kept(s', u) {
      if u != s.processes[p].view {
        OthersKept(s, s', p, u);
      }
    }
  }

  /** As long as the flag is not raised and stuck views stay stuck, it keeps holding. */
  lemma FlagStays(s: App, s': App, p: nat)
    requires Inv(s) && Moves(s, s', p) && s'.unconfirmed == s.unconfirmed
    requires s.unconfirmed && Stuck(s.views[s.processes[p].view]) ==> Stuck(s'.views[s.processes[p].view])
    requires s.unconfirmed ==> !Committed(s'.processes[p])
    requires s.unconfirmed && Unchecked(s'.processes[p]) ==> Unchecked(s.processes[p])
    ensures FlagHolds(s')
  {
  }

  /** A step that changes nothing in its view but the lock, or a report. */
  ghost predicate Quiet(s: App, s': App, p: nat, process: Process, v: View)
    requires s.At(p)
  {
    var was := s.Of(p);
    && s' == s.Moved(p, process, v)
    && (process.Done? || process.view == s.processes[p].view)
    && v.control == was.control && v.closing == was.closing
    && (v.lock == was.lock || was.lock.None? || was.lock == Some(p))
    && !(s.processes[p].Release? && s.processes[p].releasing.Settling?)
    && (Committed(process) && !Committed(s.processes[p]) ==> !s.unconfirmed && !was.closing)
    && (Unchecked(process) && !Unchecked(s.processes[p]) ==> !s.unconfirmed)
  }

  lemma QuietMoves(s: App, s': App, p: nat, process: Process, v: View)
    requires Inv(s) && s.At(p) && Quiet(s, s', p, process, v)
    ensures Moves(s, s', p) && StillSpent(s, s', p) && FlagHolds(s') && OneControl(s')
  {
  }

  lemma QuietKeeps(s: App, s': App, p: nat, process: Process, v: View)
    requires Inv(s) && s.At(p) && Quiet(s, s', p, process, v)
    requires Placed(s', p) && v.report == s.Of(p).report
    ensures Inv(s')
  {
    hide FlagHolds, OneControl, Placed;
    var u := s.processes[p].view;
    QuietMoves(s, s', p, process, v);
    assert Kept(s, u);
    if q: nat :| IsSettling(s, q, u) {
      assert IsSettling(s', q, u);
    }
    MoveKeeps(s, s', p);
  }

  /** An acquire past its recheck is in the current view, and no other view has a lease. */
  lemma CommittedIsCurrent(s: App, p: nat)
    requires Inv(s) && s.At(p) && Committed(s.processes[p])
    ensures !s.unconfirmed && s.current == Some(s.processes[p].view)
    ensures forall u :: 0 <= u < |s.views| ==> s.views[u].control.None?
  {
    assert Placed(s, p) && Kept(s, s.processes[p].view);
    forall u | 0 <= u < |s.views| ensures s.views[u].control.None? {
      assert Kept(s, u);
    }
  }

  lemma CommitKeeps(s: App, p: nat, ok: bool)
    requires Inv(s) && s.At(p) && s.processes[p].Acquire? && s.processes[p].acquiring.Committing?
    ensures Inv(AcquireStep(s, p, ok))
  {
    var s' := AcquireStep(s, p, ok);
    assert Placed(s, p);
    CommittedIsCurrent(s, p);
    assert Moves(s, s', p);
    assert FlagHolds(s') && OneControl(s');
    assert Kept(s, s.processes[p].view) && Kept(s', s.processes[p].view);
    MoveKeeps(s, s', p);
  }

  /** Where a step of an acquire other than the commit leads. */
  lemma AcquireKeeps(s: App, p: nat, ok: bool)
    requires Inv(s) && Enabled(s, Continue(p, ok)) && s.processes[p].Acquire?
    ensures Inv(AcquireStep(s, p, ok))
  {
    hide Inv;
    if s.processes[p].acquiring.Committing? {
      CommitKeeps(s, p, ok);
    } else {
      AcquireIsQuiet(s, p, ok);
      var s' := AcquireStep(s, p, ok);
      QuietKeeps(s, s', p, s'.processes[p], s'.views[s.processes[p].view]);
    }
  }

  lemma AcquireIsQuiet(s: App, p: nat, ok: bool)
    requires Inv(s) && Enabled(s, Continue(p, ok)) && s.processes[p].Acquire?
    requires !s.processes[p].acquiring.Committing?
    ensures var s' := AcquireStep(s, p, ok);
            && |s'.views| == |s.views| && |s'.processes| == |s.processes|
            && Quiet(s, s', p, s'.processes[p], s'.views[s.processes[p].view])
            && Placed(s', p) && s'.views[s.processes[p].view].report == s.Of(p).report
  {
    assert Placed(s, p);
    NoFlagWhenPast(s, p);
    QuietlyAcquired(s, p, ok);
  }

  lemma NoFlagWhenPast(s: App, p: nat)
    requires Inv(s) && s.At(p)
    ensures Committed(s.processes[p]) ==> !s.unconfirmed
    ensures Unchecked(s.processes[p]) && s.unconfirmed ==> s.Of(p).closing || s.Of(p).control.Some?
  {
  }

  lemma QuietlyAcquired(s: App, p: nat, ok: bool)
    requires Enabled(s, Continue(p, ok)) && s.processes[p].Acquire? && Placed(s, p)
    requires !s.processes[p].acquiring.Committing?
    requires Committed(s.processes[p]) ==> !s.unconfirmed
    requires Unchecked(s.processes[p]) && s.unconfirmed ==> s.Of(p).closing || s.Of(p).control.Some?
    ensures var s' := AcquireStep(s, p, ok);
            && |s'.views| == |s.views| && |s'.processes| == |s.processes|
            && Quiet(s, s', p, s'.processes[p], s'.views[s.processes[p].view])
            && Placed(s', p) && s'.views[s.processes[p].view].report == s.Of(p).report
  {
    hide Spent;
    if HoldsLock(s.processes[p]) {
      QuietInLock(s, p, ok);
    }
  }

  lemma QuietInLock(s: App, p: nat, ok: bool)
    requires Enabled(s, Continue(p, ok)) && s.processes[p].Acquire? && Placed(s, p) && HoldsLock(s.processes[p])
    requires !s.processes[p].acquiring.Committing?
    requires Committed(s.processes[p]) ==> !s.unconfirmed
    requires Unchecked(s.processes[p]) && s.unconfirmed ==> s.Of(p).closing || s.Of(p).control.Some?
    ensures var s' := AcquireStep(s, p, ok);
            && |s'.views| == |s.views| && |s'.processes| == |s.processes|
            && Quiet(s, s', p, s'.processes[p], s'.views[s.processes[p].view])
            && Placed(s', p) && s'.views[s.processes[p].view].report == s.Of(p).report
  {
    hide Spent;
  }

  // ----- Releasing -----

  /** Changes to a guard that is neither confirmed nor given up on by them. */
  lemma GuardChangeKeeps(s: App, p: nat, process: Process, g: Guard)
    requires Inv(s) && s.At(p) && process.Release? && process.view == s.processes[p].view
    requires s.processes[p].Release? && !s.processes[p].releasing.Settling?
    requires s.Of(p).control.Some? && s.Of(p).lock == Some(p)
    requires g.issued == s.Of(p).control.value.guard.issued
    requires g.child == s.Of(p).control.value.guard.child
             || (process.releasing.Settling? && s.Of(p).control.value.guard.child.Running?)
    requires Placed(s.Moved(p, process, OnGuard(s.Of(p), g)), p)
    ensures Inv(s.Moved(p, process, OnGuard(s.Of(p), g)))
  {
    var u := s.processes[p].view;
    var s' := s.Moved(p, process, OnGuard(s.Of(p), g));
    assert Kept(s, u);
    if q: nat :| IsSettling(s, q, u) {
      assert IsSettling(s', q, u);
    }
    assert process.releasing.Settling? ==> IsSettling(s', p, u);
    assert Moves(s, s', p);
    MoveKeeps(s, s', p);
  }

  /** The holder of a control mutex has no acquire beside it. */
  lemma HolderExcludes(s: App, p: nat)
    requires Inv(s) && s.At(p) && s.processes[p].Release? && s.Of(p).lock == Some(p)
    ensures forall q :: 0 <= q < |s.processes| && Committed(s.processes[q]) ==> s.processes[q].view != s.processes[p].view
  {
    forall q | 0 <= q < |s.processes| && Committed(s.processes[q])
      ensures s.processes[q].view != s.processes[p].view
    {
      assert Placed(s, q);
    }
  }

  lemma ConfirmedKeeps(s: App, p: nat)
    requires Inv(s) && s.At(p) && s.processes[p].Release? && s.processes[p].releasing == Settling(true)
    ensures Inv(ReleaseStep(s, p, true))
  {
    var s', u := ReleaseStep(s, p, true), s.processes[p].view;
    assert Placed(s, p) && Kept(s, u);
    HolderExcludes(s, p);
    assert Moves(s, s', p);
    MoveKeeps(s, s', p);
  }

  /** A failed release raises the flag: by then every other view is spent. */
  lemma UnconfirmedKeeps(s: App, p: nat)
    requires Inv(s) && s.At(p) && s.processes[p].Release? && s.processes[p].releasing == Settling(false)
    ensures Inv(ReleaseStep(s, p, true))
  {
    var s', u := ReleaseStep(s, p, true), s.processes[p].view;
    assert Placed(s, p) && Kept(s, u);
    HolderExcludes(s, p);
    assert Moves(s, s', p);
    EveryoneStuck(s, p);
    MoveKeeps(s, s', p);
  }

  lemma EveryoneStuck(s: App, p: nat)
    requires Inv(s) && s.At(p) && s.processes[p].Release? && s.processes[p].releasing == Settling(false)
    ensures FlagHolds(ReleaseStep(s, p, true))
  {
    var s', u := ReleaseStep(s, p, true), s.processes[p].view;
    assert Placed(s, p) && Kept(s, u);
    HolderExcludes(s, p);
    forall q | 0 <= q < |s'.processes|
      ensures !Committed(s'.processes[q])
      ensures Unchecked(s'.processes[q]) && s'.processes[q].view < |s'.views| ==>
                s'.views[s'.processes[q].view].closing || Stuck(s'.views[s'.processes[q].view])
    {
      assert Placed(s, q);
      var process := s'.processes[q];
      if process.Acquire? && process.view != u {
        assert Kept(s, process.view);
        assert s.unconfirmed || s.current != Some(process.view) by {
          StuckIsCurrent(s, u, process.view);
        }
      }
    }
  }

  /** Where one view holds a guard given up on before the flag is up, the others are spent. */
  lemma StuckIsCurrent(s: App, u: nat, v: nat)
    requires Inv(s) && u < |s.views| && Stuck(s.views[u]) && v != u
    ensures s.unconfirmed || s.current != Some(v)
  {
    assert Kept(s, u);
  }

  lemma UnlockingIsQuiet(s: App, p: nat, ok: bool)
    requires Inv(s) && Enabled(s, Continue(p, ok)) && s.processes[p].Release?
    requires var r := s.processes[p].releasing;
             r.WaitingToRelease? || r.Unlocking?
             || (r.Looking?
                 && (s.Of(p).control.None?
                     || (s.processes[p].asker.Some?
                         && s.processes[p].asker.value != s.Of(p).control.value.owner)))
    ensures Inv(ReleaseStep(s, p, ok))
  {
    var s', u := ReleaseStep(s, p, ok), s.processes[p].view;
    assert Placed(s, p);
    if s.Of(p).lock == Some(p) {
      HolderExcludes(s, p);
    }
    assert Quiet(s, s', p, s'.processes[p], s'.views[u]);
    assert Placed(s', p);
    QuietKeeps(s, s', p, s'.processes[p], s'.views[u]);
  }

  lemma ReportKeeps(s: App, p: nat)
    requires Inv(s) && s.At(p) && s.processes[p].Release? && s.processes[p].releasing.Reporting?
    requires s.processes[p].closes
    ensures Inv(ReleaseStep(s, p, true))
  {
    var s', u := ReleaseStep(s, p, true), s.processes[p].view;
    assert Placed(s, p) && Kept(s, u);
    assert Quiet(s, s', p, s'.processes[p], s'.views[u]);
    QuietMoves(s, s', p, s'.processes[p], s'.views[u]);
    if q: nat :| IsSettling(s, q, u) {
      assert IsSettling(s', q, u);
    }
    MoveKeeps(s, s', p);
  }

  lemma ClearKeeps(s: App, p: nat)
    requires Inv(s) && s.At(p) && s.processes[p].Release? && s.processes[p].releasing.Clearing?
    requires s.processes[p].closes
    ensures Inv(ReleaseStep(s, p, true))
  {
    var s', u := ReleaseStep(s, p, true), s.processes[p].view;
    assert Placed(s, p) && Kept(s, u);
    assert s'.views == s.views;
    assert Moves(s, s', p) && StillSpent(s, s', p);
    if q: nat :| IsSettling(s, q, u) {
      assert IsSettling(s', q, u);
    }
    FlagStays(s, s', p);
    MoveKeeps(s, s', p);
  }

  lemma ReleaseKeeps(s: App, p: nat, ok: bool)
    requires Inv(s) && Enabled(s, Continue(p, ok)) && s.processes[p].Release?
    ensures Inv(ReleaseStep(s, p, ok))
  {
    hide Kept, FlagHolds, OneControl, Spent;
    var r, v := s.processes[p], s.Of(p);
    assert Placed(s, p);
    match r.releasing
    case Looking =>
      if v.control.None? || (r.asker.Some? && r.asker.value != v.control.value.owner) {
        UnlockingIsQuiet(s, p, ok);
      } else {
        GuardChangeKeeps(s, p, r.(releasing := Stopping), v.control.value.guard.(valid := false));
      }
    case Stopping =>
      var g := Stopped(v.control.value.guard, ok);
      StoppedOnce(s, p);
      GuardChangeKeeps(s, p, r.(releasing := Settling(g.child.Released?)), g);
    case Settling(confirmed) =>
      if confirmed {
        ConfirmedKeeps(s, p);
      } else {
        UnconfirmedKeeps(s, p);
      }
    case Reporting => ReportKeeps(s, p);
    case Clearing => ClearKeeps(s, p);
    case _ => UnlockingIsQuiet(s, p, ok);
  }

  /** A guard that already ended was given up on: a confirmed one leaves its view before the lock does. */
  lemma StoppedOnce(s: App, p: nat)
    requires Inv(s) && s.At(p) && s.processes[p].Release? && s.processes[p].releasing.Stopping?
    ensures s.Of(p).control.Some? && !s.Of(p).control.value.guard.child.Released?
  {
    var u := s.processes[p].view;
    assert Placed(s, p) && Kept(s, u);
    forall q: nat ensures !IsSettling(s, q, u) {
      if q < |s.processes| {
        assert Placed(s, q);
      }
    }
  }

  // ----- Everything else -----

  /** Nothing but flags, counters and the facts of single guards changed, and views or processes were added. */
  ghost predicate Grows(s: App, s': App) {
    && |s.views| <= |s'.views| && |s.processes| <= |s'.processes|
    && s.processes == s'.processes[..|s.processes|]
    && s.epoch <= s'.epoch && s'.leases == s.leases && s'.unconfirmed == s.unconfirmed
    && (forall p :: |s.processes| <= p < |s'.processes| ==>
                      !Committed(s'.processes[p]) && !Unchecked(s'.processes[p]) && Placed(s', p))
    && (forall v :: 0 <= v < |s.views| ==> SameLease(s.views[v], s'.views[v]))
  }

  ghost predicate SameLease(v: View, v': View) {
    && v'.lock == v.lock && v'.report == v.report && (v.closing ==> v'.closing)
    && (v.control.None? <==> v'.control.None?)
    && (v.control.Some? ==>
          && v'.control.value.guard.child == v.control.value.guard.child
          && v'.control.value.guard.issued == v.control.value.guard.issued
          && v'.control.value.lease == v.control.value.lease)
  }

  lemma GrowsPlaced(s: App, s': App, p: nat)
    requires Inv(s) && Grows(s, s') && p < |s'.processes|
    ensures Placed(s', p)
  {
    if p < |s.processes| {
      assert Placed(s, p) && s'.processes[p] == s.processes[p];
      var process := s.processes[p];
      if !process.Done? && process.view < |s.views| {
        assert SameLease(s.views[process.view], s'.views[process.view]);
        if Spent(s, process.view) {
          GrowsSpent(s, s', process.view);
        }
      }
    }
  }

  lemma GrowsSpent(s: App, s': App, v: nat)
    requires Grows(s, s') && v < |s.views| && Spent(s, v)
    ensures Spent(s', v)
  {
    assert SameLease(s.views[v], s'.views[v]);
    forall p | 0 <= p < |s'.processes| && Committed(s'.processes[p]) ensures s'.processes[p].view != v {
      assert p < |s.processes| && s'.processes[p] == s.processes[p];
    }
  }

  lemma GrowsKept(s: App, s': App, v: nat)
    requires Inv(s) && Grows(s, s') && v < |s.views| && (s'.current == Some(v) || s.current != Some(v))
    ensures Kept(s', v)
  {
    assert Kept(s, v) && SameLease(s.views[v], s'.views[v]);
    if Spent(s, v) {
      GrowsSpent(s, s', v);
    }
    if q: nat :| IsSettling(s, q, v) {
      assert s'.processes[..|s.processes|][q] == s.processes[q];
      assert IsSettling(s', q, v);
    }
  }

  lemma GrowsFlag(s: App, s': App)
    requires Inv(s) && Grows(s, s')
    ensures FlagHolds(s')
  {
    if s'.unconfirmed {
      forall p | 0 <= p < |s'.processes|
        ensures !Committed(s'.processes[p])
        ensures Unchecked(s'.processes[p]) && s'.processes[p].view < |s'.views| ==>
                  s'.views[s'.processes[p].view].closing || Stuck(s'.views[s'.processes[p].view])
      {
        if p < |s.processes| {
          var process := s.processes[p];
          assert s'.processes[p] == process && Placed(s, p);
          if process.Acquire? {
            assert SameLease(s.views[process.view], s'.views[process.view]);
          }
        }
      }
    }
  }

  lemma GrowsKeeps(s: App, s': App)
    requires Inv(s) && Grows(s, s') && OneControl(s')
    requires s'.current.Some? ==> s'.current.value < |s'.views|
    requires forall v :: 0 <= v < |s.views| ==> s'.current == Some(v) || s.current != Some(v)
    requires forall v :: |s.views| <= v < |s'.views| ==> Kept(s', v)
    ensures Inv(s')
  {
    hide Placed, Kept, OneControl, Grows, FlagHolds;
    GrowsLonger(s, s');
    forall p | 0 <= p < |s'.processes| ensures Placed(s', p) {
      GrowsPlaced(s, s', p);
    }
    forall v | 0 <= v < |s'.views| ensures Kept(s', v) {
      if v < |s.views| {
        GrowsKept(s, s', v);
      }
    }
    GrowsFlag(s, s');
  }

  lemma GrowsLonger(s: App, s': App)
    requires Grows(s, s')
    ensures |s.views| <= |s'.views|
  {
  }

  lemma OpenKeeps(s: App)
    requires Inv(s) && Enabled(s, Open)
    ensures Inv(Next(s, Open))
  {
    var s' := Next(s, Open);
    assert s'.processes[..|s.processes|] == s.processes;
    assert Grows(s, s');
    GrowsKeeps(s, s');
  }

  lemma OthersKeep(s: App, step: Step)
    requires Inv(s) && Enabled(s, step) && !step.Continue? && !step.Open?
    ensures Inv(Next(s, step))
  {
    hide Kept, Placed, Spent, FlagHolds, Grows, SameLease;
    OthersGrow(s, step);
    GrowsKeeps(s, Next(s, step));
  }

  lemma OthersGrow(s: App, step: Step)
    requires Enabled(s, step) && !step.Continue? && !step.Open?
    ensures Grows(s, Next(s, step))
  {
    var s' := Next(s, step);
    assert s'.processes[..|s.processes|] == s.processes;
    forall p | |s.processes| <= p < |s'.processes|
      ensures !Committed(s'.processes[p]) && !Unchecked(s'.processes[p]) && Placed(s', p)
    {
      assert p == |s.processes| && s'.processes[p] == s'.processes[|s.processes|];
    }
  }

  lemma StepKeeps(s: App, step: Step)
    requires Inv(s) && Enabled(s, step)
    ensures Inv(Next(s, step))
  {
    hide Inv;
    match step
    case Open => OpenKeeps(s);
    case Continue(p, ok) =>
      if s.processes[p].Acquire? {
        AcquireKeeps(s, p, ok);
      } else {
        ReleaseKeeps(s, p, ok);
      }
    case _ => OthersKeep(s, step);
  }

  lemma {:induction false} AlwaysInv(shared: bool, allowControl: bool, steps: seq<Step>)
    ensures var s := After(Initial(shared, allowControl), steps); s.Some? ==> Inv(s.value)
  {
    hide Next, Enabled;
    if steps != [] {
      var n := |steps| - 1;
      AlwaysInv(shared, allowControl, steps[..n]);
      var before := After(Initial(shared, allowControl), steps[..n]);
      if before.Some? && Enabled(before.value, steps[n]) {
        StepKeeps(before.value, steps[n]);
      }
    }
  }

  // ----- What holds in every run -----

  // ----- Every guard ever committed -----

  /** The history of the guards: a commit adds one, and the stop in its slot says how it ended. */
  function Noted(record: seq<Child>, s: App, step: Step): seq<Child>
    requires Enabled(s, step)
  {
    if !step.Continue? then record
    else
      var process := s.processes[step.process];
      if process.Acquire? && process.acquiring.Committing? then record + [process.acquiring.guard.child]
      else if process.Release? && process.releasing.Stopping? && s.Of(step.process).control.Some? then
        var c := s.Of(step.process).control.value;
        if 0 < c.lease <= |record| then record[c.lease - 1 := Stopped(c.guard, step.ok).child] else record
      else record
  }

  /** How each guard ever committed stands after `steps`; the one of lease n is at n - 1. */
  function Record(s: App, steps: seq<Step>): seq<Child> {
    if steps == [] then []
    else
      var n := |steps| - 1;
      var before := After(s, steps[..n]);
      if before.None? || !Enabled(before.value, steps[n]) then Record(s, steps[..n])
      else Noted(Record(s, steps[..n]), before.value, steps[n])
  }

  ghost predicate InSlot(s: App, v: nat, lease: nat) {
    v < |s.views| && s.views[v].control.Some? && s.views[v].control.value.lease == lease
  }

  ghost predicate Slotted(s: App, lease: nat) {
    exists v: nat :: InSlot(s, v, lease)
  }

  /** The slots agree with the record, and whoever is not released is in one. */
  ghost predicate Recorded(s: App, record: seq<Child>) {
    && |record| == s.leases
    && (forall v :: 0 <= v < |s.views| && s.views[v].control.Some? ==>
                      var c := s.views[v].control.value;
                      0 < c.lease <= |record| && record[c.lease - 1] == c.guard.child)
    && (forall i :: 0 <= i < |record| && !record[i].Released? ==> Slotted(s, i + 1))
  }

  /** No slot was touched beyond the facts of its guard. */
  ghost predicate SameSlots(s: App, s': App) {
    && s'.leases == s.leases && |s.views| <= |s'.views|
    && (forall v :: 0 <= v < |s.views| ==> SlotSame(s.views[v], s'.views[v]))
    && (forall v :: |s.views| <= v < |s'.views| ==> s'.views[v].control.None?)
  }

  ghost predicate SlotSame(v: View, v': View) {
    && (v.control.None? <==> v'.control.None?)
    && (v.control.Some? ==> v'.control.value.lease == v.control.value.lease
                            && v'.control.value.guard.child == v.control.value.guard.child)
  }

  lemma SameSlotsRecorded(s: App, s': App, record: seq<Child>)
    requires Recorded(s, record) && SameSlots(s, s')
    ensures Recorded(s', record)
  {
    forall v | 0 <= v < |s'.views| && s'.views[v].control.Some?
      ensures var c := s'.views[v].control.value; 0 < c.lease <= |record| && record[c.lease - 1] == c.guard.child
    {
      assert SlotSame(s.views[v], s'.views[v]);
    }
    forall i | 0 <= i < |record| && !record[i].Released? ensures Slotted(s', i + 1) {
      var v: nat :| InSlot(s, v, i + 1);
      assert SlotSame(s.views[v], s'.views[v]) && InSlot(s', v, i + 1);
    }
  }

  /** Which steps touch a slot. */
  predicate TouchesSlot(s: App, step: Step)
    requires Enabled(s, step)
  {
    step.Continue?
    && var process := s.processes[step.process];
       || (process.Acquire? && process.acquiring.Committing?)
       || (process.Release? && (process.releasing.Stopping? || process.releasing == Settling(true)))
  }

  lemma OthersLeaveSlots(s: App, step: Step)
    requires Enabled(s, step) && !TouchesSlot(s, step)
    ensures SameSlots(s, Next(s, step))
  {
    match step
    case Continue(p, ok) =>
      if s.processes[p].Acquire? {
        AcquireLeavesSlots(s, p, ok);
      } else {
        ReleaseLeavesSlots(s, p, ok);
      }
    case _ =>
  }

  lemma AcquireLeavesSlots(s: App, p: nat, ok: bool)
    requires s.At(p) && s.processes[p].Acquire? && !s.processes[p].acquiring.Committing?
    ensures SameSlots(s, AcquireStep(s, p, ok))
  {
  }

  lemma ReleaseLeavesSlots(s: App, p: nat, ok: bool)
    requires s.At(p) && s.processes[p].Release?
    requires !s.processes[p].releasing.Stopping? && s.processes[p].releasing != Settling(true)
    ensures SameSlots(s, ReleaseStep(s, p, ok))
  {
    hide SlotSame;
    var s', u := ReleaseStep(s, p, ok), s.processes[p].view;
    ReleaseLeavesView(s, p, ok);
    forall v | 0 <= v < |s.views| ensures SlotSame(s.views[v], s'.views[v]) {
      if v != u {
        SlotIsItself(s.views[v]);
      }
    }
  }

  lemma SlotIsItself(v: View)
    ensures SlotSame(v, v)
  {
  }

  lemma ReleaseLeavesView(s: App, p: nat, ok: bool)
    requires s.At(p) && s.processes[p].Release?
    requires !s.processes[p].releasing.Stopping? && s.processes[p].releasing != Settling(true)
    ensures var s', u := ReleaseStep(s, p, ok), s.processes[p].view;
            && |s'.views| == |s.views| && s'.leases == s.leases && SlotSame(s.views[u], s'.views[u])
            && forall v :: 0 <= v < |s.views| && v != u ==> s'.views[v] == s.views[v]
  {
  }

  /** Where a view has a lease, no other lease is in a slot. */
  lemma OnlySlot(s: App, u: nat)
    requires OneControl(s) && u < |s.views| && s.views[u].control.Some?
    ensures forall lease: nat :: Slotted(s, lease) ==> lease == s.views[u].control.value.lease
  {
  }

  lemma NoSlot(s: App)
    requires forall u :: 0 <= u < |s.views| ==> s.views[u].control.None?
    ensures forall lease: nat :: !Slotted(s, lease)
  {
  }

  lemma CommitRecorded(s: App, p: nat, ok: bool, record: seq<Child>)
    requires Inv(s) && s.At(p) && Recorded(s, record)
    requires s.processes[p].Acquire? && s.processes[p].acquiring.Committing?
    ensures Recorded(AcquireStep(s, p, ok), record + [s.processes[p].acquiring.guard.child])
  {
    hide Slotted, Placed, Kept, FlagHolds;
    CommittedIsCurrent(s, p);
    NoSlot(s);
    var s', u := AcquireStep(s, p, ok), s.processes[p].view;
    InSlotIsSlotted(s', u, |record| + 1);
  }

  lemma InSlotIsSlotted(s: App, v: nat, lease: nat)
    requires InSlot(s, v, lease)
    ensures Slotted(s, lease)
  {
  }

  lemma StopRecorded(s: App, p: nat, ok: bool, record: seq<Child>)
    requires Inv(s) && Enabled(s, Continue(p, ok)) && Recorded(s, record)
    requires s.processes[p].Release? && s.processes[p].releasing.Stopping?
    ensures Recorded(ReleaseStep(s, p, ok), Noted(record, s, Continue(p, ok)))
  {
    hide Slotted, Placed, Kept, FlagHolds;
    StoppedOnce(s, p);
    var s', u := ReleaseStep(s, p, ok), s.processes[p].view;
    OnlySlot(s, u);
    InSlotIsSlotted(s', u, s.views[u].control.value.lease);
  }

  lemma SettleRecorded(s: App, p: nat, ok: bool, record: seq<Child>)
    requires Inv(s) && Enabled(s, Continue(p, ok)) && Recorded(s, record)
    requires s.processes[p].Release? && s.processes[p].releasing == Settling(true)
    ensures Recorded(ReleaseStep(s, p, ok), record)
  {
    hide Slotted, Kept, FlagHolds, Spent;
    assert Placed(s, p);
    OnlySlot(s, s.processes[p].view);
  }

  lemma StepRecorded(s: App, step: Step, record: seq<Child>)
    requires Inv(s) && Enabled(s, step) && Recorded(s, record)
    ensures Recorded(Next(s, step), Noted(record, s, step))
  {
    hide Inv, Recorded, SameSlots;
    if !TouchesSlot(s, step) {
      OthersLeaveSlots(s, step);
      SameSlotsRecorded(s, Next(s, step), record);
    } else if s.processes[step.process].Acquire? {
      CommitRecorded(s, step.process, step.ok, record);
    } else if s.processes[step.process].releasing.Stopping? {
      StopRecorded(s, step.process, step.ok, record);
    } else {
      SettleRecorded(s, step.process, step.ok, record);
    }
  }

  lemma {:induction false} AlwaysRecorded(shared: bool, allowControl: bool, steps: seq<Step>)
    ensures var s0 := Initial(shared, allowControl);
            After(s0, steps).Some? ==> Recorded(After(s0, steps).value, Record(s0, steps))
  {
    hide Next, Enabled, Noted;
    if steps == [] {
      NothingRecorded(shared, allowControl);
    } else {
      hide Recorded;
      var n := |steps| - 1;
      AlwaysRecorded(shared, allowControl, steps[..n]);
      AlwaysInv(shared, allowControl, steps[..n]);
      var before := After(Initial(shared, allowControl), steps[..n]);
      if before.Some? && Enabled(before.value, steps[n]) {
        StepRecorded(before.value, steps[n], Record(Initial(shared, allowControl), steps[..n]));
      }
    }
  }

  lemma NothingRecorded(shared: bool, allowControl: bool)
    ensures Recorded(Initial(shared, allowControl), [])
  {
  }

  /**
   * Of all guards ever committed, in any view, at most one is not confirmed
   * released, and that one is in the slot of its view.
   */
  lemma OneUnreleasedGuard(shared: bool, allowControl: bool, steps: seq<Step>)
    ensures var s, record := After(Initial(shared, allowControl), steps), Record(Initial(shared, allowControl), steps);
            s.Some? ==>
              && |record| == s.value.leases
              && (forall i, j :: 0 <= i < |record| && 0 <= j < |record| && !record[i].Released? && !record[j].Released?
                                 ==> i == j)
              && (forall i :: 0 <= i < |record| && !record[i].Released? ==> Slotted(s.value, i + 1))
              && (forall v :: 0 <= v < |s.value.views| && s.value.views[v].control.Some? ==>
                                var c := s.value.views[v].control.value;
                                0 < c.lease <= |record| && record[c.lease - 1] == c.guard.child)
  {
    hide Inv, After, Record;
    AlwaysInv(shared, allowControl, steps);
    AlwaysRecorded(shared, allowControl, steps);
    var s, record := After(Initial(shared, allowControl), steps), Record(Initial(shared, allowControl), steps);
    if s.Some? {
      AtMostOne(s.value, record);
    }
  }

  lemma AtMostOne(s: App, record: seq<Child>)
    requires Inv(s) && Recorded(s, record)
    ensures forall i, j :: 0 <= i < |record| && 0 <= j < |record| && !record[i].Released? && !record[j].Released?
                           ==> i == j
  {
    hide Placed, Kept, FlagHolds, OneControl, Slotted;
    forall i, j | 0 <= i < |record| && 0 <= j < |record| && !record[i].Released? && !record[j].Released?
      ensures i == j
    {
      var u := SlotOf(s, i + 1);
      OnlySlot(s, u);
    }
  }

  lemma SlotOf(s: App, lease: nat) returns (v: nat)
    requires Slotted(s, lease)
    ensures InSlot(s, v, lease)
  {
    v :| InSlot(s, v, lease);
  }

  /** A guard leaves its slot only once its process is confirmed ended, and the slot is empty then. */
  lemma LeavesOnlyReleased(shared: bool, allowControl: bool, steps: seq<Step>, step: Step, v: nat)
    ensures var s := After(Initial(shared, allowControl), steps);
            s.Some? && Enabled(s.value, step) && v < |s.value.views| && s.value.views[v].control.Some? ==>
              var c, after := s.value.views[v].control.value, Next(s.value, step).views[v].control;
              if after.None? then c.guard.child.Released? else after.value.lease == c.lease
  {
    AlwaysInv(shared, allowControl, steps);
    var s := After(Initial(shared, allowControl), steps);
    if s.Some? && Enabled(s.value, step) && v < |s.value.views| && s.value.views[v].control.Some? {
      SlotKeepsOrReleases(s.value, step, v);
    }
  }

  lemma SlotKeepsOrReleases(s: App, step: Step, v: nat)
    requires Inv(s) && Enabled(s, step) && v < |s.views| && s.views[v].control.Some?
    ensures v < |Next(s, step).views|
    ensures var c, after := s.views[v].control.value, Next(s, step).views[v].control;
            if after.None? then c.guard.child.Released? else after.value.lease == c.lease
  {
    hide Kept, FlagHolds, OneControl, Spent;
    if !TouchesSlot(s, step) {
      OthersLeaveSlots(s, step);
      assert SlotSame(s.views[v], Next(s, step).views[v]);
    } else if s.processes[step.process].Acquire? {
      CommittedIsCurrent(s, step.process);
    } else {
      assert Placed(s, step.process);
    }
  }

  // ----- Who may end a lease, and when one is granted -----

  /** Whoever stops a guard by name is its owner. */
  ghost predicate Asked(s: App) {
    forall p :: 0 <= p < |s.processes| ==> AskedAt(s, p)
  }

  ghost predicate AskedAt(s: App, p: nat)
    requires p < |s.processes|
  {
    var r := s.processes[p];
    r.Release? && (r.releasing.Stopping? || r.releasing.Settling?) && r.asker.Some? ==>
      r.view < |s.views| && s.views[r.view].control.Some? && s.views[r.view].control.value.owner == r.asker.value
  }

  /** A process leaves alone the control slots of other views, and of its own while another holds the lock. */
  lemma ForeignSlot(s: App, p: nat, ok: bool, v: nat)
    requires Enabled(s, Continue(p, ok)) && Placed(s, p) && v < |s.views|
    requires s.processes[p].view != v || (s.views[v].lock.Some? && s.views[v].lock != Some(p))
    ensures var s' := Next(s, Continue(p, ok)); v < |s'.views| && s'.views[v].control == s.views[v].control
  {
    hide Spent;
    if s.processes[p].Acquire? {
      ForeignAcquire(s, p, ok, v);
    } else {
      ForeignRelease(s, p, ok, v);
    }
  }

  lemma ForeignAcquire(s: App, p: nat, ok: bool, v: nat)
    requires Enabled(s, Continue(p, ok)) && v < |s.views| && s.processes[p].Acquire?
    requires HoldsLock(s.processes[p]) ==> s.Of(p).lock == Some(p)
    requires s.processes[p].view != v || (s.views[v].lock.Some? && s.views[v].lock != Some(p))
    ensures var s' := AcquireStep(s, p, ok); v < |s'.views| && s'.views[v].control == s.views[v].control
  {
  }

  lemma ForeignRelease(s: App, p: nat, ok: bool, v: nat)
    requires Enabled(s, Continue(p, ok)) && v < |s.views| && s.processes[p].Release?
    requires HoldsLock(s.processes[p]) ==> s.Of(p).lock == Some(p)
    requires s.processes[p].view != v || (s.views[v].lock.Some? && s.views[v].lock != Some(p))
    ensures var s' := ReleaseStep(s, p, ok); v < |s'.views| && s'.views[v].control == s.views[v].control
  {
    if s.processes[p].view != v {
      hide ReleaseStep;
      ReleaseMoves(s, p, ok);
    }
  }

  /** The next step of a release finds, or keeps, the lease of the one who asked. */
  lemma AskerStays(s: App, p: nat, ok: bool)
    requires Enabled(s, Continue(p, ok)) && AskedAt(s, p)
    ensures var s' := Next(s, Continue(p, ok)); p < |s'.processes| && AskedAt(s', p)
  {
    hide AcquireStep, ReleaseStep;
    if s.processes[p].Acquire? {
      AcquireStaysAcquire(s, p, ok);
    } else {
      ReleaserStays(s, p, ok);
    }
  }

  lemma ReleaserStays(s: App, p: nat, ok: bool)
    requires s.At(p) && s.processes[p].Release? && AskedAt(s, p)
    ensures var s' := ReleaseStep(s, p, ok); p < |s'.processes| && AskedAt(s', p)
  {
    hide ReleaseStep;
    var r := s.processes[p].releasing;
    if r.Looking? || r.Stopping? {
      AskerNext(s, p, ok);
    } else {
      SettlingEnds(s, p, ok);
    }
  }

  lemma AskerNext(s: App, p: nat, ok: bool)
    requires s.At(p) && s.processes[p].Release? && AskedAt(s, p)
    requires s.processes[p].releasing.Looking? || s.processes[p].releasing.Stopping?
    ensures var s' := ReleaseStep(s, p, ok); p < |s'.processes| && AskedAt(s', p)
  {
  }

  lemma SettlingEnds(s: App, p: nat, ok: bool)
    requires s.At(p) && s.processes[p].Release?
    requires !s.processes[p].releasing.Looking? && !s.processes[p].releasing.Stopping?
    ensures var s' := ReleaseStep(s, p, ok);
            p < |s'.processes|
            && !(s'.processes[p].Release?
                 && (s'.processes[p].releasing.Stopping? || s'.processes[p].releasing.Settling?))
  {
  }

  lemma AcquireStaysAcquire(s: App, p: nat, ok: bool)
    requires s.At(p) && s.processes[p].Acquire?
    ensures var s' := AcquireStep(s, p, ok); p < |s'.processes| && !s'.processes[p].Release?
  {
  }

  lemma OtherAskersStay(s: App, p: nat, ok: bool, q: nat)
    requires Inv(s) && Enabled(s, Continue(p, ok)) && q < |s.processes| && q != p && AskedAt(s, q)
    ensures var s' := Next(s, Continue(p, ok)); q < |s'.processes| && AskedAt(s', q)
  {
    hide Kept, FlagHolds, OneControl, Spent;
    assert Placed(s, p) && Placed(s, q);
    OtherProcess(s, p, ok, q);
    var r := s.processes[q];
    if r.Release? && (r.releasing.Stopping? || r.releasing.Settling?) {
      ForeignSlot(s, p, ok, r.view);
    }
  }

  lemma OtherProcess(s: App, p: nat, ok: bool, q: nat)
    requires Enabled(s, Continue(p, ok)) && q < |s.processes| && q != p
    ensures var s' := Next(s, Continue(p, ok));
            |s'.processes| == |s.processes| && |s'.views| == |s.views| && s'.processes[q] == s.processes[q]
  {
    hide AcquireStep, ReleaseStep;
    StepMoves(s, p, ok);
  }

  /** A step of a process replaces that process and its view. */
  ghost predicate Replaces(s: App, s': App, p: nat) {
    && s.At(p) && |s'.processes| == |s.processes| && |s'.views| == |s.views|
    && s'.processes == s.processes[p := s'.processes[p]]
    && s'.views == s.views[s.processes[p].view := s'.views[s.processes[p].view]]
  }

  lemma StepMoves(s: App, p: nat, ok: bool)
    requires Enabled(s, Continue(p, ok))
    ensures Replaces(s, Next(s, Continue(p, ok)), p)
  {
    hide AcquireStep, ReleaseStep, Replaces;
    if s.processes[p].Acquire? {
      AcquireMoves(s, p, ok);
    } else {
      ReleaseMoves(s, p, ok);
    }
  }

  lemma AcquireMoves(s: App, p: nat, ok: bool)
    requires s.At(p) && s.processes[p].Acquire?
    ensures Replaces(s, AcquireStep(s, p, ok), p)
  {
  }

  lemma ReleaseMoves(s: App, p: nat, ok: bool)
    requires s.At(p) && s.processes[p].Release?
    ensures Replaces(s, ReleaseStep(s, p, ok), p)
  {
  }

  lemma SameOwners(s: App, step: Step, v: nat)
    requires Enabled(s, step) && !step.Continue? && v < |s.views| && s.views[v].control.Some?
    ensures var s' := Next(s, step);
            v < |s'.views| && s'.views[v].control.Some?
            && s'.views[v].control.value.owner == s.views[v].control.value.owner
            && (s'.views[v].control == s.views[v].control
                || (step.Invalidate? && step.view == v) || (step.Expire? && step.view == v))
  {
  }

  lemma NewProcessesAskNothing(s: App, step: Step, p: nat)
    requires Enabled(s, step) && !step.Continue? && p < |Next(s, step).processes|
    ensures if p < |s.processes| then Next(s, step).processes[p] == s.processes[p]
            else !Next(s, step).processes[p].Release? || Next(s, step).processes[p].releasing.WaitingToRelease?
  {
  }

  lemma StepAsked(s: App, step: Step)
    requires Inv(s) && Enabled(s, step) && Asked(s)
    ensures Asked(Next(s, step))
  {
    hide Inv, Next;
    forall p | 0 <= p < |Next(s, step).processes| ensures AskedAt(Next(s, step), p) {
      if !step.Continue? {
        NewProcessesAskNothing(s, step, p);
        if p < |s.processes| {
          assert AskedAt(s, p);
          var r := s.processes[p];
          if r.Release? && (r.releasing.Stopping? || r.releasing.Settling?) && r.asker.Some? {
            SameOwners(s, step, r.view);
          }
        }
      } else {
        SameProcesses(s, step);
        assert AskedAt(s, p);
        if p == step.process {
          AskerStays(s, p, step.ok);
        } else {
          OtherAskersStay(s, step.process, step.ok, p);
        }
      }
    }
  }

  lemma SameProcesses(s: App, step: Step)
    requires Enabled(s, step) && step.Continue?
    ensures |Next(s, step).processes| == |s.processes|
  {
    hide AcquireStep, ReleaseStep;
    StepMoves(s, step.process, step.ok);
  }

  lemma {:induction false} AlwaysAsked(shared: bool, allowControl: bool, steps: seq<Step>)
    ensures var s := After(Initial(shared, allowControl), steps); s.Some? ==> Asked(s.value)
  {
    hide Next, Enabled, AskedAt;
    if steps != [] {
      var n := |steps| - 1;
      AlwaysAsked(shared, allowControl, steps[..n]);
      AlwaysInv(shared, allowControl, steps[..n]);
      var before := After(Initial(shared, allowControl), steps[..n]);
      if before.Some? && Enabled(before.value, steps[n]) {
        StepAsked(before.value, steps[n]);
      }
    }
  }

  /**
   * Whatever happens, a lease changes only by what invalidates or expires its
   * guard, or by a release of its view that its owner asked for or that names
   * nobody, as a close does.
   */
  lemma OnlyOwnerEnds(shared: bool, allowControl: bool, steps: seq<Step>, step: Step, v: nat)
    ensures var s := After(Initial(shared, allowControl), steps);
            s.Some? && Enabled(s.value, step) && v < |s.value.views| && s.value.views[v].control.Some?
            && v < |Next(s.value, step).views| && Next(s.value, step).views[v].control != s.value.views[v].control ==>
              match step
              case Invalidate(u) => u == v
              case Expire(u) => u == v
              case Continue(p, _) =>
                var r := s.value.processes[p];
                r.Release? && r.view == v
                && (r.asker.None? || r.asker.value == s.value.views[v].control.value.owner)
              case _ => false
  {
    hide Inv, Asked;
    AlwaysInv(shared, allowControl, steps);
    AlwaysAsked(shared, allowControl, steps);
    var s := After(Initial(shared, allowControl), steps);
    if s.Some? && Enabled(s.value, step) && v < |s.value.views| && s.value.views[v].control.Some? {
      if step.Continue? {
        OwnerStep(s.value, step.process, step.ok, v);
      } else {
        SameOwners(s.value, step, v);
      }
    }
  }

  lemma OwnerStep(s: App, p: nat, ok: bool, v: nat)
    requires Inv(s) && Asked(s) && Enabled(s, Continue(p, ok)) && v < |s.views| && s.views[v].control.Some?
    ensures v < |Next(s, Continue(p, ok)).views|
    ensures Next(s, Continue(p, ok)).views[v].control != s.views[v].control ==>
              var r := s.processes[p];
              r.Release? && r.view == v && (r.asker.None? || r.asker.value == s.views[v].control.value.owner)
  {
    hide Kept, FlagHolds, OneControl, Spent;
    assert Placed(s, p) && AskedAt(s, p);
    if s.processes[p].view != v {
      ForeignSlot(s, p, ok, v);
    } else if s.processes[p].Acquire? {
      if Committed(s.processes[p]) {
        CommittedIsCurrent(s, p);
      } else {
        AcquireLeavesSlot(s, p, ok);
      }
    }
  }

  lemma AcquireLeavesSlot(s: App, p: nat, ok: bool)
    requires s.At(p) && s.processes[p].Acquire? && !Committed(s.processes[p])
    ensures var s', v := AcquireStep(s, p, ok), s.processes[p].view;
            v < |s'.views| && s'.views[v].control == s.views[v].control
  {
  }

  /** What an acquire finds at each of its checks before it goes on. */
  lemma GrantsExactly(s: App, p: nat, ok: bool)
    requires s.At(p) && s.processes[p].Acquire?
    ensures var a, v, next := s.processes[p].acquiring, s.Of(p), AcquireStep(s, p, ok).processes[p];
            && (a.Reading? ==> next == s.processes[p].(acquiring := CheckingFlag(s.epoch)))
            && (a.CheckingFlag? ==>
                  (next == s.processes[p].(acquiring := WaitingToAcquire(a.issued)) <==> ok && !s.unconfirmed))
            && (a.Rechecking? ==>
                  (next == s.processes[p].(acquiring := Starting(a.issued))
                   <==> ok && !v.closing && s.shared && s.allowControl && a.issued == s.epoch && v.control.None?))
            && (a.Starting? ==>
                  (next == s.processes[p].(acquiring := Confirming(Guard(a.issued, true, false, Running))) <==> ok))
            && (a.Confirming? ==>
                  (next == s.processes[p].(acquiring := Committing(a.guard))
                   <==> ok && !v.closing && s.shared && s.allowControl
                        && a.guard.valid && !a.guard.expired && a.guard.issued == s.epoch))
  {
  }

  /** The one committed is the one who asked, and every lease has its own number. */
  lemma CommitsForAsker(s: App, p: nat, ok: bool)
    requires s.At(p) && s.processes[p].Acquire? && s.processes[p].acquiring.Committing?
    ensures var s' := AcquireStep(s, p, ok);
            s'.leases == s.leases + 1
            && s'.views[s.processes[p].view].control
               == Some(Control(s.processes[p].owner, s'.leases, s.processes[p].acquiring.guard.(valid := ok)))
  {
  }

  /** What a release finds and does, up to giving the lock back. */
  lemma ReleasesExactly(s: App, p: nat, ok: bool)
    requires s.At(p) && s.processes[p].Release?
    ensures var r, v, s' := s.processes[p], s.Of(p), ReleaseStep(s, p, ok);
            var next, v' := s'.processes[p], s'.views[r.view];
            && (r.releasing.Looking? ==>
                  (next == r.(releasing := Stopping)
                   <==> v.control.Some? && (r.asker.None? || r.asker.value == v.control.value.owner))
                  && (next == r.(releasing := Stopping) ==> v'.control.Some? && !v'.control.value.guard.valid)
                  && (next != r.(releasing := Stopping) ==> v' == v && next == r.(releasing := Unlocking)))
            && (r.releasing.Stopping? && v.control.Some? ==>
                  && v'.control.Some? && !v'.control.value.guard.valid
                  && v'.control.value.guard.child
                     == (if v.control.value.guard.child.Running? then if ok then Released else Unconfirmed
                         else v.control.value.guard.child)
                  && next == r.(releasing := Settling(v'.control.value.guard.child.Released?)))
            && (r.releasing.Settling? ==>
                  && next == r.(releasing := Unlocking)
                  && if r.releasing.confirmed then v'.control.None? && s'.unconfirmed == s.unconfirmed
                     else v' == v && s'.unconfirmed)
  {
  }

  /** An acquire waits for the lock, and gives it back when it ends. */
  lemma AcquireReturnsLock(s: App, p: nat, ok: bool)
    requires Enabled(s, Continue(p, ok)) && s.processes[p].Acquire?
    ensures var was, s' := s.processes[p], AcquireStep(s, p, ok);
            && (WaitsForLock(was) ==> s.Of(p).lock.None? && s'.views[was.view].lock == Some(p))
            && (HoldsLock(was) && !HoldsLock(s'.processes[p]) ==> s'.views[was.view].lock.None?)
            && (HoldsLock(s'.processes[p]) && !HoldsLock(was) ==> WaitsForLock(was))
  {
  }

  /** So does a release. */
  lemma ReleaseReturnsLock(s: App, p: nat, ok: bool)
    requires Enabled(s, Continue(p, ok)) && s.processes[p].Release?
    ensures var was, s' := s.processes[p], ReleaseStep(s, p, ok);
            && (WaitsForLock(was) ==> s.Of(p).lock.None? && s'.views[was.view].lock == Some(p))
            && (HoldsLock(was) && !HoldsLock(s'.processes[p]) ==> s'.views[was.view].lock.None?)
            && (HoldsLock(s'.processes[p]) && !HoldsLock(was) ==> WaitsForLock(was))
  {
  }

  /** A close marks its view at once, releases without naming an owner, reports, and makes room for another view. */
  lemma ClosesExactly(s: App, v: nat, p: nat)
    ensures Enabled(s, StartClose(v)) <==> v < |s.views| && !s.views[v].closing
    ensures Enabled(s, StartClose(v)) ==>
              var s' := Next(s, StartClose(v));
              s'.views == s.views[v := s.views[v].(closing := true)]
              && s'.processes == s.processes + [Release(v, None, true, WaitingToRelease)]
    ensures s.At(p) && s.processes[p].Release? ==>
              var r, s' := s.processes[p], ReleaseStep(s, p, true);
              && (r.releasing.Unlocking? ==>
                    s'.processes[p] == if r.closes then r.(releasing := Reporting) else Done)
              && (r.releasing.Reporting? ==>
                    s'.processes[p] == r.(releasing := Clearing)
                    && s'.views[r.view].report == if s.unconfirmed then ToldUnconfirmed else ToldReleased)
              && (r.releasing.Clearing? ==>
                    s'.processes[p] == Done
                    && s'.current == if s.current == Some(r.view) then None else s.current)
  {
  }

  /** A view opens only while sharing is on and none is current. */
  lemma OpensExactly(s: App)
    ensures Enabled(s, Open) <==> s.shared && s.current.None?
    ensures s.shared && s.current.None? ==>
              var s' := Next(s, Open);
              s'.current == Some(|s.views|) && s'.views == s.views + [View(false, None, None, Pending)]
  {
  }

  /** What is on record of a guard that ended never changes again. */
  lemma {:induction false} EndedIsFinal(shared: bool, allowControl: bool, before: seq<Step>, more: seq<Step>, i: nat)
    ensures var s0 := Initial(shared, allowControl);
            var was, now := Record(s0, before), Record(s0, before + more);
            After(s0, before + more).Some? && i < |was| ==> i < |now| && (!was[i].Running? ==> now[i] == was[i])
  {
    hide Next, Enabled, Noted;
    if more == [] {
      assert before + more == before;
    } else {
      var n := |more| - 1;
      var s0 := Initial(shared, allowControl);
      assert (before + more)[..|before| + n] == before + more[..n];
      EndedIsFinal(shared, allowControl, before, more[..n], i);
      AlwaysInv(shared, allowControl, before + more[..n]);
      AlwaysRecorded(shared, allowControl, before + more[..n]);
      var s := After(s0, before + more[..n]);
      if s.Some? && Enabled(s.value, more[n]) {
        NotedIsFinal(s.value, more[n], Record(s0, before + more[..n]));
      }
    }
  }

  lemma NotedIsFinal(s: App, step: Step, record: seq<Child>)
    requires Inv(s) && Enabled(s, step) && Recorded(s, record)
    ensures var noted := Noted(record, s, step);
            |record| <= |noted| && forall i :: 0 <= i < |record| && !record[i].Running? ==> noted[i] == record[i]
  {
    hide Inv;
  }

  /** Once a release could not be confirmed, no lease is ever committed again. */
  lemma {:induction false} NoLeaseAfterUnconfirmed(shared: bool, allowControl: bool, before: seq<Step>, more: seq<Step>)
    ensures var s := After(Initial(shared, allowControl), before);
            var t := After(Initial(shared, allowControl), before + more);
            s.Some? && s.value.unconfirmed && t.Some? ==> t.value.unconfirmed && t.value.leases == s.value.leases
  {
    hide Next, Enabled;
    if more == [] {
      assert before + more == before;
    } else {
      var n := |more| - 1;
      assert (before + more)[..|before| + n] == before + more[..n];
      NoLeaseAfterUnconfirmed(shared, allowControl, before, more[..n]);
      AlwaysInv(shared, allowControl, before + more[..n]);
      var s := After(Initial(shared, allowControl), before + more[..n]);
      if s.Some? && Enabled(s.value, more[n]) && s.value.unconfirmed {
        NoCommit(s.value, more[n]);
      }
    }
  }

  lemma NoCommit(s: App, step: Step)
    requires Inv(s) && Enabled(s, step) && s.unconfirmed
    ensures Next(s, step).unconfirmed && Next(s, step).leases == s.leases
  {
    hide Placed, Kept, OneControl, AcquireStep, ReleaseStep, Committed;
    if step.Continue? {
      assert !Committed(s.processes[step.process]);
      if s.processes[step.process].Acquire? {
        AcquireCommitsNothing(s, step.process, step.ok);
      } else {
        ReleaseCommitsNothing(s, step.process, step.ok);
      }
    }
  }

  lemma AcquireCommitsNothing(s: App, p: nat, ok: bool)
    requires s.At(p) && s.processes[p].Acquire? && !Committed(s.processes[p])
    ensures AcquireStep(s, p, ok).unconfirmed == s.unconfirmed && AcquireStep(s, p, ok).leases == s.leases
  {
  }

  lemma ReleaseCommitsNothing(s: App, p: nat, ok: bool)
    requires s.At(p) && s.processes[p].Release?
    ensures (s.unconfirmed ==> ReleaseStep(s, p, ok).unconfirmed) && ReleaseStep(s, p, ok).leases == s.leases
  {
  }

  /** A lease issued under an earlier policy is not live, whoever holds it. */
  lemma OldLeasesAreDead(shared: bool, allowControl: bool, before: seq<Step>, more: seq<Step>, v: nat)
    ensures var s := After(Initial(shared, allowControl), before);
            var t := After(Initial(shared, allowControl), before + [ChangeEpoch] + more);
            s.Some? && t.Some? && v < |t.value.views| && t.value.views[v].control.Some? ==>
              var g := t.value.views[v].control.value.guard;
              g.issued <= t.value.epoch && s.value.epoch < t.value.epoch
              && (g.issued <= s.value.epoch ==> !g.Live(t.value.epoch))
  {
    var s0 := Initial(shared, allowControl);
    AlwaysInv(shared, allowControl, before + [ChangeEpoch] + more);
    assert (before + [ChangeEpoch])[..|before|] == before;
    EpochGrows(s0, before + [ChangeEpoch], more);
    var t := After(s0, before + [ChangeEpoch] + more);
    if t.Some? && v < |t.value.views| {
      assert Kept(t.value, v);
    }
  }

  lemma {:induction false} EpochGrows(s: App, before: seq<Step>, more: seq<Step>)
    ensures After(s, before + more).Some? ==>
              After(s, before).Some? && After(s, before).value.epoch <= After(s, before + more).value.epoch
  {
    if more == [] {
      assert before + more == before;
    } else {
      assert (before + more)[..|before + more| - 1] == before + more[..|more| - 1];
      hide Next, Enabled;
      EpochGrows(s, before, more[..|more| - 1]);
      var t := After(s, before + more[..|more| - 1]);
      if t.Some? && Enabled(t.value, more[|more| - 1]) {
        NextEpoch(t.value, more[|more| - 1]);
      }
    }
  }

  lemma NextEpoch(s: App, step: Step)
    requires Enabled(s, step)
    ensures s.epoch <= Next(s, step).epoch
  {
    hide AcquireStep, ReleaseStep;
    if step.Continue? {
      if s.processes[step.process].Acquire? {
        AcquireEpoch(s, step.process, step.ok);
      } else {
        ReleaseEpoch(s, step.process, step.ok);
      }
    }
  }

  lemma AcquireEpoch(s: App, p: nat, ok: bool)
    requires s.At(p) && s.processes[p].Acquire?
    ensures AcquireStep(s, p, ok).epoch == s.epoch
  {
  }

  lemma ReleaseEpoch(s: App, p: nat, ok: bool)
    requires s.At(p) && s.processes[p].Release?
    ensures ReleaseStep(s, p, ok).epoch == s.epoch
  {
  }

  /** A close that told its client "released" left no lease behind, then or later. */
  lemma ToldReleasedIsReleased(shared: bool, allowControl: bool, steps: seq<Step>, v: nat)
    ensures var s := After(Initial(shared, allowControl), steps);
            s.Some? && v < |s.value.views| ==>
              && (s.value.views[v].report.ToldReleased? ==> s.value.views[v].control.None?)
              && (s.value.views[v].report.ToldUnconfirmed? ==> s.value.unconfirmed)
  {
    AlwaysInv(shared, allowControl, steps);
    var s := After(Initial(shared, allowControl), steps);
    if s.Some? && v < |s.value.views| {
      assert Kept(s.value, v);
    }
  }
}
