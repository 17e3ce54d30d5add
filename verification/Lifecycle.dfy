/** The job lifecycle of `ControlRuntime`: starts, workers, the cancellation watcher and `Close`,
interleaved step by step.  One step is one critical section, or one statement outside of any. */
module Lifecycle {
  import opened Options
  import opened Sums

  /** Run identifiers, and the identities of started workers and watchers. */
  type Run = string
  type Id = nat

  /** The fields guarded by `mu`. */
  datatype Shared = Shared(closed: bool, jobs: map<Run, Id>, watcher: Option<Id>)

  function Registered(sh: Shared, run: Run, w: Id, watcher: Id): Shared {
    sh.(jobs := sh.jobs[run := w], watcher := if sh.watcher.Some? then sh.watcher else Some(watcher))
  }

  /** The section of `unregisterJob`, and the watcher the caller has to stop. */
  function Unregistered(sh: Shared, run: Run): (Shared, Option<Id>) {
    var jobs := sh.jobs - {run};
    if jobs != map[] || sh.watcher.None? then (sh.(jobs := jobs), None)
    else (sh.(jobs := jobs, watcher := None), sh.watcher)
  }

  /** The section of `Close`, the workers it has to cancel, and the watcher it has to stop. */
  function ClosedOff(sh: Shared): (Shared, set<Id>, Option<Id>) {
    (Shared(true, map[], None), sh.jobs.Values, sh.watcher)
  }

  /** The same sections as methods of the object that owns the fields. */
  class ControlRuntime {
    var closed: bool
    var jobs: map<Run, Id>
    var watcher: Option<Id>

    ghost function View(): Shared
      reads this
    {
      Shared(closed, jobs, watcher)
    }

    constructor ()
      ensures View() == Shared(false, map[], None)
    {
      closed, jobs, watcher := false, map[], None;
    }

    method RegisterJob(run: Run, w: Id, newWatcher: Id)
      modifies this
      ensures View() == Registered(old(View()), run, w, newWatcher)
      ensures forall s: System {:trigger Apply(s, Register(w, newWatcher))} ::
        s.sh == old(View()) && Enabled(s, Register(w, newWatcher)) && s.all[w].run == run
        ==> Apply(s, Register(w, newWatcher)).sh == View()
    {
      jobs := jobs[run := w];
      if watcher.Some? { return; }
      watcher := Some(newWatcher);
    }

    method UnregisterJob(run: Run) returns (stop: Option<Id>)
      modifies this
      ensures (View(), stop) == Unregistered(old(View()), run)
      ensures forall s: System, j: Id {:trigger Apply(s, EndJob(j))} ::
        s.sh == old(View()) && Enabled(s, EndJob(j)) && s.all[j].run == run
        ==> Apply(s, EndJob(j)).sh == View()
            && Apply(s, EndJob(j)).all[j].phase == if stop.Some? then Stopping(stop.value) else Leaving
    {
      jobs := jobs - {run};
      if |jobs| != 0 || watcher.None? { return None; }
      stop := watcher;
      watcher := None;
    }

    method CloseAll() returns (cancels: set<Id>, stop: Option<Id>)
      modifies this
      ensures (View(), cancels, stop) == ClosedOff(old(View()))
      ensures forall s: System {:trigger Apply(s, CloseSection)} ::
        s.sh == old(View()) && Enabled(s, CloseSection)
        ==> Apply(s, CloseSection).sh == View() && Apply(s, CloseSection).closer == Signalling(cancels, stop)
    {
      closed := true;
      cancels := jobs.Values;
      jobs := map[];
      stop := watcher;
      watcher := None;
    }
  }

  // ---------------------------------------------------------------- the system

  /** A `Start` or `Resume` call and the worker it makes are one job.  The call goes from taking the
      lifecycle lock to launching the worker; the worker, once launched, to leaving the wait group. */
  datatype Phase =
    | Entered | Refused | Checked | Registering | Counted
    | Running | Stopping(watcher: Id) | Awaiting(watcher: Id) | Leaving | Finished

  /** `locked`: the call still holds the lifecycle lock for reading. */
  datatype Job = Job(run: Run, phase: Phase, cancelled: bool, locked: bool)

  datatype Watcher = Alive | Signalled | Done

  datatype Closer =
    | Idle | Locked | Signalling(left: set<Id>, stop: Option<Id>) | StoppingWatcher(watcher: Id)
    | AwaitingWorkers | Returned

  datatype System = System(sh: Shared, all: map<Id, Job>, watchers: map<Id, Watcher>, closer: Closer)

  function Initial(): System { System(Shared(false, map[], None), map[], map[], Idle) }

  datatype Step =
    | Enter(j: Id, run: Run) | Check(j: Id) | Abandon(j: Id)
    | Register(j: Id, newWatcher: Id) | Add(j: Id) | Launch(j: Id) | Unlock(j: Id)
    | CancelOne(j: Id)                                      // by the watcher or a cancel request
    | EndJob(j: Id) | StopWatcher(j: Id) | AwaitWatcher(j: Id) | WorkerDone(j: Id)
    | WatcherExit(watcher: Id)
    | CloseLock | CloseSection | CloseCancel(j: Id) | CloseStopWatcher | CloseAwaitWatcher | CloseReturn

  predicate InPhase(s: System, j: Id, p: Phase) { j in s.all && s.all[j].phase == p }

  /** Registered and not yet unregistered. */
  predicate IsRegistered(p: Phase) { p.Registering? || p.Counted? || p.Running? }

  /** Counted by the wait group. */
  predicate InGroup(p: Phase) { p.Counted? || p.Running? || p.Stopping? || p.Awaiting? || p.Leaving? }

  predicate IsDone(s: System, t: Id) { t in s.watchers && s.watchers[t] == Done }

  predicate Enabled(s: System, a: Step) {
    match a
    case Enter(j, _) => j !in s.all && s.closer != Locked
    case Check(j) => InPhase(s, j, Entered)
    case Abandon(j) => InPhase(s, j, Checked)
    case Register(j, t) => InPhase(s, j, Checked) && t !in s.watchers
    case Add(j) => InPhase(s, j, Registering)
    case Launch(j) => InPhase(s, j, Counted)
    case Unlock(j) => j in s.all && s.all[j].locked && s.all[j].phase !in {Entered, Checked, Registering, Counted}
    case CancelOne(j) => j in s.all
    case EndJob(j) => InPhase(s, j, Running)
    case StopWatcher(j) => j in s.all && s.all[j].phase.Stopping?
    case AwaitWatcher(j) => j in s.all && s.all[j].phase.Awaiting? && IsDone(s, s.all[j].phase.watcher)
    case WorkerDone(j) => InPhase(s, j, Leaving)
    case WatcherExit(t) => t in s.watchers && s.watchers[t] == Signalled
    case CloseLock => s.closer == Idle && forall j :: j in s.all ==> !s.all[j].locked
    case CloseSection => s.closer == Locked
    case CloseCancel(j) => s.closer.Signalling? && j in s.closer.left
    case CloseStopWatcher => s.closer.Signalling? && s.closer.left == {}
    case CloseAwaitWatcher => s.closer.StoppingWatcher? && IsDone(s, s.closer.watcher)
    case CloseReturn => s.closer == AwaitingWorkers && forall j :: j in s.all ==> !InGroup(s.all[j].phase)
  }

  function SetPhase(s: System, j: Id, p: Phase): System {
    if j in s.all then s.(all := s.all[j := s.all[j].(phase := p)]) else s
  }

  function SetCancelled(s: System, j: Id): System {
    if j in s.all then s.(all := s.all[j := s.all[j].(cancelled := true)]) else s
  }

  function Signal(m: map<Id, Watcher>, t: Id): map<Id, Watcher> {
    if t in m && m[t] == Alive then m[t := Signalled] else m
  }

  function Apply(s: System, a: Step): System
    requires Enabled(s, a)
  {
    match a
    case Enter(j, run) => s.(all := s.all[j := Job(run, Entered, false, true)])
    case Check(j) => SetPhase(s, j, if s.sh.closed then Refused else Checked)
    case Abandon(j) => SetPhase(s, j, Refused)
    case Register(j, t) =>
      SetPhase(s, j, Registering).(
        sh := Registered(s.sh, s.all[j].run, j, t),
        watchers := if s.sh.watcher.Some? then s.watchers else s.watchers[t := Alive])
    case Add(j) => SetPhase(s, j, Counted)
    case Launch(j) => SetPhase(s, j, Running)
    case Unlock(j) => s.(all := s.all[j := s.all[j].(locked := false)])
    case CancelOne(j) => SetCancelled(s, j)
    case EndJob(j) =>
      var (sh, stop) := Unregistered(s.sh, s.all[j].run);
      SetPhase(s, j, if stop.Some? then Stopping(stop.value) else Leaving).(sh := sh)
    case StopWatcher(j) =>
      SetPhase(s, j, Awaiting(s.all[j].phase.watcher)).(watchers := Signal(s.watchers, s.all[j].phase.watcher))
    case AwaitWatcher(j) => SetPhase(s, j, Leaving)
    case WorkerDone(j) => SetPhase(s, j, Finished)
    case WatcherExit(t) => s.(watchers := s.watchers[t := Done])
    case CloseLock => s.(closer := Locked)
    case CloseSection => var (sh, cancels, stop) := ClosedOff(s.sh); s.(sh := sh, closer := Signalling(cancels, stop))
    case CloseCancel(j) => SetCancelled(s, j).(closer := s.closer.(left := s.closer.left - {j}))
    case CloseStopWatcher =>
      if s.closer.stop.None? then s.(closer := AwaitingWorkers)
      else s.(closer := StoppingWatcher(s.closer.stop.value), watchers := Signal(s.watchers, s.closer.stop.value))
    case CloseAwaitWatcher => s.(closer := AwaitingWorkers)
    case CloseReturn => s.(closer := Returned)
  }

  // --------------------------------------------------------------- invariants

  predicate AfterSection(c: Closer) { c.Signalling? || c.StoppingWatcher? || c.AwaitingWorkers? || c.Returned? }

  /** The job map, the watcher and the closed flag fit together. */
  ghost predicate SharedOk(s: System) {
    && (s.sh.watcher.Some? <==> s.sh.jobs != map[])
    && (s.sh.watcher.Some? ==> s.sh.watcher.value in s.watchers && s.watchers[s.sh.watcher.value] == Alive)
    && (s.sh.closed <==> AfterSection(s.closer))
    && (s.sh.closed ==> s.sh.jobs == map[])
    && forall r :: r in s.sh.jobs ==> NamedBy(s, r)
  }

  predicate NamedBy(s: System, r: Run)
    requires r in s.sh.jobs
  {
    s.sh.jobs[r] in s.all && s.all[s.sh.jobs[r]].run == r
  }

  /** A call between its lock and its launch holds the lock, which keeps `Close` out; after the close
      section such a call can only be one that will be refused. */
  ghost predicate JobOk(s: System, j: Job) {
    && (j.phase in {Entered, Checked, Registering, Counted} ==> j.locked)
    && (s.closer == Locked ==> !j.locked)
    && (s.sh.closed ==> j.phase !in {Checked, Registering, Counted})
    && (j.phase.Stopping? ==> j.phase.watcher in s.watchers && s.sh.watcher != Some(j.phase.watcher))
    && (j.phase.Awaiting? ==> WaitOk(s, j.phase.watcher))
    && (s.closer == Returned ==> !InGroup(j.phase))
  }

  /** A watcher being waited for has been signalled, or is gone. */
  ghost predicate WaitOk(s: System, t: Id) { t in s.watchers && s.watchers[t] != Alive }

  ghost predicate CloserOk(s: System) {
    && (s.closer.Signalling? && s.closer.stop.Some? ==> s.closer.stop.value in s.watchers)
    && (s.closer.StoppingWatcher? ==> WaitOk(s, s.closer.watcher))
  }

  /** A live watcher is installed, or somebody is about to stop it; a signalled one is waited for. */
  ghost predicate WatcherOk(s: System, t: Id)
    requires t in s.watchers
  {
    && (s.watchers[t] == Alive ==>
          || s.sh.watcher == Some(t)
          || (exists j :: InPhase(s, j, Stopping(t)))
          || (s.closer.Signalling? && s.closer.stop == Some(t)))
    && (s.watchers[t] == Signalled ==> (exists j :: InPhase(s, j, Awaiting(t))) || s.closer == StoppingWatcher(t))
  }

  ghost predicate Inv(s: System) {
    && SharedOk(s) && CloserOk(s)
    && (forall j :: j in s.all ==> JobOk(s, s.all[j]))
    && (forall t :: t in s.watchers ==> WatcherOk(s, t))
  }

  lemma SharedKept(s: System, a: Step)
    requires Inv(s) && Enabled(s, a)
    ensures SharedOk(Apply(s, a))
  {
    var u := Apply(s, a);
    if a.Register? { assert s.all[a.j].run in u.sh.jobs; }
    forall r | r in u.sh.jobs ensures NamedBy(u, r) {
      assert r in s.sh.jobs ==> NamedBy(s, r);
    }
  }

  lemma JobsKept(s: System, a: Step)
    requires Inv(s) && Enabled(s, a)
    ensures forall j :: j in Apply(s, a).all ==> JobOk(Apply(s, a), Apply(s, a).all[j])
    ensures CloserOk(Apply(s, a))
  {
    var u := Apply(s, a);
    CloserKept(s, a);
    forall j | j in u.all ensures JobOk(u, u.all[j]) {
      if IsClosers(a) { JobKeptByCloser(s, a, j); } else { JobKept(s, a, j); }
    }
  }

  predicate IsClosers(a: Step) {
    a.CloseLock? || a.CloseSection? || a.CloseCancel? || a.CloseStopWatcher? || a.CloseAwaitWatcher? || a.CloseReturn?
  }

  lemma CloserKept(s: System, a: Step)
    requires SharedOk(s) && CloserOk(s) && Enabled(s, a)
    ensures CloserOk(Apply(s, a))
  {}

  lemma JobKept(s: System, a: Step, j: Id)
    requires Inv(s) && Enabled(s, a) && !IsClosers(a) && j in Apply(s, a).all
    ensures JobOk(Apply(s, a), Apply(s, a).all[j])
  {
    assert j in s.all ==> JobOk(s, s.all[j]);
  }

  lemma JobKeptByCloser(s: System, a: Step, j: Id)
    requires Inv(s) && Enabled(s, a) && IsClosers(a) && j in Apply(s, a).all
    ensures JobOk(Apply(s, a), Apply(s, a).all[j])
  {
    assert j in s.all && JobOk(s, s.all[j]);
  }

  lemma WatchersKept(s: System, a: Step, t: Id)
    requires Inv(s) && Enabled(s, a) && t in Apply(s, a).watchers
    ensures WatcherOk(Apply(s, a), t)
  {
    if t in s.watchers {
      assert WatcherOk(s, t);
      if a.StopWatcher? || a.EndJob? { OwnerTakesOver(s, a, t); } else { WaitersStay(s, a, t); }
    }
  }

  /** The steps that hand a watcher on. */
  lemma OwnerTakesOver(s: System, a: Step, t: Id)
    requires SharedOk(s) && Enabled(s, a) && t in s.watchers && WatcherOk(s, t) && (a.StopWatcher? || a.EndJob?)
    ensures WatcherOk(Apply(s, a), t)
  {
    var u := Apply(s, a);
    assert a.StopWatcher? && s.all[a.j].phase.watcher == t ==> InPhase(u, a.j, Awaiting(t));
    assert a.EndJob? && s.sh.watcher == Some(t) ==> InPhase(u, a.j, Stopping(t)) || u.sh.watcher == Some(t);
    if j :| InPhase(s, j, Stopping(t)) { assert j != a.j ==> InPhase(u, j, Stopping(t)); }
    if j :| InPhase(s, j, Awaiting(t)) { assert InPhase(u, j, Awaiting(t)); }
  }

  lemma WaitersStay(s: System, a: Step, t: Id)
    requires SharedOk(s) && CloserOk(s) && Enabled(s, a) && t in s.watchers && WatcherOk(s, t)
    requires !a.StopWatcher? && !a.EndJob?
    ensures WatcherOk(Apply(s, a), t)
  {
    var u := Apply(s, a);
    if j :| InPhase(s, j, Stopping(t)) { assert InPhase(u, j, Stopping(t)); }
    if j :| InPhase(s, j, Awaiting(t)) { assert InPhase(u, j, Awaiting(t)) || s.watchers[t] == Done; }
  }

  lemma StepKeepsInv(s: System, a: Step)
    requires Inv(s) && Enabled(s, a)
    ensures Inv(Apply(s, a))
  {
    SharedKept(s, a);
    JobsKept(s, a);
    forall t | t in Apply(s, a).watchers ensures WatcherOk(Apply(s, a), t) { WatchersKept(s, a, t); }
  }

  /** An interleaving: the states it goes through and the steps between them. */
  ghost predicate IsRun(ss: seq<System>, steps: seq<Step>) {
    && |ss| == |steps| + 1 && ss[0] == Initial()
    && forall k :: 0 <= k < |steps| ==> Enabled(ss[k], steps[k]) && ss[k + 1] == Apply(ss[k], steps[k])
  }

  lemma {:induction false} EveryStateOk(ss: seq<System>, steps: seq<Step>, k: nat)
    requires IsRun(ss, steps) && k < |ss|
    ensures Inv(ss[k])
  {
    if k > 0 {
      EveryStateOk(ss, steps, k - 1);
      StepKeepsInv(ss[k - 1], steps[k - 1]);
    }
  }

  /** In every interleaving: a watcher is installed exactly when a job is registered. */
  lemma WatcherExactlyWithJobs(ss: seq<System>, steps: seq<Step>, k: nat)
    requires IsRun(ss, steps) && k < |ss|
    ensures ss[k].sh.watcher.Some? <==> ss[k].sh.jobs != map[]
  {
    EveryStateOk(ss, steps, k);
  }

  // ------------------------------------------------------ after Close returns

  ghost predicate AllQuiet(s: System) {
    && s.sh.jobs == map[]
    && (forall j :: j in s.all ==> !InGroup(s.all[j].phase) && !IsRegistered(s.all[j].phase))
    && (forall t :: t in s.watchers ==> s.watchers[t] == Done)
  }

  lemma ReturnedIsQuiet(s: System)
    requires Inv(s) && s.closer == Returned
    ensures AllQuiet(s)
  {
    assert forall j :: j in s.all ==> JobOk(s, s.all[j]);
    forall t | t in s.watchers ensures s.watchers[t] == Done {
      assert WatcherOk(s, t);
    }
  }

  lemma ReturnedStays(s: System, a: Step)
    requires s.closer == Returned && Enabled(s, a)
    ensures Apply(s, a).closer == Returned
  {}

  lemma {:induction false} ReturnedForever(ss: seq<System>, steps: seq<Step>, i: nat, k: nat)
    requires IsRun(ss, steps) && i <= k < |ss| && ss[i].closer == Returned
    ensures ss[k].closer == Returned
    decreases k
  {
    if i < k {
      ReturnedForever(ss, steps, i, k - 1);
      ReturnedStays(ss[k - 1], steps[k - 1]);
    }
  }

  /** Once `Close` has returned, and for ever after, no worker is live or registered and no watcher
      runs, whatever calls are made. */
  lemma QuietForever(ss: seq<System>, steps: seq<Step>, i: nat, k: nat)
    requires IsRun(ss, steps) && i <= k < |ss| && ss[i].closer == Returned
    ensures ss[k].closer == Returned && AllQuiet(ss[k])
  {
    EveryStateOk(ss, steps, k);
    ReturnedForever(ss, steps, i, k);
    ReturnedIsQuiet(ss[k]);
  }

  // ------------------------------------------------- what `Close` cancels

  /** Two registered jobs with one run identifier. */
  predicate Twins(s: System, j: Id, k: Id) {
    && j != k && j in s.all && k in s.all && s.all[j].run == s.all[k].run
    && IsRegistered(s.all[j].phase) && IsRegistered(s.all[k].phase)
  }

  /** The step registers a job under the identifier of a registered one, and they are not both cancelled. */
  ghost predicate Clash(s: System, a: Step) {
    a.Register? && a.j in s.all && exists k :: ClashWith(s, a.j, k)
  }

  predicate ClashWith(s: System, j: Id, k: Id)
    requires j in s.all
  {
    && k in s.all && k != j && IsRegistered(s.all[k].phase) && s.all[k].run == s.all[j].run
    && !(s.all[j].cancelled && s.all[k].cancelled)
  }

  /** Before the close section, `Close` would find the cancel function of every registered job that
      still needs it, and will; after it, every worker still running is cancelled, or about to be. */
  ghost predicate Covered(s: System) {
    && (!s.sh.closed ==> forall j :: j in s.all && NeedsCancel(s.all[j]) ==> InJobs(s, j))
    && (!s.sh.closed ==> forall j, k :: Twins(s, j, k) ==> s.all[j].cancelled && s.all[k].cancelled)
    && (s.sh.closed ==> forall j :: j in s.all && s.all[j].phase == Running ==> WillBeCancelled(s, j))
  }

  predicate NeedsCancel(j: Job) { IsRegistered(j.phase) && !j.cancelled }

  predicate InJobs(s: System, j: Id)
    requires j in s.all
  {
    s.all[j].run in s.sh.jobs && s.sh.jobs[s.all[j].run] == j
  }

  predicate WillBeCancelled(s: System, j: Id)
    requires j in s.all
  {
    s.all[j].cancelled || (s.closer.Signalling? && j in s.closer.left)
  }

  lemma CoveredKept(s: System, a: Step)
    requires Inv(s) && Covered(s) && Enabled(s, a) && !Clash(s, a)
    ensures Covered(Apply(s, a))
  {
    var u := Apply(s, a);
    if a == CloseSection {
      forall j | j in s.all && s.all[j].phase == Running ensures WillBeCancelled(u, j) {
        assert NeedsCancel(s.all[j]) ==> InJobs(s, j);
      }
    } else if !s.sh.closed {
      forall j | j in u.all && NeedsCancel(u.all[j]) ensures InJobs(u, j) { NeedyStays(s, a, j); }
      forall j, k | Twins(u, j, k) ensures u.all[j].cancelled && u.all[k].cancelled { TwinsStay(s, a, j, k); }
    }
  }

  lemma NeedyStays(s: System, a: Step, j: Id)
    requires Inv(s) && Covered(s) && Enabled(s, a) && !Clash(s, a) && a != CloseSection && !s.sh.closed
    requires j in Apply(s, a).all && NeedsCancel(Apply(s, a).all[j])
    ensures InJobs(Apply(s, a), j)
  {
    assert j in s.all && (NeedsCancel(s.all[j]) ==> InJobs(s, j));
    if a.EndJob? {
      NeedyOutlivesEnd(s, a.j, j);
    } else if a.Register? {
      NeedyOutlivesRegister(s, a, j);
    }
  }

  lemma NeedyOutlivesEnd(s: System, i: Id, j: Id)
    requires Covered(s) && Enabled(s, EndJob(i)) && !s.sh.closed
    requires j in s.all && NeedsCancel(Apply(s, EndJob(i)).all[j])
    ensures InJobs(Apply(s, EndJob(i)), j)
  {
    assert NeedsCancel(s.all[j]) ==> InJobs(s, j);
    assert !Twins(s, j, i);
  }

  lemma NeedyOutlivesRegister(s: System, a: Step, j: Id)
    requires Covered(s) && Enabled(s, a) && a.Register? && !Clash(s, a) && !s.sh.closed
    requires j in s.all && NeedsCancel(Apply(s, a).all[j])
    ensures InJobs(Apply(s, a), j)
  {
    assert NeedsCancel(s.all[j]) ==> InJobs(s, j);
    if a.j != j { assert !ClashWith(s, a.j, j); }
  }

  lemma TwinsStay(s: System, a: Step, j: Id, k: Id)
    requires Inv(s) && Covered(s) && Enabled(s, a) && !Clash(s, a) && a != CloseSection && !s.sh.closed
    requires Twins(Apply(s, a), j, k)
    ensures Apply(s, a).all[j].cancelled && Apply(s, a).all[k].cancelled
  {
    assert Twins(s, j, k) ==> s.all[j].cancelled && s.all[k].cancelled;
    if a.Register? && a.j == j { assert !ClashWith(s, j, k); }
    if a.Register? && a.j == k { assert !ClashWith(s, k, j); }
  }

  ghost predicate IsClashFreeRun(ss: seq<System>, steps: seq<Step>) {
    IsRun(ss, steps) && forall k :: 0 <= k < |steps| ==> !Clash(ss[k], steps[k])
  }

  lemma {:induction false} EveryStateCovered(ss: seq<System>, steps: seq<Step>, k: nat)
    requires IsClashFreeRun(ss, steps) && k < |ss|
    ensures Covered(ss[k])
  {
    if k > 0 {
      EveryStateOk(ss, steps, k - 1);
      EveryStateCovered(ss, steps, k - 1);
      CoveredKept(ss[k - 1], steps[k - 1]);
    }
  }

  /** Without a clash, each worker still running while `Close` waits has been cancelled. */
  lemma AwaitedAreCancelled(ss: seq<System>, steps: seq<Step>, k: nat, j: Id)
    requires IsClashFreeRun(ss, steps) && k < |ss| && j in ss[k].all && ss[k].all[j].phase == Running
    requires ss[k].closer.StoppingWatcher? || ss[k].closer == AwaitingWorkers
    ensures ss[k].all[j].cancelled
  {
    EveryStateOk(ss, steps, k);
    EveryStateCovered(ss, steps, k);
  }

  // ------------------------------------------------- what a clash leads to

  /** The steps can be taken from `s` one after the other, and end in `t`. */
  ghost predicate Leads(s: System, steps: seq<Step>, t: System)
    decreases |steps|
  {
    if steps == [] then s == t else Enabled(s, steps[0]) && Leads(Apply(s, steps[0]), steps[1..], t)
  }

  lemma LeadsBy(s: System, a: Step, rest: seq<Step>, t: System) returns (steps: seq<Step>)
    requires Enabled(s, a) && Leads(Apply(s, a), rest, t)
    ensures steps == [a] + rest && Leads(s, steps, t)
    ensures NoRegisters(rest) && !a.Register? ==> NoRegisters(steps)
  {
    steps := [a] + rest;
    assert steps[1..] == rest;
  }

  /** Nothing else is registered on the way. */
  predicate NoRegisters(steps: seq<Step>) {
    forall k :: 0 <= k < |steps| ==> !steps[k].Register?
  }

  /** A registered job whose cancel function nobody holds any more. */
  ghost predicate Stranded(s: System, j: Id) {
    && j in s.all && NeedsCancel(s.all[j]) && j !in s.sh.jobs.Values
    && (s.closer.Signalling? ==> j !in s.closer.left)
  }

  /** `Close` waits for a worker that nobody has cancelled, and cannot return. */
  ghost predicate WaitsUncancelled(s: System, j: Id) {
    s.closer == AwaitingWorkers && InPhase(s, j, Running) && !s.all[j].cancelled && !Enabled(s, CloseReturn)
  }

  predicate Closing(a: Step) {
    || a.Check? || a.Abandon? || a.Add? || a.Launch? || a.Unlock? || a.WatcherExit?
    || a.CloseLock? || a.CloseSection? || a.CloseCancel? || a.CloseStopWatcher? || a.CloseAwaitWatcher?
  }

  /** Calls let go of the lock, then `Close` runs up to its wait. */
  lemma TowardsWait(s: System) returns (a: Step)
    requires Inv(s) && s.closer != AwaitingWorkers && s.closer != Returned
    ensures Enabled(s, a) && Closing(a)
  {
    match s.closer
    case Idle =>
      if j :| j in s.all && s.all[j].locked { a := LetGo(s, j); } else { a := CloseLock; }
    case Locked => a := CloseSection;
    case Signalling(left, stop) =>
      if j :| j in left { a := CloseCancel(j); } else { a := CloseStopWatcher; }
    case StoppingWatcher(t) =>
      a := if s.watchers[t] == Done then CloseAwaitWatcher else WatcherExit(t);
  }

  lemma LetGo(s: System, j: Id) returns (a: Step)
    requires j in s.all && s.all[j].locked
    ensures Enabled(s, a) && Closing(a)
  {
    match s.all[j].phase
    case Entered => a := Check(j);
    case Checked => a := Abandon(j);
    case Registering => a := Add(j);
    case Counted => a := Launch(j);
    case _ => a := Unlock(j);
  }

  lemma StrandedStays(s: System, a: Step, j: Id)
    requires Inv(s) && Enabled(s, a) && Closing(a) && Stranded(s, j)
    ensures Stranded(Apply(s, a), j)
  {}

  /** From any state with a stranded job, `Close` can come to wait for it. */
  lemma {:induction false} StrandedIsAwaited(s: System, j: Id) returns (steps: seq<Step>, t: System)
    requires Inv(s) && Stranded(s, j) && s.closer != Returned
    ensures Leads(s, steps, t) && NoRegisters(steps) && WaitsUncancelled(t, j)
    decreases Left(s)
  {
    assert JobOk(s, s.all[j]);
    if s.closer == AwaitingWorkers {
      steps, t := [], s;
    } else {
      var a := TowardsWait(s);
      StepKeepsInv(s, a);
      StepsUseUp(s, a);
      StrandedStays(s, a, j);
      var rest;
      rest, t := StrandedIsAwaited(Apply(s, a), j);
      steps := LeadsBy(s, a, rest, t);
    }
  }

  /** A clash breaks the promise of `Close`: some continuation has `Close` waiting for a worker that
      nobody has cancelled. */
  lemma ClashBreaksClose(s: System, a: Step) returns (steps: seq<Step>, t: System, j: Id)
    requires Inv(s) && Enabled(s, a) && Clash(s, a)
    ensures Leads(Apply(s, a), steps, t) && NoRegisters(steps) && WaitsUncancelled(t, j)
  {
    var k :| ClashWith(s, a.j, k);
    var u := Apply(s, a);
    StepKeepsInv(s, a);
    assert JobOk(s, s.all[a.j]);
    assert forall r :: r in s.sh.jobs ==> NamedBy(s, r);
    if !s.all[k].cancelled {
      j := k;
      steps, t := StrandedIsAwaited(u, k);
    } else {
      j := a.j;
      steps, t := EndTwin(u, j, k);
    }
  }

  /** The older twin ends, and takes the entry of the younger one out of the job map. */
  lemma {:induction false} EndTwin(s: System, j: Id, k: Id) returns (steps: seq<Step>, t: System)
    requires Inv(s) && Twins(s, j, k) && InJobs(s, j) && !s.all[j].cancelled && s.closer == Idle
    ensures Leads(s, steps, t) && NoRegisters(steps) && WaitsUncancelled(t, j)
    decreases Left(s)
  {
    var a := match s.all[k].phase case Registering => Add(k) case Counted => Launch(k) case _ => EndJob(k);
    StepKeepsInv(s, a);
    StepsUseUp(s, a);
    var rest;
    if a.EndJob? {
      assert forall r :: r in s.sh.jobs ==> NamedBy(s, r);
      rest, t := StrandedIsAwaited(Apply(s, a), j);
    } else {
      rest, t := EndTwin(Apply(s, a), j, k);
    }
    steps := LeadsBy(s, a, rest, t);
  }

  lemma {:induction false} CoveredLeads(s: System, steps: seq<Step>, t: System)
    requires Inv(s) && Covered(s) && Leads(s, steps, t) && NoRegisters(steps)
    ensures Inv(t) && Covered(t)
    decreases |steps|
  {
    if steps != [] {
      assert !steps[0].Register?;
      StepKeepsInv(s, steps[0]);
      CoveredKept(s, steps[0]);
      CoveredLeads(Apply(s, steps[0]), steps[1..], t);
    }
  }

  /** Where `Close` would still cancel everything, a registration leaves it so exactly when it is no
      clash: after it, `Close` can come to wait for an uncancelled worker, or never does. */
  lemma ClashExactly(s: System, a: Step)
    requires Inv(s) && Covered(s) && Enabled(s, a) && a.Register?
    ensures Clash(s, a) <==>
      exists steps, t, j :: Leads(Apply(s, a), steps, t) && NoRegisters(steps) && WaitsUncancelled(t, j)
  {
    if Clash(s, a) {
      var steps, t, j := ClashBreaksClose(s, a);
    } else {
      StepKeepsInv(s, a);
      CoveredKept(s, a);
      forall steps, t, j | Leads(Apply(s, a), steps, t) && NoRegisters(steps) ensures !WaitsUncancelled(t, j) {
        CoveredLeads(Apply(s, a), steps, t);
      }
    }
  }

  /** Six steps of a call that starts a job, with nobody else about. */
  function Started(s: System, j: Id, run: Run, w: Id): System {
    s.(sh := Registered(s.sh, run, j, w), all := s.all[j := Job(run, Running, false, false)],
       watchers := if s.sh.watcher.Some? then s.watchers else s.watchers[w := Alive])
  }

  lemma StartJob(s: System, j: Id, run: Run, w: Id, rest: seq<Step>, t: System) returns (steps: seq<Step>)
    requires s.closer == Idle && !s.sh.closed && j !in s.all && w !in s.watchers
    requires Leads(Started(s, j, run, w), rest, t)
    ensures steps == [Enter(j, run), Check(j), Register(j, w), Add(j), Launch(j), Unlock(j)] + rest
    ensures Leads(s, steps, t)
  {
    var u := Started(s, j, run, w);
    var s3 := u.(all := s.all[j := Job(run, Registering, false, true)]);
    steps := Launched(s3, j, run, u, rest, t);
    steps := CalledIn(s, j, run, w, s3, steps, t);
  }

  lemma CalledIn(s: System, j: Id, run: Run, w: Id, u: System, rest: seq<Step>, t: System) returns (steps: seq<Step>)
    requires s.closer == Idle && !s.sh.closed && j !in s.all && w !in s.watchers && Leads(u, rest, t)
    requires u == Started(s, j, run, w).(all := s.all[j := Job(run, Registering, false, true)])
    ensures steps == [Enter(j, run), Check(j), Register(j, w)] + rest && Leads(s, steps, t)
  {
    var s1 := s.(all := s.all[j := Job(run, Entered, false, true)]);
    var s2 := s.(all := s.all[j := Job(run, Checked, false, true)]);
    assert Apply(s, Enter(j, run)) == s1 && Apply(s1, Check(j)) == s2;
    assert Enabled(s2, Register(j, w)) && Apply(s2, Register(j, w)) == u;
    steps := LeadsBy(s2, Register(j, w), rest, t);
    steps := LeadsBy(s1, Check(j), steps, t);
    steps := LeadsBy(s, Enter(j, run), steps, t);
  }

  lemma Launched(s: System, j: Id, run: Run, u: System, rest: seq<Step>, t: System) returns (steps: seq<Step>)
    requires j in s.all && s.all[j] == Job(run, Registering, false, true) && Leads(u, rest, t)
    requires u == s.(all := s.all[j := Job(run, Running, false, false)])
    ensures steps == [Add(j), Launch(j), Unlock(j)] + rest && Leads(s, steps, t)
  {
    var s1 := Apply(s, Add(j));
    var s2 := Apply(s1, Launch(j));
    assert Apply(s2, Unlock(j)) == u;
    steps := LeadsBy(s2, Unlock(j), rest, t);
    steps := LeadsBy(s1, Launch(j), steps, t);
    steps := LeadsBy(s, Add(j), steps, t);
  }

  /** It happens: a run is resumed while its first worker has ended and not yet unregistered.  The first
      worker's unregistering takes the second one's cancel function out of the job map. */
  lemma TwinRun() returns (steps: seq<Step>, t: System)
    ensures Leads(Initial(), steps, t) && WaitsUncancelled(t, 1)
    ensures steps ==
      [Enter(0, "r"), Check(0), Register(0, 0), Add(0), Launch(0), Unlock(0)]
      + ([Enter(1, "r"), Check(1), Register(1, 1), Add(1), Launch(1), Unlock(1)]
         + [EndJob(0), CloseLock, CloseSection, CloseStopWatcher])
  {
    var one := Started(Initial(), 0, "r", 0);
    var two := Started(one, 1, "r", 1);
    steps, t := EndAndClose(two);
    steps := StartJob(one, 1, "r", 1, steps, t);
    steps := StartJob(Initial(), 0, "r", 0, steps, t);
  }

  lemma EndAndClose(s: System) returns (steps: seq<Step>, t: System)
    requires s == Started(Started(Initial(), 0, "r", 0), 1, "r", 1)
    ensures steps == [EndJob(0), CloseLock, CloseSection, CloseStopWatcher]
    ensures Leads(s, steps, t) && WaitsUncancelled(t, 1)
  {
    var u := FirstEnds(s);
    steps, t := CloseNow(u);
    steps := LeadsBy(s, EndJob(0), steps, t);
  }

  lemma FirstEnds(s: System) returns (u: System)
    requires s == Started(Started(Initial(), 0, "r", 0), 1, "r", 1)
    ensures Enabled(s, EndJob(0)) && u == Apply(s, EndJob(0)) && u.closer == Idle && u.sh == Shared(false, map[], None)
    ensures u.all == map[0 := Job("r", Stopping(0), false, false), 1 := Job("r", Running, false, false)]
  {
    assert s.sh.jobs - {"r"} == map[];
    u := Apply(s, EndJob(0));
  }

  lemma CloseNow(s: System) returns (steps: seq<Step>, t: System)
    requires s.closer == Idle && s.sh == Shared(false, map[], None) && forall j :: j in s.all ==> !s.all[j].locked
    ensures steps == [CloseLock, CloseSection, CloseStopWatcher] && Leads(s, steps, t)
    ensures t == s.(sh := s.sh.(closed := true), closer := AwaitingWorkers)
  {
    var s1 := s.(closer := Locked);
    var s2 := s.(sh := s.sh.(closed := true), closer := Signalling({}, None));
    assert s1.sh.jobs.Values == {};
    assert Apply(s, CloseLock) == s1 && Apply(s1, CloseSection) == s2;
    t := Apply(s2, CloseStopWatcher);
    steps := LeadsBy(s2, CloseStopWatcher, [], t);
    steps := LeadsBy(s1, CloseSection, steps, t);
    steps := LeadsBy(s, CloseLock, steps, t);
  }

  // ------------------------------------------------------------ no deadlock

  /** Steps that some goroutine of this runtime can take by itself: not a new call, not an outside
      cancel request, and not the end of a job that nobody has cancelled. */
  predicate Internal(s: System, a: Step) {
    match a
    case Enter(_, _) => false
    case CancelOne(_) => false
    case EndJob(j) => j in s.all && s.all[j].cancelled
    case _ => true
  }

  /** A `Close` in progress can always go on, or waits for a goroutine that can, or for a job that
      nobody has cancelled. */
  lemma CloseNeverStuck(s: System) returns (a: Step)
    requires Inv(s) && s.closer != Idle && s.closer != Returned
    ensures Enabled(s, a)
    ensures Internal(s, a) || (a.EndJob? && WaitsUncancelled(s, a.j))
    ensures Covered(s) ==> Internal(s, a)
  {
    match s.closer
    case Locked => a := CloseSection;
    case Signalling(left, stop) =>
      if j :| j in left { a := CloseCancel(j); } else { a := CloseStopWatcher; }
    case StoppingWatcher(t) =>
      a := if s.watchers[t] == Done then CloseAwaitWatcher else WatcherExit(t);
    case AwaitingWorkers =>
      if j :| j in s.all && InGroup(s.all[j].phase) {
        a := WorkerCanGoOn(s, j);
      } else {
        a := CloseReturn;
      }
  }

  lemma WorkerCanGoOn(s: System, j: Id) returns (a: Step)
    requires Inv(s) && s.closer == AwaitingWorkers && j in s.all && InGroup(s.all[j].phase)
    ensures Enabled(s, a)
    ensures Internal(s, a) || (a.EndJob? && WaitsUncancelled(s, a.j))
    ensures Covered(s) ==> Internal(s, a)
  {
    assert JobOk(s, s.all[j]);
    match s.all[j].phase
    case Running => a := EndJob(j);
    case Stopping(_) => a := StopWatcher(j);
    case Awaiting(t) => a := if s.watchers[t] == Done then AwaitWatcher(j) else WatcherExit(t);
    case Leaving => a := WorkerDone(j);
  }

  function PhaseRank(p: Phase): nat {
    match p
    case Entered => 12 case Checked => 11 case Registering => 8 case Counted => 7 case Running => 6
    case Stopping(_) => 5 case Awaiting(_) => 4 case Leaving => 2 case Finished => 0 case Refused => 0
  }

  function JobRank(j: Job): int { PhaseRank(j.phase) + if j.locked then 1 else 0 }

  function WatcherRank(w: Watcher): int { match w case Alive => 2 case Signalled => 1 case Done => 0 }

  function CloserRank(s: System): int {
    match s.closer
    case Idle => 6 + |s.all.Keys|
    case Locked => 5 + |s.all.Keys|
    case Signalling(left, _) => 4 + |left|
    case StoppingWatcher(_) => 3
    case AwaitingWorkers => 2
    case Returned => 0
  }

  /** What is left to do for the calls and workers there are. */
  ghost function Left(s: System): int {
    Total(s.all, JobRank) + Total(s.watchers, WatcherRank) + CloserRank(s)
  }

  lemma LeftIsNatural(s: System)
    ensures Left(s) >= 0
  {
    TotalAtLeast(s.all, JobRank, 0);
    TotalAtLeast(s.watchers, WatcherRank, 0);
  }

  lemma JobsAreFew(s: System)
    requires SharedOk(s)
    ensures |s.sh.jobs.Values| <= |s.all.Keys|
  {
    forall j | j in s.sh.jobs.Values ensures j in s.all.Keys {
      var r :| r in s.sh.jobs && s.sh.jobs[r] == j;
      assert NamedBy(s, r);
    }
    SubsetIsSmaller(s.sh.jobs.Values, s.all.Keys);
  }

  lemma SignalRank(m: map<Id, Watcher>, t: Id)
    ensures Total(Signal(m, t), WatcherRank) <= Total(m, WatcherRank)
  {
    TotalUpdate(m, WatcherRank, t, Signalled);
  }

  lemma JobRankFalls(s: System, j: Id, q: Job)
    requires j in s.all
    ensures Total(s.all[j := q], JobRank) == Total(s.all, JobRank) + JobRank(q) - JobRank(s.all[j])
    ensures |s.all[j := q].Keys| == |s.all.Keys|
  {
    TotalUpdate(s.all, JobRank, j, q);
    assert s.all[j := q].Keys == s.all.Keys;
  }

  lemma CloserStepsUseUp(s: System, a: Step)
    requires Enabled(s, a) && (a.CloseLock? || a.CloseAwaitWatcher? || a.CloseReturn?)
    ensures Left(Apply(s, a)) < Left(s)
  {
    CloserGoesOn(s, a, Apply(s, a));
    OnlyCloserFalls(s, Apply(s, a));
  }

  lemma CloserGoesOn(s: System, a: Step, u: System)
    requires Enabled(s, a) && (a.CloseLock? || a.CloseAwaitWatcher? || a.CloseReturn?) && u == Apply(s, a)
    ensures CloserRank(u) < CloserRank(s) && u.all == s.all && u.watchers == s.watchers
  {}

  lemma StopUsesUp(s: System)
    requires Enabled(s, CloseStopWatcher)
    ensures Left(Apply(s, CloseStopWatcher)) < Left(s)
  {
    var u := Apply(s, CloseStopWatcher);
    assert u.all == s.all && CloserRank(u) < CloserRank(s);
    if s.closer.stop.Some? { SignalRank(s.watchers, s.closer.stop.value); } else { assert u.watchers == s.watchers; }
    OnlyCloserFalls(s, u);
  }

  lemma SectionUsesUp(s: System)
    requires SharedOk(s) && s.closer == Locked
    ensures Left(Apply(s, CloseSection)) < Left(s)
  {
    JobsAreFew(s);
    SectionFalls(s);
    OnlyCloserFalls(s, Apply(s, CloseSection));
  }

  lemma SectionFalls(s: System)
    requires s.closer == Locked && |s.sh.jobs.Values| <= |s.all.Keys|
    ensures
      var u := Apply(s, CloseSection);
      CloserRank(u) < CloserRank(s) && u.watchers == s.watchers && u.all == s.all
  {}

  lemma OnlyCloserFalls(s: System, u: System)
    requires u.all == s.all && CloserRank(u) < CloserRank(s)
    requires Total(u.watchers, WatcherRank) <= Total(s.watchers, WatcherRank)
    ensures Left(u) < Left(s)
  {}

  lemma CloseCancelUsesUp(s: System, j: Id)
    requires Enabled(s, CloseCancel(j))
    ensures Left(Apply(s, CloseCancel(j))) < Left(s)
  {
    assert |s.closer.left - {j}| == |s.closer.left| - 1;
    if j in s.all { JobRankFalls(s, j, s.all[j].(cancelled := true)); }
  }

  /** Steps of one call or worker that touch no watcher. */
  predicate OwnStep(a: Step) {
    a.Check? || a.Abandon? || a.Add? || a.Launch? || a.Unlock? || a.EndJob? || a.AwaitWatcher? || a.WorkerDone?
  }

  lemma OwnStepsUseUp(s: System, a: Step)
    requires Enabled(s, a) && OwnStep(a)
    ensures Left(Apply(s, a)) < Left(s)
  {
    var u := Apply(s, a);
    assert u.watchers == s.watchers && u.closer == s.closer && u.all.Keys == s.all.Keys;
    OwnStepUsesUp(s, u, a.j, u.all[a.j]);
  }

  lemma OwnStepUsesUp(s: System, u: System, j: Id, q: Job)
    requires j in s.all && u.all == s.all[j := q] && JobRank(q) < JobRank(s.all[j])
    requires u.watchers == s.watchers && u.closer == s.closer && u.all.Keys == s.all.Keys
    ensures Left(u) < Left(s)
  {
    JobRankFalls(s, j, q);
  }

  lemma WatcherStepsUseUp(s: System, a: Step)
    requires Enabled(s, a) && (a.Register? || a.StopWatcher?)
    ensures Left(Apply(s, a)) < Left(s)
  {
    var q := Apply(s, a).all[a.j];
    assert Apply(s, a).all == s.all[a.j := q];
    JobRankFalls(s, a.j, q);
    if a.Register? { TotalUpdate(s.watchers, WatcherRank, a.newWatcher, Alive); }
    else { SignalRank(s.watchers, s.all[a.j].phase.watcher); }
  }

  /** Every step but a new call or an outside cancel request uses up some of what is left: with no
      new calls and every cancelled job ending, `Close` returns. */
  lemma StepsUseUp(s: System, a: Step)
    requires Inv(s) && Enabled(s, a) && !a.Enter? && !a.CancelOne?
    ensures 0 <= Left(Apply(s, a)) < Left(s)
  {
    LeftIsNatural(Apply(s, a));
    if OwnStep(a) { OwnStepsUseUp(s, a); }
    else if a.Register? || a.StopWatcher? { WatcherStepsUseUp(s, a); }
    else if a.WatcherExit? { TotalUpdate(s.watchers, WatcherRank, a.watcher, Done); }
    else if a.CloseCancel? { CloseCancelUsesUp(s, a.j); }
    else if a.CloseSection? { SectionUsesUp(s); }
    else if a.CloseStopWatcher? { StopUsesUp(s); }
    else { CloserStepsUseUp(s, a); }
  }

  /** A `Close` that waits for the lifecycle lock waits for a call that can go on. */
  lemma LockNeverStuck(s: System, j: Id) returns (a: Step)
    requires Inv(s) && s.closer == Idle && j in s.all && s.all[j].locked
    ensures Enabled(s, a) && Internal(s, a) && (a.Register? || a.Check? || a.Add? || a.Launch? || a.Unlock?) && a.j == j
  {
    match s.all[j].phase
    case Entered => a := Check(j);
    case Checked =>
      var t := FreshWatcher(s.watchers.Keys);
      a := Register(j, t);
    case Registering => a := Add(j);
    case Counted => a := Launch(j);
    case _ => a := Unlock(j);
  }

  lemma {:induction false} FreshWatcher(ids: set<Id>) returns (t: Id)
    ensures forall i :: i in ids ==> i < t
  {
    if ids == {} {
      t := 0;
    } else {
      var i :| i in ids;
      t := FreshWatcher(ids - {i});
      if t <= i { t := i + 1; }
      assert forall k :: k in ids ==> k == i || k in ids - {i};
    }
  }
}
