// The tunnel lock file shared by competing supervisors and cleaners
// (src/connect.rs).  An flock is held on an inode, not on a path; a world is
// the inode the path names, if any, and what every process holds.  Steps of
// different processes interleave freely.  Opening and locking the file is one
// step, and so is an ownership check with the unlink it guards; a cleaner's
// acquire and its unlink are two.

module LockProtocol {
  import opened Wrappers

  type Ino = nat
  type Pid = nat

  /** A process holds the lock on `ino` in every phase; `identity` is the inode it learned at startup. */
  datatype Proc =
    | Setup(ino: Ino, identity: Option<Ino>)     // lock taken, bail guard armed
    | Running(ino: Ino, identity: Option<Ino>)   // connect guard owns cleanup
    | Cleaning(ino: Ino)                         // cleaner between acquire and unlink
    | Closing(ino: Ino)                          // about to release the lock

  datatype World = World(path: Option<Ino>, procs: map<Pid, Proc>)

  datatype Step =
    | Acquire(p: Pid, newIno: Ino, statOk: bool)
    | Start(p: Pid)
    | Bail(p: Pid)
    | DropGuard(p: Pid, statOk: bool)
    | CleanupAcquire(p: Pid, newIno: Ino)
    | CleanupUnlink(p: Pid)
    | Release(p: Pid)
    | Crash(p: Pid)
    | ExternalUnlink

  const NEW_WORLD := World(None, map[])

  ghost predicate HeldBy(w: World, q: Pid, i: Ino) {
    q in w.procs && w.procs[q].ino == i
  }

  ghost predicate IsHeld(w: World, i: Ino) {
    exists q :: HeldBy(w, q, i)
  }

  /** `is_lock_held(path)`: what every other process can observe. */
  ghost predicate LockObservable(w: World) {
    w.path.Some? && IsHeld(w, w.path.value)
  }

  ghost predicate Live(w: World, p: Pid) {
    p in w.procs && (w.procs[p].Setup? || w.procs[p].Running?)
  }

  /** The inode an `O_CREAT` open of the path yields. */
  function OpenedIno(w: World, newIno: Ino): Ino {
    w.path.GetOr(newIno)
  }

  /** `try_acquire_lock` succeeds: the inode at the path, or a brand-new one, is locked by nobody. */
  ghost predicate CanAcquire(w: World, p: Pid, newIno: Ino) {
    p !in w.procs && !IsHeld(w, OpenedIno(w, newIno))
  }

  ghost predicate Enabled(w: World, s: Step) {
    match s
    case Acquire(p, newIno, _) => CanAcquire(w, p, newIno)
    case Start(p) => p in w.procs && w.procs[p].Setup?
    case Bail(p) => p in w.procs && w.procs[p].Setup?
    case DropGuard(p, _) => p in w.procs && w.procs[p].Running?
    case CleanupAcquire(p, newIno) => CanAcquire(w, p, newIno)
    case CleanupUnlink(p) => p in w.procs && w.procs[p].Cleaning?
    case Release(p) => p in w.procs && w.procs[p].Closing?
    case Crash(p) => p in w.procs
    case ExternalUnlink => true
  }

  /** `lock_still_owned`: an unknown identity counts as owned. */
  predicate StillOwned(identity: Option<Ino>, path: Option<Ino>) {
    identity.None? || path == identity
  }

  /** Does the step's process unlink the path? */
  ghost predicate Unlinks(w: World, s: Step)
    requires Enabled(w, s)
  {
    match s
    case Bail(p) => w.path.Some? && StillOwned(w.procs[p].identity, w.path)
    case DropGuard(p, statOk) => statOk && w.path == Some(w.procs[p].ino)
    case CleanupUnlink(p) => w.path.Some?
    case _ => false
  }

  ghost function Apply(w: World, s: Step): World
    requires Enabled(w, s)
  {
    var left := if s.ExternalUnlink? || Unlinks(w, s) then None else w.path;
    match s
    case Acquire(p, newIno, statOk) =>
      var ino := OpenedIno(w, newIno);
      World(Some(ino), w.procs[p := Setup(ino, if statOk then Some(ino) else None)])
    case Start(p) => World(left, w.procs[p := Running(w.procs[p].ino, w.procs[p].identity)])
    case Bail(p) => World(left, w.procs[p := Closing(w.procs[p].ino)])
    case DropGuard(p, _) => World(left, w.procs[p := Closing(w.procs[p].ino)])
    case CleanupAcquire(p, newIno) =>
      var ino := OpenedIno(w, newIno);
      World(Some(ino), w.procs[p := Cleaning(ino)])
    case CleanupUnlink(p) => World(left, w.procs[p := Closing(w.procs[p].ino)])
    case Release(p) => World(left, w.procs - {p})
    case Crash(p) => World(left, w.procs - {p})
    case ExternalUnlink => World(left, w.procs)
  }

  ghost predicate IsRun(w: World, steps: seq<Step>)
    decreases steps
  {
    steps != [] ==> Enabled(w, steps[0]) && IsRun(Apply(w, steps[0]), steps[1..])
  }

  ghost function After(w: World, steps: seq<Step>): World
    requires IsRun(w, steps)
    decreases steps
  {
    if steps == [] then w else After(Apply(w, steps[0]), steps[1..])
  }

  // ---------------------------------------------------------------------
  // Exclusion
  // ---------------------------------------------------------------------

  /** No inode is locked twice, and a known identity is the inode held. */
  ghost predicate Inv(w: World) {
    && (forall p, q :: p in w.procs && q in w.procs && w.procs[p].ino == w.procs[q].ino ==> p == q)
    && (forall p :: Live(w, p) ==> w.procs[p].identity in {None, Some(w.procs[p].ino)})
  }

  lemma AcquireKeepsInv(w: World, p: Pid, newIno: Ino, phase: Proc)
    requires Inv(w) && CanAcquire(w, p, newIno) && phase.ino == OpenedIno(w, newIno)
    requires phase.Setup? ==> phase.identity in {None, Some(phase.ino)}
    requires !phase.Running?
    ensures Inv(World(Some(phase.ino), w.procs[p := phase]))
  {
    forall q | q in w.procs
      ensures w.procs[q].ino != phase.ino
    {
      assert !HeldBy(w, q, phase.ino);
    }
    var w' := World(Some(phase.ino), w.procs[p := phase]);
    forall q | Live(w', q)
      ensures w'.procs[q].identity in {None, Some(w'.procs[q].ino)}
    {
      if q != p {
        assert Live(w, q);
      }
    }
  }

  lemma PhaseKeepsInv(w: World, p: Pid, phase: Proc, path: Option<Ino>)
    requires Inv(w) && p in w.procs && phase.ino == w.procs[p].ino
    requires phase.Closing? || (phase.Running? && Live(w, p) && phase.identity == w.procs[p].identity)
    ensures Inv(World(path, w.procs[p := phase]))
  {
    var w' := World(path, w.procs[p := phase]);
    forall q | Live(w', q)
      ensures w'.procs[q].identity in {None, Some(w'.procs[q].ino)}
    {
      assert Live(w, q);
    }
  }

  lemma LeaveKeepsInv(w: World, gone: set<Pid>, path: Option<Ino>)
    requires Inv(w)
    ensures Inv(World(path, w.procs - gone))
  {
    var w' := World(path, w.procs - gone);
    forall q | Live(w', q)
      ensures w'.procs[q].identity in {None, Some(w'.procs[q].ino)}
    {
      assert Live(w, q);
    }
  }

  lemma StepKeepsInv(w: World, s: Step)
    requires Inv(w) && Enabled(w, s)
    ensures Inv(Apply(w, s))
  {
    var w' := Apply(w, s);
    match s {
      case Acquire(p, newIno, _) => AcquireKeepsInv(w, p, newIno, w'.procs[p]);
      case CleanupAcquire(p, newIno) => AcquireKeepsInv(w, p, newIno, w'.procs[p]);
      case Release(p) => LeaveKeepsInv(w, {p}, w'.path);
      case Crash(p) => LeaveKeepsInv(w, {p}, w'.path);
      case ExternalUnlink =>
        assert w.procs - {} == w.procs;
        LeaveKeepsInv(w, {}, w'.path);
      case _ => PhaseKeepsInv(w, s.p, w'.procs[s.p], w'.path);
    }
  }

  lemma {:induction false} RunKeepsInv(w: World, steps: seq<Step>)
    requires Inv(w) && IsRun(w, steps)
    ensures Inv(After(w, steps))
    decreases steps
  {
    if steps == [] {
    } else {
      StepKeepsInv(w, steps[0]);
      RunKeepsInv(Apply(w, steps[0]), steps[1..]);
    }
  }

  /** At every moment of every run at most one live supervisor's lock is the one at the path. */
  lemma OneOwner(steps: seq<Step>, p: Pid, q: Pid)
    requires IsRun(NEW_WORLD, steps)
    requires var w := After(NEW_WORLD, steps);
             Live(w, p) && Live(w, q) && w.path == Some(w.procs[p].ino) && w.path == Some(w.procs[q].ino)
    ensures p == q
  {
    RunKeepsInv(NEW_WORLD, steps);
  }

  // ---------------------------------------------------------------------
  // Who can unlink another process's lock
  // ---------------------------------------------------------------------

  /** The step removes a path that names an inode some other process holds. */
  ghost predicate Harms(w: World, s: Step)
    requires Enabled(w, s)
  {
    Unlinks(w, s) && exists q :: q != s.p && HeldBy(w, q, w.path.value)
  }

  /** The two unlinks that are not guarded by a check of the inode. */
  ghost predicate Unchecked(w: World, s: Step)
    requires Enabled(w, s)
  {
    (s.Bail? && w.procs[s.p].identity.None?) || s.CleanupUnlink?
  }

  /**
   * Exactly when a step harms, external unlinks allowed: an unchecked unlink
   * of a path whose lock anybody can observe and whose inode is not the
   * process's own.  A guard drop never harms, nor a bail with a known identity.
   */
  lemma HarmExactly(w: World, s: Step)
    requires Inv(w) && Enabled(w, s)
    ensures Harms(w, s) <==> Unchecked(w, s) && LockObservable(w) && w.path != Some(w.procs[s.p].ino)
  {
    if Unlinks(w, s) {
      var p := s.p;
      assert HeldBy(w, p, w.procs[p].ino);
      if s.DropGuard? || s.Bail? {
        assert Live(w, p);
      }
    }
  }

  /** In any run from the start, whoever took its lock with a good fstat never harms when it goes. */
  lemma GuardsNeverHarm(steps: seq<Step>, s: Step)
    requires IsRun(NEW_WORLD, steps) && Enabled(After(NEW_WORLD, steps), s)
    requires s.DropGuard? || (s.Bail? && After(NEW_WORLD, steps).procs[s.p].identity.Some?)
    ensures !Harms(After(NEW_WORLD, steps), s)
  {
    RunKeepsInv(NEW_WORLD, steps);
    HarmExactly(After(NEW_WORLD, steps), s);
  }

  // ---------------------------------------------------------------------
  // Without external unlinks
  // ---------------------------------------------------------------------

  /** Every live supervisor and every cleaner holds the very inode the path names. */
  ghost predicate PathIsLocked(w: World) {
    forall p :: p in w.procs && !w.procs[p].Closing? ==> w.path == Some(w.procs[p].ino)
  }

  lemma StepKeepsPathLocked(w: World, s: Step)
    requires Inv(w) && PathIsLocked(w) && Enabled(w, s) && !s.ExternalUnlink?
    ensures PathIsLocked(Apply(w, s)) && !Harms(w, s)
  {
    if s.Acquire? || s.CleanupAcquire? {
      forall q | q in w.procs
        ensures w.procs[q].Closing?
      {
        if !w.procs[q].Closing? {
          assert HeldBy(w, q, w.path.value);
        }
      }
    } else {
      HarmExactly(w, s);
      if Unlinks(w, s) {
        assert w.path == Some(w.procs[s.p].ino);
      }
    }
  }

  ghost predicate NoExternalUnlink(steps: seq<Step>) {
    ExternalUnlink !in steps
  }

  /** No interleaving of the processes themselves ever removes a lock somebody else holds. */
  lemma {:induction false} ProcessesNeverHarm(w: World, steps: seq<Step>, k: nat)
    requires Inv(w) && PathIsLocked(w) && IsRun(w, steps) && NoExternalUnlink(steps)
    requires k <= |steps|
    ensures IsRun(w, steps[..k])
    ensures var v := After(w, steps[..k]);
            Inv(v) && PathIsLocked(v) && (k < |steps| ==> Enabled(v, steps[k]) && !Harms(v, steps[k]))
    decreases steps
  {
    if steps == [] {
      assert steps[..k] == [];
    } else {
      StepKeepsInv(w, steps[0]);
      StepKeepsPathLocked(w, steps[0]);
      if k == 0 {
        assert steps[..0] == [];
      } else {
        assert steps[..k][0] == steps[0] && steps[..k][1..] == steps[1..][..k - 1];
        ProcessesNeverHarm(Apply(w, steps[0]), steps[1..], k - 1);
      }
    }
  }

  /** A running supervisor's lock stays observable at the path until its own cleanup. */
  lemma RunningLockObservable(steps: seq<Step>, p: Pid)
    requires IsRun(NEW_WORLD, steps) && NoExternalUnlink(steps)
    requires Live(After(NEW_WORLD, steps), p)
    ensures var w := After(NEW_WORLD, steps);
            w.path == Some(w.procs[p].ino) && LockObservable(w)
  {
    ProcessesNeverHarm(NEW_WORLD, steps, |steps|);
    assert steps[..|steps|] == steps;
    var w := After(NEW_WORLD, steps);
    assert HeldBy(w, p, w.path.value);
  }

  // ---------------------------------------------------------------------
  // With external unlinks: cleanup as one step
  // ---------------------------------------------------------------------

  /** Every cleaner unlinks in the step right after its acquire. */
  ghost predicate CleanupIsAtomic(steps: seq<Step>) {
    forall i :: 0 <= i < |steps| && steps[i].CleanupAcquire? ==>
      i + 1 < |steps| && steps[i + 1] == CleanupUnlink(steps[i].p)
  }

  /** Every supervisor's fstat at startup succeeded. */
  ghost predicate StatsSucceed(steps: seq<Step>) {
    forall i :: 0 <= i < |steps| && steps[i].Acquire? ==> steps[i].statOk
  }

  ghost predicate NobodyCleaning(w: World) {
    forall p :: p in w.procs ==> !w.procs[p].Cleaning?
  }

  ghost predicate IdentitiesKnown(w: World) {
    forall p :: Live(w, p) ==> w.procs[p].identity.Some?
  }

  ghost predicate NoStepHarms(w: World, steps: seq<Step>)
    requires IsRun(w, steps)
    decreases steps
  {
    steps != [] ==> !Harms(w, steps[0]) && NoStepHarms(Apply(w, steps[0]), steps[1..])
  }

  lemma StepKeepsIdentities(w: World, s: Step)
    requires IdentitiesKnown(w) && Enabled(w, s) && (s.Acquire? ==> s.statOk)
    ensures IdentitiesKnown(Apply(w, s))
  {
    forall p | Live(Apply(w, s), p)
      ensures Apply(w, s).procs[p].identity.Some?
    {
      if p in w.procs {
        assert Live(w, p);
      }
    }
  }

  /** Anybody may delete the lock file at any time, and still no process removes another's lock. */
  lemma {:induction false} AtomicRunsNeverHarm(w: World, steps: seq<Step>)
    requires Inv(w) && NobodyCleaning(w) && IdentitiesKnown(w) && IsRun(w, steps)
    requires CleanupIsAtomic(steps) && StatsSucceed(steps)
    ensures NoStepHarms(w, steps)
    decreases steps
  {
    if steps == [] {
    } else {
      var s, v := steps[0], Apply(w, steps[0]);
      HarmExactly(w, s);
      StepKeepsInv(w, s);
      StepKeepsIdentities(w, s);
      if s.Bail? {
        assert Live(w, s.p);
      }
      assert forall i :: 0 <= i < |steps[1..]| ==> steps[1..][i] == steps[i + 1];
      if s.CleanupAcquire? {
        var u := steps[1];
        assert u == CleanupUnlink(s.p) && steps[1..][0] == u;
        HarmExactly(v, u);
        assert HeldBy(v, s.p, v.path.value);
        StepKeepsInv(v, u);
        StepKeepsIdentities(v, u);
        assert steps[1..][1..] == steps[2..];
        assert forall i :: 0 <= i < |steps[2..]| ==> steps[2..][i] == steps[i + 2];
        AtomicRunsNeverHarm(Apply(v, u), steps[2..]);
      } else {
        AtomicRunsNeverHarm(v, steps[1..]);
      }
    }
  }

  // ---------------------------------------------------------------------
  // What goes wrong otherwise
  // ---------------------------------------------------------------------

  /** Split, a cleaner can remove a fresh supervisor's lock: the file vanished after its acquire. */
  lemma SplitCleanupHarms()
    ensures var steps := [CleanupAcquire(1, 10), ExternalUnlink, Acquire(2, 20, true)];
            IsRun(NEW_WORLD, steps) && Enabled(After(NEW_WORLD, steps), CleanupUnlink(1))
            && Harms(After(NEW_WORLD, steps), CleanupUnlink(1))
  {
    var w1 := World(Some(10), map[1 := Cleaning(10)]);
    var w2 := World(None, map[1 := Cleaning(10)]);
    var w3 := World(Some(20), map[1 := Cleaning(10), 2 := Setup(20, Some(20))]);
    ThreeSteps(CleanupAcquire(1, 10), ExternalUnlink, Acquire(2, 20, true), w1, w2, w3);
    assert HeldBy(w3, 2, 20);
  }

  /** With an unknown identity, so can a bail guard. */
  lemma UnknownIdentityHarms()
    ensures var steps := [Acquire(1, 10, false), ExternalUnlink, Acquire(2, 20, true)];
            IsRun(NEW_WORLD, steps) && Enabled(After(NEW_WORLD, steps), Bail(1))
            && Harms(After(NEW_WORLD, steps), Bail(1))
  {
    var w1 := World(Some(10), map[1 := Setup(10, None)]);
    var w2 := World(None, map[1 := Setup(10, None)]);
    var w3 := World(Some(20), map[1 := Setup(10, None), 2 := Setup(20, Some(20))]);
    ThreeSteps(Acquire(1, 10, false), ExternalUnlink, Acquire(2, 20, true), w1, w2, w3);
    assert HeldBy(w3, 2, 20);
  }

  lemma ThreeSteps(a: Step, b: Step, c: Step, w1: World, w2: World, w3: World)
    requires Enabled(NEW_WORLD, a) && Apply(NEW_WORLD, a) == w1
    requires Enabled(w1, b) && Apply(w1, b) == w2
    requires Enabled(w2, c) && Apply(w2, c) == w3
    ensures IsRun(NEW_WORLD, [a, b, c]) && After(NEW_WORLD, [a, b, c]) == w3
  {
    ThenStep(c, [], w2, w3);
    ThenStep(b, [c], w1, w2);
    ThenStep(a, [b, c], NEW_WORLD, w1);
    assert [c] + [] == [c] && [b] + [c] == [b, c] && [a] + [b, c] == [a, b, c];
  }

  /** A run begins with its first step. */
  lemma ThenStep(s: Step, later: seq<Step>, w: World, v: World)
    requires Enabled(w, s) && Apply(w, s) == v && IsRun(v, later)
    ensures IsRun(w, [s] + later) && After(w, [s] + later) == After(v, later)
  {
    assert ([s] + later)[1..] == later;
  }

  /** Why unlink comes before release: a lock released first can be taken, then lost, in between. */
  lemma ReleaseFirstLosesALock(w: World, p: Pid, q: Pid, ino: Ino)
    requires w == World(Some(ino), map[p := Running(ino, Some(ino))]) && q != p
    ensures var released := World(w.path, w.procs - {p});
            var taken := Acquire(q, ino, true);
            && Enabled(released, taken)
            && LockObservable(Apply(released, taken))
            && !LockObservable(World(None, Apply(released, taken).procs))
    ensures !Enabled(w, Acquire(q, ino, true))
  {
    var released := World(w.path, w.procs - {p});
    assert HeldBy(Apply(released, Acquire(q, ino, true)), q, ino);
    assert HeldBy(w, p, ino);
  }
}
