// What each step of the lock protocol does to the path and to every lock,
// and whole lives of a lock file.

module LockLaws {
  import opened Wrappers
  import opened LockProtocol

  /** The inode a process has locked. */
  function LockOf(w: World, p: Pid): Option<Ino> {
    if p in w.procs then Some(w.procs[p].ino) else None
  }

  /** Taking the lock is possible exactly while nobody's lock is observable at the path. */
  lemma AcquirePossible(w: World, p: Pid, newIno: Ino, statOk: bool)
    requires p !in w.procs && !IsHeld(w, newIno)
    ensures Enabled(w, Acquire(p, newIno, statOk)) <==> !LockObservable(w)
    ensures Enabled(w, CleanupAcquire(p, newIno)) <==> !LockObservable(w)
  {
  }

  /** Once taken, the lock is observable, on the file that was there or on a new one. */
  lemma AcquireTakes(w: World, p: Pid, newIno: Ino, statOk: bool)
    requires Enabled(w, Acquire(p, newIno, statOk))
    ensures var w' := Apply(w, Acquire(p, newIno, statOk));
            && LockObservable(w') && w'.path == LockOf(w', p)
            && w'.path == (if w.path.Some? then w.path else Some(newIno))
  {
    var w' := Apply(w, Acquire(p, newIno, statOk));
    assert HeldBy(w', p, w'.path.value);
  }

  /** While somebody's lock is observable, nobody takes another. */
  lemma OneAtATime(w: World, p: Pid, q: Pid, newIno: Ino, otherIno: Ino, statOk: bool)
    requires Enabled(w, Acquire(p, newIno, statOk))
    ensures var w' := Apply(w, Acquire(p, newIno, statOk));
            !Enabled(w', Acquire(q, otherIno, true)) && !Enabled(w', CleanupAcquire(q, otherIno))
  {
    AcquireTakes(w, p, newIno, statOk);
  }

  /** The path after a step, by who takes it and whether the file is still its own. */
  lemma PathAfter(w: World, s: Step)
    requires Inv(w) && Enabled(w, s)
    ensures Apply(w, s).path == NewPath(w, s)
  {
    if s.Bail? {
      assert Live(w, s.p);
    }
  }

  function NewPath(w: World, s: Step): Option<Ino> {
    match s
    // opened, and made if it was not there
    case Acquire(_, newIno, _) => Some(if w.path.Some? then w.path.value else newIno)
    case CleanupAcquire(_, newIno) => Some(if w.path.Some? then w.path.value else newIno)
    // a guard removes the file its own lock is on; one that could not find out which that is, any file
    case Bail(p) =>
      if p in w.procs && w.procs[p].Setup? && (w.procs[p].identity == None || w.path == LockOf(w, p)) then None
      else w.path
    case DropGuard(p, statOk) => if statOk && w.path == LockOf(w, p) then None else w.path
    // a cleaner removes whatever is there
    case CleanupUnlink(_) => None
    case ExternalUnlink => None
    case _ => w.path
  }

  /** Every lock after a step: taken, let go only by a release or a crash of its process, and otherwise kept. */
  lemma LocksAfter(w: World, s: Step, q: Pid)
    requires Enabled(w, s)
    ensures LockOf(Apply(w, s), q) ==
              if (s.Acquire? || s.CleanupAcquire?) && s.p == q then NewPath(w, s)
              else if (s.Release? || s.Crash?) && s.p == q then None
              else LockOf(w, q)
  {
  }

  /** The phase after a step: a process lets go of its lock only after it has dealt with the file. */
  lemma PhaseAfter(w: World, s: Step, q: Pid)
    requires Enabled(w, s) && q in w.procs
    ensures var w' := Apply(w, s);
            if s.ExternalUnlink? || s.p != q then q in w'.procs && w'.procs[q] == w.procs[q]
            else
              match s
              case Start(_) => w'.procs[q] == Running(w.procs[q].ino, w.procs[q].identity)
              case Bail(_) => w'.procs[q] == Closing(w.procs[q].ino)
              case DropGuard(_, _) => w'.procs[q] == Closing(w.procs[q].ino)
              case CleanupUnlink(_) => w'.procs[q] == Closing(w.procs[q].ino)
              case Release(_) => w.procs[q].Closing? && w' == World(w.path, w.procs - {q})
              case _ => s.Crash? && w' == World(w.path, w.procs - {q})
  {
  }

  /** A release frees the inode. */
  lemma ReleaseFrees(w: World, p: Pid)
    requires Inv(w) && Enabled(w, Release(p))
    ensures !IsHeld(Apply(w, Release(p)), w.procs[p].ino)
  {
    var w' := Apply(w, Release(p));
    forall q
      ensures !HeldBy(w', q, w.procs[p].ino)
    {
    }
  }

  /** A free path: nobody holds a lock on what it names, and `p` is not at it. */
  ghost predicate Free(w: World, p: Pid, newIno: Ino) {
    p !in w.procs && !LockObservable(w) && !IsHeld(w, newIno)
  }

  lemma Steps4(w: World, a: Step, b: Step, c: Step, d: Step, w1: World, w2: World, w3: World, w4: World)
    requires Enabled(w, a) && Apply(w, a) == w1 && Enabled(w1, b) && Apply(w1, b) == w2
    requires Enabled(w2, c) && Apply(w2, c) == w3 && Enabled(w3, d) && Apply(w3, d) == w4
    ensures IsRun(w, [a, b, c, d]) && After(w, [a, b, c, d]) == w4
  {
    ThenStep(d, [], w3, w4);
    ThenStep(c, [d], w2, w3);
    ThenStep(b, [c, d], w1, w2);
    ThenStep(a, [b, c, d], w, w1);
    assert [d] + [] == [d] && [c] + [d] == [c, d] && [b] + [c, d] == [b, c, d] && [a] + [b, c, d] == [a, b, c, d];
  }

  /** A supervisor's whole life, undisturbed: the file is gone afterwards, and every other process is as it was. */
  lemma SupervisorsLife(w: World, p: Pid, newIno: Ino)
    requires Free(w, p, newIno)
    ensures var life := [Acquire(p, newIno, true), Start(p), DropGuard(p, true), Release(p)];
            IsRun(w, life) && After(w, life) == World(None, w.procs)
  {
    AcquirePossible(w, p, newIno, true);
    var i := OpenedIno(w, newIno);
    var w1 := World(Some(i), w.procs[p := Setup(i, Some(i))]);
    var w2 := World(Some(i), w.procs[p := Running(i, Some(i))]);
    var w3 := World(None, w.procs[p := Closing(i)]);
    Steps4(w, Acquire(p, newIno, true), Start(p), DropGuard(p, true), Release(p), w1, w2, w3, World(None, w.procs));
  }
}
