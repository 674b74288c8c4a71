// The tunnel supervisor of src/connect.rs: when it kills ssh and how long it
// waits before trying again.  Clocks, probes, the network watcher and the
// file system are inputs.  Durations are milliseconds.

module Backoff {
  import opened Bytes

  const MIN_RESPAWN_BACKOFF: nat := 1_000
  const MAX_RESPAWN_BACKOFF: nat := 60_000
  const HEALTHY_CHILD_THRESHOLD: nat := 30_000
  const SUSPEND_JUMP_THRESHOLD: nat := 5_000

  function RespawnSleep(prev: nat, priorUptime: nat): nat {
    if priorUptime >= HEALTHY_CHILD_THRESHOLD then MIN_RESPAWN_BACKOFF else prev
  }

  predicate SuspendJump(mono: nat, wall: nat) {
    wall > mono + SUSPEND_JUMP_THRESHOLD
  }

  function DoubleBackoff(cur: nat): nat {
    Min(Max(cur, MIN_RESPAWN_BACKOFF) * 2, MAX_RESPAWN_BACKOFF)
  }

  predicate InRange(backoff: nat) {
    MIN_RESPAWN_BACKOFF <= backoff <= MAX_RESPAWN_BACKOFF
  }

  // ---------------------------------------------------------------------
  // One wait
  // ---------------------------------------------------------------------

  datatype WaitEvent =
    | Poll(kicked: bool, mono: nat, wall: nat)   // the two-second suspend poll
    | NetChanged(unsatisfied: bool)
    | Cancel

  datatype WaitOutcome = Elapsed | Wake | Kicked | NetRecovered | Cancelled

  /** What happened before the deadline decides how the wait ends. */
  function BackoffWait(events: seq<WaitEvent>, saw: bool): (WaitOutcome, bool)
    decreases events
  {
    if events == [] then (Elapsed, saw)
    else
      match events[0]
      case Poll(kicked, mono, wall) =>
        if kicked then (Kicked, saw)
        else if SuspendJump(mono, wall) then (Wake, saw)
        else BackoffWait(events[1..], saw)
      case NetChanged(unsatisfied) =>
        if unsatisfied then BackoffWait(events[1..], true)
        else if saw then (NetRecovered, false)
        else BackoffWait(events[1..], saw)
      case Cancel => (Cancelled, saw)
  }

  /** Network noise never cuts a wait short: a recovery needs an outage seen before it. */
  lemma {:induction false} RecoveryNeedsOutage(events: seq<WaitEvent>, saw: bool)
    requires BackoffWait(events, saw).0 == NetRecovered
    ensures saw || exists i :: 0 <= i < |events| && events[i] == NetChanged(true)
    decreases events
  {
    if saw || events[0] == NetChanged(true) {
    } else {
      RecoveryNeedsOutage(events[1..], saw);
      var i :| 0 <= i < |events[1..]| && events[1..][i] == NetChanged(true);
      assert events[i + 1] == NetChanged(true);
    }
  }

  // ---------------------------------------------------------------------
  // One respawn episode
  // ---------------------------------------------------------------------

  /**
   * One time round the respawn loop: is the lock still ours, what happens
   * during the wait, is the remote ready (or known healthy), does ssh start.
   */
  datatype Attempt = Attempt(lockOwned: bool, during: seq<WaitEvent>, ready: bool, spawned: bool)

  datatype Round = Round(sleep: nat, skipped: bool, outcome: WaitOutcome) {
    function Waited(): nat {
      if skipped then 0 else sleep
    }
  }

  datatype RespawnResult = NewChild | Exit | StillTrying

  datatype Episode = Episode(rounds: seq<Round>, result: RespawnResult, backoff: nat)

  datatype Served = Served(round: Round, saw: bool, backoff: nat, result: RespawnResult)

  /** One wait, and the respawn it leads to, while the lock is ours. */
  function ServeRound(backoff: nat, sleep: nat, skip: bool, saw: bool, a: Attempt): Served {
    var (outcome, saw') := if skip then (Elapsed, saw) else BackoffWait(a.during, saw);
    var round := Round(sleep, skip, outcome);
    if outcome == Cancelled then Served(round, saw', backoff, Exit)
    else
      Served(round, saw', DoubleBackoff(if outcome == NetRecovered then MIN_RESPAWN_BACKOFF else sleep),
             if a.ready && a.spawned then NewChild else StillTrying)
  }

  function EpisodeFrom(backoff: nat, sleep: nat, skip: bool, saw: bool, attempts: seq<Attempt>): Episode
    decreases attempts
  {
    if attempts == [] then Episode([], StillTrying, backoff)
    else if !attempts[0].lockOwned then Episode([], Exit, backoff)
    else
      var served := ServeRound(backoff, sleep, skip, saw, attempts[0]);
      if served.result != StillTrying then Episode([served.round], served.result, served.backoff)
      else
        var rest := EpisodeFrom(served.backoff, served.backoff, false, served.saw, attempts[1..]);
        Episode([served.round] + rest.rounds, rest.result, rest.backoff)
  }

  lemma EpisodeCons(backoff: nat, sleep: nat, skip: bool, saw: bool, attempts: seq<Attempt>, earlier: seq<Round>)
    requires attempts != []
    ensures var e := EpisodeFrom(backoff, sleep, skip, saw, attempts);
            var served := ServeRound(backoff, sleep, skip, saw, attempts[0]);
            var rest := EpisodeFrom(served.backoff, served.backoff, false, served.saw, attempts[1..]);
            Episode(earlier + e.rounds, e.result, e.backoff) ==
              if !attempts[0].lockOwned then Episode(earlier, Exit, backoff)
              else if served.result != StillTrying then Episode(earlier + [served.round], served.result, served.backoff)
              else Episode(earlier + [served.round] + rest.rounds, rest.result, rest.backoff)
  {
    assert earlier + [] == earlier;
    var served := ServeRound(backoff, sleep, skip, saw, attempts[0]);
    var rest := EpisodeFrom(served.backoff, served.backoff, false, served.saw, attempts[1..]);
    assert earlier + ([served.round] + rest.rounds) == earlier + [served.round] + rest.rounds;
  }

  /** The wait a dead child earns: none if we killed it, and a fresh start if it had been healthy. */
  function FirstSleep(backoff: nat, weKilled: bool, diedUptime: nat): nat {
    if weKilled then 0 else RespawnSleep(backoff, diedUptime)
  }

  function Respawn(backoff: nat, weKilled: bool, diedUptime: nat, woke: bool, attempts: seq<Attempt>): Episode {
    var sleep := FirstSleep(backoff, weKilled, diedUptime);
    EpisodeFrom(backoff, sleep, woke && sleep != 0, false, attempts)
  }

  /** Each wait doubles the one before, and only a network recovery starts the climb over. */
  lemma {:induction false} RoundsClimb(backoff: nat, sleep: nat, skip: bool, saw: bool, attempts: seq<Attempt>, k: nat)
    requires k < |EpisodeFrom(backoff, sleep, skip, saw, attempts).rounds|
    ensures var rounds := EpisodeFrom(backoff, sleep, skip, saw, attempts).rounds;
            && rounds[0].sleep == sleep
            && (k > 0 ==> !rounds[k].skipped
                          && rounds[k].sleep
                             == DoubleBackoff(if rounds[k - 1].outcome == NetRecovered then MIN_RESPAWN_BACKOFF
                                              else rounds[k - 1].sleep))
    decreases attempts
  {
    var served := ServeRound(backoff, sleep, skip, saw, attempts[0]);
    if k == 0 {
    } else {
      RoundsClimb(served.backoff, served.backoff, false, served.saw, attempts[1..], k - 1);
    }
  }

  function Pow2(n: nat): nat {
    if n == 0 then 1 else 2 * Pow2(n - 1)
  }

  /** The `n`-th wait after one of length `s`, by the capped doubling schedule. */
  function Scheduled(s: nat, n: nat): nat {
    if n == 0 then s else Min(Max(s, MIN_RESPAWN_BACKOFF) * Pow2(n), MAX_RESPAWN_BACKOFF)
  }

  lemma ScheduledNext(s: nat, n: nat)
    ensures DoubleBackoff(Scheduled(s, n)) == Scheduled(s, n + 1)
  {
    var m := Max(s, MIN_RESPAWN_BACKOFF);
    PowPositive(n);
    assert m * Pow2(n + 1) == 2 * (m * Pow2(n));
    assert m * Pow2(n) >= m;
  }

  lemma {:induction false} PowPositive(n: nat)
    ensures Pow2(n) >= 1
  {
    if n == 0 {
    } else {
      PowPositive(n - 1);
    }
  }

  ghost predicate NoRecovery(rounds: seq<Round>, from: nat, to: nat)
    requires to <= |rounds|
  {
    forall i :: from <= i < to ==> rounds[i].outcome != NetRecovered
  }

  /** Between recoveries the waits follow the schedule, however many wakes and kicks cut them short. */
  lemma {:induction false} ScheduleHolds(backoff: nat, sleep: nat, skip: bool, saw: bool, attempts: seq<Attempt>, j: nat, k: nat)
    requires j <= k < |EpisodeFrom(backoff, sleep, skip, saw, attempts).rounds|
    requires NoRecovery(EpisodeFrom(backoff, sleep, skip, saw, attempts).rounds, j, k)
    ensures var rounds := EpisodeFrom(backoff, sleep, skip, saw, attempts).rounds;
            rounds[k].sleep == Scheduled(rounds[j].sleep, k - j)
    decreases k
  {
    if j == k {
    } else {
      ScheduleHolds(backoff, sleep, skip, saw, attempts, j, k - 1);
      RoundsClimb(backoff, sleep, skip, saw, attempts, k);
      ScheduledNext(EpisodeFrom(backoff, sleep, skip, saw, attempts).rounds[j].sleep, k - 1 - j);
    }
  }

  /** After a recovery the climb restarts from the minimum. */
  lemma ScheduleRestarts(backoff: nat, sleep: nat, skip: bool, saw: bool, attempts: seq<Attempt>, j: nat, k: nat)
    requires j < k < |EpisodeFrom(backoff, sleep, skip, saw, attempts).rounds|
    requires EpisodeFrom(backoff, sleep, skip, saw, attempts).rounds[j].outcome == NetRecovered
    requires NoRecovery(EpisodeFrom(backoff, sleep, skip, saw, attempts).rounds, j + 1, k)
    ensures EpisodeFrom(backoff, sleep, skip, saw, attempts).rounds[k].sleep
         == Scheduled(MIN_RESPAWN_BACKOFF, k - j)
  {
    RoundsClimb(backoff, sleep, skip, saw, attempts, j + 1);
    ScheduleHolds(backoff, sleep, skip, saw, attempts, j + 1, k);
    var n := k - j - 1;
    PowPositive(n);
    assert Pow2(n + 1) == 2 * Pow2(n);
    assert Scheduled(2 * MIN_RESPAWN_BACKOFF, n) == Scheduled(MIN_RESPAWN_BACKOFF, n + 1);
  }

  /** Every wait of every episode is nothing or within bounds, and so is the backoff it leaves. */
  lemma {:induction false} EpisodeInRange(backoff: nat, sleep: nat, skip: bool, saw: bool, attempts: seq<Attempt>)
    requires InRange(backoff) && (sleep == 0 || InRange(sleep))
    ensures var e := EpisodeFrom(backoff, sleep, skip, saw, attempts);
            && InRange(e.backoff)
            && forall i :: 0 <= i < |e.rounds| ==> e.rounds[i].Waited() == 0 || InRange(e.rounds[i].Waited())
    decreases attempts
  {
    if attempts == [] || !attempts[0].lockOwned {
    } else {
      var served := ServeRound(backoff, sleep, skip, saw, attempts[0]);
      if served.result == StillTrying {
        EpisodeInRange(served.backoff, served.backoff, false, served.saw, attempts[1..]);
      }
    }
  }
}

module Supervision {
  import opened Wrappers
  import opened Backoff

  const PROBE_FAILURES_BEFORE_RESPAWN: nat := 2
  const SPAWN_GRACE: nat := 5_000

  predicate RespawnNow(socketFileExists: bool, consecutiveFailures: nat) {
    !socketFileExists || consecutiveFailures >= PROBE_FAILURES_BEFORE_RESPAWN
  }

  /** ssh's exit worth retrying: killed by a signal, a connection error, or a remote signal death. */
  predicate IsTransient(code: Option<int>) {
    match code
    case None => true
    case Some(c) => c == 255 || 128 <= c <= 159
  }

  datatype Event =
    | Cancelled
    | PathChanged(unsatisfied: bool)
    | DebouncedProbe(ok: bool, uptime: nat)
    | Tick(lockOwned: bool, socketExists: bool, ok: bool)
    | ChildExited(waitFailed: bool, cancelled: bool, code: Option<int>, uptime: nat, wall: nat, attempts: seq<Attempt>)

  datatype Monitor = Monitor(
    backoff: nat, weKilled: bool, sawUnsatisfied: bool, probeArmed: bool, probeFailures: nat, running: bool)

  const STARTED := Monitor(MIN_RESPAWN_BACKOFF, false, false, false, 0, true)

  /** The new state and whether the step killed ssh. */
  datatype Stepped = Stepped(monitor: Monitor, killed: bool)

  /** A debounced probe fires only when armed, and asks nobody unless an outage was seen: `ok` says a probe got through. */
  predicate CanHappen(m: Monitor, e: Event) {
    m.running && (e.DebouncedProbe? ==> m.probeArmed && (e.ok ==> m.sawUnsatisfied))
  }

  function Succeeded(m: Monitor): Monitor {
    m.(probeFailures := 0, sawUnsatisfied := false)
  }

  function Step(m: Monitor, e: Event): Stepped
    requires CanHappen(m, e)
  {
    match e
    case Cancelled => Stepped(m.(running := false), true)
    case PathChanged(unsatisfied) =>
      Stepped(m.(sawUnsatisfied := m.sawUnsatisfied || unsatisfied, probeArmed := true), false)
    case DebouncedProbe(ok, uptime) =>
      var m := m.(probeArmed := false);
      if !m.sawUnsatisfied then Stepped(m, false)
      else if ok then Stepped(Succeeded(m), false)
      else if uptime >= SPAWN_GRACE then Stepped(m.(weKilled := true), true)
      else Stepped(m, false)
    case Tick(lockOwned, socketExists, ok) =>
      if !lockOwned then Stepped(m.(running := false), true)
      else
        var m := if !socketExists then m else if ok then Succeeded(m) else m.(probeFailures := m.probeFailures + 1);
        if RespawnNow(socketExists, m.probeFailures) then Stepped(m.(weKilled := true), true) else Stepped(m, false)
    case ChildExited(waitFailed, cancelled, code, uptime, wall, attempts) =>
      if waitFailed || cancelled then Stepped(m.(running := false), false)
      else
        var m := m.(sawUnsatisfied := false);
        if !IsTransient(code) then Stepped(m.(running := false), false)
        else
          var e := Respawn(m.backoff, m.weKilled, uptime, SuspendJump(uptime, wall), attempts);
          Stepped(Monitor(e.backoff, false, false, m.probeArmed && e.result != NewChild,
                          if e.result == NewChild then 0 else m.probeFailures, e.result == NewChild), false)
  }

  ghost predicate IsRun(m: Monitor, es: seq<Event>)
    decreases es
  {
    es != [] ==> CanHappen(m, es[0]) && IsRun(Step(m, es[0]).monitor, es[1..])
  }

  ghost function After(m: Monitor, es: seq<Event>): Monitor
    requires IsRun(m, es)
    decreases es
  {
    if es == [] then m else After(Step(m, es[0]).monitor, es[1..])
  }

  lemma {:induction false} RunSnoc(m: Monitor, es: seq<Event>, e: Event)
    requires IsRun(m, es + [e])
    ensures IsRun(m, es) && CanHappen(After(m, es), e)
    ensures After(m, es + [e]) == Step(After(m, es), e).monitor
    decreases es
  {
    if es == [] {
      assert es + [e] == [e] && [e][1..] == [];
      assert IsRun(Step(m, e).monitor, []);
    } else {
      assert (es + [e])[1..] == es[1..] + [e];
      RunSnoc(Step(m, es[0]).monitor, es[1..], e);
    }
  }

  // ---------------------------------------------------------------------
  // Bounds over every run
  // ---------------------------------------------------------------------

  lemma StepKeepsRange(m: Monitor, e: Event)
    requires CanHappen(m, e) && InRange(m.backoff)
    ensures InRange(Step(m, e).monitor.backoff)
  {
    if e.ChildExited? {
      var sleep := FirstSleep(m.backoff, m.weKilled, e.uptime);
      EpisodeInRange(m.backoff, sleep, SuspendJump(e.uptime, e.wall) && sleep != 0, false, e.attempts);
    }
  }

  /** Whatever happens, the backoff stays between one and sixty seconds. */
  lemma {:induction false} BackoffBounded(m: Monitor, es: seq<Event>)
    requires IsRun(m, es) && InRange(m.backoff)
    ensures InRange(After(m, es).backoff)
    decreases es
  {
    if es == [] {
    } else {
      StepKeepsRange(m, es[0]);
      BackoffBounded(Step(m, es[0]).monitor, es[1..]);
    }
  }

  // ---------------------------------------------------------------------
  // Why ssh is ever killed
  // ---------------------------------------------------------------------

  predicate IsFailedTick(e: Event) {
    e.Tick? && e.lockOwned && e.socketExists && !e.ok
  }

  /** Clears the record against the current child: a probe got through, or the child is gone. */
  predicate Clears(e: Event) {
    (e.Tick? && e.lockOwned && e.socketExists && e.ok) || (e.DebouncedProbe? && e.ok) || e.ChildExited?
  }

  /** Some event of this kind happened and nothing has cleared the record since. */
  ghost predicate Standing(es: seq<Event>, i: nat) {
    i < |es| && forall k :: i < k < |es| ==> !Clears(es[k])
  }

  predicate IsOutage(e: Event) {
    e == PathChanged(true)
  }

  ghost predicate SomeStanding(p: Event -> bool, es: seq<Event>) {
    exists i: nat :: Standing(es, i) && p(es[i])
  }

  ghost predicate EarlierFailedTick(es: seq<Event>) {
    SomeStanding(IsFailedTick, es)
  }

  ghost predicate OutageSeen(es: seq<Event>) {
    SomeStanding(IsOutage, es)
  }

  /** What the monitor remembers is the history: a standing failed tick, and a standing outage. */
  ghost predicate Remembers(m: Monitor, es: seq<Event>) {
    m.running ==> (m.probeFailures > 0 <==> EarlierFailedTick(es)) && (m.sawUnsatisfied <==> OutageSeen(es))
  }

  /** Of the kind `p`, something stands after one more event exactly when it was that event, or stood and was not cleared. */
  lemma StandingNext(p: Event -> bool, es: seq<Event>, e: Event)
    ensures SomeStanding(p, es + [e]) <==> p(e) || (SomeStanding(p, es) && !Clears(e))
  {
    var all := es + [e];
    if p(e) {
      assert Standing(all, |es|) && p(all[|es|]);
    }
    if SomeStanding(p, es) && !Clears(e) {
      var i: nat :| Standing(es, i) && p(es[i]);
      assert Standing(all, i) && p(all[i]);
    }
    if SomeStanding(p, all) && !p(e) {
      var i: nat :| Standing(all, i) && p(all[i]);
      assert all[|es|] == e;
      assert forall k :: i < k < |es| ==> all[k] == es[k];
      assert Standing(es, i) && p(es[i]);
    }
  }

  lemma RememberNext(m: Monitor, es: seq<Event>, e: Event)
    requires CanHappen(m, e) && Remembers(m, es)
    ensures Remembers(Step(m, e).monitor, es + [e])
  {
    StandingNext(IsFailedTick, es, e);
    StandingNext(IsOutage, es, e);
  }

  lemma {:induction false} RunRemembers(es: seq<Event>)
    requires IsRun(STARTED, es)
    ensures Remembers(After(STARTED, es), es)
    decreases |es|
  {
    if es == [] {
    } else {
      var init, e := es[..|es| - 1], es[|es| - 1];
      assert es == init + [e];
      RunSnoc(STARTED, init, e);
      RunRemembers(init);
      RememberNext(After(STARTED, init), init, e);
    }
  }

  /** The five reasons, in terms of what happened. */
  ghost predicate MustKill(es: seq<Event>, e: Event) {
    || e.Cancelled?
    || (e.Tick? && !e.lockOwned)
    || (e.Tick? && !e.socketExists)
    || (IsFailedTick(e) && EarlierFailedTick(es))
    || (e.DebouncedProbe? && !e.ok && e.uptime >= 5_000 && OutageSeen(es))
  }

  /**
   * Over every run ssh is killed for one of five reasons and for nothing
   * else: shutdown, a lost lock, a vanished socket file, a second failed
   * probe of this very child with no success in between, or a failed probe
   * past the spawn grace after an outage that no success followed.
   */
  lemma KillsAreJustified(es: seq<Event>, e: Event)
    requires IsRun(STARTED, es + [e])
    ensures IsRun(STARTED, es) && CanHappen(After(STARTED, es), e)
    ensures Step(After(STARTED, es), e).killed <==> MustKill(es, e)
  {
    RunSnoc(STARTED, es, e);
    RunRemembers(es);
  }

  /** And two strikes always kill: a failed tick on a record that already has one. */
  lemma SecondStrikeKills(m: Monitor, e: Event)
    requires CanHappen(m, e) && IsFailedTick(e)
    ensures Step(m, e).killed <==> m.probeFailures >= 1
    ensures Step(m, e).monitor.probeFailures == m.probeFailures + 1
  {
  }

  /** A replacement child starts with a clean record and a disarmed probe, whatever the old one did. */
  lemma NewChildStartsClean(m: Monitor, e: Event)
    requires CanHappen(m, e) && e.ChildExited? && Step(m, e).monitor.running
    ensures var m' := Step(m, e).monitor;
            m'.probeFailures == 0 && !m'.sawUnsatisfied && !m'.probeArmed && !m'.weKilled
  {
  }

  /** A child we killed ourselves is replaced without waiting; the climb is not lost. */
  lemma KilledChildRespawnsAtOnce(m: Monitor, e: Event)
    requires CanHappen(m, e) && e.ChildExited? && m.weKilled
    ensures var rounds := Respawn(m.backoff, m.weKilled, e.uptime, SuspendJump(e.uptime, e.wall), e.attempts).rounds;
            forall k :: 0 <= k < |rounds| && NoRecovery(rounds, 0, k) ==> rounds[k].sleep == Scheduled(0, k)
  {
    var rounds := Respawn(m.backoff, m.weKilled, e.uptime, SuspendJump(e.uptime, e.wall), e.attempts).rounds;
    forall k | 0 <= k < |rounds| && NoRecovery(rounds, 0, k)
      ensures rounds[k].sleep == Scheduled(0, k)
    {
      RoundsClimb(m.backoff, 0, false, false, e.attempts, 0);
      ScheduleHolds(m.backoff, 0, false, false, e.attempts, 0, k);
    }
  }
}

module Supervisors {
  import opened Backoff
  import opened Supervision

  class TunnelMonitor {
    var backoff: nat
    var weKilled: bool
    var sawUnsatisfied: bool
    var probeArmed: bool
    var probeFailures: nat
    var running: bool

    ghost function Model(): Monitor
      reads this
    {
      Monitor(backoff, weKilled, sawUnsatisfied, probeArmed, probeFailures, running)
    }

    constructor ()
      ensures Model() == STARTED
    {
      backoff, weKilled, sawUnsatisfied, probeArmed := MIN_RESPAWN_BACKOFF, false, false, false;
      probeFailures, running := 0, true;
    }

    method Handle(e: Event) returns (killed: bool)
      requires CanHappen(Model(), e)
      modifies this
      ensures Stepped(Model(), killed) == Step(old(Model()), e)
    {
      killed := false;
      match e {
        case Cancelled =>
          killed, running := true, false;
        case PathChanged(unsatisfied) =>
          if unsatisfied {
            sawUnsatisfied := true;
          }
          probeArmed := true;
        case DebouncedProbe(ok, uptime) =>
          probeArmed := false;
          if sawUnsatisfied {
            if ok {
              probeFailures, sawUnsatisfied := 0, false;
            } else if uptime >= SPAWN_GRACE {
              weKilled, killed := true, true;
            }
          }
        case Tick(lockOwned, socketExists, ok) =>
          if !lockOwned {
            killed, running := true, false;
            return;
          }
          if socketExists {
            if ok {
              probeFailures, sawUnsatisfied := 0, false;
            } else {
              probeFailures := probeFailures + 1;
            }
          }
          if RespawnNow(socketExists, probeFailures) {
            weKilled, killed := true, true;
          }
        case ChildExited(waitFailed, cancelled, code, uptime, wall, attempts) =>
          if waitFailed || cancelled {
            running := false;
            return;
          }
          sawUnsatisfied := false;
          if !IsTransient(code) {
            running := false;
            return;
          }
          var rounds, result := RespawnTunnel(uptime, SuspendJump(uptime, wall), attempts);
          if result == NewChild {
            probeFailures, probeArmed := 0, false;
          } else {
            running := false;
          }
      }
    }

    /** Back off, then respawn; the rounds are the waits it served. */
    method RespawnTunnel(diedUptime: nat, woke: bool, attempts: seq<Attempt>)
        returns (rounds: seq<Round>, result: RespawnResult)
      modifies this`backoff, this`weKilled
      ensures Episode(rounds, result, backoff) == Respawn(old(backoff), old(weKilled), diedUptime, woke, attempts)
      ensures !weKilled
    {
      var sleep;
      if weKilled {
        weKilled := false;
        sleep := 0;
      } else {
        sleep := RespawnSleep(backoff, diedUptime);
      }
      var skip, saw := woke && sleep != 0, false;
      rounds := [];
      ghost var whole := EpisodeFrom(backoff, sleep, skip, saw, attempts);
      var i := 0;
      while i < |attempts|
        invariant i <= |attempts| && !weKilled
        invariant var rest := EpisodeFrom(backoff, sleep, skip, saw, attempts[i..]);
                  Episode(rounds + rest.rounds, rest.result, rest.backoff) == whole
      {
        EpisodeCons(backoff, sleep, skip, saw, attempts[i..], rounds);
        assert attempts[i..][1..] == attempts[i + 1..];
        if !attempts[i].lockOwned {
          return rounds, Exit;
        }
        var round;
        round, saw, result := RespawnRound(sleep, skip, saw, attempts[i]);
        rounds := rounds + [round];
        if result != StillTrying {
          return;
        }
        sleep, skip := backoff, false;
        i := i + 1;
      }
      assert attempts[i..] == [];
      assert rounds + [] == rounds;
      result := StillTrying;
    }

    method RespawnRound(sleep: nat, skip: bool, saw: bool, a: Attempt)
        returns (round: Round, saw': bool, result: RespawnResult)
      modifies this`backoff
      ensures Served(round, saw', backoff, result) == ServeRound(old(backoff), sleep, skip, saw, a)
    {
      round, saw' := Round(sleep, skip, Elapsed), saw;
      var counted := sleep;
      if !skip {
        var wait := BackoffWait(a.during, saw);
        round, saw' := Round(sleep, skip, wait.0), wait.1;
        if wait.0 == WaitOutcome.Cancelled {
          result := Exit;
          return;
        }
        if wait.0 == NetRecovered {
          counted := MIN_RESPAWN_BACKOFF;
        }
      }
      backoff := DoubleBackoff(counted);
      result := if a.ready && a.spawned then NewChild else StillTrying;
    }
  }
}
