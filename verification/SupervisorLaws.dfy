// When the supervisor goes on, how long it waits and why a wait ends, over
// every run and in terms of the events alone.

module SupervisionLaws {
  import opened Wrappers
  import opened Backoff
  import opened Supervision

  // ---------------------------------------------------------------------
  // One wait
  // ---------------------------------------------------------------------

  ghost predicate OutageBefore(events: seq<WaitEvent>, saw: bool, i: nat)
    requires i <= |events|
  {
    saw || exists j :: 0 <= j < i && events[j] == NetChanged(true)
  }

  /** This event ends a wait still being served: a kick, a jump of the clock, a recovery after an outage, or shutdown. */
  ghost predicate Ends(events: seq<WaitEvent>, saw: bool, i: nat)
    requires i < |events|
  {
    match events[i]
    case Poll(kicked, mono, wall) => kicked || wall > mono + 5_000
    case NetChanged(unsatisfied) => !unsatisfied && OutageBefore(events, saw, i)
    case Cancel => true
  }

  function Ending(e: WaitEvent): WaitOutcome {
    match e
    case Poll(kicked, _, _) => if kicked then Kicked else Wake
    case NetChanged(_) => NetRecovered
    case Cancel => WaitOutcome.Cancelled
  }

  ghost predicate EndsFirst(events: seq<WaitEvent>, saw: bool, i: nat) {
    i < |events| && Ends(events, saw, i) && forall j :: 0 <= j < i ==> !Ends(events, saw, j)
  }

  ghost predicate NothingEnds(events: seq<WaitEvent>, saw: bool) {
    forall i :: 0 <= i < |events| ==> !Ends(events, saw, i)
  }

  lemma EndsLater(events: seq<WaitEvent>, saw: bool, i: nat)
    requires 0 < i < |events|
    ensures Ends(events, saw, i) <==> Ends(events[1..], saw || events[0] == NetChanged(true), i - 1)
  {
    OutageLater(events, saw, i);
  }

  lemma OutageLater(events: seq<WaitEvent>, saw: bool, i: nat)
    requires 0 < i <= |events|
    ensures OutageBefore(events, saw, i) <==> OutageBefore(events[1..], saw || events[0] == NetChanged(true), i - 1)
  {
    var rest := events[1..];
    forall j | 0 <= j < i - 1
      ensures rest[j] == events[j + 1]
    {
    }
    if j :| 0 < j < i && events[j] == NetChanged(true) {
      assert rest[j - 1] == NetChanged(true);
    }
  }

  /** A wait ends the way of the first event that ends it. */
  lemma {:induction false} WaitEndsExactly(events: seq<WaitEvent>, saw: bool, i: nat)
    requires EndsFirst(events, saw, i)
    ensures BackoffWait(events, saw)
         == (Ending(events[i]), !events[i].NetChanged? && OutageBefore(events, saw, i))
    decreases events
  {
    if i == 0 {
    } else {
      assert !Ends(events, saw, 0);
      var saw' := saw || events[0] == NetChanged(true);
      EndsLater(events, saw, i);
      OutageLater(events, saw, i);
      forall j | 0 <= j < i - 1
        ensures !Ends(events[1..], saw', j)
      {
        EndsLater(events, saw, j + 1);
      }
      WaitEndsExactly(events[1..], saw', i - 1);
    }
  }

  /** And runs its full length when no event ends it. */
  lemma {:induction false} WaitElapses(events: seq<WaitEvent>, saw: bool)
    requires NothingEnds(events, saw)
    ensures BackoffWait(events, saw) == (Elapsed, OutageBefore(events, saw, |events|))
    decreases events
  {
    if events == [] {
    } else {
      assert !Ends(events, saw, 0);
      var saw' := saw || events[0] == NetChanged(true);
      OutageLater(events, saw, |events|);
      forall j | 0 <= j < |events| - 1
        ensures !Ends(events[1..], saw', j)
      {
        EndsLater(events, saw, j + 1);
      }
      WaitElapses(events[1..], saw');
    }
  }

  // ---------------------------------------------------------------------
  // How an episode ends
  // ---------------------------------------------------------------------

  /** Whether the wait of attempt `k` begins with an outage seen; `skip` leaves the first wait out. */
  function SawAt(skip: bool, saw: bool, attempts: seq<Attempt>, k: nat): bool
    requires k <= |attempts|
    decreases k
  {
    if k == 0 then saw
    else if skip && k == 1 then SawAt(skip, saw, attempts, 0)
    else BackoffWait(attempts[k - 1].during, SawAt(skip, saw, attempts, k - 1)).1
  }

  predicate CancelledAt(skip: bool, saw: bool, attempts: seq<Attempt>, k: nat)
    requires k < |attempts|
  {
    !(skip && k == 0)
    && BackoffWait(attempts[k].during, SawAt(skip, saw, attempts, k)).0 == WaitOutcome.Cancelled
  }

  /** Attempt `k` is reached and goes as far as its respawn: the lock ours and no shutdown up to there. */
  ghost predicate Tries(skip: bool, saw: bool, attempts: seq<Attempt>, k: nat) {
    k < |attempts| && forall j :: 0 <= j <= k ==> attempts[j].lockOwned && !CancelledAt(skip, saw, attempts, j)
  }

  /** Attempt `k` is the first to find the remote ready and ssh starting. */
  ghost predicate ChildAt(skip: bool, saw: bool, attempts: seq<Attempt>, k: nat) {
    && Tries(skip, saw, attempts, k) && attempts[k].ready && attempts[k].spawned
    && forall j :: 0 <= j < k ==> !(attempts[j].ready && attempts[j].spawned)
  }

  ghost predicate FindsChild(skip: bool, saw: bool, attempts: seq<Attempt>) {
    exists k: nat :: ChildAt(skip, saw, attempts, k)
  }

  function FirstSaw(skip: bool, saw: bool, a: Attempt): bool {
    if skip then saw else BackoffWait(a.during, saw).1
  }

  lemma {:induction false} SawLater(skip: bool, saw: bool, attempts: seq<Attempt>, k: nat)
    requires 0 < k <= |attempts|
    ensures SawAt(skip, saw, attempts, k) == SawAt(false, FirstSaw(skip, saw, attempts[0]), attempts[1..], k - 1)
    decreases k
  {
    if k == 1 {
    } else {
      SawLater(skip, saw, attempts, k - 1);
    }
  }

  lemma CancelledLater(skip: bool, saw: bool, attempts: seq<Attempt>, k: nat)
    requires 0 < k < |attempts|
    ensures CancelledAt(skip, saw, attempts, k)
         == CancelledAt(false, FirstSaw(skip, saw, attempts[0]), attempts[1..], k - 1)
  {
    SawLater(skip, saw, attempts, k);
  }

  lemma TriesLater(skip: bool, saw: bool, attempts: seq<Attempt>, k: nat)
    requires 0 < k < |attempts| && attempts[0].lockOwned && !CancelledAt(skip, saw, attempts, 0)
    ensures Tries(skip, saw, attempts, k) <==> Tries(false, FirstSaw(skip, saw, attempts[0]), attempts[1..], k - 1)
  {
    var rest, saw' := attempts[1..], FirstSaw(skip, saw, attempts[0]);
    forall j | 0 < j <= k
      ensures attempts[j].lockOwned && !CancelledAt(skip, saw, attempts, j)
         <==> rest[j - 1].lockOwned && !CancelledAt(false, saw', rest, j - 1)
    {
      CancelledLater(skip, saw, attempts, j);
    }
    if Tries(skip, saw, attempts, k) {
      forall j | 0 <= j <= k - 1
        ensures rest[j].lockOwned && !CancelledAt(false, saw', rest, j)
      {
        assert attempts[j + 1].lockOwned;
      }
    }
  }

  lemma ChildLater(skip: bool, saw: bool, attempts: seq<Attempt>, k: nat)
    requires 0 < k < |attempts| && attempts[0].lockOwned && !CancelledAt(skip, saw, attempts, 0)
    requires !(attempts[0].ready && attempts[0].spawned)
    ensures ChildAt(skip, saw, attempts, k)
       <==> ChildAt(false, FirstSaw(skip, saw, attempts[0]), attempts[1..], k - 1)
  {
    var rest := attempts[1..];
    TriesLater(skip, saw, attempts, k);
    assert forall j :: 0 < j <= k ==> rest[j - 1] == attempts[j];
    assert forall j :: 0 <= j <= k - 1 ==> rest[j] == attempts[j + 1];
  }

  /** An episode ends with a child exactly when some attempt is reached that finds one. */
  lemma {:induction false} EpisodeFindsChild(backoff: nat, sleep: nat, skip: bool, saw: bool, attempts: seq<Attempt>)
    ensures EpisodeFrom(backoff, sleep, skip, saw, attempts).result == NewChild <==> FindsChild(skip, saw, attempts)
    decreases attempts
  {
    if attempts == [] {
    } else {
      var a, rest := attempts[0], attempts[1..];
      var served := ServeRound(backoff, sleep, skip, saw, a);
      if !a.lockOwned || CancelledAt(skip, saw, attempts, 0) {
        forall k: nat
          ensures !ChildAt(skip, saw, attempts, k)
        {
        }
      } else if a.ready && a.spawned {
        assert ChildAt(skip, saw, attempts, 0);
      } else {
        EpisodeFindsChild(served.backoff, served.backoff, false, served.saw, rest);
        forall k | 0 < k < |attempts|
          ensures ChildAt(skip, saw, attempts, k) <==> ChildAt(false, served.saw, rest, k - 1)
        {
          ChildLater(skip, saw, attempts, k);
        }
        FindsLater(skip, saw, attempts, served.saw);
      }
    }
  }

  lemma FindsLater(skip: bool, saw: bool, attempts: seq<Attempt>, saw': bool)
    requires attempts != [] && !(attempts[0].ready && attempts[0].spawned)
    requires forall k :: 0 < k < |attempts| ==>
               (ChildAt(skip, saw, attempts, k) <==> ChildAt(false, saw', attempts[1..], k - 1))
    ensures FindsChild(skip, saw, attempts) <==> FindsChild(false, saw', attempts[1..])
  {
    if FindsChild(skip, saw, attempts) {
      var k: nat :| ChildAt(skip, saw, attempts, k);
      assert k > 0;
      assert ChildAt(false, saw', attempts[1..], k - 1);
    }
    if FindsChild(false, saw', attempts[1..]) {
      var k: nat :| ChildAt(false, saw', attempts[1..], k);
      assert ChildAt(skip, saw, attempts, k + 1);
    }
  }

  // ---------------------------------------------------------------------
  // What the monitor knows
  // ---------------------------------------------------------------------

  /** Some event at `i` killed the current child: it has not exited since. */
  ghost predicate KilledAt(es: seq<Event>, i: nat) {
    i < |es| && MustKill(es[..i], es[i]) && forall k :: i < k < |es| ==> !es[k].ChildExited?
  }

  ghost predicate ChildWasKilled(es: seq<Event>) {
    exists i: nat :: KilledAt(es, i)
  }

  lemma KilledNext(es: seq<Event>, e: Event)
    ensures ChildWasKilled(es + [e]) <==> MustKill(es, e) || (ChildWasKilled(es) && !e.ChildExited?)
  {
    var all := es + [e];
    assert all[..|es|] == es && all[|es|] == e;
    forall i | 0 <= i < |es|
      ensures all[..i] == es[..i] && all[i] == es[i]
    {
    }
    if MustKill(es, e) {
      assert KilledAt(all, |es|);
    }
    if ChildWasKilled(es) && !e.ChildExited? {
      var i: nat :| KilledAt(es, i);
      assert KilledAt(all, i);
    }
    if ChildWasKilled(all) && !MustKill(es, e) {
      var i: nat :| KilledAt(all, i);
      assert i < |es|;
      assert all[|es|] == e;
      forall k | i < k < |es|
        ensures !es[k].ChildExited?
      {
        assert all[k] == es[k];
      }
      assert KilledAt(es, i);
    }
  }

  /** As long as it runs, the monitor knows exactly whether it killed the current child. */
  lemma {:induction false} KillRemembered(es: seq<Event>)
    requires IsRun(STARTED, es)
    ensures After(STARTED, es).running ==> (After(STARTED, es).weKilled <==> ChildWasKilled(es))
    decreases |es|
  {
    if es == [] {
    } else {
      var init, e := es[..|es| - 1], es[|es| - 1];
      assert es == init + [e];
      RunSnoc(STARTED, init, e);
      KillRemembered(init);
      KillsAreJustified(init, e);
      KilledNext(init, e);
    }
  }

  /** A path change armed the probe, and neither a probe nor a new child has come since. */
  ghost predicate ArmedAt(es: seq<Event>, i: nat) {
    i < |es| && es[i].PathChanged? && forall k :: i < k < |es| ==> !es[k].DebouncedProbe? && !es[k].ChildExited?
  }

  ghost predicate ProbeIsDue(es: seq<Event>) {
    exists i: nat :: ArmedAt(es, i)
  }

  lemma ArmedNext(es: seq<Event>, e: Event)
    ensures ProbeIsDue(es + [e])
       <==> e.PathChanged? || (ProbeIsDue(es) && !e.DebouncedProbe? && !e.ChildExited?)
  {
    var all := es + [e];
    assert all[|es|] == e;
    if e.PathChanged? {
      assert ArmedAt(all, |es|);
    }
    if ProbeIsDue(es) && !e.DebouncedProbe? && !e.ChildExited? {
      var i: nat :| ArmedAt(es, i);
      assert ArmedAt(all, i);
    }
    if ProbeIsDue(all) && !e.PathChanged? {
      var i: nat :| ArmedAt(all, i);
      assert i < |es|;
      forall k | i < k < |es|
        ensures !es[k].DebouncedProbe? && !es[k].ChildExited?
      {
        assert all[k] == es[k];
      }
      assert ArmedAt(es, i);
    }
  }

  /** The debounced probe fires after a path change, once, and not across a respawn. */
  lemma {:induction false} ProbeArmedExactly(es: seq<Event>)
    requires IsRun(STARTED, es)
    ensures After(STARTED, es).running ==> (After(STARTED, es).probeArmed <==> ProbeIsDue(es))
    decreases |es|
  {
    if es == [] {
    } else {
      var init, e := es[..|es| - 1], es[|es| - 1];
      assert es == init + [e];
      RunSnoc(STARTED, init, e);
      ProbeArmedExactly(init);
      ArmedNext(init, e);
    }
  }

  // ---------------------------------------------------------------------
  // When the monitor goes on
  // ---------------------------------------------------------------------

  /** ssh was ended by a signal, reported a connection error, or passed on the death of the remote side by a signal. */
  predicate WorthRetrying(code: Option<int>) {
    code == None || code == Some(255) || (code.Some? && 128 <= code.value && code.value < 160)
  }

  /** The first wait is skipped: the clock jumped over the child's life, and it was not we who killed it. */
  ghost predicate FirstWaitSkipped(es: seq<Event>, uptime: nat, wall: nat) {
    wall > uptime + 5_000 && !ChildWasKilled(es)
  }

  ghost predicate MustStop(es: seq<Event>, e: Event) {
    || e.Cancelled?
    || (e.Tick? && !e.lockOwned)
    || (e.ChildExited?
        && (e.waitFailed || e.cancelled || !WorthRetrying(e.code)
            || !FindsChild(FirstWaitSkipped(es, e.uptime, e.wall), false, e.attempts)))
  }

  lemma FirstWaitZero(es: seq<Event>, uptime: nat)
    requires IsRun(STARTED, es) && After(STARTED, es).running
    ensures FirstSleep(After(STARTED, es).backoff, After(STARTED, es).weKilled, uptime)
         == if ChildWasKilled(es) then 0 else if uptime >= 30_000 then 1_000 else After(STARTED, es).backoff
    ensures After(STARTED, es).backoff != 0
  {
    KillRemembered(es);
    BackoffBounded(STARTED, es);
  }

  /**
   * Over every run the monitor stops at exactly these events: shutdown, a
   * lost lock, a wait on ssh that failed or was cancelled, an exit code that
   * is not worth retrying, or an episode that ends without a child.
   */
  lemma StopsExactly(es: seq<Event>, e: Event)
    requires IsRun(STARTED, es + [e])
    ensures IsRun(STARTED, es)
    ensures After(STARTED, es + [e]).running <==> !MustStop(es, e)
  {
    RunSnoc(STARTED, es, e);
    if e.ChildExited? {
      var m := After(STARTED, es);
      FirstWaitZero(es, e.uptime);
      var sleep := FirstSleep(m.backoff, m.weKilled, e.uptime);
      EpisodeFindsChild(m.backoff, sleep, SuspendJump(e.uptime, e.wall) && sleep != 0, false, e.attempts);
    }
  }

  // ---------------------------------------------------------------------
  // How long it waits
  // ---------------------------------------------------------------------

  /** The rounds of the episode a child's exit sets off. */
  ghost function RoundsAfter(es: seq<Event>, e: Event): seq<Round>
    requires IsRun(STARTED, es) && e.ChildExited?
  {
    var m := After(STARTED, es);
    Respawn(m.backoff, m.weKilled, e.uptime, SuspendJump(e.uptime, e.wall), e.attempts).rounds
  }

  /**
   * The first wait of an episode: nothing for a child we killed, one second
   * after thirty healthy ones, and otherwise the standing backoff; and it is
   * not served at all when the clock jumped over the child's life.
   */
  lemma FirstWaitExactly(es: seq<Event>, e: Event)
    requires IsRun(STARTED, es + [e]) && e.ChildExited?
    requires e.attempts != [] && e.attempts[0].lockOwned
    ensures IsRun(STARTED, es) && RoundsAfter(es, e) != []
    ensures var first := RoundsAfter(es, e)[0];
            && first.sleep == (if ChildWasKilled(es) then 0
                               else if e.uptime >= 30_000 then 1_000
                               else After(STARTED, es).backoff)
            && (first.skipped <==> FirstWaitSkipped(es, e.uptime, e.wall))
  {
    RunSnoc(STARTED, es, e);
    FirstWaitZero(es, e.uptime);
  }

  /** Twice the wait, from at least one second and to at most sixty. */
  function Doubled(wait: nat): nat {
    if wait <= 1_000 then 2_000 else if wait >= 30_000 then 60_000 else 2 * wait
  }

  /**
   * What an episode leaves standing: the backoff it began with if it served
   * no wait, the wait itself if shutdown cut the last one short, and
   * otherwise twice the last wait, or two seconds after a recovery.
   */
  lemma {:induction false} EpisodeBackoff(backoff: nat, sleep: nat, skip: bool, saw: bool, attempts: seq<Attempt>)
    ensures var e := EpisodeFrom(backoff, sleep, skip, saw, attempts);
            var n := |e.rounds|;
            e.backoff ==
              if n == 0 then backoff
              else if e.rounds[n - 1].outcome == WaitOutcome.Cancelled then
                if n == 1 then backoff else e.rounds[n - 1].sleep
              else if e.rounds[n - 1].outcome == NetRecovered then 2_000
              else Doubled(e.rounds[n - 1].sleep)
    decreases attempts
  {
    if attempts == [] || !attempts[0].lockOwned {
    } else {
      var served := ServeRound(backoff, sleep, skip, saw, attempts[0]);
      if served.result == StillTrying {
        EpisodeBackoff(served.backoff, served.backoff, false, served.saw, attempts[1..]);
        var rest := EpisodeFrom(served.backoff, served.backoff, false, served.saw, attempts[1..]);
        var e := EpisodeFrom(backoff, sleep, skip, saw, attempts);
        assert e.rounds == [served.round] + rest.rounds;
        if |rest.rounds| == 1 {
          RoundsClimb(served.backoff, served.backoff, false, served.saw, attempts[1..], 0);
        }
      }
    }
  }

  /** No other event touches the backoff. */
  lemma OnlyExitsMoveBackoff(m: Monitor, e: Event)
    requires CanHappen(m, e) && !e.ChildExited?
    ensures Step(m, e).monitor.backoff == m.backoff
  {
  }
}
