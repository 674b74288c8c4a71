// The sliding-window limiter on server-initiated actions (src/client.rs).

module SlidingWindow {
  /** How many times of `s` lie in the closed interval `[lo, hi]`. */
  function CountIn(s: seq<int>, lo: int, hi: int): nat {
    if s == [] then 0
    else CountIn(s[..|s| - 1], lo, hi) + if lo <= s[|s| - 1] <= hi then 1 else 0
  }

  ghost predicate NonDecreasing(s: seq<int>) {
    forall i, j :: 0 <= i < j < |s| ==> s[i] <= s[j]
  }

  ghost predicate NoneAfter(s: seq<int>, now: int) {
    forall i :: 0 <= i < |s| ==> s[i] <= now
  }

  /** The promise: no closed interval of length `window` holds more than `max` allowed actions. */
  ghost predicate Bounded(allowed: seq<int>, max: nat, window: nat) {
    forall lo: int, hi: int :: hi == lo + window ==> CountIn(allowed, lo, hi) <= max
  }

  /** The limiter by its rule alone: allow when fewer than `max` were allowed in the window ending now. */
  function Admit(allowed: seq<int>, now: int, max: nat, window: nat): seq<int> {
    if CountIn(allowed, now - window, now) < max then allowed + [now] else allowed
  }

  function Admitted(checks: seq<int>, max: nat, window: nat): seq<int> {
    if checks == [] then []
    else Admit(Admitted(checks[..|checks| - 1], max, window), checks[|checks| - 1], max, window)
  }

  lemma CountSnoc(s: seq<int>, x: int, lo: int, hi: int)
    ensures CountIn(s + [x], lo, hi) == CountIn(s, lo, hi) + if lo <= x <= hi then 1 else 0
  {
    assert (s + [x])[..|s|] == s;
  }

  lemma {:induction false} CountAppend(a: seq<int>, b: seq<int>, lo: int, hi: int)
    ensures CountIn(a + b, lo, hi) == CountIn(a, lo, hi) + CountIn(b, lo, hi)
    decreases b
  {
    if b == [] {
      assert a + b == a;
    } else {
      assert (a + b)[..|a + b| - 1] == a + b[..|b| - 1];
      CountAppend(a, b[..|b| - 1], lo, hi);
    }
  }

  lemma {:induction false} CountAllOrNone(s: seq<int>, lo: int, hi: int)
    ensures (forall i :: 0 <= i < |s| ==> s[i] < lo) ==> CountIn(s, lo, hi) == 0
    ensures (forall i :: 0 <= i < |s| ==> lo <= s[i] <= hi) ==> CountIn(s, lo, hi) == |s|
  {
    if s == [] {
    } else {
      CountAllOrNone(s[..|s| - 1], lo, hi);
    }
  }

  /** When nothing lies past `hi`, a later start and a later end can only lose or keep actions. */
  lemma {:induction false} CountShrinks(s: seq<int>, lo: int, hi: int, lo': int, hi': int)
    requires NoneAfter(s, hi) && lo <= lo'
    ensures CountIn(s, lo', hi') <= CountIn(s, lo, hi)
  {
    if s == [] {
    } else {
      CountShrinks(s[..|s| - 1], lo, hi, lo', hi');
    }
  }

  /** Which allowed actions lie in the window ending now. */
  ghost function Recent(allowed: seq<int>, now: int, window: nat): set<nat> {
    set i | 0 <= i < |allowed| && now - window <= allowed[i] <= now
  }

  lemma {:induction false} CountIsSize(s: seq<int>, now: int, window: nat)
    ensures CountIn(s, now - window, now) == |Recent(s, now, window)|
    decreases |s|
  {
    if s == [] {
      assert Recent(s, now, window) == {};
    } else {
      var init, last := s[..|s| - 1], |s| - 1;
      CountIsSize(init, now, window);
      assert Recent(s, now, window)
          == Recent(init, now, window) + if now - window <= s[last] <= now then {last} else {};
    }
  }

  /** The rule allows exactly while fewer than `max` of the allowed actions lie in the window. */
  lemma AdmitsExactly(allowed: seq<int>, now: int, max: nat, window: nat)
    ensures Admit(allowed, now, max, window)
         == if |Recent(allowed, now, window)| < max then allowed + [now] else allowed
  {
    CountIsSize(allowed, now, window);
  }

  lemma AdmitKeepsBound(allowed: seq<int>, now: int, max: nat, window: nat)
    requires NoneAfter(allowed, now) && Bounded(allowed, max, window)
    ensures Bounded(Admit(allowed, now, max, window), max, window)
  {
    if CountIn(allowed, now - window, now) < max {
      forall lo: int, hi: int | hi == lo + window
        ensures CountIn(allowed + [now], lo, hi) <= max
      {
        CountSnoc(allowed, now, lo, hi);
        if lo <= now <= hi {
          CountShrinks(allowed, now - window, now, lo, hi);
        }
      }
    }
  }

  lemma AdmitNoneAfter(allowed: seq<int>, t: int, max: nat, window: nat, now: int)
    requires NoneAfter(allowed, now) && t <= now
    ensures NoneAfter(Admit(allowed, t, max, window), now)
  {
  }

  lemma {:induction false} AdmittedAreChecks(checks: seq<int>, max: nat, window: nat, now: int)
    requires NoneAfter(checks, now)
    ensures NoneAfter(Admitted(checks, max, window), now)
  {
    if checks == [] {
    } else {
      var earlier, last := checks[..|checks| - 1], checks[|checks| - 1];
      AdmittedAreChecks(earlier, max, window, now);
      AdmitNoneAfter(Admitted(earlier, max, window), last, max, window, now);
    }
  }

  /** Over any run of checks on a clock that never goes back, the promise holds. */
  lemma {:induction false} WindowBound(checks: seq<int>, max: nat, window: nat)
    requires NonDecreasing(checks)
    ensures Bounded(Admitted(checks, max, window), max, window)
  {
    if checks == [] {
    } else {
      var earlier, now := checks[..|checks| - 1], checks[|checks| - 1];
      WindowBound(earlier, max, window);
      AdmittedAreChecks(earlier, max, window, now);
      AdmitKeepsBound(Admitted(earlier, max, window), now, max, window);
    }
  }

  /** `kept` is in order, and whatever was dropped is older than any window still to come. */
  ghost predicate Ordered(checks: seq<int>, dropped: seq<int>, kept: seq<int>, window: nat) {
    && NonDecreasing(checks) && NonDecreasing(kept)
    && (if checks == [] then dropped == [] && kept == []
        else NoneAfter(kept, checks[|checks| - 1]) && AllBefore(dropped, checks[|checks| - 1] - window))
  }

  ghost predicate AllBefore(s: seq<int>, t: int) {
    forall i :: 0 <= i < |s| ==> s[i] < t
  }

  lemma OrderedNext(checks: seq<int>, dropped: seq<int>, kept: seq<int>, now: int, window: nat)
    requires NonDecreasing(checks) && (checks != [] ==> checks[|checks| - 1] <= now)
    requires NonDecreasing(kept) && NoneAfter(kept, now) && AllBefore(dropped, now - window)
    ensures Ordered(checks + [now], dropped, kept, window)
    ensures Ordered(checks + [now], dropped, kept + [now], window)
  {
    assert (checks + [now])[|checks + [now]| - 1] == now;
  }

  lemma AdmittedNext(checks: seq<int>, dropped: seq<int>, kept: seq<int>, now: int, max: nat, window: nat)
    requires dropped + kept == Admitted(checks, max, window)
    requires AllBefore(dropped, now - window) && NoneAfter(kept, now)
    requires forall i :: 0 <= i < |kept| ==> now - window <= kept[i]
    ensures CountIn(Admitted(checks, max, window), now - window, now) == |kept|
    ensures dropped + (if |kept| < max then kept + [now] else kept) == Admitted(checks + [now], max, window)
  {
    RetainedCount(dropped, kept, now, window);
    AdmittedSnoc(checks, now, max, window);
    assert dropped + (kept + [now]) == dropped + kept + [now];
  }

  lemma AdmittedSnoc(checks: seq<int>, now: int, max: nat, window: nat)
    ensures Admitted(checks + [now], max, window) == Admit(Admitted(checks, max, window), now, max, window)
  {
    assert (checks + [now])[..|checks|] == checks;
  }

  /** The deque holds exactly what the window needs: what was dropped is too old to count. */
  lemma RetainedCount(dropped: seq<int>, kept: seq<int>, now: int, window: nat)
    requires forall i :: 0 <= i < |dropped| ==> dropped[i] < now - window
    requires forall i :: 0 <= i < |kept| ==> now - window <= kept[i] <= now
    ensures CountIn(dropped + kept, now - window, now) == |kept|
  {
    CountAppend(dropped, kept, now - window, now);
    CountAllOrNone(dropped, now - window, now);
    CountAllOrNone(kept, now - window, now);
  }
}

module RateLimits {
  import opened SlidingWindow

  class RateLimiter {
    var timestamps: seq<int>
    const maxCount: nat
    const window: nat

    ghost var checks: seq<int>    // every time a check was made
    ghost var dropped: seq<int>   // allowed times that have left the deque

    ghost predicate Valid()
      reads this
    {
      Ordered(checks, dropped, timestamps, window) && dropped + timestamps == Admitted(checks, maxCount, window)
    }

    constructor (maxCount: nat, window: nat)
      ensures Valid() && checks == [] && this.maxCount == maxCount && this.window == window
    {
      timestamps := [];
      this.maxCount, this.window := maxCount, window;
      checks, dropped := [], [];
    }

    /** Refuses exactly when `maxCount` actions were already allowed in the window ending now. */
    method Check(now: int) returns (ok: bool)
      requires Valid() && (checks != [] ==> checks[|checks| - 1] <= now)
      modifies this
      ensures Valid() && checks == old(checks) + [now]
      ensures ok <==> CountIn(Admitted(old(checks), maxCount, window), now - window, now) < maxCount
    {
      DropExpired(now);
      AdmittedNext(checks, dropped, timestamps, now, maxCount, window);
      OrderedNext(checks, dropped, timestamps, now, window);
      ok := |timestamps| < maxCount;
      checks := checks + [now];
      if ok {
        timestamps := timestamps + [now];
      }
    }

    method DropExpired(now: int)
      requires Valid() && (checks != [] ==> checks[|checks| - 1] <= now)
      modifies this`timestamps, this`dropped
      ensures dropped + timestamps == old(dropped + timestamps)
      ensures NonDecreasing(timestamps) && NoneAfter(timestamps, now)
      ensures AllBefore(dropped, now - window)
      ensures forall i :: 0 <= i < |timestamps| ==> now - window <= timestamps[i]
    {
      while timestamps != [] && now - timestamps[0] > window
        invariant dropped + timestamps == old(dropped + timestamps)
        invariant NonDecreasing(timestamps) && NoneAfter(timestamps, now)
        invariant AllBefore(dropped, now - window)
        decreases |timestamps|
      {
        assert dropped + timestamps == (dropped + [timestamps[0]]) + timestamps[1..];
        dropped, timestamps := dropped + [timestamps[0]], timestamps[1..];
      }
    }

    /** The promise at every moment of every run. */
    lemma NeverTooMany()
      requires Valid()
      ensures Bounded(dropped + timestamps, maxCount, window)
    {
      WindowBound(checks, maxCount, window);
    }
  }
}
