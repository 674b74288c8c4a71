// The private-mode scanner and tracker of src/term_modes.rs.  `ModeModel` is
// the scanner and tracker as functions with the proofs about them;
// `TermModes` is the in-place machine.

module ModeModel {
  import opened Wrappers
  import opened Bytes

  const MAX_MODES_PER_SEQUENCE: nat := 16

  datatype ScanState = Ground | Esc | Csi | Params

  datatype Event = Changed(mode: nat, isSet: bool) | FullReset

  /** The parser: mode numbers read so far and the digits of the one being read. */
  datatype Scanner = Scanner(state: ScanState, modes: seq<nat>, partial: Option<nat>)

  datatype TrackedMode = TrackedMode(number: nat, isSetByDefault: bool)

  const TRACKED: seq<TrackedMode> := [
    TrackedMode(1, false), TrackedMode(7, true), TrackedMode(9, false), TrackedMode(25, true),
    TrackedMode(1000, false), TrackedMode(1002, false), TrackedMode(1003, false), TrackedMode(1004, false),
    TrackedMode(1005, false), TrackedMode(1006, false), TrackedMode(1015, false), TrackedMode(1016, false),
    TrackedMode(2004, false), TrackedMode(2026, false), TrackedMode(2031, false), TrackedMode(2048, false)
  ]

  type States = s: seq<bool> | |s| == 16 witness seq(16, i => false)

  datatype Tracker = Tracker(scanner: Scanner, isSet: States)

  const FRESH_SCANNER := Scanner(Ground, [], None)

  function DefaultStates(): States {
    seq(16, i requires 0 <= i < 16 => TRACKED[i].isSetByDefault)
  }

  const FRESH_TRACKER := Tracker(FRESH_SCANNER, DefaultStates())

  // ---------------------------------------------------------------------
  // The scanner
  // ---------------------------------------------------------------------

  /** One more digit; a number that does not fit a `u16` drops the sequence. */
  function PushDigit(s: Scanner, digit: nat): Scanner {
    var widened := 10 * s.partial.GetOr(0) + digit;
    if widened <= U16_MAX then s.(partial := Some(widened), state := Params)
    else s.(partial := None, state := Ground)
  }

  /** The number being read is complete; a seventeenth drops the sequence. */
  function EndModeNumber(s: Scanner): Scanner {
    match s.partial
    case None => s.(state := Params)
    case Some(mode) =>
      if |s.modes| == MAX_MODES_PER_SEQUENCE then s.(partial := None, state := Ground)
      else s.(partial := None, modes := s.modes + [mode], state := Params)
  }

  datatype Scanned = Scanned(scanner: Scanner, events: seq<Event>)

  function ScanByte(s: Scanner, b: byte): Scanned {
    if b == ESC then Scanned(s.(state := Esc), [])
    else if s.state.Esc? && b == '[' as int then Scanned(s.(state := Csi), [])
    else if s.state.Esc? && b == 'c' as int then Scanned(s.(state := Ground), [FullReset])
    else if s.state.Csi? && b == '?' as int then Scanned(Scanner(Params, [], None), [])
    else if s.state.Params? && IsDigit(b) then Scanned(PushDigit(s, b - 0x30), [])
    else if s.state.Params? && b == SEMI then Scanned(EndModeNumber(s), [])
    else if s.state.Params? && (b == 'h' as int || b == 'l' as int) then
      var ended := EndModeNumber(s);
      Scanned(ended.(state := Ground),
              if ended.state.Params? then ChangeAll(ended.modes, b == 'h' as int) else [])
    else Scanned(s.(state := Ground), [])
  }

  function ChangeAll(modes: seq<nat>, isSet: bool): seq<Event> {
    seq(|modes|, i requires 0 <= i < |modes| => Changed(modes[i], isSet))
  }

  // ---------------------------------------------------------------------
  // The tracker
  // ---------------------------------------------------------------------

  /** Position of the tracked mode with this number, or 16. */
  function TrackedIndex(mode: nat): (i: nat)
    ensures i <= 16
    ensures i < 16 ==> TRACKED[i].number == mode
    ensures i == 16 ==> forall j :: 0 <= j < 16 ==> TRACKED[j].number != mode
  {
    if mode == 1 then 0 else if mode == 7 then 1 else if mode == 9 then 2 else if mode == 25 then 3
    else if mode == 1000 then 4 else if mode == 1002 then 5 else if mode == 1003 then 6 else if mode == 1004 then 7
    else if mode == 1005 then 8 else if mode == 1006 then 9 else if mode == 1015 then 10 else if mode == 1016 then 11
    else if mode == 2004 then 12 else if mode == 2026 then 13 else if mode == 2031 then 14 else if mode == 2048 then 15
    else 16
  }

  lemma TrackedIndexInverts(i: nat)
    requires i < 16
    ensures TrackedIndex(TRACKED[i].number) == i
  {
  }

  function ApplyEvent(isSet: States, e: Event): States {
    match e
    case FullReset => DefaultStates()
    case Changed(mode, value) =>
      var i := TrackedIndex(mode);
      if i < 16 then isSet[i := value] else isSet
  }

  function ApplyEvents(isSet: States, es: seq<Event>): States
    decreases es
  {
    if es == [] then isSet else ApplyEvents(ApplyEvent(isSet, es[0]), es[1..])
  }

  function TrackByte(t: Tracker, b: byte): Tracker {
    var scanned := ScanByte(t.scanner, b);
    Tracker(scanned.scanner, ApplyEvents(t.isSet, scanned.events))
  }

  function Track(t: Tracker, data: bytes): Tracker
    decreases data
  {
    if data == [] then t else Track(TrackByte(t, data[0]), data[1..])
  }

  lemma {:induction false} TrackAppend(t: Tracker, a: bytes, b: bytes)
    ensures Track(t, a + b) == Track(Track(t, a), b)
    decreases a
  {
    if a == [] {
      assert a + b == b;
    } else {
      assert (a + b)[1..] == a[1..] + b;
      TrackAppend(TrackByte(t, a[0]), a[1..], b);
    }
  }

  // ---------------------------------------------------------------------
  // The catch-up sequence
  // ---------------------------------------------------------------------

  /** Numbers of the tracked modes from position `i` on whose state is `wanted`. */
  function NumbersFrom(isSet: States, wanted: bool, i: nat): seq<nat>
    decreases 16 - i
  {
    if i >= 16 then []
    else if isSet[i] == wanted then [TRACKED[i].number] + NumbersFrom(isSet, wanted, i + 1)
    else NumbersFrom(isSet, wanted, i + 1)
  }

  function Printed(numbers: seq<nat>): (r: seq<bytes>)
    ensures |r| == |numbers| && forall i :: 0 <= i < |r| ==> r[i] == Decimal(numbers[i])
  {
    seq(|numbers|, i requires 0 <= i < |numbers| => Decimal(numbers[i]))
  }

  function ModeSequence(numbers: seq<nat>, terminator: byte): bytes {
    if numbers == [] then [] else [ESC, 0x5b, 0x3f] + Join(Printed(numbers), SEMI) + [terminator]
  }

  function SyncSequence(isSet: States): bytes {
    ModeSequence(NumbersFrom(isSet, false, 0), 0x6c) + ModeSequence(NumbersFrom(isSet, true, 0), 0x68)
  }
}

module ModeSync {
  import opened Wrappers
  import opened Bytes
  import opened ModeModel

  lemma TrackOne(t: Tracker, b: byte)
    ensures Track(t, [b]) == TrackByte(t, b)
  {
    assert [b][1..] == [];
    assert Track(TrackByte(t, b), []) == TrackByte(t, b);
  }

  // ---------------------------------------------------------------------
  // Reading back printed mode numbers
  // ---------------------------------------------------------------------

  /** Digits of a number that fits, read one at a time into the accumulator. */
  lemma {:induction false} TrackDigits(t: Tracker, n: nat)
    requires t.scanner.state.Params? && t.scanner.partial == None && n <= U16_MAX
    ensures Track(t, Decimal(n)) == t.(scanner := t.scanner.(partial := Some(n)))
  {
    if n < 10 {
      TrackOne(t, 0x30 + n);
    } else {
      var last := 0x30 + n % 10;
      TrackDigits(t, n / 10);
      TrackAppend(t, Decimal(n / 10), [last]);
      TrackOne(Track(t, Decimal(n / 10)), last);
    }
  }

  ghost predicate Fits(numbers: seq<nat>) {
    |numbers| <= MAX_MODES_PER_SEQUENCE && forall i :: 0 <= i < |numbers| ==> numbers[i] <= U16_MAX
  }

  /** A number that something follows is collected when its separator arrives. */
  lemma TrackSeparated(t: Tracker, n: nat, tail: bytes)
    requires t.scanner.state.Params? && t.scanner.partial == None && n <= U16_MAX
    requires |t.scanner.modes| < MAX_MODES_PER_SEQUENCE
    ensures Track(t, Decimal(n) + [SEMI] + tail)
         == Track(t.(scanner := Scanner(Params, t.scanner.modes + [n], None)), tail)
  {
    TrackDigits(t, n);
    TrackOne(Track(t, Decimal(n)), SEMI);
    TrackAppend(t, Decimal(n), [SEMI]);
    TrackAppend(t, Decimal(n) + [SEMI], tail);
  }

  lemma TrackLast(t: Tracker, n: nat)
    requires t.scanner.state.Params? && t.scanner.partial == None && n <= U16_MAX
    ensures Track(t, Join(Printed([n]), SEMI)) == t.(scanner := Scanner(Params, t.scanner.modes + [n][..0], Some(n)))
  {
    TrackDigits(t, n);
    assert t.scanner.modes + [n][..0] == t.scanner.modes;
  }

  lemma JoinPrinted(n: nat, rest: seq<nat>)
    requires rest != []
    ensures Join(Printed([n] + rest), SEMI) == Decimal(n) + [SEMI] + Join(Printed(rest), SEMI)
  {
    PrintedCons(n, rest);
    JoinCons(Decimal(n), Printed(rest));
  }

  lemma PrintedCons(n: nat, rest: seq<nat>)
    ensures Printed([n] + rest) == [Decimal(n)] + Printed(rest)
  {
  }

  lemma JoinCons(first: bytes, rest: seq<bytes>)
    requires rest != []
    ensures Join([first] + rest, SEMI) == first + [SEMI] + Join(rest, SEMI)
  {
    assert ([first] + rest)[1..] == rest;
  }

  lemma LastOfRest(have: seq<nat>, n: nat, rest: seq<nat>)
    requires rest != []
    ensures have + [n] + rest[..|rest| - 1] == have + ([n] + rest)[..|rest|]
    ensures ([n] + rest)[|rest|] == rest[|rest| - 1]
  {
  }

  /** A joined list of numbers is collected in order, the last one still in the accumulator. */
  lemma {:induction false} TrackNumbers(t: Tracker, numbers: seq<nat>)
    requires t.scanner.state.Params? && t.scanner.partial == None
    requires numbers != [] && Fits(numbers) && |t.scanner.modes| + |numbers| <= MAX_MODES_PER_SEQUENCE
    ensures Track(t, Join(Printed(numbers), SEMI))
         == t.(scanner := Scanner(Params, t.scanner.modes + numbers[..|numbers| - 1], Some(numbers[|numbers| - 1])))
    decreases numbers
  {
    var n, rest := numbers[0], numbers[1..];
    if rest == [] {
      assert numbers == [n];
      TrackLast(t, n);
    } else {
      var more := t.(scanner := Scanner(Params, t.scanner.modes + [n], None));
      assert numbers == [n] + rest;
      JoinPrinted(n, rest);
      TrackSeparated(t, n, Join(Printed(rest), SEMI));
      TrackNumbers(more, rest);
      LastOfRest(t.scanner.modes, n, rest);
    }
  }

  lemma InitAndLast(numbers: seq<nat>)
    requires numbers != []
    ensures [] + numbers[..|numbers| - 1] + [numbers[|numbers| - 1]] == numbers
  {
  }

  lemma TrackTerminator(t: Tracker, on: bool)
    requires t.scanner.state.Params? && t.scanner.partial.Some? && |t.scanner.modes| < MAX_MODES_PER_SEQUENCE
    ensures var r := Track(t, [if on then 0x68 else 0x6c]);
            && r.scanner.state.Ground?
            && r.isSet == ApplyEvents(t.isSet, ChangeAll(t.scanner.modes + [t.scanner.partial.value], on))
  {
    TrackOne(t, if on then 0x68 else 0x6c);
  }

  /** From any scanner state, a mode sequence applies exactly its numbers and ends at rest. */
  lemma TrackModeSequence(t: Tracker, numbers: seq<nat>, on: bool)
    requires numbers != [] && Fits(numbers)
    ensures var r := Track(t, ModeSequence(numbers, if on then 0x68 else 0x6c));
            r.scanner.state.Ground? && r.isSet == ApplyEvents(t.isSet, ChangeAll(numbers, on))
  {
    var terminator := if on then 0x68 else 0x6c;
    var body := Join(Printed(numbers), SEMI);
    var ready := Tracker(Scanner(Params, [], None), t.isSet);
    TrackOpening(t);
    TrackNumbers(ready, numbers);
    var read := Track(ready, body);
    TrackTerminator(read, on);
    TrackAppend(t, [ESC, 0x5b, 0x3f] + body, [terminator]);
    TrackAppend(t, [ESC, 0x5b, 0x3f], body);
    InitAndLast(numbers);
  }

  lemma TrackOpening(t: Tracker)
    ensures Track(t, [ESC, 0x5b, 0x3f]) == Tracker(Scanner(Params, [], None), t.isSet)
  {
    var t1 := t.(scanner := t.scanner.(state := Esc));
    var t2 := t.(scanner := t.scanner.(state := Csi));
    TrackOne(t, ESC);
    TrackOne(t1, 0x5b);
    TrackOne(t2, 0x3f);
    TrackAppend(t, [ESC], [0x5b]);
    TrackAppend(t, [ESC, 0x5b], [0x3f]);
    assert [ESC] + [0x5b] == [ESC, 0x5b];
    assert [ESC, 0x5b] + [0x3f] == [ESC, 0x5b, 0x3f];
  }

  // ---------------------------------------------------------------------
  // The numbers of one polarity
  // ---------------------------------------------------------------------

  lemma {:induction false} NumbersFit(isSet: States, wanted: bool, i: nat)
    requires i <= 16
    ensures |NumbersFrom(isSet, wanted, i)| <= 16 - i && AllFit(NumbersFrom(isSet, wanted, i))
    decreases 16 - i
  {
    if i == 16 {
    } else {
      NumbersFit(isSet, wanted, i + 1);
      if isSet[i] == wanted {
        AllFitCons(TRACKED[i].number, NumbersFrom(isSet, wanted, i + 1));
      }
    }
  }

  ghost predicate AllFit(numbers: seq<nat>) {
    forall i :: 0 <= i < |numbers| ==> numbers[i] <= U16_MAX
  }

  lemma AllFitCons(n: nat, rest: seq<nat>)
    requires n <= U16_MAX && AllFit(rest)
    ensures AllFit([n] + rest)
  {
  }

  lemma ApplyFirst(have: States, i: nat, rest: seq<nat>, value: bool)
    requires i < 16
    ensures ApplyEvents(have, ChangeAll([TRACKED[i].number] + rest, value))
         == ApplyEvents(have[i := value], ChangeAll(rest, value))
  {
    TrackedIndexInverts(i);
    assert ChangeAll([TRACKED[i].number] + rest, value)[1..] == ChangeAll(rest, value);
  }

  /** Setting every number of one polarity makes exactly those positions of `have` agree. */
  lemma {:induction false} ApplyNumbers(have: States, want: States, value: bool, i: nat)
    requires i <= 16
    ensures var r := ApplyEvents(have, ChangeAll(NumbersFrom(want, value, i), value));
            forall k :: 0 <= k < 16 ==> r[k] == if i <= k && want[k] == value then value else have[k]
    decreases 16 - i
  {
    if i == 16 {
    } else {
      var rest := NumbersFrom(want, value, i + 1);
      if want[i] == value {
        ApplyFirst(have, i, rest, value);
        ApplyNumbers(have[i := value], want, value, i + 1);
      } else {
        ApplyNumbers(have, want, value, i + 1);
      }
    }
  }

  lemma {:induction false} NumbersEmpty(want: States, value: bool, i: nat)
    requires i <= 16 && NumbersFrom(want, value, i) == []
    ensures forall k :: i <= k < 16 ==> want[k] != value
    decreases 16 - i
  {
    if i == 16 {
    } else {
      NumbersEmpty(want, value, i + 1);
    }
  }

  /** One half of the catch-up: the modes whose wanted state is `value` get it, the rest keep theirs. */
  lemma TrackPolarity(t: Tracker, want: States, value: bool)
    ensures var numbers := NumbersFrom(want, value, 0);
            var r := Track(t, ModeSequence(numbers, if value then 0x68 else 0x6c));
            && (forall k :: 0 <= k < 16 ==> r.isSet[k] == if want[k] == value then value else t.isSet[k])
            && (if numbers == [] then r == t else r.scanner.state.Ground?)
  {
    NumbersFit(want, value, 0);
    var numbers := NumbersFrom(want, value, 0);
    if numbers == [] {
      NumbersEmpty(want, value, 0);
    } else {
      TrackModeSequence(t, numbers, value);
      ApplyNumbers(t.isSet, want, value, 0);
    }
  }

  lemma SomeNumber(want: States)
    ensures NumbersFrom(want, false, 0) != [] || NumbersFrom(want, true, 0) != []
  {
    if NumbersFrom(want, false, 0) == [] && NumbersFrom(want, true, 0) == [] {
      NumbersEmpty(want, false, 0);
      NumbersEmpty(want, true, 0);
      assert false;
    }
  }

  /**
   * The catch-up sequence puts a tracker into the wanted state whatever state
   * it was in, in the middle of any other sequence included.
   */
  lemma SyncFromAnyState(t: Tracker, want: States)
    ensures var r := Track(t, SyncSequence(want));
            r.scanner.state.Ground? && r.isSet == want
  {
    var off, on := NumbersFrom(want, false, 0), NumbersFrom(want, true, 0);
    var t1 := Track(t, ModeSequence(off, 0x6c));
    TrackPolarity(t, want, false);
    TrackPolarity(t1, want, true);
    SomeNumber(want);
    TrackAppend(t, ModeSequence(off, 0x6c), ModeSequence(on, 0x68));
    assert Track(t, SyncSequence(want)).isSet == want;
  }

  // ---------------------------------------------------------------------
  // Following on
  // ---------------------------------------------------------------------

  /** At rest, what an earlier sequence left behind cannot be observed. */
  ghost predicate SameModes(a: Tracker, b: Tracker) {
    && a.isSet == b.isSet && a.scanner.state == b.scanner.state
    && (a.scanner.state.Params? ==> a.scanner == b.scanner)
  }

  // ---------------------------------------------------------------------
  // Which sources can be followed
  // ---------------------------------------------------------------------

  /** Can further digits turn the number read so far, `p`, into `n`? */
  predicate LeadsTo(p: nat, n: nat)
    decreases n
  {
    p == n || (n > 0 && LeadsTo(p, n / 10))
  }

  ghost predicate HasTracked(numbers: seq<nat>) {
    exists k :: 0 <= k < 16 && TRACKED[k].number in numbers
  }

  /**
   * Does the scanner stand in a sequence that could still change a tracked
   * mode?  A list of sixteen untracked numbers cannot, nor a full list with
   * another number begun, nor fifteen untracked ones with a number begun
   * that no digits turn into a tracked one.
   */
  ghost predicate MayStillChange(s: Scanner) {
    match s.state
    case Ground => false
    case Esc => true
    case Csi => true
    case Params =>
      if |s.modes| >= MAX_MODES_PER_SEQUENCE then s.partial.None? && HasTracked(s.modes)
      else
        || HasTracked(s.modes) || s.partial.None? || |s.modes| < MAX_MODES_PER_SEQUENCE - 1
        || exists k :: 0 <= k < 16 && LeadsTo(s.partial.value, TRACKED[k].number)
  }

  ghost predicate ListFits(s: Scanner) {
    |s.modes| <= MAX_MODES_PER_SEQUENCE
  }

  lemma {:induction false} TrackKeepsListFit(t: Tracker, data: bytes)
    requires ListFits(t.scanner)
    ensures ListFits(Track(t, data).scanner)
    decreases data
  {
    if data == [] {
    } else {
      TrackKeepsListFit(TrackByte(t, data[0]), data[1..]);
    }
  }

  /** Setting a list of modes gives exactly its tracked ones the value. */
  lemma {:induction false} ChangesExactly(have: States, numbers: seq<nat>, value: bool)
    ensures var r := ApplyEvents(have, ChangeAll(numbers, value));
            forall k :: 0 <= k < 16 ==> r[k] == if TRACKED[k].number in numbers then value else have[k]
    decreases numbers
  {
    if numbers == [] {
    } else {
      var n, rest := numbers[0], numbers[1..];
      var first := ApplyEvent(have, Changed(n, value));
      assert ChangeAll(numbers, value)[1..] == ChangeAll(rest, value);
      ChangesExactly(first, rest, value);
      forall k | 0 <= k < 16
        ensures first[k] == if TRACKED[k].number == n then value else have[k]
      {
        TrackedIndexInverts(k);
      }
    }
  }

  lemma UntrackedChangesNothing(have: States, numbers: seq<nat>, value: bool)
    requires !HasTracked(numbers)
    ensures ApplyEvents(have, ChangeAll(numbers, value)) == have
  {
    ChangesExactly(have, numbers, value);
    var r := ApplyEvents(have, ChangeAll(numbers, value));
    forall k | 0 <= k < 16
      ensures r[k] == have[k]
    {
      assert TRACKED[k].number !in numbers;
    }
  }

  // ---------------------------------------------------------------------
  // A sequence that can change nothing
  // ---------------------------------------------------------------------

  ghost predicate Spent(s: Scanner) {
    s.state.Params? && ListFits(s) && !MayStillChange(s)
  }

  lemma LeadsFurther(p: nat, digit: nat, n: nat)
    requires digit < 10 && LeadsTo(10 * p + digit, n)
    ensures LeadsTo(p, n)
    decreases n
  {
    if 10 * p + digit != n {
      LeadsFurther(p, digit, n / 10);
    }
  }

  lemma SpentDigit(s: Scanner, digit: nat)
    requires Spent(s) && digit < 10
    ensures var r := PushDigit(s, digit); r.state.Ground? || Spent(r)
  {
    var r := PushDigit(s, digit);
    if r.state.Params? && |s.modes| < MAX_MODES_PER_SEQUENCE {
      forall k | 0 <= k < 16
        ensures !LeadsTo(r.partial.value, TRACKED[k].number)
      {
        if LeadsTo(r.partial.value, TRACKED[k].number) {
          LeadsFurther(s.partial.value, digit, TRACKED[k].number);
        }
      }
    }
  }

  lemma SpentEnds(s: Scanner)
    requires Spent(s)
    ensures var r := EndModeNumber(s); r.state.Ground? || (Spent(r) && !HasTracked(r.modes))
  {
    var r := EndModeNumber(s);
    if r.state.Params? && s.partial.Some? {
      forall k | 0 <= k < 16
        ensures TRACKED[k].number !in r.modes
      {
        assert TRACKED[k].number !in s.modes;
        assert !LeadsTo(s.partial.value, TRACKED[k].number);
      }
    }
  }

  lemma SpentByte(t: Tracker, b: byte)
    requires Spent(t.scanner)
    ensures var r := TrackByte(t, b);
            r.isSet == t.isSet && (if b == ESC then r.scanner.state.Esc? else r.scanner.state.Ground? || Spent(r.scanner))
  {
    if IsDigit(b) {
      SpentDigit(t.scanner, b - 0x30);
    } else if b == SEMI {
      SpentEnds(t.scanner);
    } else if b == 'h' as int || b == 'l' as int {
      SpentEnds(t.scanner);
      var ended := EndModeNumber(t.scanner);
      if ended.state.Params? {
        UntrackedChangesNothing(t.isSet, ended.modes, b == 'h' as int);
      }
    }
  }

  /** `b` is at rest, and `a` stands in a sequence that will come to nothing. */
  ghost predicate Follows(a: Tracker, b: Tracker) {
    SameModes(a, b) || (a.isSet == b.isSet && b.scanner.state.Ground? && Spent(a.scanner))
  }

  lemma FollowsByte(a: Tracker, b: Tracker, x: byte)
    requires Follows(a, b)
    ensures Follows(TrackByte(a, x), TrackByte(b, x))
  {
    if !SameModes(a, b) {
      SpentByte(a, x);
    }
  }

  lemma {:induction false} FollowsTrack(a: Tracker, b: Tracker, data: bytes)
    requires Follows(a, b)
    ensures Track(a, data).isSet == Track(b, data).isSet
    decreases data
  {
    if data == [] {
    } else {
      FollowsByte(a, b, data[0]);
      FollowsTrack(TrackByte(a, data[0]), TrackByte(b, data[0]), data[1..]);
    }
  }

  /**
   * Mode catch-up: a terminal that missed `seen`, given the catch-up sequence
   * and then everything later, ends with the modes of one that missed nothing.
   */
  lemma CatchUp(seen: bytes, later: bytes, terminal: Tracker)
    requires !MayStillChange(Track(FRESH_TRACKER, seen).scanner)
    ensures CatchesUp(seen, later, terminal)
  {
    var source := Track(FRESH_TRACKER, seen);
    var sync := SyncSequence(source.isSet);
    TrackKeepsListFit(FRESH_TRACKER, seen);
    SyncFromAnyState(terminal, source.isSet);
    FollowsTrack(source, Track(terminal, sync), later);
    TrackAppend(terminal, sync, later);
    TrackAppend(FRESH_TRACKER, seen, later);
  }

  ghost predicate CatchesUp(seen: bytes, later: bytes, terminal: Tracker) {
    Track(terminal, SyncSequence(Track(FRESH_TRACKER, seen).isSet) + later).isSet
    == Track(FRESH_TRACKER, seen + later).isSet
  }

  // ---------------------------------------------------------------------
  // A sequence that can still change something
  // ---------------------------------------------------------------------

  function Terminator(on: bool): byte {
    if on then 0x68 else 0x6c
  }

  /** The text changes a tracked mode of `t` and would change none at rest. */
  ghost predicate Upsets(t: Tracker, text: bytes) {
    ESC !in text && Track(t, text).isSet != t.isSet
  }

  /** Ending a list that holds a tracked number, with the value that mode does not have. */
  lemma EndingUpsets(t: Tracker, k: nat) returns (text: bytes)
    requires t.scanner.state.Params? && k < 16
    requires var ended := EndModeNumber(t.scanner); ended.state.Params? && TRACKED[k].number in ended.modes
    ensures Upsets(t, text)
  {
    var on := !t.isSet[k];
    text := [Terminator(on)];
    TrackOne(t, Terminator(on));
    ChangesExactly(t.isSet, EndModeNumber(t.scanner).modes, on);
    assert Track(t, text).isSet[k] != t.isSet[k];
  }

  lemma UpsetsAfter(t: Tracker, first: bytes, text: bytes)
    requires ESC !in first && Track(t, first).isSet == t.isSet && Upsets(Track(t, first), text)
    ensures Upsets(t, first + text)
  {
    TrackAppend(t, first, text);
  }

  /** The digits that turn `p` into the tracked number `n`, read into the accumulator. */
  lemma {:induction false} TrackDigitsFrom(t: Tracker, n: nat) returns (digits: bytes)
    requires t.scanner.state.Params? && t.scanner.partial.Some? && n <= U16_MAX
    requires LeadsTo(t.scanner.partial.value, n)
    ensures ESC !in digits && Track(t, digits) == t.(scanner := t.scanner.(partial := Some(n)))
    decreases n
  {
    if t.scanner.partial.value == n {
      digits := [];
    } else {
      var init := TrackDigitsFrom(t, n / 10);
      var last := 0x30 + n % 10;
      digits := init + [last];
      TrackAppend(t, init, [last]);
      TrackOne(Track(t, init), last);
    }
  }

  /** Mode nine, read after `first` into a list that has room for it. */
  lemma NineUpsets(t: Tracker, first: bytes) returns (text: bytes)
    requires ESC !in first && Track(t, first).isSet == t.isSet
    requires var s := Track(t, first).scanner;
             s.state.Params? && s.partial.None? && |s.modes| < MAX_MODES_PER_SEQUENCE
    ensures Upsets(t, text)
  {
    var ready := Track(t, first);
    var nine := ready.(scanner := ready.scanner.(partial := Some(9)));
    TrackOne(ready, 0x39);
    var end := EndingUpsets(nine, 2);
    UpsetsAfter(ready, [0x39], end);
    UpsetsAfter(t, first, [0x39] + end);
    text := first + ([0x39] + end);
  }

  lemma OpeningUpsets(t: Tracker) returns (text: bytes)
    requires t.scanner.state.Esc? || t.scanner.state.Csi?
    ensures Upsets(t, text)
    decreases t.scanner.state.Esc?
  {
    if t.scanner.state.Csi? {
      TrackOne(t, 0x3f);
      text := NineUpsets(t, [0x3f]);
    } else {
      var csi := t.(scanner := t.scanner.(state := Csi));
      TrackOne(t, 0x5b);
      var rest := OpeningUpsets(csi);
      UpsetsAfter(t, [0x5b], rest);
      text := [0x5b] + rest;
    }
  }

  lemma PartialUpsets(t: Tracker, p: nat) returns (text: bytes)
    requires t.scanner.state.Params? && t.scanner.partial == Some(p) && |t.scanner.modes| < MAX_MODES_PER_SEQUENCE
    requires MayStillChange(t.scanner)
    ensures Upsets(t, text)
  {
    var modes := t.scanner.modes;
    if HasTracked(modes) {
      var k :| 0 <= k < 16 && TRACKED[k].number in modes;
      text := EndingUpsets(t, k);
    } else if |modes| < MAX_MODES_PER_SEQUENCE - 1 {
      TrackOne(t, SEMI);
      text := NineUpsets(t, [SEMI]);
    } else {
      var k :| 0 <= k < 16 && LeadsTo(p, TRACKED[k].number);
      var n := TRACKED[k].number;
      var digits := TrackDigitsFrom(t, n);
      var end := EndingUpsets(t.(scanner := t.scanner.(partial := Some(n))), k);
      UpsetsAfter(t, digits, end);
      text := digits + end;
    }
  }

  lemma ListUpsets(t: Tracker) returns (text: bytes)
    requires t.scanner.state.Params? && ListFits(t.scanner) && MayStillChange(t.scanner)
    ensures Upsets(t, text)
  {
    if t.scanner.partial.Some? {
      text := PartialUpsets(t, t.scanner.partial.value);
    } else if |t.scanner.modes| < MAX_MODES_PER_SEQUENCE {
      assert Track(t, []) == t;
      text := NineUpsets(t, []);
    } else {
      var k :| 0 <= k < 16 && TRACKED[k].number in t.scanner.modes;
      text := EndingUpsets(t, k);
    }
  }

  /** From every other scanner state some later bytes leave the terminal behind. */
  lemma CatchUpMidSequence(seen: bytes, terminal: Tracker) returns (later: bytes)
    requires MayStillChange(Track(FRESH_TRACKER, seen).scanner)
    ensures !CatchesUp(seen, later, terminal)
  {
    var source := Track(FRESH_TRACKER, seen);
    var sync := SyncSequence(source.isSet);
    TrackKeepsListFit(FRESH_TRACKER, seen);
    if source.scanner.state.Params? {
      later := ListUpsets(source);
    } else {
      later := OpeningUpsets(source);
    }
    SyncFromAnyState(terminal, source.isSet);
    PlainKeepsModes(Track(terminal, sync), later);
    TrackAppend(terminal, sync, later);
    TrackAppend(FRESH_TRACKER, seen, later);
  }

  /** A source can be followed, whatever it sends later, exactly when it is in no sequence that may still change a mode. */
  lemma CatchUpExactly(seen: bytes, terminal: Tracker)
    ensures (forall later :: CatchesUp(seen, later, terminal)) <==> !MayStillChange(Track(FRESH_TRACKER, seen).scanner)
  {
    if MayStillChange(Track(FRESH_TRACKER, seen).scanner) {
      var later := CatchUpMidSequence(seen, terminal);
    } else {
      forall later
        ensures CatchesUp(seen, later, terminal)
      {
        CatchUp(seen, later, terminal);
      }
    }
  }

  /** Being between sequences is not necessary: sixteen untracked numbers, the last one unfinished, do no harm. */
  lemma SpentIsReachable(fives: seq<nat>)
    requires |fives| == 16 && forall i :: 0 <= i < 16 ==> fives[i] == 5
    ensures var s := Track(FRESH_TRACKER, [ESC, 0x5b, 0x3f] + Join(Printed(fives), SEMI)).scanner;
            s.state.Params? && !MayStillChange(s)
  {
    TrackOpening(FRESH_TRACKER);
    TrackNumbers(Tracker(Scanner(Params, [], None), FRESH_TRACKER.isSet), fives);
    TrackAppend(FRESH_TRACKER, [ESC, 0x5b, 0x3f], Join(Printed(fives), SEMI));
    assert [] + fives[..15] == fives[..15];
    FiveLeadsNowhere();
  }

  lemma FiveLeadsNowhere()
    ensures forall k :: 0 <= k < 16 ==> !LeadsTo(5, TRACKED[k].number)
    ensures forall k :: 0 <= k < 16 ==> TRACKED[k].number != 5
  {
    forall k | 0 <= k < 16
      ensures !LeadsTo(5, TRACKED[k].number)
    {
      NotFive(TRACKED[k].number);
    }
  }

  lemma NotFive(n: nat)
    requires n in {0, 1, 2, 7, 9, 10, 20, 25, 100, 101, 200, 202, 203, 204, 1000, 1002, 1003, 1004, 1005, 1006, 1015, 1016,
                   2004, 2026, 2031, 2048}
    ensures !LeadsTo(5, n)
    decreases n
  {
    if n == 0 {
    } else {
      NotFive(n / 10);
    }
  }

  lemma {:induction false} PlainKeepsModes(t: Tracker, text: bytes)
    requires t.scanner.state.Ground? && ESC !in text
    ensures Track(t, text).isSet == t.isSet
    decreases text
  {
    if text == [] {
    } else {
      PlainKeepsModes(TrackByte(t, text[0]), text[1..]);
    }
  }

  /** The hand-back sequence returns every tracked mode to its default from any state. */
  lemma HandbackRestoresDefaults(t: Tracker)
    ensures Track(t, SyncSequence(FRESH_TRACKER.isSet)).isSet == DefaultStates()
  {
    SyncFromAnyState(t, DefaultStates());
  }
}

module TermModes {
  import opened Wrappers
  import opened Bytes
  import opened ModeModel

  class PrivateModeScanner {
    var state: ScanState
    const modes: array<nat>
    var modeCount: nat
    var partialMode: Option<nat>

    ghost predicate Valid()
      reads this, modes
    {
      modes.Length == MAX_MODES_PER_SEQUENCE && modeCount <= MAX_MODES_PER_SEQUENCE
    }

    ghost function Model(): Scanner
      reads this, modes
      requires Valid()
    {
      Scanner(state, modes[..modeCount], partialMode)
    }

    constructor ()
      ensures Valid() && Model() == FRESH_SCANNER && fresh(modes)
    {
      state, modeCount, partialMode := Ground, 0, None;
      modes := new nat[16];
    }

    /** Consumes one byte and reports the mode changes it completes, in order. */
    method ScanOne(b: byte) returns (events: seq<Event>)
      requires Valid()
      modifies this, modes
      ensures Valid() && Scanned(Model(), events) == ScanByte(old(Model()), b)
    {
      events := [];
      if b == ESC {
        state := Esc;
      } else if state.Esc? && b == '[' as int {
        state := Csi;
      } else if state.Esc? && b == 'c' as int {
        events := [FullReset];
        state := Ground;
      } else if state.Csi? && b == '?' as int {
        modeCount, partialMode, state := 0, None, Params;
      } else if state.Params? && IsDigit(b) {
        TakeDigit(b - 0x30);
      } else if state.Params? && b == SEMI {
        FinishNumber();
      } else if state.Params? && (b == 'h' as int || b == 'l' as int) {
        FinishNumber();
        if state.Params? {
          var isSet := b == 'h' as int;
          for i := 0 to modeCount
            invariant events == ChangeAll(modes[..i], isSet)
          {
            assert modes[..i + 1] == modes[..i] + [modes[i]];
            events := events + [Changed(modes[i], isSet)];
          }
        }
        state := Ground;
      } else {
        state := Ground;
      }
    }

    method TakeDigit(digit: nat)
      requires Valid() && state.Params?
      modifies this`partialMode, this`state
      ensures Valid() && Model() == PushDigit(old(Model()), digit)
    {
      var widened := 10 * partialMode.GetOr(0) + digit;
      if widened <= U16_MAX {
        partialMode, state := Some(widened), Params;
      } else {
        partialMode, state := None, Ground;
      }
    }

    method FinishNumber()
      requires Valid() && state.Params?
      modifies this, modes
      ensures Valid() && Model() == EndModeNumber(old(Model()))
    {
      var mode := partialMode;
      partialMode := None;
      if mode.None? {
        return;
      }
      if modeCount == MAX_MODES_PER_SEQUENCE {
        state := Ground;
        return;
      }
      modes[modeCount] := mode.value;
      modeCount := modeCount + 1;
    }
  }

  class TermModeTracker {
    const scanner: PrivateModeScanner
    const isSet: array<bool>

    ghost predicate Valid()
      reads this, scanner, scanner.modes, isSet
    {
      scanner.Valid() && isSet.Length == 16
    }

    ghost function Model(): Tracker
      reads this, scanner, scanner.modes, isSet
      requires Valid()
    {
      Tracker(scanner.Model(), isSet[..])
    }

    constructor ()
      ensures Valid() && fresh(scanner) && fresh(scanner.modes) && fresh(isSet)
      ensures Model() == FRESH_TRACKER
    {
      var s := new PrivateModeScanner();
      scanner := s;
      isSet := new bool[16](i requires 0 <= i < 16 => TRACKED[i].isSetByDefault);
      new;
      assert isSet[..] == DefaultStates();
    }

    method Scan(data: bytes)
      requires Valid()
      modifies scanner, scanner.modes, isSet
      ensures Valid() && Model() == Track(old(Model()), data)
    {
      for i := 0 to |data|
        invariant Valid()
        invariant Track(Model(), data[i..]) == Track(old(Model()), data)
      {
        assert data[i..][1..] == data[i + 1..];
        var events := scanner.ScanOne(data[i]);
        Apply(events);
      }
    }

    method Apply(events: seq<Event>)
      requires Valid()
      modifies isSet
      ensures isSet[..] == ApplyEvents(old(isSet[..]), events)
    {
      for i := 0 to |events|
        invariant ApplyEvents(isSet[..], events[i..]) == ApplyEvents(old(isSet[..]), events)
      {
        assert events[i..][1..] == events[i + 1..];
        ApplyOne(events[i]);
      }
    }

    method ApplyOne(event: Event)
      requires isSet.Length == 16
      modifies isSet
      ensures isSet[..] == ApplyEvent(old(isSet[..]), event)
    {
      match event {
        case FullReset =>
          forall k | 0 <= k < 16 {
            isSet[k] := TRACKED[k].isSetByDefault;
          }
          assert isSet[..] == DefaultStates();
        case Changed(mode, value) =>
          var k := Position(mode);
          if k < 16 {
            isSet[k] := value;
          }
      }
    }

    static method Position(mode: nat) returns (k: nat)
      ensures k == TrackedIndex(mode)
    {
      k := 0;
      while k < 16 && TRACKED[k].number != mode
        invariant k <= 16
        invariant forall j :: 0 <= j < k ==> TRACKED[j].number != mode
      {
        k := k + 1;
      }
      if k < 16 {
        TrackedIndexInverts(k);
      }
    }

    method Sync() returns (s: bytes)
      requires Valid()
      ensures s == SyncSequence(isSet[..])
    {
      var off := Numbers(false);
      var on := Numbers(true);
      s := ModeSequence(off, 0x6c) + ModeSequence(on, 0x68);
    }

    method Numbers(wanted: bool) returns (numbers: seq<nat>)
      requires Valid()
      ensures numbers == NumbersFrom(isSet[..], wanted, 0)
    {
      numbers := [];
      for i := 0 to 16
        invariant numbers + NumbersFrom(isSet[..], wanted, i) == NumbersFrom(isSet[..], wanted, 0)
      {
        if isSet[i] == wanted {
          ghost var rest := NumbersFrom(isSet[..], wanted, i + 1);
          assert numbers + ([TRACKED[i].number] + rest) == (numbers + [TRACKED[i].number]) + rest;
          numbers := numbers + [TRACKED[i].number];
        }
      }
    }
  }
}
