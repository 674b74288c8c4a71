// What every sequence of bytes does to the modes, by mode number: which ones
// a sequence sets, and everything that must leave them all alone.

module ModeLaws {
  import opened Wrappers
  import opened Bytes
  import opened ModeModel
  import opened ModeSync

  /** The modes that are followed, and the two of them that are on in a fresh terminal. */
  const NUMBERS: seq<nat> := [1, 7, 9, 25, 1000, 1002, 1003, 1004, 1005, 1006, 1015, 1016, 2004, 2026, 2031, 2048]

  lemma NumbersAreTracked(k: nat)
    requires k < 16
    ensures TRACKED[k].number == NUMBERS[k]
  {
  }

  /** At rest, with every mode on whose number is one of `on`. */
  ghost predicate AtRestWith(t: Tracker, on: set<nat>) {
    t.scanner.state.Ground? && forall k :: 0 <= k < 16 ==> (t.isSet[k] <==> NUMBERS[k] in on)
  }

  /** A fresh terminal wraps and shows its cursor, and so does one after RIS, from any state of the scanner. */
  lemma FreshModes(t: Tracker)
    ensures AtRestWith(FRESH_TRACKER, {7, 25})
    ensures AtRestWith(Track(t, [ESC, 0x63]), {7, 25})
  {
    TrackOne(t, ESC);
    TrackOne(t.(scanner := t.scanner.(state := Esc)), 0x63);
    TrackAppend(t, [ESC], [0x63]);
    assert [ESC] + [0x63] == [ESC, 0x63];
    assert ApplyEvents(t.isSet, [FullReset]) == DefaultStates() by {
      assert [FullReset][1..] == [];
    }
  }

  // ---------------------------------------------------------------------
  // Mode sequences
  // ---------------------------------------------------------------------

  /** One field of a mode sequence: a number, or nothing between two separators. */
  type Field = Option<nat>

  function Written(f: Field): bytes {
    match f
    case Some(n) => Decimal(n)
    case None => []
  }

  function AllWritten(fields: seq<Field>): seq<bytes>
    ensures |AllWritten(fields)| == |fields|
  {
    if fields == [] then [] else [Written(fields[0])] + AllWritten(fields[1..])
  }

  function Count(fields: seq<Field>): nat {
    if fields == [] then 0 else (if fields[0].Some? then 1 else 0) + Count(fields[1..])
  }

  ghost predicate NumbersFitU16(fields: seq<Field>) {
    forall i :: 0 <= i < |fields| && fields[i].Some? ==> fields[i].value <= 0xffff
  }

  /** At most sixteen numbers, each of them a 16-bit one. */
  ghost predicate Accepted(fields: seq<Field>) {
    Count(fields) <= 16 && NumbersFitU16(fields)
  }

  /** Reading numbers, none of them begun. */
  ghost predicate Reading(t: Tracker) {
    t.scanner.state.Params? && t.scanner.partial == None && |t.scanner.modes| <= 16
  }

  lemma {:induction false} OversizeDigits(t: Tracker, n: nat)
    requires Reading(t) && n > U16_MAX
    ensures var r := Track(t, Decimal(n)); r.scanner.state.Ground? && r.isSet == t.isSet
  {
    var last := 0x30 + n % 10;
    TrackAppend(t, Decimal(n / 10), [last]);
    if n / 10 <= U16_MAX {
      TrackDigits(t, n / 10);
    } else {
      OversizeDigits(t, n / 10);
    }
    TrackOne(Track(t, Decimal(n / 10)), last);
  }

  /** Outside any sequence, bytes without an ESC change nothing. */
  lemma {:induction false} QuietAtRest(t: Tracker, data: bytes)
    requires t.scanner.state.Ground? && ESC !in data
    ensures Track(t, data) == t
    decreases data
  {
    if data == [] {
    } else {
      assert data[0] in data && forall b :: b in data[1..] ==> b in data;
      assert TrackByte(t, data[0]) == t;
      QuietAtRest(t, data[1..]);
    }
  }

  ghost predicate FitsTogether(have: seq<nat>, fields: seq<Field>) {
    |have| + Count(fields) <= 16 && NumbersFitU16(fields)
  }

  ghost predicate Names(have: seq<nat>, fields: seq<Field>, n: nat) {
    n in have || Some(n) in fields
  }

  /** The modes after the numbers read so far, the further `fields`, and the final byte. */
  ghost predicate SetsThem(have: seq<nat>, isSet: States, fields: seq<Field>, on: bool, r: Tracker) {
    && r.scanner.state.Ground?
    && (forall k :: 0 <= k < 16 ==>
          r.isSet[k] == if FitsTogether(have, fields) && Names(have, fields, NUMBERS[k]) then on else isSet[k])
  }

  /** One number, complete or not, and what is left of the sequence, none of which is an ESC. */
  lemma OneField(t: Tracker, f: Field, rest: bytes) returns (mid: Tracker)
    requires Reading(t) && ESC !in rest
    ensures Track(t, Written(f) + rest) == Track(mid, rest) && mid.isSet == t.isSet
    ensures if f.Some? && f.value > U16_MAX then mid.scanner.state.Ground?
            else mid.scanner == t.scanner.(partial := f)
  {
    TrackAppend(t, Written(f), rest);
    mid := Track(t, Written(f));
    if f.Some? {
      if f.value <= U16_MAX {
        TrackDigits(t, f.value);
      } else {
        OversizeDigits(t, f.value);
      }
    }
  }

  lemma {:induction false} WrittenHasNoEsc(fields: seq<Field>)
    requires fields != []
    ensures ESC !in Join(AllWritten(fields), SEMI)
    decreases fields
  {
    if |fields| == 1 {
    } else {
      WrittenHasNoEsc(fields[1..]);
    }
  }

  lemma ListEnds(s: Scanner, f: Field)
    requires s.state.Params? && s.partial == f && |s.modes| <= 16 && (f.Some? ==> f.value <= U16_MAX)
    ensures var ended := EndModeNumber(s);
            && (ended.state.Params? <==> FitsTogether(s.modes, [f]))
            && (ended.state.Params? ==> forall n: nat :: n in ended.modes <==> Names(s.modes, [f], n))
  {
    assert [f][1..] == [] && Count([f]) == if f.Some? then 1 else 0;
  }

  lemma EndList(t: Tracker, f: Field, on: bool)
    requires t.scanner.state.Params? && t.scanner.partial == f && |t.scanner.modes| <= 16
    requires f.Some? ==> f.value <= U16_MAX
    ensures SetsThem(t.scanner.modes, t.isSet, [f], on, Track(t, [Terminator(on)]))
  {
    TrackOne(t, Terminator(on));
    ListEnds(t.scanner, f);
    var ended := EndModeNumber(t.scanner);
    if ended.state.Params? {
      ChangesExactly(t.isSet, ended.modes, on);
      forall k | 0 <= k < 16
        ensures Track(t, [Terminator(on)]).isSet[k] == if Names(t.scanner.modes, [f], NUMBERS[k]) then on else t.isSet[k]
      {
        NumbersAreTracked(k);
      }
    }
  }

  lemma {:induction false} FieldsTracked(t: Tracker, fields: seq<Field>, on: bool)
    requires Reading(t) && fields != []
    ensures SetsThem(t.scanner.modes, t.isSet, fields, on, Track(t, Join(AllWritten(fields), SEMI) + [Terminator(on)]))
    decreases fields
  {
    var f := fields[0];
    if |fields| == 1 {
      assert fields == [f] && AllWritten(fields) == [Written(f)];
      var mid := OneField(t, f, [Terminator(on)]);
      if mid.scanner.state.Ground? {
        QuietAtRest(mid, [Terminator(on)]);
      } else {
        EndList(mid, f, on);
      }
    } else {
      MoreFieldsTracked(t, fields, on);
    }
  }

  lemma {:induction false} MoreFieldsTracked(t: Tracker, fields: seq<Field>, on: bool)
    requires Reading(t) && |fields| > 1
    ensures SetsThem(t.scanner.modes, t.isSet, fields, on, Track(t, Join(AllWritten(fields), SEMI) + [Terminator(on)]))
    decreases fields, 0
  {
    var f, more := fields[0], fields[1..];
    var tail := Join(AllWritten(more), SEMI) + [Terminator(on)];
    WrittenHasNoEsc(more);
    assert AllWritten(fields)[1..] == AllWritten(more);
    assert Join(AllWritten(fields), SEMI) + [Terminator(on)] == Written(f) + ([SEMI] + tail);
    var mid := OneField(t, f, [SEMI] + tail);
    TrackOne(mid, SEMI);
    TrackAppend(mid, [SEMI], tail);
    var next := Track(mid, [SEMI]);
    if Reading(next) {
      FieldsTracked(next, more, on);
      MoreSets(t, f, more, next, on, Track(next, tail));
    } else {
      QuietAtRest(next, tail);
    }
  }

  lemma MoreSets(t: Tracker, f: Field, more: seq<Field>, next: Tracker, on: bool, r: Tracker)
    requires f.Some? ==> f.value <= U16_MAX
    requires next.isSet == t.isSet && SetsThem(next.scanner.modes, next.isSet, more, on, r)
    requires next.scanner.modes == if f.Some? then t.scanner.modes + [f.value] else t.scanner.modes
    ensures SetsThem(t.scanner.modes, t.isSet, [f] + more, on, r)
  {
    var fields := [f] + more;
    assert fields[1..] == more;
    assert NumbersFitU16(fields) <==> NumbersFitU16(more);
    forall k | 0 <= k < 16
      ensures Names(t.scanner.modes, fields, NUMBERS[k]) <==> Names(next.scanner.modes, more, NUMBERS[k])
    {
    }
  }

  /**
   * `ESC [ ? ... h` and `l`, from any state of the scanner: exactly the modes
   * the list names get that state; a list with a seventeenth number or with
   * one that is no 16-bit number does nothing at all.
   */
  lemma ModesExactly(t: Tracker, fields: seq<Field>, on: bool)
    requires fields != []
    ensures var r := Track(t, [ESC, 0x5b, 0x3f] + (Join(AllWritten(fields), SEMI) + [if on then 0x68 else 0x6c]));
            && r.scanner.state.Ground?
            && forall k :: 0 <= k < 16 ==>
                 r.isSet[k] == if Accepted(fields) && Some(NUMBERS[k]) in fields then on else t.isSet[k]
  {
    var body := Join(AllWritten(fields), SEMI) + [if on then 0x68 else 0x6c];
    TrackOpening(t);
    TrackAppend(t, [ESC, 0x5b, 0x3f], body);
    FieldsTracked(Tracker(Scanner(Params, [], None), t.isSet), fields, on);
  }

  // ---------------------------------------------------------------------
  // Everything else
  // ---------------------------------------------------------------------

  /** An escape or control sequence other than RIS and `ESC [ ?` changes no mode, whatever follows up to the next ESC. */
  lemma OthersDoNothing(t: Tracker, x: byte, y: byte, rest: bytes)
    requires x != 0x63 && x != ESC && (x == 0x5b ==> y != 0x3f && y != ESC) && ESC !in [y] + rest
    ensures var r := Track(t, [ESC, x, y] + rest); r.scanner.state.Ground? && r.isSet == t.isSet
  {
    var t1 := t.(scanner := t.scanner.(state := Esc));
    TrackOne(t, ESC);
    TrackOne(t1, x);
    var t2 := Track(t1, [x]);
    TrackOne(t2, y);
    var t3 := Track(t2, [y]);
    TrackAppend(t, [ESC], [x]);
    TrackAppend(t, [ESC] + [x], [y]);
    TrackAppend(t, [ESC] + [x] + [y], rest);
    assert [ESC] + [x] + [y] == [ESC, x, y];
    assert ESC !in rest by {
      assert forall b :: b in rest ==> b in [y] + rest;
    }
    QuietAtRest(t3, rest);
  }

  /** A list that ends in anything but `h` and `l` changes no mode. */
  lemma OtherFinalsDoNothing(t: Tracker, fields: seq<Field>, final: byte, rest: bytes)
    requires fields != [] && final !in {0x68, 0x6c, ESC, SEMI} && !IsDigit(final) && ESC !in rest
    ensures var r := Track(t, [ESC, 0x5b, 0x3f] + Join(AllWritten(fields), SEMI) + [final] + rest);
            r.scanner.state.Ground? && r.isSet == t.isSet
  {
    var body := Join(AllWritten(fields), SEMI);
    var ready := Tracker(Scanner(Params, [], None), t.isSet);
    TrackOpening(t);
    TrackAppend(t, [ESC, 0x5b, 0x3f], body);
    TrackAppend(t, [ESC, 0x5b, 0x3f] + body, [final]);
    TrackAppend(t, [ESC, 0x5b, 0x3f] + body + [final], rest);
    AllDigitsOrSeparators(fields);
    ListChangesNothing(ready, body);
    var read := Track(ready, body);
    TrackOne(read, final);
    QuietAtRest(Track(read, [final]), rest);
  }

  ghost predicate ListBytes(s: bytes) {
    forall i :: 0 <= i < |s| ==> IsDigit(s[i]) || s[i] == SEMI
  }

  lemma {:induction false} AllDigitsOrSeparators(fields: seq<Field>)
    requires fields != []
    ensures ListBytes(Join(AllWritten(fields), SEMI))
    decreases fields
  {
    if |fields| == 1 {
    } else {
      AllDigitsOrSeparators(fields[1..]);
    }
  }

  lemma {:induction false} ListChangesNothing(t: Tracker, s: bytes)
    requires (t.scanner.state.Params? || t.scanner.state.Ground?) && ListBytes(s)
    ensures var r := Track(t, s); r.isSet == t.isSet && (r.scanner.state.Params? || r.scanner.state.Ground?)
    decreases s
  {
    if s == [] {
    } else {
      ListChangesNothing(TrackByte(t, s[0]), s[1..]);
    }
  }
}
