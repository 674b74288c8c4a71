// Where every control the shadow understands leaves it, read off whole byte
// strings: the column, DECAWM, the saved cursor and the attribute list after
// one control function fed to a shadow at rest, and every string that must
// leave them alone.

module CursorMoves {
  import opened Wrappers
  import opened Bytes
  import opened ShadowModel
  import opened ShadowInvariant
  import opened ShadowRestore

  /** `r` is `t` in `Ground` with that column; a half-read character is dropped, and nothing else differs. */
  ghost predicate OnlyMoved(t: Shadow, r: Shadow, col: nat) {
    r == t.(col := col, state := Ground, utf8 := [], utf8Need := 0, csi := r.csi, csiOverflow := r.csiOverflow)
  }

  ghost predicate MovesTo(gw: GlyphWidth, t: Shadow, data: bytes, col: nat) {
    OnlyMoved(t, Scan(gw, t, data), col)
  }

  ghost predicate DoesNothing(gw: GlyphWidth, t: Shadow, data: bytes) {
    MovesTo(gw, t, data, t.col)
  }

  /** A number to print, or an absent one. */
  function Printed(n: Option<nat>): bytes {
    match n
    case Some(n) => Decimal(n)
    case None => []
  }

  /** What may follow a number without changing it: further parameters, or subparameters of its own. */
  predicate IsTail(n: Option<nat>, tail: bytes) {
    && (forall i :: 0 <= i < |tail| ==> IsParameter(tail[i]))
    && (tail == [] || tail[0] == SEMI || (n.Some? && tail[0] == COLON))
  }

  /** The number as the terminal takes it: absent ones, and ones beyond `usize`, count as 1. */
  function Counted(n: Option<nat>): nat {
    if n.Some? && n.value <= 0xffff_ffff_ffff_ffff then n.value else 1
  }

  /** The last column that can be named, for a terminal of that many columns; 0 columns means unknown. */
  function Clamped(cols: nat, col: nat): nat {
    if cols > 0 && col >= cols then cols - 1 else col
  }

  /** 1-based column `n` of the screen; 0 is taken for 1. */
  function OneBased(cols: nat, n: nat): nat {
    Clamped(cols, if n == 0 then 0 else n - 1)
  }

  // ---------------------------------------------------------------------
  // Numbers in a parameter string
  // ---------------------------------------------------------------------

  /** The leading number of a field, subparameters set aside. */
  lemma LeadingNumber(n: nat, sub: bytes, max: nat)
    requires sub == [] || sub[0] == COLON
    ensures ParseUint(Split(Decimal(n) + sub, COLON)[0], max) == if n <= max then Some(n) else None
  {
    SplitPiece(Decimal(n), sub, COLON);
    assert Split(sub, COLON)[0] == [];
    assert Decimal(n) + [] == Decimal(n);
    ParseDecimal(n, max);
  }

  lemma FirstField(n: Option<nat>, tail: bytes)
    requires IsTail(n, tail)
    ensures Split(Printed(n) + tail, SEMI)[0] == Printed(n) + Split(tail, SEMI)[0]
    ensures var sub := Split(tail, SEMI)[0]; if n.Some? then sub == [] || sub[0] == COLON else sub == []
  {
    SplitPiece(Printed(n), tail, SEMI);
  }

  lemma FirstParam(n: Option<nat>, tail: bytes)
    requires IsTail(n, tail)
    ensures NthParam(Printed(n) + tail, 0, 1) == Counted(n)
  {
    FirstField(n, tail);
    var sub := Split(tail, SEMI)[0];
    if n.Some? {
      LeadingNumber(n.value, sub, USIZE_MAX);
    }
  }

  lemma FieldsAfter(row: bytes, rest: bytes)
    requires SEMI !in row
    ensures Split(row + ([SEMI] + rest), SEMI) == [row] + Split(rest, SEMI)
  {
    SplitPiece(row, [SEMI] + rest, SEMI);
    assert ([SEMI] + rest)[1..] == rest;
    assert row + [] == row;
  }

  lemma SecondParam(row: bytes, n: Option<nat>, tail: bytes)
    requires SEMI !in row && IsTail(n, tail)
    ensures NthParam(row + ([SEMI] + (Printed(n) + tail)), 1, 1) == Counted(n)
  {
    FieldsAfter(row, Printed(n) + tail);
    FirstParam(n, tail);
  }

  // ---------------------------------------------------------------------
  // Control sequences in general
  // ---------------------------------------------------------------------

  /** Parameters of a sequence the shadow may act on: no intermediate and no private marker in front. */
  predicate IsPlain(params: bytes) {
    && |params| <= 64
    && (forall i :: 0 <= i < |params| ==> IsParameter(params[i]))
    && (params != [] ==> !IsPrivateMarker(params[0]))
  }

  ghost function Entered(t: Shadow, params: bytes): Shadow {
    t.(state := Csi, csi := params, csiOverflow := false, utf8 := [], utf8Need := 0)
  }

  lemma PrintedIsPlain(n: Option<nat>, tail: bytes)
    requires IsTail(n, tail) && |Printed(n) + tail| <= 64
    ensures IsPlain(Printed(n) + tail)
  {
    var params := Printed(n) + tail;
    forall i | 0 <= i < |params|
      ensures IsParameter(params[i])
    {
      if i < |Printed(n)| {
        assert Printed(n)[i] in Printed(n);
      }
    }
    if n.Some? {
      assert params[0] == Decimal(n.value)[0];
      assert Decimal(n.value)[0] in Decimal(n.value);
    }
  }

  lemma PlainFields(row: bytes, rest: bytes)
    requires IsPlain(row) && (forall i :: 0 <= i < |rest| ==> IsParameter(rest[i]))
    requires |row| + 1 + |rest| <= 64
    ensures IsPlain(row + ([SEMI] + rest))
  {
  }

  lemma ScanPlain(gw: GlyphWidth, t: Shadow, params: bytes, final: byte)
    requires t.state.Ground? && IsPlain(params) && 0x40 <= final <= 0x7e
    ensures Scan(gw, t, CsiSequence(params, final)) == CsiDispatch(Entered(t, params), final).(state := Ground)
  {
    assert forall i :: 0 <= i < |params| ==> IsParameter(params[i]);
    ScanCsiSequence(gw, t, params, final);
  }

  // ---------------------------------------------------------------------
  // Cursor movement
  // ---------------------------------------------------------------------

  /** CUP and HVP: the second parameter, whatever the first one is, names the column. */
  lemma CupMoves(gw: GlyphWidth, t: Shadow, row: bytes, c: Option<nat>, tail: bytes, final: byte)
    requires t.state.Ground? && (final == 0x48 || final == 0x66)
    requires IsPlain(row) && SEMI !in row && IsTail(c, tail)
    requires |row| + 1 + |Printed(c) + tail| <= 64
    ensures MovesTo(gw, t, CsiSequence(row + ([SEMI] + (Printed(c) + tail)), final), OneBased(t.cols, Counted(c)))
  {
    var params := row + ([SEMI] + (Printed(c) + tail));
    PrintedIsPlain(c, tail);
    PlainFields(row, Printed(c) + tail);
    SecondParam(row, c, tail);
    ScanPlain(gw, t, params, final);
  }

  /** The textbook form, `ESC [ r ; c H`. */
  lemma CupOfTwoNumbers(gw: GlyphWidth, t: Shadow, r: nat, c: nat, final: byte)
    requires t.state.Ground? && (final == 0x48 || final == 0x66)
    requires |Decimal(r)| + 1 + |Decimal(c)| <= 64
    ensures MovesTo(gw, t, CsiSequence(Decimal(r) + [SEMI] + Decimal(c), final), OneBased(t.cols, Counted(Some(c))))
  {
    var row := Decimal(r);
    assert Decimal(c) + [] == Decimal(c);
    assert Printed(Some(r)) + [] == row;
    PrintedIsPlain(Some(r), []);
    assert Decimal(r) + [SEMI] + Decimal(c) == row + ([SEMI] + (Printed(Some(c)) + []));
    CupMoves(gw, t, row, Some(c), [], final);
  }

  /** Without a second parameter CUP and HVP go to the left margin. */
  lemma CupWithoutColumn(gw: GlyphWidth, t: Shadow, row: bytes, final: byte)
    requires t.state.Ground? && (final == 0x48 || final == 0x66) && IsPlain(row) && SEMI !in row
    ensures MovesTo(gw, t, CsiSequence(row, final), 0)
  {
    SplitSingle(row, SEMI);
    ScanPlain(gw, t, row, final);
  }

  /** CHA and HPA. */
  lemma ColumnMoves(gw: GlyphWidth, t: Shadow, n: Option<nat>, tail: bytes, final: byte)
    requires t.state.Ground? && (final == 0x47 || final == 0x60) && IsTail(n, tail) && |Printed(n) + tail| <= 64
    ensures MovesTo(gw, t, CsiSequence(Printed(n) + tail, final), OneBased(t.cols, Counted(n)))
  {
    PrintedIsPlain(n, tail);
    FirstParam(n, tail);
    ScanPlain(gw, t, Printed(n) + tail, final);
  }

  /** CUB: left, no further than the margin, and by at least one. */
  lemma LeftMoves(gw: GlyphWidth, t: Shadow, n: Option<nat>, tail: bytes)
    requires t.state.Ground? && IsTail(n, tail) && |Printed(n) + tail| <= 64
    ensures var count := if Counted(n) == 0 then 1 else Counted(n);
            MovesTo(gw, t, CsiSequence(Printed(n) + tail, 0x44), if count <= t.col then t.col - count else 0)
  {
    PrintedIsPlain(n, tail);
    FirstParam(n, tail);
    ScanPlain(gw, t, Printed(n) + tail, 0x44);
  }

  /** CUF and HPR: right, no further than the last column, and by at least one. */
  lemma RightMoves(gw: GlyphWidth, t: Shadow, n: Option<nat>, tail: bytes, final: byte)
    requires t.state.Ground? && (final == 0x43 || final == 0x61) && IsTail(n, tail) && |Printed(n) + tail| <= 64
    ensures var count := if Counted(n) == 0 then 1 else Counted(n);
            var to := if t.col + count <= 0xffff_ffff_ffff_ffff then t.col + count else 0xffff_ffff_ffff_ffff;
            MovesTo(gw, t, CsiSequence(Printed(n) + tail, final), Clamped(t.cols, to))
  {
    PrintedIsPlain(n, tail);
    FirstParam(n, tail);
    ScanPlain(gw, t, Printed(n) + tail, final);
    DispatchRight(Entered(t, Printed(n) + tail), Counted(n), final);
  }

  lemma DispatchRight(s: Shadow, n: nat, final: byte)
    requires IsPlain(s.csi) && NthParam(s.csi, 0, 1) == n && (final == 0x43 || final == 0x61)
    ensures CsiDispatch(s, final) == s.(csi := [], col := ClampCol(s.cols, SaturatingAdd(s.col, Max(n, 1))))
  {
    assert forall i :: 0 <= i < |s.csi| ==> IsParameter(s.csi[i]);
  }

  /** CNL and CPL go to the left margin, whatever their parameters. */
  lemma LineMoves(gw: GlyphWidth, t: Shadow, params: bytes, final: byte)
    requires t.state.Ground? && (final == 0x45 || final == 0x46) && IsPlain(params)
    ensures MovesTo(gw, t, CsiSequence(params, final), 0)
  {
    ScanPlain(gw, t, params, final);
  }

  /** CR, BS, TAB and every other control byte but ESC. */
  lemma ControlMoves(gw: GlyphWidth, t: Shadow, b: byte, stop: nat)
    requires t.state.Ground? && (b < 0x20 || b == 0x7f) && b != 0x1b
    requires stop % 8 == 0 && t.col < stop <= t.col + 8 && stop <= 0xffff_ffff_ffff_ffff
    ensures MovesTo(gw, t, [b],
              if b == 0x0d then 0
              else if b == 0x08 then (if t.col == 0 then 0 else t.col - 1)
              else if b == 0x09 then Clamped(t.cols, stop)
              else t.col)
  {
    ScanOne(gw, t, b);
    assert stop == t.col / 8 * 8 + 8;
  }

  /**
   * A glyph of `w` columns: with a known width it wraps onto a new line when
   * it does not fit and DECAWM is on, and rests on the last column when off.
   */
  lemma GlyphMoves(gw: GlyphWidth, t: Shadow, g: bytes)
    requires t.state.Ground? && AtRest(t) && IsGlyph(g)
    ensures var w := GlyphColumns(gw, g);
            MovesTo(gw, t, g,
              if w == 0 then t.col
              else if t.cols == 0 then (t.col + w) % 0x1_0000_0000_0000_0000
              else if !t.autowrap then Clamped(t.cols, t.col + w)
              else if t.col + w <= t.cols then t.col + w
              else if w <= t.cols then w
              else t.cols)
  {
    PrintGlyph(gw, t, g);
  }

  /** A byte that does not continue the half-read character is read as if that had never been there. */
  lemma BrokenCharacter(gw: GlyphWidth, t: Shadow, b: byte)
    requires t.state.Ground? && t.utf8Need > 0 && !(0x80 <= b < 0xc0)
    ensures Scan(gw, t, [b]) == Scan(gw, t.(utf8 := [], utf8Need := 0), [b])
  {
    ScanOne(gw, t, b);
    ScanOne(gw, t.(utf8 := [], utf8Need := 0), b);
  }

  // ---------------------------------------------------------------------
  // Modes and the saved cursor
  // ---------------------------------------------------------------------

  /** `ESC [ ? ... h` and `l`: DECAWM follows when 7 is among the modes, and nothing else ever does. */
  lemma PrivateModes(gw: GlyphWidth, t: Shadow, fields: seq<bytes>, final: byte)
    requires t.state.Ground? && 0x40 <= final <= 0x7e
    requires fields != [] && NoneContains(fields, SEMI) && |Join(fields, SEMI)| < 64
    requires forall i :: 0 <= i < |Join(fields, SEMI)| ==> IsParameter(Join(fields, SEMI)[i])
    ensures var autowrap := if [0x37] in fields && final == 0x68 then true
                            else if [0x37] in fields && final == 0x6c then false
                            else t.autowrap;
            OnlyMoved(t.(autowrap := autowrap), Scan(gw, t, CsiSequence([0x3f] + Join(fields, SEMI), final)), t.col)
  {
    var params := [0x3f] + Join(fields, SEMI);
    assert params[1..] == Join(fields, SEMI);
    SplitJoin(fields, SEMI);
    ScanCsiSequence(gw, t, params, final);
    assert IsPrivateMarker(params[0]) && forall i :: 0 <= i < |params| ==> !IsIntermediate(params[i]);
  }

  /** Other private sequences, sequences with an intermediate byte, and every other final byte. */
  lemma OthersDoNothing(gw: GlyphWidth, t: Shadow, params: bytes, final: byte)
    requires t.state.Ground? && |params| <= 64 && 0x40 <= final <= 0x7e
    requires forall i :: 0 <= i < |params| ==> 0x20 <= params[i] <= 0x3f
    requires || (exists i :: 0 <= i < |params| && 0x20 <= params[i] <= 0x2f)
             || (params != [] && 0x3c <= params[0] <= 0x3e)
             || (params != [] && params[0] == 0x3f && final != 0x68 && final != 0x6c)
             || final !in {0x6d, 0x47, 0x60, 0x43, 0x61, 0x44, 0x48, 0x66, 0x45, 0x46, 0x68, 0x6c}
             || (final in {0x68, 0x6c} && (params == [] || params[0] != 0x3f))
    ensures DoesNothing(gw, t, CsiSequence(params, final))
  {
    ScanCsiSequence(gw, t, params, final);
    if i :| 0 <= i < |params| && 0x20 <= params[i] <= 0x2f {
      assert IsIntermediate(params[i]);
    }
  }

  lemma {:induction false} OverflowBody(gw: GlyphWidth, t: Shadow, more: bytes)
    requires t.state.Csi? && |t.csi| == 64 && forall i :: 0 <= i < |more| ==> 0x20 <= more[i] <= 0x3f
    ensures Scan(gw, t, more) == t.(csiOverflow := t.csiOverflow || more != [])
    decreases more
  {
    if more == [] {
    } else {
      OverflowBody(gw, t.(csiOverflow := true), more[1..]);
    }
  }

  /** A sequence of more than 64 parameter bytes, whatever it says. */
  lemma OverlongDoesNothing(gw: GlyphWidth, t: Shadow, params: bytes, final: byte)
    requires t.state.Ground? && |params| > 64 && 0x40 <= final <= 0x7e
    requires forall i :: 0 <= i < |params| ==> 0x20 <= params[i] <= 0x3f
    ensures DoesNothing(gw, t, CsiSequence(params, final))
  {
    var head, more := params[..64], params[64..];
    var full := Introduced(gw, t, head);
    OverflowBody(gw, full, more);
    ScanOne(gw, full.(csiOverflow := true), final);
    ScanAppend(gw, t, [ESC, 0x5b] + head, more);
    ScanAppend(gw, t, [ESC, 0x5b] + head + more, [final]);
    assert [ESC, 0x5b] + head + more + [final] == CsiSequence(params, final);
  }

  /** The shadow after the introducer and up to 64 parameter bytes. */
  lemma Introduced(gw: GlyphWidth, t: Shadow, params: bytes) returns (r: Shadow)
    requires t.state.Ground? && |params| <= 64 && forall i :: 0 <= i < |params| ==> 0x20 <= params[i] <= 0x3f
    ensures r == Scan(gw, t, [ESC, 0x5b] + params) == Entered(t, params)
  {
    r := Scan(gw, t, [ESC, 0x5b] + params);
    ScanEscape(gw, t, 0x5b);
    ScanAppend(gw, t, [ESC, 0x5b], params);
    ScanCsiBody(gw, Entered(t, []), params);
    assert [] + params == params;
  }

  lemma ScanEscape(gw: GlyphWidth, t: Shadow, b: byte)
    requires t.state.Ground?
    ensures Scan(gw, t, [ESC, b]) == EscByte(t.(state := Esc, utf8 := [], utf8Need := 0), b)
  {
    ScanOne(gw, t, ESC);
    ScanOne(gw, t.(state := Esc, utf8 := [], utf8Need := 0), b);
    ScanAppend(gw, t, [ESC], [b]);
    assert [ESC] + [b] == [ESC, b];
  }

  /** DECSC remembers the column and the attributes. */
  lemma SaveRemembers(gw: GlyphWidth, t: Shadow)
    requires t.state.Ground?
    ensures OnlyMoved(t.(saved := Some(Cursor(t.col, t.sgr))), Scan(gw, t, [ESC, 0x37]), t.col)
  {
    ScanEscape(gw, t, 0x37);
  }

  /** DECRC brings back what DECSC last remembered, if anything, and goes on remembering it. */
  lemma RecallRestores(gw: GlyphWidth, t: Shadow)
    requires t.state.Ground?
    ensures var sgr := if t.saved.Some? then t.saved.value.sgr else t.sgr;
            var col := if t.saved.Some? then t.saved.value.col else t.col;
            OnlyMoved(t.(sgr := sgr), Scan(gw, t, [ESC, 0x38]), col)
  {
    ScanEscape(gw, t, 0x38);
  }

  /** RIS: the left margin, DECAWM on, no attributes and nothing remembered. */
  lemma FullReset(gw: GlyphWidth, t: Shadow)
    requires t.state.Ground?
    ensures OnlyMoved(t.(autowrap := true, sgr := [], saved := None), Scan(gw, t, [ESC, 0x63]), 0)
  {
    ScanEscape(gw, t, 0x63);
  }

  /** NEL goes to the left margin; any other two-byte escape does nothing. */
  lemma OtherEscapes(gw: GlyphWidth, t: Shadow, b: byte)
    requires t.state.Ground?
    requires b !in {0x5b, 0x5d, 0x50, 0x58, 0x5e, 0x5f, 0x37, 0x38, 0x63, 0x28, 0x29, 0x2a, 0x2b, 0x23, 0x25, 0x20}
    ensures MovesTo(gw, t, [ESC, b], if b == 0x45 then 0 else t.col)
  {
    ScanEscape(gw, t, b);
  }

  /** A designator swallows the one byte after it, whatever that is. */
  lemma DesignatorsDoNothing(gw: GlyphWidth, t: Shadow, b: byte, x: byte)
    requires t.state.Ground? && b in {0x28, 0x29, 0x2a, 0x2b, 0x23, 0x25, 0x20}
    ensures DoesNothing(gw, t, [ESC, b, x])
  {
    ScanEscape(gw, t, b);
    ScanOne(gw, Scan(gw, t, [ESC, b]), x);
    ScanAppend(gw, t, [ESC, b], [x]);
    assert [ESC, b] + [x] == [ESC, b, x];
  }

  // ---------------------------------------------------------------------
  // Strings, and what may come in the middle of a sequence
  // ---------------------------------------------------------------------

  /** A string body that goes on: no BEL but right after an ESC, and no ESC before a backslash. */
  predicate GoesOn(body: bytes)
    decreases body
  {
    || body == []
    || (body[0] != BEL && body[0] != ESC && GoesOn(body[1..]))
    || (body[0] == ESC && |body| > 1 && body[1] != BACKSLASH && GoesOn(body[2..]))
  }

  lemma {:induction false} StringSwallows(gw: GlyphWidth, t: Shadow, body: bytes)
    requires t.state.StringBody? && GoesOn(body)
    ensures Scan(gw, t, body) == t
    decreases body
  {
    if body == [] {
    } else if body[0] == ESC {
      assert body[1..][1..] == body[2..];
      assert Step(gw, Step(gw, t, ESC), body[1]) == t;
      StringSwallows(gw, t, body[2..]);
    } else {
      StringSwallows(gw, t, body[1..]);
    }
  }

  /** OSC, DCS, SOS, PM and APC strings, ended by BEL or by ST, whatever they hold. */
  lemma StringsDoNothing(gw: GlyphWidth, t: Shadow, intro: byte, body: bytes, end: bytes)
    requires t.state.Ground? && intro in {0x5d, 0x50, 0x58, 0x5e, 0x5f} && GoesOn(body)
    requires end == [BEL] || end == [ESC, BACKSLASH]
    ensures DoesNothing(gw, t, [ESC, intro] + body + end)
  {
    ScanEscape(gw, t, intro);
    var inside := Scan(gw, t, [ESC, intro]);
    StringSwallows(gw, inside, body);
    ScanAppend(gw, t, [ESC, intro], body);
    ScanAppend(gw, t, [ESC, intro] + body, end);
    ScanOne(gw, inside, end[0]);
    if end == [ESC, BACKSLASH] {
      ScanOne(gw, Step(gw, inside, ESC), BACKSLASH);
      ScanAppend(gw, inside, [ESC], [BACKSLASH]);
      assert [ESC] + [BACKSLASH] == end;
    }
  }

  /** A control byte other than ESC in the middle of a control sequence is not heard, nor is any byte from DEL up. */
  lemma UnheardInSequence(gw: GlyphWidth, t: Shadow, params: bytes, x: byte, rest: bytes)
    requires t.state.Ground? && |params| <= 64 && forall i :: 0 <= i < |params| ==> 0x20 <= params[i] <= 0x3f
    requires (x < 0x20 && x != ESC) || x >= 0x7f
    ensures Scan(gw, t, [ESC, 0x5b] + params + [x] + rest) == Scan(gw, t, [ESC, 0x5b] + params + rest)
  {
    var r := Introduced(gw, t, params);
    ScanOne(gw, r, x);
    ScanAppend(gw, t, [ESC, 0x5b] + params, [x]);
    ScanAppend(gw, t, [ESC, 0x5b] + params + [x], rest);
    ScanAppend(gw, t, [ESC, 0x5b] + params, rest);
  }

  /** ESC in the middle of a control sequence abandons it and begins the next one. */
  lemma EscAbandons(gw: GlyphWidth, t: Shadow, params: bytes, rest: bytes)
    requires t.state.Ground? && |params| <= 64 && forall i :: 0 <= i < |params| ==> 0x20 <= params[i] <= 0x3f
    ensures SameTerminal(Scan(gw, t, [ESC, 0x5b] + params + ([ESC] + rest)), Scan(gw, t, [ESC] + rest))
  {
    var r := Introduced(gw, t, params);
    ScanAppend(gw, t, [ESC, 0x5b] + params, [ESC] + rest);
    ScanAppend(gw, r, [ESC], rest);
    ScanAppend(gw, t, [ESC], rest);
    ScanOne(gw, r, ESC);
    ScanOne(gw, t, ESC);
    SameTerminalScan(gw, Step(gw, r, ESC), Step(gw, t, ESC), rest);
  }

  // ---------------------------------------------------------------------
  // Attributes
  // ---------------------------------------------------------------------

  /** One item of an SGR list: nothing at all, a number with or without subparameters, or an extended color. */
  datatype Item =
    | Empty
    | Attribute(n: nat, sub: bytes)
    | Palette(n: nat, index: bytes)
    | Direct(n: nat, red: bytes, green: bytes, blue: bytes)

  predicate IsField(f: bytes) {
    SEMI !in f && forall i :: 0 <= i < |f| ==> IsParameter(f[i])
  }

  predicate TakesColor(n: nat) {
    n == 38 || n == 48 || n == 58
  }

  /** A bare 38, 48 or 58 opens an extended color and is no item of its own. */
  predicate IsItem(item: Item) {
    match item
    case Empty => true
    case Attribute(n, sub) => IsField(sub) && (if sub == [] then !TakesColor(n) else sub[0] == COLON)
    case Palette(n, index) => TakesColor(n) && IsField(index)
    case Direct(n, red, green, blue) => TakesColor(n) && IsField(red) && IsField(green) && IsField(blue)
  }

  function Tokens(item: Item): seq<bytes> {
    match item
    case Empty => [[]]
    case Attribute(n, sub) => [Decimal(n) + sub]
    case Palette(n, index) => [Decimal(n), [0x35], index]
    case Direct(n, red, green, blue) => [Decimal(n), [0x32], red, green, blue]
  }

  /** What an item does: 0 and nothing at all reset, a number beyond `u32` is ignored, and the rest is kept as written, up to 64 of them. */
  function Applied(item: Item, sgr: seq<bytes>): seq<bytes> {
    if item.Empty? || (item.Attribute? && item.n == 0) then []
    else if item.Attribute? && item.n > 0xffff_ffff then sgr
    else Kept(sgr, Join(Tokens(item), SEMI))
  }

  /** One more attribute; a sixty-fifth drops the others. */
  function Kept(sgr: seq<bytes>, seg: bytes): seq<bytes> {
    if |sgr| < 64 then sgr + [seg] else [seg]
  }

  function AllTokens(items: seq<Item>): seq<bytes>
    decreases items
  {
    if items == [] then [] else Tokens(items[0]) + AllTokens(items[1..])
  }

  function AllApplied(items: seq<Item>, sgr: seq<bytes>): seq<bytes>
    decreases items
  {
    if items == [] then sgr else AllApplied(items[1..], Applied(items[0], sgr))
  }

  ghost predicate AreItems(items: seq<Item>) {
    forall i :: 0 <= i < |items| ==> IsItem(items[i])
  }

  lemma NumberOf(n: nat, sub: bytes)
    requires sub == [] || sub[0] == COLON
    ensures SgrNumber(Decimal(n) + sub) == if n <= U32_MAX then Some(n) else None
    ensures COLON in Decimal(n) + sub <==> sub != []
  {
    LeadingNumber(n, sub, U32_MAX);
  }

  lemma ColorNumber(n: nat)
    requires TakesColor(n)
    ensures OpensExtendedColor(Decimal(n))
  {
    NumberOf(n, []);
    assert Decimal(n) + [] == Decimal(n);
  }

  /** The token loop at an item's tokens consumes them and does what the item does. */
  lemma ItemTaken(sgr: seq<bytes>, toks: seq<bytes>, i: nat, item: Item)
    requires IsItem(item) && i + |Tokens(item)| <= |toks| && toks[i..i + |Tokens(item)|] == Tokens(item)
    ensures ApplyTokens(sgr, toks, i) == ApplyTokens(Applied(item, sgr), toks, i + |Tokens(item)|)
  {
    assert toks[i] == toks[i..i + |Tokens(item)|][0];
    if item.Palette? || item.Direct? {
      ColorItemTaken(sgr, toks, i, item);
    } else if item.Attribute? {
      NumberOf(item.n, item.sub);
      NumberTaken(sgr, toks, i, item);
    }
  }

  lemma ColorItemTaken(sgr: seq<bytes>, toks: seq<bytes>, i: nat, item: Item)
    requires IsItem(item) && (item.Palette? || item.Direct?)
    requires i + |Tokens(item)| <= |toks| && toks[i..i + |Tokens(item)|] == Tokens(item)
    ensures ApplyTokens(sgr, toks, i) == ApplyTokens(Applied(item, sgr), toks, i + |Tokens(item)|)
  {
    ColorLength(toks, i, item);
    ColorTaken(sgr, toks, i, Tokens(item));
  }

  lemma ColorLength(toks: seq<bytes>, i: nat, item: Item)
    requires IsItem(item) && (item.Palette? || item.Direct?)
    requires i + |Tokens(item)| <= |toks| && toks[i..i + |Tokens(item)|] == Tokens(item)
    ensures OpensExtendedColor(toks[i]) && ExtendedLength(toks, i) == |Tokens(item)|
  {
    var own := Tokens(item);
    ColorNumber(item.n);
    FirstTwo(toks, i, own);
    assert own[0] == Decimal(item.n) && own[1] == if item.Palette? then [0x35] else [0x32];
    LengthByKind(toks, i, own[1]);
  }

  lemma FirstTwo(toks: seq<bytes>, i: nat, own: seq<bytes>)
    requires |own| >= 2 && i + |own| <= |toks| && toks[i..i + |own|] == own
    ensures toks[i] == own[0] && toks[i + 1] == own[1]
  {
    assert toks[i] == toks[i..i + |own|][0] && toks[i + 1] == toks[i..i + |own|][1];
  }

  lemma LengthByKind(toks: seq<bytes>, i: nat, kind: bytes)
    requires i + 1 < |toks| && toks[i + 1] == kind && (kind == [0x35] || kind == [0x32])
    ensures ExtendedLength(toks, i) == if kind == [0x35] then 3 else 5
  {
  }

  lemma ColorTaken(sgr: seq<bytes>, toks: seq<bytes>, i: nat, own: seq<bytes>)
    requires i + |own| <= |toks| && own != [] && toks[i..i + |own|] == own
    requires OpensExtendedColor(toks[i]) && ExtendedLength(toks, i) == |own|
    ensures ApplyTokens(sgr, toks, i) == ApplyTokens(Kept(sgr, Join(own, SEMI)), toks, i + |own|)
  {
  }

  lemma NumberTaken(sgr: seq<bytes>, toks: seq<bytes>, i: nat, item: Item)
    requires item.Attribute? && IsItem(item) && i < |toks| && toks[i] == Decimal(item.n) + item.sub
    requires SgrNumber(toks[i]) == if item.n <= U32_MAX then Some(item.n) else None
    requires COLON in toks[i] <==> item.sub != []
    ensures ApplyTokens(sgr, toks, i) == ApplyTokens(Applied(item, sgr), toks, i + 1)
  {
    assert Join(Tokens(item), SEMI) == toks[i];
  }

  lemma {:induction false} ItemsThen(sgr: seq<bytes>, toks: seq<bytes>, i: nat, items: seq<Item>, more: seq<bytes>)
    requires AreItems(items) && i <= |toks| && toks[i..] == AllTokens(items) + more
    ensures |more| <= |toks| && ApplyTokens(sgr, toks, i) == ApplyTokens(AllApplied(items, sgr), toks, |toks| - |more|)
    decreases items
  {
    if items == [] {
    } else {
      var own, rest := Tokens(items[0]), AllTokens(items[1..]);
      AppendAssoc(own, rest, more);
      FirstTokens(toks, i, own, rest + more);
      ItemTaken(sgr, toks, i, items[0]);
      ItemsThen(Applied(items[0], sgr), toks, i + |own|, items[1..], more);
    }
  }

  lemma FirstTokens(toks: seq<bytes>, i: nat, own: seq<bytes>, rest: seq<bytes>)
    requires i <= |toks| && toks[i..] == own + rest
    ensures i + |own| <= |toks| && toks[i..i + |own|] == own && toks[i + |own|..] == rest
  {
    assert toks[i..i + |own|] == toks[i..][..|own|];
    assert toks[i + |own|..] == toks[i..][|own|..];
  }

  lemma {:induction false} TokensHoldNoSemicolon(items: seq<Item>)
    requires AreItems(items)
    ensures NoneContains(AllTokens(items), SEMI)
    ensures items != [] ==> AllTokens(items) != []
    decreases items
  {
    if items == [] {
    } else {
      TokensHoldNoSemicolon(items[1..]);
    }
  }

  /** A whole SGR sequence applies its items one after the other, and changes only the attributes. */
  lemma SgrApplies(gw: GlyphWidth, t: Shadow, items: seq<Item>)
    requires t.state.Ground? && items != [] && AreItems(items) && IsPlain(Join(AllTokens(items), SEMI))
    ensures OnlyMoved(t.(sgr := AllApplied(items, t.sgr)),
                      Scan(gw, t, CsiSequence(Join(AllTokens(items), SEMI), 0x6d)), t.col)
  {
    ScanPlain(gw, t, Join(AllTokens(items), SEMI), 0x6d);
    ItemsApply(t.sgr, items);
  }

  lemma ItemsApply(sgr: seq<bytes>, items: seq<Item>)
    requires items != [] && AreItems(items)
    ensures ApplySgr(sgr, Join(AllTokens(items), SEMI)) == AllApplied(items, sgr)
  {
    var toks := AllTokens(items);
    TokensHoldNoSemicolon(items);
    SplitJoin(toks, SEMI);
    assert toks[0..] == toks && toks + [] == toks;
    ItemsThen(sgr, toks, 0, items, []);
    if Join(toks, SEMI) == [] {
      EmptyListResets(items, sgr);
    }
  }

  /** An extended color that the sequence ends in the middle of. */
  predicate IsOpenColor(n: nat, more: seq<bytes>) {
    && TakesColor(n)
    && (more == [] || (more[0] == [0x35] && |more| == 1) || (more[0] == [0x32] && |more| <= 3))
    && forall i :: 0 <= i < |more| ==> IsField(more[i])
  }

  /** A color left open at the end is kept as far as it goes. */
  lemma SgrOpenColor(gw: GlyphWidth, t: Shadow, items: seq<Item>, n: nat, more: seq<bytes>)
    requires t.state.Ground? && AreItems(items) && IsOpenColor(n, more)
    requires IsPlain(Join(AllTokens(items) + ([Decimal(n)] + more), SEMI))
    ensures OnlyMoved(t.(sgr := Kept(AllApplied(items, t.sgr), Join([Decimal(n)] + more, SEMI))),
                      Scan(gw, t, CsiSequence(Join(AllTokens(items) + ([Decimal(n)] + more), SEMI), 0x6d)), t.col)
  {
    ScanPlain(gw, t, Join(AllTokens(items) + ([Decimal(n)] + more), SEMI), 0x6d);
    OpenColorApplies(t.sgr, items, n, more);
  }

  lemma OpenColorApplies(have: seq<bytes>, items: seq<Item>, n: nat, more: seq<bytes>)
    requires AreItems(items) && IsOpenColor(n, more)
    ensures ApplySgr(have, Join(AllTokens(items) + ([Decimal(n)] + more), SEMI))
         == Kept(AllApplied(items, have), Join([Decimal(n)] + more, SEMI))
  {
    var first, open := AllTokens(items), [Decimal(n)] + more;
    var toks := first + open;
    TokensHoldNoSemicolon(items);
    SplitJoin(toks, SEMI);
    assert toks[|first|..] == open;
    OpenReaches(toks, |first|, n, more);
    LongListIsNotEmpty(toks, |first|);
    assert toks[0..] == toks;
    ItemsThen(have, toks, 0, items, open);
    OpenTaken(AllApplied(items, have), toks, |first|);
  }

  lemma OpenReaches(toks: seq<bytes>, i: nat, n: nat, more: seq<bytes>)
    requires i <= |toks| && toks[i..] == [Decimal(n)] + more && IsOpenColor(n, more)
    ensures i < |toks| && toks[i] != [] && OpensExtendedColor(toks[i]) && i + ExtendedLength(toks, i) >= |toks|
  {
    ColorNumber(n);
    assert |toks[i..]| == |toks| - i;
    assert toks[i] == toks[i..][0];
    if more != [] {
      assert toks[i + 1] == toks[i..][1] == more[0];
    }
  }

  lemma LongListIsNotEmpty(toks: seq<bytes>, i: nat)
    requires i < |toks| && toks[i] != []
    ensures Join(toks, SEMI) != []
  {
  }

  lemma OpenTaken(sgr: seq<bytes>, toks: seq<bytes>, i: nat)
    requires i < |toks| && OpensExtendedColor(toks[i]) && i + ExtendedLength(toks, i) >= |toks|
    ensures ApplyTokens(sgr, toks, i) == Kept(sgr, Join(toks[i..], SEMI))
  {
    assert toks[i..|toks|] == toks[i..];
  }

  lemma EmptyListResets(items: seq<Item>, sgr: seq<bytes>)
    requires items != [] && AreItems(items) && Join(AllTokens(items), SEMI) == []
    ensures AllApplied(items, sgr) == []
  {
    var toks := AllTokens(items);
    assert toks[0] == Tokens(items[0])[0];
    assert items[0] == Empty;
    if |items| > 1 {
      TwoItemsTwoTokens(items);
    }
  }

  lemma TwoItemsTwoTokens(items: seq<Item>)
    requires |items| > 1 && AreItems(items)
    ensures |AllTokens(items)| > 1
  {
    TokensHoldNoSemicolon(items[1..]);
  }

  /** `ESC [ m`, `ESC [ 0 m` and the list of one. */
  lemma SgrOfOne(gw: GlyphWidth, t: Shadow, n: Option<nat>)
    requires t.state.Ground? && |Printed(n)| <= 64 && (n.Some? ==> !TakesColor(n.value))
    ensures var sgr := if n == None || n == Some(0) then []
                       else if n.value > 0xffff_ffff then t.sgr
                       else if |t.sgr| < 64 then t.sgr + [Printed(n)]
                       else [Printed(n)];
            OnlyMoved(t.(sgr := sgr), Scan(gw, t, CsiSequence(Printed(n), 0x6d)), t.col)
  {
    var item := if n.Some? then Attribute(n.value, []) else Empty;
    assert AllTokens([item]) == Tokens(item) by { assert [item][1..] == []; }
    assert AllApplied([item], t.sgr) == Applied(item, t.sgr) by { assert [item][1..] == []; }
    assert Printed(n) + [] == Printed(n);
    PrintedIsPlain(n, []);
    assert Join(Tokens(item), SEMI) == Printed(n);
    SgrApplies(gw, t, [item]);
  }
}
