// What every reachable cursor shadow satisfies, and what its restore
// sequence does to another shadow of the same width.

module ShadowInvariant {
  import opened Wrappers
  import opened Bytes
  import opened ShadowModel

  /** Tokens that one pass of the SGR parser turns into exactly one segment. */
  ghost predicate SegmentTokens(toks: seq<bytes>) {
    && toks != []
    && SgrNumber(toks[0]).Some? && SgrNumber(toks[0]) != Some(0)
    && (|toks| == 1 || (OpensExtendedColor(toks[0]) && |toks| <= ExtendedLength(toks, 0)))
  }

  ghost predicate AllParameters(s: bytes) {
    forall i :: 0 <= i < |s| ==> IsParameter(s[i])
  }

  ghost predicate IsSegment(seg: bytes) {
    |seg| <= MAX_CSI_BYTES && AllParameters(seg) && SegmentTokens(Split(seg, SEMI))
  }

  ghost predicate SgrOk(sgr: seq<bytes>) {
    |sgr| <= MAX_SGR_SEGMENTS && forall i :: 0 <= i < |sgr| ==> IsSegment(sgr[i])
  }

  ghost predicate CursorOk(cols: nat, col: nat, sgr: seq<bytes>) {
    (if cols > 0 then col <= cols else col <= USIZE_MAX) && SgrOk(sgr)
  }

  ghost predicate Inv(s: Shadow) {
    && s.cols <= U16_MAX
    && CursorOk(s.cols, s.col, s.sgr)
    && (s.saved.Some? ==> CursorOk(s.cols, s.saved.value.col, s.saved.value.sgr))
    && |s.csi| <= MAX_CSI_BYTES
    && (forall i :: 0 <= i < |s.csi| ==> 0x20 <= s.csi[i] <= 0x3f)
    && (if s.utf8Need == 0 then s.utf8 == [] else 1 <= |s.utf8| && |s.utf8| + s.utf8Need <= 4)
  }

  lemma SliceIsSegment(params: bytes, i: nat, j: nat)
    requires |params| <= MAX_CSI_BYTES && AllParameters(params)
    requires i < j <= |Split(params, SEMI)|
    requires SegmentTokens(Split(params, SEMI)[i..j])
    ensures IsSegment(Join(Split(params, SEMI)[i..j], SEMI))
  {
    var toks := Split(params, SEMI);
    JoinSplit(params, SEMI);
    SplitJoin(toks[i..j], SEMI);
    JoinSlice(toks, i, j, SEMI);
    var seg := Join(toks[i..j], SEMI);
    forall k | 0 <= k < |seg|
      ensures IsParameter(seg[k])
    {
      assert seg[k] in params;
    }
  }

  lemma ExtendedTokens(toks: seq<bytes>, i: nat)
    requires i < |toks| && OpensExtendedColor(toks[i])
    ensures SegmentTokens(toks[i..Min(i + ExtendedLength(toks, i), |toks|)])
  {
    var end := Min(i + ExtendedLength(toks, i), |toks|);
    assert toks[i..end][0] == toks[i];
    if end - i > 1 {
      assert toks[i..end][1] == toks[i + 1];
    }
  }

  lemma ExtendedIsSegment(params: bytes, i: nat)
    requires |params| <= MAX_CSI_BYTES && AllParameters(params)
    requires i < |Split(params, SEMI)| && OpensExtendedColor(Split(params, SEMI)[i])
    ensures var toks := Split(params, SEMI);
            IsSegment(Join(toks[i..Min(i + ExtendedLength(toks, i), |toks|)], SEMI))
  {
    var toks := Split(params, SEMI);
    ExtendedTokens(toks, i);
    SliceIsSegment(params, i, Min(i + ExtendedLength(toks, i), |toks|));
  }

  lemma SingleIsSegment(params: bytes, i: nat)
    requires |params| <= MAX_CSI_BYTES && AllParameters(params)
    requires i < |Split(params, SEMI)|
    requires SgrNumber(Split(params, SEMI)[i]).Some? && SgrNumber(Split(params, SEMI)[i]) != Some(0)
    ensures IsSegment(Split(params, SEMI)[i])
  {
    var toks := Split(params, SEMI);
    assert toks[i..i + 1] == [toks[i]];
    SliceIsSegment(params, i, i + 1);
  }

  // The token loop, for any property of segments, so that no segment is looked into here.

  ghost predicate AllGood(good: bytes -> bool, sgr: seq<bytes>) {
    |sgr| <= MAX_SGR_SEGMENTS && forall i :: 0 <= i < |sgr| ==> good(sgr[i])
  }

  /** What the token at `i` makes the loop push, if anything, is good. */
  ghost predicate PushesGood(good: bytes -> bool, toks: seq<bytes>, i: nat)
    requires i < |toks|
  {
    if OpensExtendedColor(toks[i]) then good(Join(toks[i..Min(i + ExtendedLength(toks, i), |toks|)], SEMI))
    else SgrNumber(toks[i]) in {None, Some(0)} || good(toks[i])
  }

  lemma PushKeepsGood(good: bytes -> bool, sgr: seq<bytes>, seg: bytes)
    requires AllGood(good, sgr) && good(seg)
    ensures AllGood(good, PushSgr(sgr, seg))
  {
  }

  /** One turn of the loop: it moves on, and keeps the list good. */
  lemma ApplyTokenKeepsGood(good: bytes -> bool, sgr: seq<bytes>, toks: seq<bytes>, i: nat)
      returns (sgr': seq<bytes>, next: nat)
    requires i < |toks| && AllGood(good, sgr) && PushesGood(good, toks, i)
    ensures AllGood(good, sgr') && next > i
    ensures ApplyTokens(sgr, toks, i) == ApplyTokens(sgr', toks, next)
  {
    sgr', next := sgr, i + 1;
    if OpensExtendedColor(toks[i]) {
      next := Min(i + ExtendedLength(toks, i), |toks|);
      var seg := Join(toks[i..next], SEMI);
      PushKeepsGood(good, sgr, seg);
      sgr' := PushSgr(sgr, seg);
    } else if SgrNumber(toks[i]) == Some(0) {
      sgr' := [];
    } else if SgrNumber(toks[i]).Some? {
      PushKeepsGood(good, sgr, toks[i]);
      sgr' := PushSgr(sgr, toks[i]);
    }
  }

  lemma {:induction false} ApplyTokensKeepsGood(good: bytes -> bool, sgr: seq<bytes>, toks: seq<bytes>, i: nat)
    requires AllGood(good, sgr) && forall j :: 0 <= j < |toks| ==> PushesGood(good, toks, j)
    ensures AllGood(good, ApplyTokens(sgr, toks, i))
    decreases |toks| - i
  {
    if i >= |toks| {
    } else {
      var sgr', next := ApplyTokenKeepsGood(good, sgr, toks, i);
      ApplyTokensKeepsGood(good, sgr', toks, next);
    }
  }

  lemma TokenPushesSegment(params: bytes, i: nat)
    requires |params| <= MAX_CSI_BYTES && AllParameters(params) && i < |Split(params, SEMI)|
    ensures PushesGood(IsSegment, Split(params, SEMI), i)
  {
    var toks := Split(params, SEMI);
    if OpensExtendedColor(toks[i]) {
      ExtendedIsSegment(params, i);
    } else if SgrNumber(toks[i]) !in {None, Some(0)} {
      SingleIsSegment(params, i);
    }
  }

  lemma ApplyTokensKeepsSgrOk(sgr: seq<bytes>, params: bytes)
    requires |params| <= MAX_CSI_BYTES && AllParameters(params) && SgrOk(sgr)
    ensures SgrOk(ApplyTokens(sgr, Split(params, SEMI), 0))
  {
    var toks := Split(params, SEMI);
    forall i | 0 <= i < |toks|
      ensures PushesGood(IsSegment, toks, i)
    {
      TokenPushesSegment(params, i);
    }
    ApplyTokensKeepsGood(IsSegment, sgr, toks, 0);
  }

  lemma DispatchKeepsInv(s: Shadow, final: byte)
    requires Inv(s)
    ensures Inv(CsiDispatch(s, final))
  {
    if final == 'm' as int && forall i :: 0 <= i < |s.csi| ==> !IsIntermediate(s.csi[i]) {
      ApplyTokensKeepsSgrOk(s.sgr, s.csi);
    }
  }

  lemma PrintKeepsInv(gw: GlyphWidth, s: Shadow, b: byte)
    requires Inv(s)
    ensures Inv(Printable(gw, s, b))
  {
    assert Inv(s.(utf8 := [], utf8Need := 0));
  }

  lemma GroundKeepsInv(gw: GlyphWidth, s: Shadow, b: byte)
    requires Inv(s)
    ensures Inv(GroundByte(gw, s, b))
  {
    PrintKeepsInv(gw, s, b);
  }

  lemma EscKeepsInv(s: Shadow, b: byte)
    requires Inv(s)
    ensures Inv(EscByte(s, b))
  {
  }

  lemma CsiKeepsInv(s: Shadow, b: byte)
    requires Inv(s)
    ensures Inv(CsiByte(s, b))
  {
    if 0x40 <= b <= 0x7e {
      DispatchKeepsInv(s, b);
    }
  }

  lemma StateKeepsInv(s: Shadow)
    requires Inv(s)
    ensures forall state :: Inv(s.(state := state))
  {
  }

  /** No byte, in any state and for any glyph width, takes the shadow out of the invariant. */
  lemma StepKeepsInv(gw: GlyphWidth, s: Shadow, b: byte)
    requires Inv(s)
    ensures Inv(Step(gw, s, b)) && Step(gw, s, b).cols == s.cols
  {
    match s.state {
      case Ground => GroundKeepsInv(gw, s, b);
      case Esc => EscKeepsInv(s, b);
      case Csi => CsiKeepsInv(s, b);
      case _ => StateKeepsInv(s);
    }
  }

  lemma {:induction false} ScanKeepsInv(gw: GlyphWidth, s: Shadow, data: bytes)
    requires Inv(s)
    ensures Inv(Scan(gw, s, data)) && Scan(gw, s, data).cols == s.cols
    decreases data
  {
    if data == [] {
    } else {
      StepKeepsInv(gw, s, data[0]);
      ScanKeepsInv(gw, Step(gw, s, data[0]), data[1..]);
    }
  }
}

module ShadowRestore {
  import opened Wrappers
  import opened Bytes
  import opened ShadowModel
  import opened ShadowInvariant

  lemma SplitSingle(s: bytes, sep: byte)
    requires sep !in s
    ensures Split(s, sep) == [s]
  {
    SplitPiece(s, [], sep);
    assert s + [] == s;
  }

  /** A stored segment, sent back through the SGR parser, appends exactly itself. */
  lemma SegmentReparses(sgr: seq<bytes>, seg: bytes)
    requires IsSegment(seg)
    ensures seg != [] && !IsPrivateMarker(seg[0])
    ensures ApplySgr(sgr, seg) == PushSgr(sgr, seg)
  {
    var toks := Split(seg, SEMI);
    JoinSplit(seg, SEMI);
    var t := toks[0];
    JoinSplit(t, COLON);
    assert Split(t, COLON)[0][0] == t[0] && seg[0] == t[0];
    assert toks[0..|toks|] == toks;
    var pushed := PushSgr(sgr, seg);
    assert ApplyTokens(pushed, toks, |toks|) == pushed;
    if OpensExtendedColor(t) {
      assert Min(0 + ExtendedLength(toks, 0), |toks|) == |toks|;
    } else {
      assert toks == [t] && Join(toks, SEMI) == t;
    }
  }

  lemma ScanOne(gw: GlyphWidth, t: Shadow, b: byte)
    ensures Scan(gw, t, [b]) == Step(gw, t, b)
  {
    assert [b][1..] == [];
  }

  lemma {:induction false} ScanCsiBody(gw: GlyphWidth, t: Shadow, params: bytes)
    requires t.state.Csi? && |t.csi| + |params| <= MAX_CSI_BYTES
    requires forall i :: 0 <= i < |params| ==> 0x20 <= params[i] <= 0x3f
    ensures Scan(gw, t, params) == t.(csi := t.csi + params)
    decreases params
  {
    if params == [] {
      assert t.csi + params == t.csi;
    } else {
      ScanCsiBody(gw, t.(csi := t.csi + [params[0]]), params[1..]);
      assert t.csi + [params[0]] + params[1..] == t.csi + params;
    }
  }

  /** From `Ground`, a whole control sequence within the cap is dispatched with its exact parameters. */
  lemma ScanCsiSequence(gw: GlyphWidth, t: Shadow, params: bytes, final: byte)
    requires t.state.Ground? && |params| <= MAX_CSI_BYTES && 0x40 <= final <= 0x7e
    requires forall i :: 0 <= i < |params| ==> 0x20 <= params[i] <= 0x3f
    ensures Scan(gw, t, CsiSequence(params, final))
         == CsiDispatch(t.(state := Csi, csi := params, csiOverflow := false, utf8 := [], utf8Need := 0), final)
            .(state := Ground)
  {
    var entered := t.(state := Csi, csi := [], csiOverflow := false, utf8 := [], utf8Need := 0);
    assert Scan(gw, t, [ESC, 0x5b]) == entered by {
      assert [ESC, 0x5b][1..] == [0x5b];
      assert [0x5b][1..] == [];
      assert Step(gw, Step(gw, t, ESC), 0x5b) == entered;
      assert Scan(gw, t, [ESC, 0x5b]) == Scan(gw, Step(gw, t, ESC), [0x5b]);
      assert Scan(gw, Step(gw, t, ESC), [0x5b]) == Scan(gw, entered, []);
    }
    ScanCsiBody(gw, entered, params);
    assert [] + params == params;
    var collected := entered.(csi := params);
    ScanOne(gw, collected, final);
    ScanAppend(gw, t, [ESC, 0x5b] + params, [final]);
    ScanAppend(gw, t, [ESC, 0x5b], params);
  }

  /** `t` at rest in `Ground` with nothing half-parsed, holding the attributes `sgr`. */
  ghost function Settled(t: Shadow, sgr: seq<bytes>): Shadow {
    t.(state := Ground, sgr := sgr, utf8 := [], utf8Need := 0, csi := [], csiOverflow := false)
  }

  lemma ScanSegment(gw: GlyphWidth, t: Shadow, sgr: seq<bytes>, seg: bytes, rest: bytes)
    requires IsSegment(seg)
    ensures Scan(gw, Settled(t, sgr), CsiSequence(seg, 0x6d) + rest)
         == Scan(gw, Settled(t, PushSgr(sgr, seg)), rest)
  {
    SegmentReparses(sgr, seg);
    ScanCsiSequence(gw, Settled(t, sgr), seg, 0x6d);
    ScanAppend(gw, Settled(t, sgr), CsiSequence(seg, 0x6d), rest);
  }

  lemma SgrOkRest(sgr: seq<bytes>)
    requires SgrOk(sgr) && sgr != []
    ensures IsSegment(sgr[0]) && SgrOk(sgr[1..])
  {
  }

  lemma {:induction false} ScanSegments(gw: GlyphWidth, t: Shadow, have: seq<bytes>, sgr: seq<bytes>)
    requires SgrOk(sgr) && |have| + |sgr| <= MAX_SGR_SEGMENTS
    ensures Scan(gw, Settled(t, have), SegmentSequences(sgr)) == Settled(t, have + sgr)
    decreases sgr
  {
    if sgr == [] {
      assert have + sgr == have;
    } else {
      var seg, rest := sgr[0], sgr[1..];
      assert have + [seg] + rest == have + sgr;
      SgrOkRest(sgr);
      ScanSegment(gw, t, have, seg, SegmentSequences(rest));
      ScanSegments(gw, t, have + [seg], rest);
    }
  }

  lemma DecimalParam(n: nat)
    requires n <= USIZE_MAX
    ensures NthParam(Decimal(n), 0, 1) == n
    ensures |Decimal(n)| <= 20 && AllDigits(Decimal(n))
  {
    SplitSingle(Decimal(n), SEMI);
    SplitSingle(Decimal(n), COLON);
    ParseDecimal(n, USIZE_MAX);
    UsizeDecimalLength(n);
  }

  /** The one column the restore sequence cannot name: unknown width and the largest `usize`. */
  predicate ColumnOverflows(s: Shadow) {
    s.cols == 0 && s.col == USIZE_MAX
  }

  lemma ColumnArithmetic(s: Shadow)
    requires Inv(s) && ClampCol(s.cols, s.col) != 0
    ensures ClampCol(s.cols, SaturatingSub(WrappingAdd(ClampCol(s.cols, s.col), 1), 1))
         == if ColumnOverflows(s) then 0 else ClampCol(s.cols, s.col)
  {
  }

  lemma DispatchColumn(t: Shadow, n: nat)
    requires n <= USIZE_MAX && t.csi == Decimal(n)
    ensures CsiDispatch(t, 0x47) == t.(csi := [], col := ClampCol(t.cols, SaturatingSub(n, 1)))
  {
    DecimalParam(n);
    assert forall i :: 0 <= i < |t.csi| ==> IsDigit(t.csi[i]);
  }

  lemma ScanMove(gw: GlyphWidth, s: Shadow, t: Shadow)
    requires Inv(s) && t.state.Ground? && t.cols == s.cols
    ensures var r := Scan(gw, t, MoveSequence(s.cols, s.col));
            r == t.(col := if ColumnOverflows(s) then 0 else ClampCol(s.cols, s.col),
                    utf8 := [], utf8Need := 0, csi := r.csi, csiOverflow := r.csiOverflow)
  {
    var target := ClampCol(s.cols, s.col);
    if target == 0 {
      ScanOne(gw, t, CR);
    } else {
      var n := WrappingAdd(target, 1);
      DecimalParam(n);
      ScanCsiSequence(gw, t, Decimal(n), 0x47);
      DispatchColumn(t.(state := Csi, csi := Decimal(n), csiOverflow := false, utf8 := [], utf8Need := 0), n);
      ColumnArithmetic(s);
    }
  }

  lemma ScanReset(gw: GlyphWidth, t: Shadow)
    requires t.state.Ground?
    ensures Scan(gw, t, CsiSequence([0x30], 0x6d)) == Settled(t, [])
  {
    ScanCsiSequence(gw, t, [0x30], 0x6d);
    SplitSingle([0x30], SEMI);
    SplitSingle([0x30], COLON);
    assert DigitsValue([0x30]) == 0 by { assert [0x30][..0] == []; }
    assert SgrNumber([0x30]) == Some(0);
    assert ApplyTokens(t.sgr, [[0x30]], 0) == ApplyTokens([], [[0x30]], 1) == [];
  }

  /**
   * The round trip, on the whole state: any shadow of the same width at rest
   * in `Ground`, fed the restore sequence of `s`, keeps its own DECAWM and
   * DECSC state and takes over `s`'s attributes and clamped column.
   */
  lemma RestoreRoundTrip(gw: GlyphWidth, s: Shadow, t: Shadow)
    requires Inv(s) && t.state.Ground? && t.cols == s.cols
    ensures Scan(gw, t, RestoreSequence(s))
         == t.(col := if ColumnOverflows(s) then 0 else ClampCol(s.cols, s.col), sgr := s.sgr,
               utf8 := [], utf8Need := 0, csi := [], csiOverflow := false)
  {
    var move, reset := MoveSequence(s.cols, s.col), CsiSequence([0x30], 0x6d);
    var moved := Scan(gw, t, move);
    ScanMove(gw, s, t);
    ScanReset(gw, moved);
    ScanSegments(gw, moved, [], s.sgr);
    assert [] + s.sgr == s.sgr;
    ScanAppend(gw, t, move + reset, SegmentSequences(s.sgr));
    ScanAppend(gw, t, move, reset);
  }

  /**
   * What the module promises, over every stream: after any bytes, the restore
   * sequence re-creates the attribute list and, exactly when the column is
   * nameable, the column clamped to the last real one.
   */
  lemma ReachableRestore(gw: GlyphWidth, cols: nat, seen: bytes, t: Shadow)
    requires cols <= U16_MAX && t.state.Ground? && t.cols == cols
    ensures var s := Scan(gw, New(cols), seen);
            var r := Scan(gw, t, RestoreSequence(s));
            && r.state.Ground? && r.sgr == s.sgr
            && (r.col == ClampCol(cols, s.col) <==> !ColumnOverflows(s))
  {
    ScanKeepsInv(gw, New(cols), seen);
    RestoreRoundTrip(gw, Scan(gw, New(cols), seen), t);
  }

  lemma DispatchForward(t: Shadow, n: nat)
    requires n <= USIZE_MAX && t.csi == Decimal(n)
    ensures CsiDispatch(t, 0x43) == t.(csi := [], col := ClampCol(t.cols, SaturatingAdd(t.col, Max(n, 1))))
  {
    DecimalParam(n);
    assert forall i :: 0 <= i < |t.csi| ==> IsDigit(t.csi[i]);
  }

  /** CUF from column 0 with the width unknown. */
  lemma ScanForward(gw: GlyphWidth, n: nat)
    requires 1 <= n <= USIZE_MAX
    ensures var s := Scan(gw, New(0), CsiSequence(Decimal(n), 0x43)); s.cols == 0 && s.col == n
  {
    DecimalParam(n);
    ScanCsiSequence(gw, New(0), Decimal(n), 0x43);
    DispatchForward(New(0).(state := Csi, csi := Decimal(n)), n);
  }

  /** The overflowing column is reachable: one CUF with the largest parameter, width unknown. */
  lemma OverflowingColumnIsReachable(gw: GlyphWidth)
    ensures ColumnOverflows(Scan(gw, New(0), CsiSequence(Decimal(USIZE_MAX), 0x43)))
  {
    ScanForward(gw, USIZE_MAX);
  }

  // ---------------------------------------------------------------------
  // After the restore
  // ---------------------------------------------------------------------

  /** Equal up to leftovers of an earlier control sequence, which the next one clears. */
  ghost predicate SameTerminal(a: Shadow, b: Shadow) {
    && a.cols == b.cols && a.col == b.col && a.autowrap == b.autowrap
    && a.sgr == b.sgr && a.saved == b.saved && a.state == b.state
    && a.utf8 == b.utf8 && a.utf8Need == b.utf8Need
    && (a.state.Csi? ==> a.csi == b.csi && a.csiOverflow == b.csiOverflow)
  }

  lemma PrintFreshSame(a: Shadow, b: Shadow, x: byte)
    requires SameTerminal(a, b)
    ensures SameTerminal(PrintFresh(a, x), PrintFresh(b, x))
  {
  }

  lemma PrintSame(gw: GlyphWidth, a: Shadow, b: Shadow, x: byte)
    requires SameTerminal(a, b)
    ensures SameTerminal(Printable(gw, a, x), Printable(gw, b, x))
  {
    if a.utf8Need == 0 {
      PrintFreshSame(a, b, x);
    } else if !(0x80 <= x < 0xc0) {
      PrintFreshSame(a.(utf8 := [], utf8Need := 0), b.(utf8 := [], utf8Need := 0), x);
    }
  }

  lemma GroundSame(gw: GlyphWidth, a: Shadow, b: Shadow, x: byte)
    requires SameTerminal(a, b) && a.state.Ground?
    ensures SameTerminal(GroundByte(gw, a, x), GroundByte(gw, b, x))
  {
    if !(x < 0x20 || x == 0x7f) {
      PrintSame(gw, a, b, x);
    }
  }

  lemma EscSame(a: Shadow, b: Shadow, x: byte)
    requires SameTerminal(a, b) && a.state.Esc?
    ensures SameTerminal(EscByte(a, x), EscByte(b, x))
  {
  }

  lemma CsiSame(a: Shadow, b: Shadow, x: byte)
    requires SameTerminal(a, b) && a.state.Csi?
    ensures SameTerminal(CsiByte(a, x), CsiByte(b, x))
  {
    assert a == b;
  }

  lemma SameTerminalStep(gw: GlyphWidth, a: Shadow, b: Shadow, x: byte)
    requires SameTerminal(a, b)
    ensures SameTerminal(Step(gw, a, x), Step(gw, b, x))
  {
    match a.state {
      case Ground => GroundSame(gw, a, b, x);
      case Esc => EscSame(a, b, x);
      case Csi => CsiSame(a, b, x);
      case _ =>
    }
  }

  lemma {:induction false} SameTerminalScan(gw: GlyphWidth, a: Shadow, b: Shadow, data: bytes)
    requires SameTerminal(a, b)
    ensures SameTerminal(Scan(gw, a, data), Scan(gw, b, data))
    decreases data
  {
    if data == [] {
    } else {
      SameTerminalStep(gw, a, b, data[0]);
      SameTerminalScan(gw, Step(gw, a, data[0]), Step(gw, b, data[0]), data[1..]);
    }
  }

  /**
   * A terminal that agrees on DECAWM and DECSC and is restored from a shadow
   * at rest, not in the wrap-pending position, then tracks every further
   * stream as if it had rendered all the earlier bytes itself.
   */
  lemma RestoredTerminalFollows(gw: GlyphWidth, s: Shadow, t: Shadow, future: bytes)
    requires Inv(s) && s.state.Ground? && s.utf8Need == 0 && !ColumnOverflows(s)
    requires s.cols > 0 ==> s.col < s.cols
    requires t.state.Ground? && t.cols == s.cols && t.autowrap == s.autowrap && t.saved == s.saved
    ensures SameTerminal(Scan(gw, t, RestoreSequence(s) + future), Scan(gw, s, future))
  {
    RestoreRoundTrip(gw, s, t);
    ScanAppend(gw, t, RestoreSequence(s), future);
    SameTerminalScan(gw, Scan(gw, t, RestoreSequence(s)), s, future);
  }

  /** What can be seen of two terminals: where they write next, and how. */
  ghost predicate Alike(a: Shadow, b: Shadow) {
    a.col == b.col && a.sgr == b.sgr
  }

  /** The two are alike whatever comes. */
  ghost predicate AlwaysAlike(gw: GlyphWidth, a: Shadow, b: Shadow) {
    forall future :: Alike(Scan(gw, a, future), Scan(gw, b, future))
  }

  /** What a source and a terminal must have in common for the restore to leave nothing behind that shows. */
  ghost predicate CanFollow(s: Shadow, t: Shadow) {
    && s.state.Ground? && t.saved == s.saved && (s.cols == 0 || t.autowrap == s.autowrap)
    && !ColumnOverflows(s) && (s.cols > 0 ==> s.col < s.cols)
  }

  // With the width unknown nothing ever wraps, so DECAWM does not show.

  ghost function WithWrap(s: Shadow, autowrap: bool): Shadow {
    s.(autowrap := autowrap)
  }

  lemma FreshWithoutWidth(s: Shadow, v: bool, x: byte)
    requires s.cols == 0
    ensures PrintFresh(WithWrap(s, v), x) == WithWrap(PrintFresh(s, x), v)
  {
  }

  lemma PrintWithoutWidth(gw: GlyphWidth, s: Shadow, v: bool, x: byte)
    requires s.cols == 0
    ensures Printable(gw, WithWrap(s, v), x) == WithWrap(Printable(gw, s, x), v)
  {
    if s.utf8Need == 0 {
      FreshWithoutWidth(s, v, x);
    } else if !(0x80 <= x < 0xc0) {
      FreshWithoutWidth(s.(utf8 := [], utf8Need := 0), v, x);
    }
  }

  lemma EscWithoutWidth(s: Shadow, v: bool, x: byte)
    requires s.cols == 0
    ensures EscByte(WithWrap(s, v), x) == WithWrap(EscByte(s, x), EscByte(WithWrap(s, v), x).autowrap)
  {
  }

  lemma CsiWithoutWidth(s: Shadow, v: bool, x: byte)
    requires s.cols == 0
    ensures CsiByte(WithWrap(s, v), x) == WithWrap(CsiByte(s, x), CsiByte(WithWrap(s, v), x).autowrap)
  {
  }

  lemma StepWithoutWidth(gw: GlyphWidth, s: Shadow, v: bool, x: byte)
    requires s.cols == 0
    ensures Step(gw, WithWrap(s, v), x) == WithWrap(Step(gw, s, x), Step(gw, WithWrap(s, v), x).autowrap)
    ensures Step(gw, s, x).cols == 0
  {
    match s.state {
      case Ground => PrintWithoutWidth(gw, s, v, x);
      case Esc => EscWithoutWidth(s, v, x);
      case Csi => CsiWithoutWidth(s, v, x);
      case _ =>
    }
  }

  lemma {:induction false} ScanWithoutWidth(gw: GlyphWidth, s: Shadow, v: bool, data: bytes)
    requires s.cols == 0
    ensures Alike(Scan(gw, WithWrap(s, v), data), Scan(gw, s, data))
    decreases data
  {
    if data == [] {
    } else {
      StepWithoutWidth(gw, s, v, data[0]);
      ScanWithoutWidth(gw, Step(gw, s, data[0]), Step(gw, WithWrap(s, v), data[0]).autowrap, data[1..]);
    }
  }

  lemma FollowsWhenItCan(gw: GlyphWidth, s: Shadow, t: Shadow)
    requires Inv(s) && s.utf8Need == 0 && t.state.Ground? && t.cols == s.cols && CanFollow(s, t)
    ensures AlwaysAlike(gw, Scan(gw, t, RestoreSequence(s)), s)
  {
    var restored := Scan(gw, t, RestoreSequence(s));
    RestoreRoundTrip(gw, s, t);
    forall future
      ensures Alike(Scan(gw, restored, future), Scan(gw, s, future))
    {
      SameTerminalScan(gw, WithWrap(restored, s.autowrap), s, future);
      if s.autowrap != t.autowrap {
        ScanWithoutWidth(gw, restored, s.autowrap, future);
      } else {
        assert WithWrap(restored, s.autowrap) == restored;
      }
    }
  }

  // ---------------------------------------------------------------------
  // How each difference shows
  // ---------------------------------------------------------------------

  /** `future` tells the two apart. */
  ghost predicate TellsApart(gw: GlyphWidth, a: Shadow, b: Shadow, future: bytes) {
    !Alike(Scan(gw, a, future), Scan(gw, b, future))
  }

  lemma TellsApartAfter(gw: GlyphWidth, a: Shadow, b: Shadow, first: bytes, future: bytes)
    requires TellsApart(gw, Scan(gw, a, first), Scan(gw, b, first), future)
    ensures TellsApart(gw, a, b, first + future)
  {
    ScanAppend(gw, a, first, future);
    ScanAppend(gw, b, first, future);
  }

  /** Two terminals with nothing half-read. */
  ghost predicate AtRest(a: Shadow) {
    a.utf8Need == 0 && a.utf8 == []
  }

  /** In the middle of a sequence a carriage return or a tab goes unheard. */
  lemma MidSequenceShows(gw: GlyphWidth, a: Shadow, b: Shadow) returns (future: bytes)
    requires a.state.Ground? && !b.state.Ground? && a.cols == b.cols && a.cols != 1 && a.col == b.col
    ensures TellsApart(gw, a, b, future)
  {
    var x := if a.col != 0 then CR else TAB;
    future := [x];
    ScanOne(gw, a, x);
    ScanOne(gw, b, x);
  }

  lemma MoveTo(gw: GlyphWidth, a: Shadow, col: nat)
    requires a.state.Ground? && col < USIZE_MAX && (a.cols > 0 ==> col < a.cols)
    ensures var r := Scan(gw, a, CsiSequence(Decimal(col + 1), 0x47));
            r.state.Ground? && r.col == col && r.sgr == a.sgr && r.saved == a.saved && r.cols == a.cols
  {
    DecimalParam(col + 1);
    ScanCsiSequence(gw, a, Decimal(col + 1), 0x47);
    DispatchColumn(a.(state := Csi, csi := Decimal(col + 1), csiOverflow := false, utf8 := [], utf8Need := 0), col + 1);
  }

  lemma ScanRecall(gw: GlyphWidth, a: Shadow)
    requires a.state.Ground?
    ensures var r := Scan(gw, a, [ESC, 0x38]);
            match a.saved
            case Some(c) => r.col == c.col && r.sgr == c.sgr
            case None => r.col == a.col && r.sgr == a.sgr
  {
    ScanOne(gw, a, ESC);
    ScanOne(gw, Step(gw, a, ESC), 0x38);
    ScanAppend(gw, a, [ESC], [0x38]);
    assert [ESC] + [0x38] == [ESC, 0x38];
  }

  /** Away from the column the one saved cursor names, recalling it shows whether there is one. */
  lemma SavedCursorShows(gw: GlyphWidth, a: Shadow, b: Shadow) returns (future: bytes)
    requires a.state.Ground? && b.state.Ground? && a.cols == b.cols && a.cols != 1 && a.saved != b.saved
    ensures TellsApart(gw, a, b, future)
  {
    var named := if a.saved.Some? then a.saved.value.col else b.saved.value.col;
    var col := if named == 0 then 1 else 0;
    var move := CsiSequence(Decimal(col + 1), 0x47);
    MoveTo(gw, a, col);
    MoveTo(gw, b, col);
    ScanRecall(gw, Scan(gw, a, move));
    ScanRecall(gw, Scan(gw, b, move));
    TellsApartAfter(gw, a, b, move, [ESC, 0x38]);
    future := move + [ESC, 0x38];
  }

  function Letters(n: nat): bytes {
    if n == 0 then [] else Letters(n - 1) + [0x41]
  }

  /** Narrow glyphs from the left margin, with and without DECAWM, up to one row. */
  lemma {:induction false} ScanLetters(gw: GlyphWidth, a: Shadow, n: nat)
    requires a.state.Ground? && AtRest(a) && a.col == 0 && 2 <= a.cols && n <= a.cols
    ensures Scan(gw, a, Letters(n)) == a.(col := if a.autowrap then n else Min(n, a.cols - 1))
    decreases n
  {
    if n == 0 {
    } else {
      ScanLetters(gw, a, n - 1);
      ScanAppend(gw, a, Letters(n - 1), [0x41]);
      ScanOne(gw, Scan(gw, a, Letters(n - 1)), 0x41);
    }
  }

  /** A row of glyphs shows DECAWM: with it the column rests past the margin, without it on the last column. */
  lemma AutowrapShows(gw: GlyphWidth, a: Shadow, b: Shadow) returns (future: bytes)
    requires a.state.Ground? && b.state.Ground? && AtRest(a) && AtRest(b)
    requires a.cols == b.cols && 2 <= a.cols && a.autowrap != b.autowrap
    ensures TellsApart(gw, a, b, future)
  {
    ScanOne(gw, a, CR);
    ScanOne(gw, b, CR);
    ScanLetters(gw, a.(col := 0), a.cols);
    ScanLetters(gw, b.(col := 0), a.cols);
    TellsApartAfter(gw, a, b, [CR], Letters(a.cols));
    future := [CR] + Letters(a.cols);
  }

  /** When the conditions fail, some stream shows it. */
  lemma DifferenceShows(gw: GlyphWidth, s: Shadow, t: Shadow) returns (future: bytes)
    requires Inv(s) && s.utf8Need == 0 && s.cols != 1 && t.state.Ground? && t.cols == s.cols && !CanFollow(s, t)
    ensures TellsApart(gw, Scan(gw, t, RestoreSequence(s)), s, future)
  {
    var restored := Scan(gw, t, RestoreSequence(s));
    RestoreRoundTrip(gw, s, t);
    if restored.col != s.col {
      future := [];
    } else if !s.state.Ground? {
      future := MidSequenceShows(gw, restored, s);
    } else if restored.saved != s.saved {
      future := SavedCursorShows(gw, restored, s);
    } else {
      future := AutowrapShows(gw, restored, s);
    }
  }

  /**
   * Every one of those conditions is needed, and shows: for a width other
   * than one and a source not in the middle of a character, column and
   * attributes agree after every further stream exactly when they hold.
   */
  lemma RestoredTerminalFollowsExactly(gw: GlyphWidth, s: Shadow, t: Shadow)
    requires Inv(s) && s.utf8Need == 0 && s.cols != 1 && t.state.Ground? && t.cols == s.cols
    ensures AlwaysAlike(gw, Scan(gw, t, RestoreSequence(s)), s) <==> CanFollow(s, t)
  {
    if CanFollow(s, t) {
      FollowsWhenItCan(gw, s, t);
    } else {
      var future := DifferenceShows(gw, s, t);
    }
  }

  /** The wrap-pending position does show: after one more narrow glyph the two stand in different columns. */
  lemma WrapPendingDiverges(gw: GlyphWidth, s: Shadow, t: Shadow, x: byte)
    requires Inv(s) && s.state.Ground? && s.utf8Need == 0 && s.autowrap && s.cols > 1 && s.col == s.cols
    requires t.state.Ground? && t.cols == s.cols && t.autowrap
    requires 0x20 <= x <= 0x7e
    ensures Scan(gw, s, [x]).col == 1 && Scan(gw, t, RestoreSequence(s) + [x]).col == s.cols
  {
    RestoreRoundTrip(gw, s, t);
    ScanAppend(gw, t, RestoreSequence(s), [x]);
    ScanOne(gw, s, x);
    ScanOne(gw, Scan(gw, t, RestoreSequence(s)), x);
  }

  // ---------------------------------------------------------------------
  // Wrapping
  // ---------------------------------------------------------------------

  /** With a known width the column never passes the margin, on any stream and any glyph widths. */
  lemma ColumnStaysOnScreen(gw: GlyphWidth, cols: nat, seen: bytes)
    requires 0 < cols <= U16_MAX
    ensures var s := Scan(gw, New(cols), seen);
            s.col <= cols && (s.saved.Some? ==> s.saved.value.col <= cols)
  {
    ScanKeepsInv(gw, New(cols), seen);
  }

  /** Continuation bytes a lead byte announces. */
  function Announced(lead: byte): nat {
    if 0xc2 <= lead <= 0xdf then 1 else if 0xe0 <= lead <= 0xef then 2 else if 0xf0 <= lead <= 0xf4 then 3 else 0
  }

  /** One glyph: an ASCII or a stray byte, or a lead byte with the continuations it announces. */
  ghost predicate IsGlyph(g: bytes) {
    && |g| >= 1 && |g| == 1 + Announced(g[0]) && 0x20 <= g[0] && g[0] != 0x7f
    && forall i :: 1 <= i < |g| ==> 0x80 <= g[i] < 0xc0
  }

  /** Columns a glyph takes: one for a lone byte, what the width tables say for a character. */
  function GlyphColumns(gw: GlyphWidth, g: bytes): nat {
    if |g| == 1 then 1 else gw(g)
  }

  ghost predicate IsNarrow(gw: GlyphWidth, g: bytes) {
    IsGlyph(g) && GlyphColumns(gw, g) == 1
  }

  /** Column after `n` narrow glyphs from the left margin. */
  function FilledCol(n: nat, cols: nat): nat
    requires cols > 0
  {
    if n == 0 then 0 else (n - 1) % cols + 1
  }

  lemma FilledNext(n: nat, cols: nat)
    requires cols > 0
    ensures FilledCol(n + 1, cols) == (if FilledCol(n, cols) == cols then 1 else FilledCol(n, cols) + 1)
    ensures FilledCol(n, cols) <= cols
  {
    if n > 0 {
      WrapArithmetic(n, cols);
    }
  }

  /** Ready to print: nothing half-read, DECAWM on, a known width. */
  ghost predicate Printing(s: Shadow) {
    s.state.Ground? && s.utf8Need == 0 && s.utf8 == [] && s.autowrap && 0 < s.cols && s.col <= s.cols
  }

  lemma {:induction false} ReadContinuation(gw: GlyphWidth, s: Shadow, g: bytes, k: nat)
    requires s.state.Ground? && AtRest(s) && IsGlyph(g) && |g| > 1 && 1 <= k < |g|
    ensures Scan(gw, s, g[..k]) == s.(utf8 := g[..k], utf8Need := |g| - k)
    decreases k
  {
    if k == 1 {
      assert g[..1] == [g[0]];
      ScanOne(gw, s, g[0]);
    } else {
      ReadContinuation(gw, s, g, k - 1);
      assert g[..k] == g[..k - 1] + [g[k - 1]];
      ScanAppend(gw, s, g[..k - 1], [g[k - 1]]);
      ScanOne(gw, Scan(gw, s, g[..k - 1]), g[k - 1]);
    }
  }

  /** A glyph only moves the column, by as much as it is wide. */
  lemma PrintGlyph(gw: GlyphWidth, s: Shadow, g: bytes)
    requires s.state.Ground? && AtRest(s) && IsGlyph(g)
    ensures Scan(gw, s, g) == Advance(s, GlyphColumns(gw, g))
  {
    if |g| == 1 {
      assert g == [g[0]];
      ScanOne(gw, s, g[0]);
    } else {
      var k := |g| - 1;
      ReadContinuation(gw, s, g, k);
      assert g == g[..k] + [g[k]];
      ScanAppend(gw, s, g[..k], [g[k]]);
      ScanOne(gw, Scan(gw, s, g[..k]), g[k]);
    }
  }

  lemma PrintNarrow(gw: GlyphWidth, s: Shadow, g: bytes)
    requires Printing(s) && IsNarrow(gw, g)
    ensures Scan(gw, s, g) == s.(col := if s.col == s.cols then 1 else s.col + 1)
  {
    PrintGlyph(gw, s, g);
  }

  /** Printing narrow glyphs from the left margin fills rows of `cols`, resting past the last column. */
  lemma {:induction false} NarrowTextWraps(gw: GlyphWidth, s: Shadow, glyphs: seq<bytes>)
    requires Printing(s) && s.col == 0
    requires forall i :: 0 <= i < |glyphs| ==> IsNarrow(gw, glyphs[i])
    ensures Scan(gw, s, Flatten(glyphs)) == s.(col := FilledCol(|glyphs|, s.cols))
    decreases glyphs
  {
    if glyphs == [] {
    } else {
      var init, last := glyphs[..|glyphs| - 1], glyphs[|glyphs| - 1];
      NarrowTextWraps(gw, s, init);
      assert init + [last] == glyphs;
      FlattenAppend(init, [last]);
      FlattenOne(last);
      ScanAppend(gw, s, Flatten(init), last);
      FilledNext(|init|, s.cols);
      PrintNarrow(gw, s.(col := FilledCol(|init|, s.cols)), last);
    }
  }

  lemma WrapArithmetic(n: nat, cols: nat)
    requires n > 0 && cols > 0
    ensures n % cols == if (n - 1) % cols + 1 == cols then 0 else (n - 1) % cols + 1
  {
    var q, r := (n - 1) / cols, (n - 1) % cols;
    if r + 1 == cols {
      assert n == (q + 1) * cols;
      ModUnique(n, cols, q + 1, 0);
    } else {
      ModUnique(n, cols, q, r + 1);
    }
  }

  lemma MulAtLeast(a: nat, d: nat)
    requires a >= 1
    ensures a * d >= d
  {
  }

  lemma ModUnique(n: nat, d: nat, q: nat, r: nat)
    requires r < d && n == q * d + r
    ensures n % d == r
  {
    var k, m := n / d, n % d;
    assert n == k * d + m && 0 <= m < d;
    if k > q {
      MulAtLeast(k - q, d);
    } else if k < q {
      MulAtLeast(q - k, d);
    }
  }
}
