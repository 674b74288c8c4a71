// The cursor-state emulator of src/line_shadow.rs: the column and the SGR
// attributes a terminal would have after a byte stream.  `ShadowModel` gives
// the machine as functions on a value; `LineShadow` is the in-place machine,
// proved to compute exactly those functions.

module ShadowModel {
  import opened Wrappers
  import opened Bytes

  const MAX_SGR_SEGMENTS: nat := 64
  const MAX_CSI_BYTES: nat := 64

  datatype State = Ground | Esc | EscIntermediate | Csi | StringBody | StringEsc

  datatype Cursor = Cursor(col: nat, sgr: seq<bytes>)

  /** Column count of the glyph a completed multibyte sequence decodes to; the Unicode tables. */
  type GlyphWidth = bytes -> nat

  datatype Shadow = Shadow(
    cols: nat,
    col: nat,
    autowrap: bool,
    sgr: seq<bytes>,
    saved: Option<Cursor>,
    state: State,
    csi: bytes,
    csiOverflow: bool,
    utf8: bytes,       // the bytes of the multibyte character in progress
    utf8Need: nat)

  function New(cols: nat): Shadow {
    Shadow(cols, 0, true, [], None, Ground, [], false, [], 0)
  }

  // ---------------------------------------------------------------------
  // Columns and printing
  // ---------------------------------------------------------------------

  function ClampCol(cols: nat, col: nat): nat {
    if cols > 0 then Min(col, cols - 1) else col
  }

  function AdvanceCol(cols: nat, autowrap: bool, col: nat, w: nat): nat {
    if w == 0 then col
    else if cols == 0 then WrappingAdd(col, w)
    else if autowrap then Min((if col + w > cols then 0 else col) + w, cols)
    else Min(col + w, cols - 1)
  }

  function Advance(s: Shadow, w: nat): Shadow {
    s.(col := AdvanceCol(s.cols, s.autowrap, s.col, w))
  }

  function PrintFresh(s: Shadow, b: byte): Shadow {
    if 0x20 <= b <= 0x7e then Advance(s, 1)
    else if 0xc2 <= b <= 0xdf then s.(utf8 := [b], utf8Need := 1)
    else if 0xe0 <= b <= 0xef then s.(utf8 := [b], utf8Need := 2)
    else if 0xf0 <= b <= 0xf4 then s.(utf8 := [b], utf8Need := 3)
    else Advance(s, 1)
  }

  function Printable(gw: GlyphWidth, s: Shadow, b: byte): Shadow {
    if s.utf8Need > 0 then
      if 0x80 <= b < 0xc0 then
        var buffered := s.utf8 + [b];
        if s.utf8Need == 1 then Advance(s.(utf8 := [], utf8Need := 0), gw(buffered))
        else s.(utf8 := buffered, utf8Need := s.utf8Need - 1)
      else PrintFresh(s.(utf8 := [], utf8Need := 0), b)
    else PrintFresh(s, b)
  }

  function NextTabStop(cols: nat, col: nat): nat {
    var next := WrappingAdd(col / 8 * 8, 8);
    ClampCol(cols, next)
  }

  function GroundByte(gw: GlyphWidth, s: Shadow, b: byte): Shadow {
    if b < 0x20 || b == 0x7f then
      var s := s.(utf8 := [], utf8Need := 0);
      if b == ESC then s.(state := Esc)
      else if b == CR then s.(col := 0)
      else if b == BS then s.(col := SaturatingSub(s.col, 1))
      else if b == TAB then s.(col := NextTabStop(s.cols, s.col))
      else s
    else Printable(gw, s, b)
  }

  // ---------------------------------------------------------------------
  // Escape and control sequences
  // ---------------------------------------------------------------------

  function EscByte(s: Shadow, b: byte): Shadow {
    var s := s.(state := Ground);
    if b == '[' as int then s.(csi := [], csiOverflow := false, state := Csi)
    else if b == ']' as int || b == 'P' as int || b == 'X' as int || b == '^' as int || b == '_' as int then
      s.(state := StringBody)
    else if b == '7' as int then s.(saved := Some(Cursor(s.col, s.sgr)))
    else if b == '8' as int then
      (match s.saved
       case Some(c) => s.(col := c.col, sgr := c.sgr)
       case None => s)
    else if b == 'c' as int then s.(col := 0, autowrap := true, sgr := [], saved := None)
    else if b == 'E' as int then s.(col := 0)
    else if b == '(' as int || b == ')' as int || b == '*' as int || b == '+' as int
            || b == '#' as int || b == '%' as int || b == ' ' as int then s.(state := EscIntermediate)
    else s
  }

  function CsiByte(s: Shadow, b: byte): Shadow {
    if 0x20 <= b <= 0x3f then
      if |s.csi| < MAX_CSI_BYTES then s.(csi := s.csi + [b]) else s.(csiOverflow := true)
    else if 0x40 <= b <= 0x7e then
      (if !s.csiOverflow then CsiDispatch(s, b) else s).(state := Ground)
    else if b == ESC then s.(state := Esc)
    else s
  }

  predicate IsIntermediate(b: byte) { 0x20 <= b <= 0x2f }

  predicate IsPrivateMarker(b: byte) { 0x3c <= b <= 0x3f }

  predicate IsParameter(b: byte) { 0x30 <= b <= 0x3f }

  /** `idx`-th semicolon-separated number, ignoring colon subparameters, or the default. */
  function NthParam(params: bytes, idx: nat, default: nat): nat {
    var fields := Split(params, SEMI);
    if idx >= |fields| || fields[idx] == [] then default
    else
      match ParseUint(Split(fields[idx], COLON)[0], USIZE_MAX)
      case Some(n) => n
      case None => default
  }

  function CsiDispatch(s: Shadow, final: byte): Shadow {
    var raw := s.csi;
    var s := s.(csi := []);
    if exists i :: 0 <= i < |raw| && IsIntermediate(raw[i]) then s
    else if raw != [] && IsPrivateMarker(raw[0]) then
      if (final == 'h' as int || final == 'l' as int) && raw[0] == '?' as int && [0x37] in Split(raw[1..], SEMI)
      then s.(autowrap := final == 'h' as int)
      else s
    else if final == 'm' as int then s.(sgr := ApplySgr(s.sgr, raw))
    else if final == 'G' as int || final == '`' as int then
      s.(col := ClampCol(s.cols, SaturatingSub(NthParam(raw, 0, 1), 1)))
    else if final == 'C' as int || final == 'a' as int then
      s.(col := ClampCol(s.cols, SaturatingAdd(s.col, Max(NthParam(raw, 0, 1), 1))))
    else if final == 'D' as int then
      s.(col := SaturatingSub(s.col, Max(NthParam(raw, 0, 1), 1)))
    else if final == 'H' as int || final == 'f' as int then
      s.(col := ClampCol(s.cols, SaturatingSub(NthParam(raw, 1, 1), 1)))
    else if final == 'E' as int || final == 'F' as int then s.(col := 0)
    else s
  }

  // ---------------------------------------------------------------------
  // SGR segments
  // ---------------------------------------------------------------------

  function PushSgr(sgr: seq<bytes>, seg: bytes): seq<bytes> {
    if |sgr| >= MAX_SGR_SEGMENTS then [seg] else sgr + [seg]
  }

  function SgrNumber(t: bytes): Option<nat> {
    if t == [] then Some(0) else ParseUint(Split(t, COLON)[0], U32_MAX)
  }

  /** The token opens an extended color written with semicolons. */
  predicate OpensExtendedColor(t: bytes) {
    SgrNumber(t) in {Some(38), Some(48), Some(58)} && COLON !in t
  }

  /** How many tokens the extended color at `i` takes. */
  function ExtendedLength(toks: seq<bytes>, i: nat): nat
    requires i < |toks|
  {
    if i + 1 < |toks| && toks[i + 1] == [0x35] then 3
    else if i + 1 < |toks| && toks[i + 1] == [0x32] then 5
    else 1
  }

  function ApplyTokens(sgr: seq<bytes>, toks: seq<bytes>, i: nat): seq<bytes>
    decreases |toks| - i
  {
    if i >= |toks| then sgr
    else if OpensExtendedColor(toks[i]) then
      var end := Min(i + ExtendedLength(toks, i), |toks|);
      ApplyTokens(PushSgr(sgr, Join(toks[i..end], SEMI)), toks, end)
    else
      match SgrNumber(toks[i])
      case None => ApplyTokens(sgr, toks, i + 1)
      case Some(n) => ApplyTokens(if n == 0 then [] else PushSgr(sgr, toks[i]), toks, i + 1)
  }

  function ApplySgr(sgr: seq<bytes>, params: bytes): seq<bytes> {
    if params == [] then [] else ApplyTokens(sgr, Split(params, SEMI), 0)
  }

  // ---------------------------------------------------------------------
  // The machine
  // ---------------------------------------------------------------------

  function Step(gw: GlyphWidth, s: Shadow, b: byte): Shadow {
    match s.state
    case Ground => GroundByte(gw, s, b)
    case Esc => EscByte(s, b)
    case EscIntermediate => s.(state := Ground)
    case Csi => CsiByte(s, b)
    case StringBody =>
      if b == BEL then s.(state := Ground) else if b == ESC then s.(state := StringEsc) else s
    case StringEsc => s.(state := if b == BACKSLASH then Ground else StringBody)
  }

  function Scan(gw: GlyphWidth, s: Shadow, data: bytes): Shadow
    decreases data
  {
    if data == [] then s else Scan(gw, Step(gw, s, data[0]), data[1..])
  }

  lemma {:induction false} ScanAppend(gw: GlyphWidth, s: Shadow, a: bytes, b: bytes)
    ensures Scan(gw, s, a + b) == Scan(gw, Scan(gw, s, a), b)
    decreases a
  {
    if a == [] {
      assert a + b == b;
    } else {
      assert (a + b)[1..] == a[1..] + b;
      ScanAppend(gw, Step(gw, s, a[0]), a[1..], b);
    }
  }

  // ---------------------------------------------------------------------
  // The restore sequence
  // ---------------------------------------------------------------------

  function CsiSequence(params: bytes, final: byte): bytes {
    [ESC, 0x5b] + params + [final]
  }

  function SegmentSequences(sgr: seq<bytes>): bytes {
    if sgr == [] then [] else CsiSequence(sgr[0], 0x6d) + SegmentSequences(sgr[1..])
  }

  function MoveSequence(cols: nat, col: nat): bytes {
    if ClampCol(cols, col) == 0 then [CR]
    else CsiSequence(Decimal(WrappingAdd(ClampCol(cols, col), 1)), 0x47)
  }

  function RestoreSequence(s: Shadow): bytes {
    MoveSequence(s.cols, s.col) + CsiSequence([0x30], 0x6d) + SegmentSequences(s.sgr)
  }
}

module LineShadows {
  import opened Wrappers
  import opened Bytes
  import opened ShadowModel
  import opened ShadowInvariant

  class LineShadow {
    const cols: nat
    const glyphWidth: GlyphWidth
    var col: nat
    var autowrap: bool
    var sgr: seq<bytes>
    var saved: Option<Cursor>
    var state: State
    var csi: bytes
    var csiOverflow: bool
    const utf8: array<byte>
    var utf8Len: nat
    var utf8Need: nat

    ghost predicate Valid()
      reads this, utf8
    {
      utf8.Length == 4 && utf8Len <= 4 && Inv(Model())
    }

    ghost function Model(): Shadow
      reads this, utf8
      requires utf8Len <= utf8.Length
    {
      Shadow(cols, col, autowrap, sgr, saved, state, csi, csiOverflow, utf8[..utf8Len], utf8Need)
    }

    constructor (cols: nat, glyphWidth: GlyphWidth)
      requires cols <= U16_MAX
      ensures Valid() && fresh(utf8)
      ensures Model() == New(cols) && this.glyphWidth == glyphWidth
    {
      this.cols, this.glyphWidth := cols, glyphWidth;
      col, autowrap, sgr, saved, state := 0, true, [], None, Ground;
      csi, csiOverflow := [], false;
      utf8, utf8Len, utf8Need := new byte[4], 0, 0;
    }

    method ScanBytes(data: bytes)
      requires Valid()
      modifies this, utf8
      ensures Valid() && Model() == Scan(glyphWidth, old(Model()), data)
    {
      for i := 0 to |data|
        invariant Valid()
        invariant Scan(glyphWidth, Model(), data[i..]) == Scan(glyphWidth, old(Model()), data)
      {
        assert data[i..][1..] == data[i + 1..];
        StepByte(data[i]);
      }
    }

    method StepByte(b: byte)
      requires Valid()
      modifies this, utf8
      ensures Valid() && Model() == Step(glyphWidth, old(Model()), b)
    {
      StepKeepsInv(glyphWidth, Model(), b);
      match state {
        case Ground => GroundStep(b);
        case Esc => EscStep(b);
        case EscIntermediate => state := Ground;
        case Csi => CsiStep(b);
        case StringBody =>
          if b == BEL {
            state := Ground;
          } else if b == ESC {
            state := StringEsc;
          }
        case StringEsc =>
          state := if b == BACKSLASH then Ground else StringBody;
      }
    }

    method GroundStep(b: byte)
      requires Valid()
      modifies this, utf8
      ensures utf8Len <= 4 && Model() == GroundByte(glyphWidth, old(Model()), b)
    {
      if b < 0x20 || b == 0x7f {
        utf8Need, utf8Len := 0, 0;
      }
      if b == ESC {
        state := Esc;
      } else if b == CR {
        col := 0;
      } else if b == BS {
        col := SaturatingSub(col, 1);
      } else if b == TAB {
        var nextStop := WrappingAdd(col / 8 * 8, 8);
        col := if cols > 0 then Min(nextStop, cols - 1) else nextStop;
      } else if b == LF || b == 0x0b || b == 0x0c {
      } else if b < 0x20 || b == 0x7f {
      } else {
        PrintStep(b);
      }
    }

    method PrintStep(b: byte)
      requires Valid()
      modifies this, utf8
      ensures utf8Len <= 4 && Model() == Printable(glyphWidth, old(Model()), b)
    {
      if utf8Need > 0 {
        if 0x80 <= b < 0xc0 {
          utf8[utf8Len] := b;
          utf8Len := utf8Len + 1;
          utf8Need := utf8Need - 1;
          assert utf8[..utf8Len] == old(utf8[..utf8Len]) + [b];
          if utf8Need == 0 {
            var w := glyphWidth(utf8[..utf8Len]);
            utf8Len := 0;
            AdvanceBy(w);
          }
          return;
        }
        utf8Need, utf8Len := 0, 0;
      }
      if 0x20 <= b <= 0x7e {
        AdvanceBy(1);
      } else if 0xc2 <= b <= 0xdf {
        StartUtf8(b, 1);
      } else if 0xe0 <= b <= 0xef {
        StartUtf8(b, 2);
      } else if 0xf0 <= b <= 0xf4 {
        StartUtf8(b, 3);
      } else {
        AdvanceBy(1);
      }
    }

    method StartUtf8(b: byte, need: nat)
      requires utf8.Length == 4
      modifies this`utf8Len, this`utf8Need, utf8
      ensures utf8Len == 1 && utf8[..1] == [b] && utf8Need == need
    {
      utf8[0] := b;
      utf8Len := 1;
      utf8Need := need;
    }

    method AdvanceBy(w: nat)
      modifies this`col
      ensures col == AdvanceCol(cols, autowrap, old(col), w)
    {
      if w == 0 {
        return;
      }
      if cols == 0 {
        col := WrappingAdd(col, w);
      } else if autowrap {
        if col + w > cols {
          col := 0;
        }
        col := Min(col + w, cols);
      } else {
        col := Min(col + w, cols - 1);
      }
    }

    method EscStep(b: byte)
      requires Valid()
      modifies this
      ensures utf8Len <= 4 && Model() == EscByte(old(Model()), b)
    {
      state := Ground;
      if b == '[' as int {
        csi, csiOverflow, state := [], false, Csi;
      } else if b == ']' as int || b == 'P' as int || b == 'X' as int || b == '^' as int || b == '_' as int {
        state := StringBody;
      } else if b == '7' as int {
        saved := Some(Cursor(col, sgr));
      } else if b == '8' as int {
        if saved.Some? {
          col, sgr := saved.value.col, saved.value.sgr;
        }
      } else if b == 'c' as int {
        col, autowrap, sgr, saved := 0, true, [], None;
      } else if b == 'E' as int {
        col := 0;
      } else if b == '(' as int || b == ')' as int || b == '*' as int || b == '+' as int
                || b == '#' as int || b == '%' as int || b == ' ' as int {
        state := EscIntermediate;
      }
    }

    method CsiStep(b: byte)
      requires Valid()
      modifies this
      ensures utf8Len <= 4 && Model() == CsiByte(old(Model()), b)
    {
      if 0x20 <= b <= 0x3f {
        if |csi| < MAX_CSI_BYTES {
          csi := csi + [b];
        } else {
          csiOverflow := true;
        }
      } else if 0x40 <= b <= 0x7e {
        if !csiOverflow {
          Dispatch(b);
        }
        state := Ground;
      } else if b == ESC {
        state := Esc;
      }
    }

    method Dispatch(final: byte)
      requires Valid()
      modifies this
      ensures utf8Len <= 4 && Model() == CsiDispatch(old(Model()), final)
    {
      var raw := csi;
      csi := [];
      if exists i :: 0 <= i < |raw| && IsIntermediate(raw[i]) {
        return;
      }
      if raw != [] && IsPrivateMarker(raw[0]) {
        if (final == 'h' as int || final == 'l' as int) && raw[0] == '?' as int && [0x37] in Split(raw[1..], SEMI) {
          autowrap := final == 'h' as int;
        }
        return;
      }
      if final == 'm' as int {
        ApplyParams(raw);
      } else if final == 'G' as int || final == '`' as int {
        col := ClampCol(cols, SaturatingSub(NthParam(raw, 0, 1), 1));
      } else if final == 'C' as int || final == 'a' as int {
        var target := SaturatingAdd(col, Max(NthParam(raw, 0, 1), 1));
        col := if cols > 0 then Min(target, cols - 1) else target;
      } else if final == 'D' as int {
        col := SaturatingSub(col, Max(NthParam(raw, 0, 1), 1));
      } else if final == 'H' as int || final == 'f' as int {
        col := ClampCol(cols, SaturatingSub(NthParam(raw, 1, 1), 1));
      } else if final == 'E' as int || final == 'F' as int {
        col := 0;
      }
    }

    method ApplyParams(params: bytes)
      modifies this`sgr
      ensures sgr == ApplySgr(old(sgr), params)
    {
      if params == [] {
        sgr := [];
        return;
      }
      var toks := Split(params, SEMI);
      var i := 0;
      while i < |toks|
        invariant ApplyTokens(sgr, toks, i) == ApplyTokens(old(sgr), toks, 0)
      {
        var t := toks[i];
        var n := SgrNumber(t);
        if n == Some(0) {
          sgr := [];
          i := i + 1;
        } else if n in {Some(38), Some(48), Some(58)} && COLON !in t {
          var take :=
            if i + 1 < |toks| && toks[i + 1] == [0x35] then 3
            else if i + 1 < |toks| && toks[i + 1] == [0x32] then 5 else 1;
          var end := Min(i + take, |toks|);
          PushSegment(Join(toks[i..end], SEMI));
          i := end;
        } else if n.Some? {
          PushSegment(t);
          i := i + 1;
        } else {
          i := i + 1;
        }
      }
    }

    method PushSegment(seg: bytes)
      modifies this`sgr
      ensures sgr == PushSgr(old(sgr), seg)
    {
      if |sgr| >= MAX_SGR_SEGMENTS {
        sgr := [];
      }
      sgr := sgr + [seg];
    }

    method Restore() returns (s: bytes)
      requires Valid()
      ensures s == RestoreSequence(Model())
    {
      var target := if cols > 0 then Min(col, cols - 1) else col;
      if target == 0 {
        s := [CR];
      } else {
        s := CsiSequence(Decimal(WrappingAdd(target, 1)), 0x47);
      }
      assert s == MoveSequence(cols, col);
      s := s + CsiSequence([0x30], 0x6d);
      var segments := WriteSegments(sgr);
      s := s + segments;
    }

    static method WriteSegments(sgr: seq<bytes>) returns (s: bytes)
      ensures s == SegmentSequences(sgr)
    {
      s := [];
      for i := 0 to |sgr|
        invariant s + SegmentSequences(sgr[i..]) == SegmentSequences(sgr)
      {
        assert sgr[i..][1..] == sgr[i + 1..];
        var segment := CsiSequence(sgr[i], 0x6d);
        assert s + (segment + SegmentSequences(sgr[i + 1..])) == (s + segment) + SegmentSequences(sgr[i + 1..]);
        s := s + segment;
      }
    }
  }
}
