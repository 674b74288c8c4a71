// The replay filter of src/query_filter.rs.  `QueryGrammar` says, without a
// machine, which byte strings are terminal queries and what a stream is
// without them; `FilterModel` is the source's machine as functions;
// `QueryFilters` is the in-place machine.

module QueryGrammar {
  import opened Bytes

  const MAX_CSI_BYTES: nat := 64
  const MAX_STRING_BYTES: nat := 4096

  /** XTWINOPS reports: 11, 13, 14, 15, 16, 18, 19, 20, 21. */
  const XTWINOPS_REPORTS: set<bytes> := {
    [0x31, 0x31], [0x31, 0x33], [0x31, 0x34], [0x31, 0x35], [0x31, 0x36],
    [0x31, 0x38], [0x31, 0x39], [0x32, 0x30], [0x32, 0x31]
  }

  datatype StringKind = Osc | Dcs | Apc

  predicate StartsWith(s: bytes, prefix: bytes) {
    prefix <= s
  }

  /** Length of the longest prefix without a byte in `lo..=hi`. */
  function ParamsEnd(inner: bytes): (n: nat)
    ensures n <= |inner|
    ensures forall i :: 0 <= i < n ==> !(0x20 <= inner[i] <= 0x2f)
    ensures n < |inner| ==> 0x20 <= inner[n] <= 0x2f
  {
    if inner == [] || 0x20 <= inner[0] <= 0x2f then 0 else 1 + ParamsEnd(inner[1..])
  }

  function StripMarker(params: bytes): bytes {
    if params != [] && (params[0] == '?' as int || params[0] == '>' as int || params[0] == '=' as int)
    then params[1..] else params
  }

  /** Does `CSI <inner> <final>` make the terminal reply? */
  predicate IsCsiQuery(inner: bytes, final: byte) {
    var end := ParamsEnd(inner);
    var params, intermediates := inner[..end], inner[end..];
    var fields := Split(StripMarker(params), SEMI);
    var second := if |fields| > 1 then fields[1] else [];
    || (final == 'c' as int && intermediates == [])
    || (final == 'n' as int && intermediates == [])
    || (final == 'p' as int && intermediates == [0x24])
    || (final == 'q' as int && intermediates == [] && StartsWith(params, [0x3e]))
    || (final == 'u' as int && intermediates == [] && params == [0x3f])
    || (final == 't' as int && intermediates == [] && fields[0] in XTWINOPS_REPORTS)
    || (final == 'S' as int && intermediates == [] && StartsWith(params, [0x3f])
        && (second == [0x31] || second == [0x34]))
  }

  /** Position of the first `sep`, or the length. */
  function FirstIndex(s: bytes, sep: byte): (n: nat)
    ensures n <= |s| && sep !in s[..n]
    ensures n < |s| ==> s[n] == sep
  {
    if s == [] || s[0] == sep then 0 else 1 + FirstIndex(s[1..], sep)
  }

  /** kitty graphics control data asking for a reply: one field is exactly `a=q`. */
  predicate KittyIsQuery(control: bytes) {
    [0x61, 0x3d, 0x71] in Split(control, COMMA)
  }

  predicate IsDcsQueryBody(body: bytes) {
    StartsWith(body, [0x24, 0x71]) || StartsWith(body, [0x2b, 0x71])
  }

  function KittyControl(body: bytes): bytes {
    if body != [] && body[0] == 'G' as int then body[1..] else []
  }

  /** Does the complete string with this body make the terminal reply? */
  predicate IsStringQuery(kind: StringKind, body: bytes) {
    match kind
    case Osc => var fields := Split(body, SEMI); fields[|fields| - 1] == [0x3f]
    case Dcs => IsDcsQueryBody(body)
    case Apc => var control := KittyControl(body); KittyIsQuery(control[..FirstIndex(control, SEMI)])
  }

  function KindByte(kind: StringKind): byte {
    match kind
    case Osc => ']' as int
    case Dcs => 'P' as int
    case Apc => '_' as int
  }

  // ---------------------------------------------------------------------
  // The queries, as whole byte strings
  // ---------------------------------------------------------------------

  ghost predicate IsDecid(q: bytes) {
    q == [ESC, 0x5a]
  }

  ghost predicate AllCsiInner(s: bytes) {
    forall i :: 0 <= i < |s| ==> 0x20 <= s[i] <= 0x3f
  }

  ghost predicate IsCsiQueryString(q: bytes) {
    && 3 <= |q| <= 64
    && q[0] == ESC && q[1] == '[' as int
    && AllCsiInner(q[2..|q| - 1])
    && 0x40 <= q[|q| - 1] <= 0x7e
    && IsCsiQuery(q[2..|q| - 1], q[|q| - 1])
  }

  ghost predicate Plain(s: bytes) {
    forall i :: 0 <= i < |s| ==> s[i] != ESC && s[i] != BEL
  }

  /** `ESC kind body` closed by BEL or ST. */
  function StringBytes(kind: StringKind, body: bytes, terminator: bytes): bytes {
    [ESC, KindByte(kind)] + body + terminator
  }

  ghost predicate IsTerminator(t: bytes) {
    t == [BEL] || t == [ESC, BACKSLASH]
  }

  ghost predicate IsStringQueryString(q: bytes) {
    exists kind, body, terminator ::
      && q == StringBytes(kind, body, terminator)
      && IsTerminator(terminator) && Plain(body) && 2 + |body| <= 4096
      && IsStringQuery(kind, body)
  }

  ghost predicate IsQuery(q: bytes) {
    IsDecid(q) || IsCsiQueryString(q) || IsStringQueryString(q)
  }

  ghost predicate QueryStarts(s: bytes, n: nat) {
    2 <= n <= |s| && IsQuery(s[..n])
  }

  /**
   * The stream without its queries: at each position, a query that starts
   * there goes, and otherwise one byte stays.
   */
  ghost function Scrubbed(s: bytes): bytes
    decreases s
  {
    if s == [] then []
    else if exists n: nat :: QueryStarts(s, n) then
      var n: nat :| QueryStarts(s, n);
      Scrubbed(s[n..])
    else [s[0]] + Scrubbed(s[1..])
  }

  // ---------------------------------------------------------------------
  // Queries cannot overlap
  // ---------------------------------------------------------------------

  lemma QueryShape(q: bytes)
    requires IsQuery(q)
    ensures |q| >= 2 && q[0] == ESC
    ensures q[1] in {0x5a, 0x5b, 0x5d, 0x50, 0x5f}
  {
  }

  lemma CsiQueryAt(s: bytes, n: nat)
    requires QueryStarts(s, n) && s[1] == '[' as int
    ensures 3 <= n <= MAX_CSI_BYTES && AllCsiInner(s[2..n - 1]) && 0x40 <= s[n - 1] <= 0x7e
    ensures IsCsiQuery(s[2..n - 1], s[n - 1])
    ensures forall i :: 2 <= i < n - 1 ==> 0x20 <= s[i] <= 0x3f
  {
    var q := s[..n];
    assert q[1] == s[1];
    assert IsCsiQueryString(q);
    assert q[2..|q| - 1] == s[2..n - 1];
    assert forall i :: 2 <= i < n - 1 ==> s[i] == s[2..n - 1][i - 2];
  }

  /** Where the body of a string query ends. */
  lemma StringQueryShape(q: bytes, kind: StringKind) returns (m: nat)
    requires IsStringQueryString(q) && |q| >= 2 && q[1] == KindByte(kind)
    ensures 2 <= m < |q| && m <= MAX_STRING_BYTES && Plain(q[2..m]) && IsStringQuery(kind, q[2..m])
    ensures q[m..] == [BEL] || q[m..] == [ESC, BACKSLASH]
  {
    var k, body, terminator :|
      && q == StringBytes(k, body, terminator)
      && IsTerminator(terminator) && Plain(body) && 2 + |body| <= MAX_STRING_BYTES
      && IsStringQuery(k, body);
    assert q[1] == KindByte(k);
    m := 2 + |body|;
    assert q[2..m] == body;
    assert q[m..] == terminator;
  }

  lemma StringQueryAt(s: bytes, n: nat, kind: StringKind) returns (m: nat)
    requires QueryStarts(s, n) && s[1] == KindByte(kind)
    ensures 2 <= m < |s| && m <= MAX_STRING_BYTES && Plain(s[2..m]) && IsStringQuery(kind, s[2..m])
    ensures forall i :: 2 <= i < m ==> s[i] != ESC && s[i] != BEL
    ensures (s[m] == BEL && n == m + 1) || (s[m] == ESC && n == m + 2 && n <= |s| && s[m + 1] == BACKSLASH)
  {
    var q := s[..n];
    assert q[1] == s[1];
    assert IsStringQueryString(q);
    m := StringQueryShape(q, kind);
    SliceOfTake(s, n, 2, m);
    forall i | 2 <= i < m
      ensures s[i] != ESC && s[i] != BEL
    {
      assert s[i] == s[2..m][i - 2];
    }
    assert s[m] == q[m..][0];
    if |q[m..]| == 2 {
      assert s[m + 1] == q[m..][1];
    }
  }

  lemma CsiQueryEndsFirst(s: bytes, n: nat, n': nat)
    requires QueryStarts(s, n) && QueryStarts(s, n') && s[1] == '[' as int
    ensures n' <= n
  {
    CsiQueryAt(s, n);
    CsiQueryAt(s, n');
  }

  lemma StringQueryEndsFirst(s: bytes, n: nat, n': nat, kind: StringKind)
    requires QueryStarts(s, n) && QueryStarts(s, n') && s[1] == KindByte(kind)
    ensures n' <= n
  {
    var m := StringQueryAt(s, n, kind);
    var m' := StringQueryAt(s, n', kind);
  }

  /** No query is a proper prefix of another, so a position starts at most one. */
  lemma QueryLengthUnique(s: bytes, n: nat, n': nat)
    requires QueryStarts(s, n) && QueryStarts(s, n')
    ensures n == n'
  {
    QueryShape(s[..n]);
    QueryShape(s[..n']);
    assert s[..n][1] == s[1] == s[..n'][1];
    if s[1] == 0x5a {
      assert IsDecid(s[..n]) && IsDecid(s[..n']);
    } else if s[1] == 0x5b {
      CsiQueryEndsFirst(s, n, n');
      CsiQueryEndsFirst(s, n', n);
    } else {
      var kind := if s[1] == 0x5d then Osc else if s[1] == 0x50 then Dcs else Apc;
      StringQueryEndsFirst(s, n, n', kind);
      StringQueryEndsFirst(s, n', n, kind);
    }
  }

  lemma ScrubbedSkip(s: bytes, n: nat)
    requires QueryStarts(s, n)
    ensures Scrubbed(s) == Scrubbed(s[n..])
  {
    var n': nat :| QueryStarts(s, n') && Scrubbed(s) == Scrubbed(s[n'..]);
    QueryLengthUnique(s, n, n');
  }

  ghost predicate NoQueryStartsBefore(s: bytes, k: nat) {
    forall i: nat, n: nat :: i < k && i <= |s| ==> !QueryStarts(s[i..], n)
  }

  lemma {:induction false} ScrubbedKeep(p: bytes, rest: bytes)
    requires NoQueryStartsBefore(p + rest, |p|)
    ensures Scrubbed(p + rest) == p + Scrubbed(rest)
    decreases p
  {
    var s := p + rest;
    if p == [] {
      assert s == rest;
    } else {
      assert s[0..] == s;
      assert forall n: nat :: !QueryStarts(s, n);
      assert s[1..] == p[1..] + rest;
      forall i: nat, n: nat | i < |p| - 1 && i <= |s[1..]|
        ensures !QueryStarts(s[1..][i..], n)
      {
        assert s[1..][i..] == s[i + 1..];
      }
      ScrubbedKeep(p[1..], rest);
      assert [s[0]] + (p[1..] + Scrubbed(rest)) == p + Scrubbed(rest);
    }
  }
}

module FilterModel {
  import opened Wrappers
  import opened Bytes
  import opened QueryGrammar

  datatype State = Ground | Esc | Csi | StringBody | StringEsc

  datatype Filter = Filter(state: State, kind: Option<StringKind>, pending: bytes)

  datatype Output = Output(filter: Filter, out: bytes)

  const FRESH := Filter(Ground, None, [])

  function FlushRaw(f: Filter): Output {
    Output(FRESH, f.pending)
  }

  function Hold(f: Filter, b: byte, next: State): Output {
    Output(f.(pending := f.pending + [b], state := next), [])
  }

  /** Body without its BEL or `ESC \` terminator. */
  function StripTerminator(body: bytes): bytes {
    if IsSuffix([ESC, BACKSLASH], body) then body[..|body| - 2]
    else if IsSuffix([BEL], body) then body[..|body| - 1]
    else body
  }

  /** False once the body held so far can no longer become a query. */
  predicate MayBeQuery(kind: StringKind, body: bytes) {
    match kind
    case Osc => true
    case Dcs => |body| < 2 || IsDcsQueryBody(body)
    case Apc =>
      body == [] ||
      (body[0] == 'G' as int &&
       var end := FirstIndex(body, SEMI);
       (end < |body| && end >= 1 ==> KittyIsQuery(body[1..end])))
  }

  function StepGround(f: Filter, b: byte): Output {
    if b == ESC then Hold(f, b, Esc) else Output(f, [b])
  }

  function FlushThenGround(f: Filter, b: byte): Output {
    var flushed := FlushRaw(f);
    var next := StepGround(flushed.filter, b);
    Output(next.filter, flushed.out + next.out)
  }

  function StepEsc(f: Filter, b: byte): Output {
    if b == '[' as int then Hold(f, b, Csi)
    else if b == ']' as int then Hold(f.(kind := Some(Osc)), b, StringBody)
    else if b == 'P' as int then Hold(f.(kind := Some(Dcs)), b, StringBody)
    else if b == '_' as int then Hold(f.(kind := Some(Apc)), b, StringBody)
    else if b == 'Z' as int then Output(FRESH, [])
    else FlushThenGround(f, b)
  }

  function StepCsi(f: Filter, b: byte): Output
    requires |f.pending| >= 2
  {
    if |f.pending| >= MAX_CSI_BYTES then FlushThenGround(f, b)
    else if 0x20 <= b <= 0x3f then Hold(f, b, Csi)
    else if 0x40 <= b <= 0x7e then
      if IsCsiQuery(f.pending[2..], b) then Output(FRESH, []) else FlushRaw(f.(pending := f.pending + [b]))
    else FlushThenGround(f, b)
  }

  function EndString(f: Filter): Output
    requires |f.pending| >= 2
  {
    var body := StripTerminator(f.pending[2..]);
    if f.kind.Some? && IsStringQuery(f.kind.value, body) then Output(FRESH, []) else FlushRaw(f)
  }

  /** With `early` off, string bodies are always held until they end or grow too long. */
  function StepStringBody(early: bool, f: Filter, b: byte): Output
    requires |f.pending| >= 2
  {
    var held := f.(pending := f.pending + [b]);
    if b == ESC then Output(held.(state := StringEsc), [])
    else if b == BEL then EndString(held)
    else if |held.pending| > MAX_STRING_BYTES
            || (early && f.kind.Some? && !MayBeQuery(f.kind.value, held.pending[2..])) then FlushRaw(held)
    else Output(held, [])
  }

  function StepStringEsc(f: Filter, b: byte): Output
    requires |f.pending| >= 2
  {
    if b == BACKSLASH then EndString(f.(pending := f.pending + [b]))
    else
      var body, esc := f.pending[..|f.pending| - 1], f.pending[|f.pending| - 1];
      var next := StepEsc(Filter(Esc, None, [esc]), b);
      Output(next.filter, body + next.out)
  }

  function Step(early: bool, f: Filter, b: byte): Output
    requires Inv(early, f)
  {
    match f.state
    case Ground => StepGround(f, b)
    case Esc => StepEsc(f, b)
    case Csi => StepCsi(f, b)
    case StringBody => StepStringBody(early, f, b)
    case StringEsc => StepStringEsc(f, b)
  }

  // ---------------------------------------------------------------------
  // The invariant: what is held back is an undecided sequence
  // ---------------------------------------------------------------------

  ghost predicate HoldsString(early: bool, f: Filter, held: bytes) {
    && f.kind.Some? && |held| <= MAX_STRING_BYTES && StringHeld(f.kind.value, held)
    && (early ==> MayBeQuery(f.kind.value, held[2..]))
  }

  ghost predicate Inv(early: bool, f: Filter) {
    match f.state
    case Ground => f.pending == [] && f.kind.None?
    case Esc => f.pending == [ESC] && f.kind.None?
    case Csi => f.kind.None? && |f.pending| <= MAX_CSI_BYTES && CsiHeld(f.pending)
    case StringBody => HoldsString(early, f, f.pending)
    case StringEsc =>
      && |f.pending| > 2 && f.pending[|f.pending| - 1] == ESC
      && HoldsString(early, f, f.pending[..|f.pending| - 1])
  }

  lemma HeldBackBound(early: bool, f: Filter)
    requires Inv(early, f)
    ensures |f.pending| <= 4097
  {
  }

  // ---------------------------------------------------------------------
  // Why held bytes may be given up
  // ---------------------------------------------------------------------

  /** Inside a given-up sequence no query can start: an ESC there is followed by a backslash. */
  ghost predicate NoInnerStart(p: bytes) {
    forall i :: 1 <= i < |p| && p[i] == ESC ==> i + 1 < |p| && p[i + 1] == BACKSLASH
  }

  lemma KeepGivenUp(p: bytes, rest: bytes)
    requires NoInnerStart(p) && forall n: nat :: !QueryStarts(p + rest, n)
    ensures Scrubbed(p + rest) == p + Scrubbed(rest)
  {
    var s := p + rest;
    forall i: nat, n: nat | i < |p| && i <= |s|
      ensures !QueryStarts(s[i..], n)
    {
      if i == 0 {
        assert s[0..] == s;
      } else if QueryStarts(s[i..], n) {
        assert s[i..][0] == p[i] && (i + 1 < |p| ==> s[i..][1] == p[i + 1]);
        QueryShape(s[i..][..n]);
        assert false;
      }
    }
    ScrubbedKeep(p, rest);
  }

  lemma EscGivesUp(rest: bytes)
    requires rest == [] || rest[0] !in {0x5a, 0x5b, 0x5d, 0x50, 0x5f}
    ensures Scrubbed([ESC] + rest) == [ESC] + Scrubbed(rest)
  {
    var s := [ESC] + rest;
    forall n: nat
      ensures !QueryStarts(s, n)
    {
      if QueryStarts(s, n) {
        assert s[1] == rest[0];
        QueryShape(s[..n]);
        assert false;
      }
    }
    KeepGivenUp([ESC], rest);
  }

  ghost predicate CsiHeld(p: bytes) {
    |p| >= 2 && p[0] == ESC && p[1] == '[' as int && AllCsiInner(p[2..])
  }

  /** A query that starts with the held control sequence ends past it, at the first final byte. */
  lemma CsiEndsAfter(p: bytes, rest: bytes, n: nat)
    requires CsiHeld(p) && QueryStarts(p + rest, n)
    ensures |p| < MAX_CSI_BYTES && rest != [] && 0x20 <= rest[0] <= 0x7e
    ensures rest[0] >= 0x40 ==> IsCsiQuery(p[2..], rest[0])
  {
    var s := p + rest;
    CsiQueryAt(s, n);
    assert forall i :: 2 <= i < |p| ==> s[i] == p[2..][i - 2];
    assert n - 1 >= |p|;
    assert s[|p|] == rest[0];
    if n - 1 == |p| {
      assert s[2..n - 1] == p[2..];
    }
  }

  lemma CsiGivesUp(p: bytes, rest: bytes)
    requires CsiHeld(p)
    requires |p| >= MAX_CSI_BYTES || rest == [] || !(0x20 <= rest[0] <= 0x7e)
    ensures Scrubbed(p + rest) == p + Scrubbed(rest)
  {
    forall n: nat
      ensures !QueryStarts(p + rest, n)
    {
      if QueryStarts(p + rest, n) {
        CsiEndsAfter(p, rest, n);
        assert false;
      }
    }
    InnerHasNoEsc(p);
    KeepGivenUp(p, rest);
  }

  lemma InnerHasNoEsc(p: bytes)
    requires |p| >= 2 && p[1] != ESC && (AllCsiInner(p[2..]) || Plain(p[2..]))
    ensures NoInnerStart(p)
  {
    forall i | 1 <= i < |p|
      ensures p[i] != ESC
    {
      if i >= 2 {
        assert p[i] == p[2..][i - 2];
      }
    }
  }

  lemma CsiIsNotQuery(p: bytes, b: byte, rest: bytes)
    requires CsiHeld(p) && 0x40 <= b <= 0x7e && !IsCsiQuery(p[2..], b)
    ensures Scrubbed(p + [b] + rest) == p + [b] + Scrubbed(rest)
  {
    assert p + [b] + rest == p + ([b] + rest);
    forall n: nat
      ensures !QueryStarts(p + [b] + rest, n)
    {
      if QueryStarts(p + ([b] + rest), n) {
        CsiEndsAfter(p, [b] + rest, n);
        assert false;
      }
    }
    InnerHasNoEsc(p);
    KeepGivenUp(p + [b], rest);
  }

  lemma CsiIsQuery(p: bytes, b: byte, rest: bytes)
    requires CsiHeld(p) && |p| < MAX_CSI_BYTES
    requires 0x40 <= b <= 0x7e && IsCsiQuery(p[2..], b)
    ensures Scrubbed(p + [b] + rest) == Scrubbed(rest)
  {
    var s, n := p + [b] + rest, |p| + 1;
    var q := p + [b];
    assert s[..n] == q;
    assert q[2..|q| - 1] == p[2..];
    assert QueryStarts(s, n);
    ScrubbedSkip(s, n);
    assert s[n..] == rest;
  }

  // ---------------------------------------------------------------------
  // String bodies
  // ---------------------------------------------------------------------

  lemma {:induction false} FirstIndexIs(s: bytes, sep: byte, k: nat)
    requires k < |s| && s[k] == sep && sep !in s[..k]
    ensures FirstIndex(s, sep) == k
  {
    if k == 0 {
    } else {
      assert s[0] == s[..k][0];
      assert s[1..][..k - 1] == s[..k][1..];
      FirstIndexIs(s[1..], sep, k - 1);
    }
  }

  /** The early exit is sound: no continuation of an impossible body is a query. */
  lemma ImpossibleStaysImpossible(kind: StringKind, body: bytes, more: bytes)
    requires !MayBeQuery(kind, body)
    ensures !IsStringQuery(kind, body + more)
  {
    var all := body + more;
    match kind {
      case Osc =>
      case Dcs =>
        assert all[..2] == body[..2];
        assert forall p: bytes :: |p| == 2 && p <= all ==> p == all[..2];
      case Apc =>
        if body[0] == 'G' as int {
          var end := FirstIndex(body, SEMI);
          var control := KittyControl(all);
          assert control[..end - 1] == body[1..end];
          assert forall i :: 0 <= i < end - 1 ==> control[i] == body[..end][i + 1];
          FirstIndexIs(control, SEMI, end - 1);
        } else {
          assert KittyControl(all) == [];
          assert Split([], COMMA) == [[]];
        }
    }
  }

  ghost predicate StringHeld(kind: StringKind, p: bytes) {
    |p| >= 2 && p[0] == ESC && p[1] == KindByte(kind) && Plain(p[2..])
  }

  lemma PlainInside(p: bytes, rest: bytes, i: nat)
    requires |p| >= 2 && Plain(p[2..]) && 2 <= i < |p|
    ensures (p + rest)[i] !in {ESC, BEL}
  {
    assert (p + rest)[i] == p[2..][i - 2];
  }

  /** A query that starts with the held string goes on for `k` more body bytes and its terminator. */
  lemma StringEndsAfter(kind: StringKind, p: bytes, rest: bytes, n: nat) returns (k: nat)
    requires StringHeld(kind, p) && QueryStarts(p + rest, n)
    ensures |p| <= MAX_STRING_BYTES && k < |rest| && IsStringQuery(kind, p[2..] + rest[..k])
    ensures rest[0] in {ESC, BEL} ==> k == 0 && IsStringQuery(kind, p[2..])
    ensures rest[0] == ESC ==> |rest| >= 2 && rest[1] == BACKSLASH
  {
    var s := p + rest;
    var m := StringQueryAt(s, n, kind);
    if m < |p| {
      PlainInside(p, rest, m);
      assert false;
    }
    k := m - |p|;
    assert s[|p|] == rest[0];
    SliceAcross(p, rest, 2, m);
    if k == 0 {
      assert p[2..] + rest[..k] == p[2..];
    }
  }

  lemma StringGivesUp(kind: StringKind, p: bytes, rest: bytes)
    requires StringHeld(kind, p)
    requires |p| > MAX_STRING_BYTES || !MayBeQuery(kind, p[2..]) || rest == []
          || rest == [ESC] || (|rest| >= 2 && rest[0] == ESC && rest[1] != BACKSLASH)
    ensures Scrubbed(p + rest) == p + Scrubbed(rest)
  {
    forall n: nat
      ensures !QueryStarts(p + rest, n)
    {
      if QueryStarts(p + rest, n) {
        var k := StringEndsAfter(kind, p, rest, n);
        if !MayBeQuery(kind, p[2..]) {
          ImpossibleStaysImpossible(kind, p[2..], rest[..k]);
        }
        assert false;
      }
    }
    InnerHasNoEsc(p);
    KeepGivenUp(p, rest);
  }

  lemma StringIsNotQuery(kind: StringKind, p: bytes, terminator: bytes, rest: bytes)
    requires StringHeld(kind, p) && IsTerminator(terminator) && !IsStringQuery(kind, p[2..])
    ensures Scrubbed(p + terminator + rest) == p + terminator + Scrubbed(rest)
  {
    assert p + terminator + rest == p + (terminator + rest);
    forall n: nat
      ensures !QueryStarts(p + terminator + rest, n)
    {
      if QueryStarts(p + (terminator + rest), n) {
        var k := StringEndsAfter(kind, p, terminator + rest, n);
        assert false;
      }
    }
    InnerHasNoEsc(p);
    KeepGivenUp(p + terminator, rest);
  }

  lemma StringIsQuery(kind: StringKind, p: bytes, terminator: bytes, rest: bytes)
    requires StringHeld(kind, p) && |p| <= MAX_STRING_BYTES
    requires IsTerminator(terminator) && IsStringQuery(kind, p[2..])
    ensures Scrubbed(p + terminator + rest) == Scrubbed(rest)
  {
    var s, n := p + terminator + rest, |p| + |terminator|;
    assert p == [ESC, KindByte(kind)] + p[2..];
    assert s[..n] == StringBytes(kind, p[2..], terminator);
    assert QueryStarts(s, n);
    ScrubbedSkip(s, n);
    assert s[n..] == rest;
  }

  // ---------------------------------------------------------------------
  // One byte
  // ---------------------------------------------------------------------

  /** What one step must achieve: what is out plus what is held and still to come means the same stream. */
  ghost predicate Sound(early: bool, held: bytes, b: byte, rest: bytes, o: Output) {
    && Inv(early, o.filter)
    && Scrubbed(held + [b] + rest) == o.out + Scrubbed(o.filter.pending + rest)
  }

  lemma GroundSound(early: bool, f: Filter, b: byte, rest: bytes)
    requires Inv(early, f) && f.state.Ground?
    ensures Sound(early, [], b, rest, StepGround(f, b))
  {
    assert [] + [b] + rest == [b] + rest;
    if b != ESC {
      forall n: nat
        ensures !QueryStarts([b] + rest, n)
      {
        if QueryStarts([b] + rest, n) {
          QueryShape(([b] + rest)[..n]);
          assert false;
        }
      }
      KeepGivenUp([b], rest);
      assert [] + rest == rest;
    }
  }

  /** Two steps that preserve a meaning `m` of streams, one after the other. */
  lemma Chain(m: bytes -> bytes, whole: bytes, out: bytes, middle: bytes, out': bytes, left: bytes)
    requires m(whole) == out + m(middle) && m(middle) == out' + m(left)
    ensures m(whole) == (out + out') + m(left)
  {
    AppendAssoc(out, out', m(left));
  }

  lemma FlushSound(early: bool, f: Filter, b: byte, rest: bytes)
    requires Scrubbed(f.pending + ([b] + rest)) == f.pending + Scrubbed([b] + rest)
    ensures Sound(early, f.pending, b, rest, FlushThenGround(f, b))
  {
    GroundSound(early, FRESH, b, rest);
    var g := StepGround(FRESH, b);
    AppendAssoc(f.pending, [b], rest);
    AppendAssoc([], [b], rest);
    assert [] + ([b] + rest) == [b] + rest;
    Chain(s => Scrubbed(s), f.pending + ([b] + rest), f.pending, [b] + rest, g.out, g.filter.pending + rest);
  }

  lemma EscSound(early: bool, f: Filter, b: byte, rest: bytes)
    requires Inv(early, f) && f.state.Esc?
    ensures Sound(early, [ESC], b, rest, StepEsc(f, b))
  {
    var o := StepEsc(f, b);
    if b in {0x5b, 0x5d, 0x50, 0x5f} {
      assert o.filter.pending[2..] == [];
    } else if b == 0x5a {
      var s := [ESC] + [b] + rest;
      assert s[..2] == [ESC, 0x5a];
      assert QueryStarts(s, 2);
      ScrubbedSkip(s, 2);
      assert s[2..] == rest == [] + rest;
    } else {
      EscGivesUp([b] + rest);
      FlushSound(early, f, b, rest);
    }
  }

  lemma CsiSound(early: bool, f: Filter, b: byte, rest: bytes)
    requires Inv(early, f) && f.state.Csi?
    ensures Sound(early, f.pending, b, rest, StepCsi(f, b))
  {
    assert [] + rest == rest;
    if |f.pending| >= MAX_CSI_BYTES || !(0x20 <= b <= 0x7e) {
      CsiGivesUp(f.pending, [b] + rest);
      FlushSound(early, f, b, rest);
    } else if b <= 0x3f {
      assert (f.pending + [b])[2..] == f.pending[2..] + [b];
    } else if IsCsiQuery(f.pending[2..], b) {
      CsiIsQuery(f.pending, b, rest);
    } else {
      CsiIsNotQuery(f.pending, b, rest);
    }
  }

  lemma StripTerminated(body: bytes, terminator: bytes)
    requires IsTerminator(terminator)
    ensures StripTerminator(body + terminator) == body
  {
    var all := body + terminator;
    assert all[|all| - 1] == terminator[|terminator| - 1];
    if terminator == [BEL] {
      assert all[|all| - 1..] == [BEL];
      if |all| >= 2 {
        assert all[|all| - 2..][1] == BEL;
      }
    } else {
      assert all[|all| - 2..] == terminator;
    }
  }

  lemma EndStringSound(early: bool, f: Filter, p: bytes, terminator: bytes, rest: bytes)
    requires HoldsString(early, f, p) && IsTerminator(terminator) && f.pending == p + terminator
    ensures var o := EndString(f);
            Inv(early, o.filter) && Scrubbed(f.pending + rest) == o.out + Scrubbed(o.filter.pending + rest)
  {
    var body := p[2..];
    assert f.pending[2..] == body + terminator;
    StripTerminated(body, terminator);
    assert [] + rest == rest;
    if IsStringQuery(f.kind.value, body) {
      StringIsQuery(f.kind.value, p, terminator, rest);
    } else {
      StringIsNotQuery(f.kind.value, p, terminator, rest);
    }
  }

  lemma StringBodySound(early: bool, f: Filter, b: byte, rest: bytes)
    requires Inv(early, f) && f.state.StringBody?
    ensures Sound(early, f.pending, b, rest, StepStringBody(early, f, b))
  {
    var o := StepStringBody(early, f, b);
    var held := f.(pending := f.pending + [b]);
    if b == ESC {
      assert held.pending[..|held.pending| - 1] == f.pending;
    } else if b == BEL {
      EndStringSound(early, held, f.pending, [b], rest);
    } else {
      assert held.pending[2..] == f.pending[2..] + [b];
      if o.out != [] {
        StringGivesUp(f.kind.value, held.pending, rest);
        assert [] + rest == rest;
      }
    }
  }

  /** An escape inside a string that no backslash follows: the body is given up and the escape starts afresh. */
  lemma StringRestarts(early: bool, kind: StringKind, p: bytes, b: byte, rest: bytes)
    requires StringHeld(kind, p) && b != BACKSLASH
    ensures var o := StepEsc(Filter(Esc, None, [ESC]), b);
            && Inv(early, o.filter)
            && Scrubbed(p + ([ESC] + [b] + rest)) == p + o.out + Scrubbed(o.filter.pending + rest)
  {
    var o := StepEsc(Filter(Esc, None, [ESC]), b);
    var tail := [ESC] + [b] + rest;
    EscSound(early, Filter(Esc, None, [ESC]), b, rest);
    StringGivesUp(kind, p, tail);
    Chain(s => Scrubbed(s), p + tail, p, tail, o.out, o.filter.pending + rest);
  }

  lemma Regroup4(p: bytes, e: byte, b: byte, rest: bytes)
    ensures p + [e] + [b] + rest == p + ([e] + [b] + rest)
  {
  }

  lemma StringEscSound(early: bool, f: Filter, b: byte, rest: bytes)
    requires Inv(early, f) && f.state.StringEsc?
    ensures Sound(early, f.pending, b, rest, StepStringEsc(f, b))
  {
    var p := f.pending[..|f.pending| - 1];
    assert f.pending == p + [ESC];
    if b == BACKSLASH {
      assert f.pending + [b] == p + [ESC, BACKSLASH];
      EndStringSound(early, f.(pending := f.pending + [b]), p, [ESC, BACKSLASH], rest);
    } else {
      StringRestarts(early, f.kind.value, p, b, rest);
      Regroup4(p, ESC, b, rest);
    }
  }

  lemma StepSound(early: bool, f: Filter, b: byte, rest: bytes)
    requires Inv(early, f)
    ensures Sound(early, f.pending, b, rest, Step(early, f, b))
  {
    match f.state {
      case Ground => GroundSound(early, f, b, rest);
      case Esc => EscSound(early, f, b, rest);
      case Csi => CsiSound(early, f, b, rest);
      case StringBody => StringBodySound(early, f, b, rest);
      case StringEsc => StringEscSound(early, f, b, rest);
    }
  }

  // ---------------------------------------------------------------------
  // Whole streams
  // ---------------------------------------------------------------------

  function Scrub(early: bool, f: Filter, chunk: bytes): (o: Output)
    requires Inv(early, f)
    ensures Inv(early, o.filter)
    decreases chunk
  {
    if chunk == [] then Output(f, [])
    else
      StepSound(early, f, chunk[0], []);
      var first := Step(early, f, chunk[0]);
      var rest := Scrub(early, first.filter, chunk[1..]);
      Output(rest.filter, first.out + rest.out)
  }

  lemma ScrubCons(early: bool, f: Filter, chunk: bytes)
    requires Inv(early, f) && chunk != []
    ensures var first := Step(early, f, chunk[0]);
            && Inv(early, first.filter)
            && var rest := Scrub(early, first.filter, chunk[1..]);
               Scrub(early, f, chunk) == Output(rest.filter, first.out + rest.out)
  {
    StepSound(early, f, chunk[0], []);
  }

  /** Scrubbing chunk by chunk and then `finish`. */
  function ScrubChunks(early: bool, f: Filter, chunks: seq<bytes>): bytes
    requires Inv(early, f)
    decreases chunks
  {
    if chunks == [] then f.pending
    else
      var first := Scrub(early, f, chunks[0]);
      first.out + ScrubChunks(early, first.filter, chunks[1..])
  }

  lemma Regroup(held: bytes, b: byte, chunk: bytes, rest: bytes)
    ensures held + ([b] + chunk) + rest == held + [b] + (chunk + rest)
  {
  }

  lemma {:induction false} ScrubSound(early: bool, f: Filter, chunk: bytes, rest: bytes)
    requires Inv(early, f)
    ensures var o := Scrub(early, f, chunk);
            Scrubbed(f.pending + chunk + rest) == o.out + Scrubbed(o.filter.pending + rest)
    decreases chunk
  {
    if chunk == [] {
      assert f.pending + chunk + rest == f.pending + rest;
    } else {
      var tail := chunk[1..] + rest;
      StepSound(early, f, chunk[0], tail);
      var first := Step(early, f, chunk[0]);
      var later := Scrub(early, first.filter, chunk[1..]);
      ScrubSound(early, first.filter, chunk[1..], rest);
      assert chunk == [chunk[0]] + chunk[1..];
      Regroup(f.pending, chunk[0], chunk[1..], rest);
      AppendAssoc(first.filter.pending, chunk[1..], rest);
      Chain(s => Scrubbed(s), f.pending + [chunk[0]] + tail, first.out, first.filter.pending + tail,
            later.out, later.filter.pending + rest);
    }
  }

  /** At the end of the stream, what is held back starts no query. */
  lemma FinishSound(early: bool, f: Filter)
    requires Inv(early, f)
    ensures Scrubbed(f.pending) == f.pending
  {
    assert Scrubbed([]) == [];
    match f.state {
      case Ground =>
      case Esc =>
        EscGivesUp([]);
        assert [ESC] + [] == [ESC];
      case Csi =>
        CsiGivesUp(f.pending, []);
        assert f.pending + [] == f.pending;
      case StringBody =>
        StringGivesUp(f.kind.value, f.pending, []);
        assert f.pending + [] == f.pending;
      case StringEsc =>
        var p := f.pending[..|f.pending| - 1];
        assert f.pending == p + [ESC];
        StringGivesUp(f.kind.value, p, [ESC]);
        EscGivesUp([]);
        assert [ESC] + [] == [ESC];
    }
  }

  /**
   * Exact filtering: over any chunking, the output with the final flush is
   * the stream without exactly its queries.
   */
  lemma {:induction false} ChunksAreScrubbed(early: bool, f: Filter, chunks: seq<bytes>)
    requires Inv(early, f)
    ensures ScrubChunks(early, f, chunks) == Scrubbed(f.pending + Flatten(chunks))
    decreases chunks
  {
    if chunks == [] {
      FinishSound(early, f);
      assert f.pending + Flatten(chunks) == f.pending;
    } else {
      var first := Scrub(early, f, chunks[0]);
      ScrubSound(early, f, chunks[0], Flatten(chunks[1..]));
      ChunksAreScrubbed(early, first.filter, chunks[1..]);
      AppendAssoc(f.pending, chunks[0], Flatten(chunks[1..]));
    }
  }

  /** The early exit changes nothing but when bytes come out. */
  lemma FastEqualsSlow(fastChunks: seq<bytes>, slowChunks: seq<bytes>)
    requires Flatten(fastChunks) == Flatten(slowChunks)
    ensures ScrubChunks(true, FRESH, fastChunks) == ScrubChunks(false, FRESH, slowChunks)
  {
    ChunksAreScrubbed(true, FRESH, fastChunks);
    ChunksAreScrubbed(false, FRESH, slowChunks);
  }

  // ---------------------------------------------------------------------
  // What the early exit does on the way
  // ---------------------------------------------------------------------

  /** No continuation of the body is a query. */
  ghost predicate Dead(kind: StringKind, body: bytes) {
    forall more :: !IsStringQuery(kind, body + more)
  }

  ghost predicate HoldsDead(f: Filter, held: bytes) {
    f.kind.Some? && StringHeld(f.kind.value, held) && Dead(f.kind.value, held[2..])
  }

  /**
   * How far the filter with the early exit may be ahead of the one without:
   * not at all, or by a body that can no longer become a query, which the
   * slow one still holds while the fast one rests or has begun an escape.
   */
  ghost predicate Ahead(fast: Filter, slow: Filter, released: bytes) {
    && slow.pending == released + fast.pending
    && (|| (fast == slow && released == [])
        || (fast == FRESH && slow.state.StringBody? && HoldsDead(slow, released))
        || (fast == Filter(Esc, None, [ESC]) && slow.state.StringEsc? && HoldsDead(slow, released)))
  }

  lemma DeadGrows(kind: StringKind, body: bytes, b: byte)
    requires Dead(kind, body)
    ensures Dead(kind, body + [b]) && !IsStringQuery(kind, body)
  {
    forall more
      ensures !IsStringQuery(kind, body + [b] + more)
    {
      AppendAssoc(body, [b], more);
      assert !IsStringQuery(kind, body + ([b] + more));
    }
    assert !IsStringQuery(kind, body + []);
    assert body + [] == body;
  }

  lemma ImpossibleIsDead(kind: StringKind, body: bytes)
    requires !MayBeQuery(kind, body)
    ensures Dead(kind, body)
  {
    forall more
      ensures !IsStringQuery(kind, body + more)
    {
      ImpossibleStaysImpossible(kind, body, more);
    }
  }

  lemma HeldGrows(kind: StringKind, p: bytes, b: byte)
    requires StringHeld(kind, p) && b != ESC && b != BEL
    ensures StringHeld(kind, p + [b]) && (p + [b])[2..] == p[2..] + [b]
  {
  }

  /** A dead body that ends goes out whole. */
  lemma DeadEnds(f: Filter, p: bytes, terminator: bytes)
    requires HoldsDead(f, p) && IsTerminator(terminator) && f.pending == p + terminator
    ensures EndString(f) == Output(FRESH, p + terminator)
  {
    DeadGrows(f.kind.value, p[2..], 0);
    assert f.pending[2..] == p[2..] + terminator;
    StripTerminated(p[2..], terminator);
  }

  /** One step of both machines, told by what each puts out. */
  ghost predicate KeepsAhead(released: bytes, fast: Output, slow: Output, released': bytes) {
    Ahead(fast.filter, slow.filter, released') && released + fast.out == slow.out + released'
  }

  lemma TogetherStep(f: Filter, b: byte) returns (released: bytes)
    requires Inv(true, f) && Inv(false, f)
    ensures KeepsAhead([], Step(true, f, b), Step(false, f, b), released)
  {
    released := [];
    if f.state.StringBody? && b != ESC && b != BEL {
      var held := f.pending + [b];
      HeldGrows(f.kind.value, f.pending, b);
      if |held| <= MAX_STRING_BYTES && !MayBeQuery(f.kind.value, held[2..]) {
        ImpossibleIsDead(f.kind.value, held[2..]);
        released := held;
        assert held + [] == held && [] + held == [] + held;
      }
    }
    assert [] + Step(true, f, b).out == Step(true, f, b).out;
    assert Step(false, f, b).out + [] == Step(false, f, b).out;
    assert [] + Step(true, f, b).filter.pending == Step(true, f, b).filter.pending;
  }

  lemma DeadBodyStep(slow: Filter, b: byte) returns (released: bytes)
    requires Inv(false, slow) && slow.state.StringBody? && HoldsDead(slow, slow.pending)
    ensures KeepsAhead(slow.pending, Step(true, FRESH, b), Step(false, slow, b), released)
  {
    var p := slow.pending;
    var held := slow.(pending := p + [b]);
    if b == ESC {
      released := p;
    } else if b == BEL {
      DeadEnds(held, p, [BEL]);
      released := [];
      assert p + [BEL] + [] == p + [BEL];
    } else {
      HeldGrows(slow.kind.value, p, b);
      DeadGrows(slow.kind.value, p[2..], b);
      released := if |held.pending| > MAX_STRING_BYTES then [] else p + [b];
      assert p + [b] + [] == p + [b] && [] + (p + [b]) == p + [b];
    }
  }

  lemma AheadByNothing(released: bytes, fast: Output, slow: Output)
    requires fast.filter == slow.filter && slow.out == released + fast.out
    ensures KeepsAhead(released, fast, slow, [])
  {
    assert slow.out + [] == slow.out;
    assert [] + slow.filter.pending == slow.filter.pending;
  }

  lemma DeadStringEnds(slow: Filter, p: bytes)
    requires slow.state.StringEsc? && slow.pending == p + [ESC] && HoldsDead(slow, p)
    ensures StepStringEsc(slow, BACKSLASH) == Output(FRESH, p + [ESC, BACKSLASH])
  {
    AppendAssoc(p, [ESC], [BACKSLASH]);
    assert [ESC] + [BACKSLASH] == [ESC, BACKSLASH];
    DeadEnds(slow.(pending := slow.pending + [BACKSLASH]), p, [ESC, BACKSLASH]);
  }

  lemma DeadEscStep(slow: Filter, p: bytes, b: byte)
    requires Inv(false, slow) && slow.state.StringEsc? && slow.pending == p + [ESC] && HoldsDead(slow, p)
    ensures KeepsAhead(p, Step(true, Filter(Esc, None, [ESC]), b), Step(false, slow, b), [])
  {
    var esc := Filter(Esc, None, [ESC]);
    if b == BACKSLASH {
      DeadStringEnds(slow, p);
      assert StepEsc(esc, b) == Output(FRESH, [ESC, BACKSLASH]) by { assert [ESC] + [b] == [ESC, BACKSLASH]; }
    } else {
      assert slow.pending[..|slow.pending| - 1] == p;
    }
    AheadByNothing(p, StepEsc(esc, b), StepStringEsc(slow, b));
  }

  lemma AheadStep(fast: Filter, slow: Filter, released: bytes, b: byte) returns (released': bytes)
    requires Inv(true, fast) && Inv(false, slow) && Ahead(fast, slow, released)
    ensures KeepsAhead(released, Step(true, fast, b), Step(false, slow, b), released')
  {
    if fast == slow && released == [] {
      released' := TogetherStep(fast, b);
    } else if slow.state.StringBody? {
      assert released + [] == released;
      released' := DeadBodyStep(slow, b);
    } else {
      DeadEscStep(slow, released, b);
      released' := [];
    }
  }

  lemma {:induction false} AheadScrub(fast: Filter, slow: Filter, released: bytes, input: bytes) returns (released': bytes)
    requires Inv(true, fast) && Inv(false, slow) && Ahead(fast, slow, released)
    ensures KeepsAhead(released, Scrub(true, fast, input), Scrub(false, slow, input), released')
    decreases input
  {
    if input == [] {
      released' := released;
      assert released + [] == [] + released;
    } else {
      ScrubCons(true, fast, input);
      ScrubCons(false, slow, input);
      var fo, so := Step(true, fast, input[0]), Step(false, slow, input[0]);
      var middle := AheadStep(fast, slow, released, input[0]);
      released' := AheadScrub(fo.filter, so.filter, middle, input[1..]);
      JoinOutputs(released, fo.out, so.out, middle, Scrub(true, fo.filter, input[1..]).out,
                  Scrub(false, so.filter, input[1..]).out, released');
    }
  }

  lemma JoinOutputs(r: bytes, f: bytes, s: bytes, r': bytes, f': bytes, s': bytes, r'': bytes)
    requires r + f == s + r' && r' + f' == s' + r''
    ensures r + (f + f') == (s + s') + r''
  {
    AppendAssoc(r, f, f');
    AppendAssoc(s, r', f');
    AppendAssoc(s, s', r'');
  }

  /**
   * The early exit only ever releases bytes sooner: after any common input
   * the fast filter's output extends the slow one's, by exactly the bytes
   * the slow one holds back and the fast one does not.
   */
  lemma EarlyExitOnlyReleases(input: bytes)
    ensures var fast, slow := Scrub(true, FRESH, input), Scrub(false, FRESH, input);
            && slow.out <= fast.out
            && slow.filter.pending == fast.out[|slow.out|..] + fast.filter.pending
  {
    var released := AheadScrub(FRESH, FRESH, [], input);
    var fast, slow := Scrub(true, FRESH, input), Scrub(false, FRESH, input);
    assert [] + fast.out == fast.out;
    assert fast.out == slow.out + released;
  }

  /** Every query that begins at rest is removed whole and leaves the filter at rest. */
  lemma QueryIsDropped(early: bool, q: bytes, rest: seq<bytes>)
    requires IsQuery(q)
    ensures ScrubChunks(early, FRESH, [q] + rest) == ScrubChunks(early, FRESH, rest)
  {
    ChunksAreScrubbed(early, FRESH, [q] + rest);
    ChunksAreScrubbed(early, FRESH, rest);
    assert ([q] + rest)[1..] == rest;
    var s := [] + Flatten([q] + rest);
    assert s == q + Flatten(rest);
    QueryShape(q);
    assert s[..|q|] == q;
    assert QueryStarts(s, |q|);
    ScrubbedSkip(s, |q|);
    assert s[|q|..] == [] + Flatten(rest);
  }

  // ---------------------------------------------------------------------
  // What was removed
  // ---------------------------------------------------------------------

  datatype Segment = Kept(text: bytes) | Removed(query: bytes)

  ghost function InputOf(segments: seq<Segment>): bytes {
    if segments == [] then []
    else (match segments[0] case Kept(t) => t case Removed(q) => q) + InputOf(segments[1..])
  }

  ghost function OutputOf(segments: seq<Segment>): bytes {
    if segments == [] then []
    else (match segments[0] case Kept(t) => t case Removed(q) => []) + OutputOf(segments[1..])
  }

  lemma PrependSegment(first: Segment, rest: seq<Segment>)
    ensures InputOf([first] + rest) == (match first case Kept(t) => t case Removed(q) => q) + InputOf(rest)
    ensures OutputOf([first] + rest) == (match first case Kept(t) => t case Removed(q) => []) + OutputOf(rest)
  {
    assert ([first] + rest)[1..] == rest;
  }

  ghost predicate OnlyQueriesRemoved(segments: seq<Segment>) {
    forall i :: 0 <= i < |segments| && segments[i].Removed? ==> IsQuery(segments[i].query)
  }

  /** `segments` cut `input` into what stays, `output`, and queries that go. */
  ghost predicate Explains(segments: seq<Segment>, input: bytes, output: bytes) {
    InputOf(segments) == input && OutputOf(segments) == output && OnlyQueriesRemoved(segments)
  }

  lemma ExplainRemoved(q: bytes, rest: seq<Segment>, input: bytes, output: bytes)
    requires IsQuery(q) && Explains(rest, input, output)
    ensures Explains([Removed(q)] + rest, q + input, output)
  {
    PrependSegment(Removed(q), rest);
    assert [] + output == output;
  }

  lemma ExplainKept(b: byte, rest: seq<Segment>, input: bytes, output: bytes)
    requires Explains(rest, input, output)
    ensures Explains([Kept([b])] + rest, [b] + input, [b] + output)
  {
    PrependSegment(Kept([b]), rest);
  }

  /** What happens at the front of a stream: a query goes, or one byte stays. */
  lemma ScrubbedFront(s: bytes) returns (n: nat)
    requires s != []
    ensures n <= |s| && (n > 0 ==> IsQuery(s[..n]))
    ensures Scrubbed(s) == if n > 0 then Scrubbed(s[n..]) else [s[0]] + Scrubbed(s[1..])
  {
    if m: nat :| QueryStarts(s, m) {
      n := m;
      ScrubbedSkip(s, m);
    } else {
      n := 0;
    }
  }

  /** The scrubbed stream is the stream minus disjoint contiguous segments, every one of them a query. */
  lemma {:induction false} ScrubbedRemovesOnlyQueries(s: bytes) returns (segments: seq<Segment>)
    ensures Explains(segments, s, Scrubbed(s))
    decreases |s|
  {
    if s == [] {
      segments := [];
    } else {
      var n := ScrubbedFront(s);
      if n > 0 {
        var rest := ScrubbedRemovesOnlyQueries(s[n..]);
        segments := [Removed(s[..n])] + rest;
        ExplainRemoved(s[..n], rest, s[n..], Scrubbed(s[n..]));
        TakeThenDrop(s, n);
      } else {
        var rest := ScrubbedRemovesOnlyQueries(s[1..]);
        segments := [Kept([s[0]])] + rest;
        ExplainKept(s[0], rest, s[1..], Scrubbed(s[1..]));
        FirstThenDrop(s);
      }
    }
  }
}

module QueryFilters {
  import opened Wrappers
  import opened Bytes
  import opened QueryGrammar
  import opened FilterModel

  class QueryFilter {
    var state: State
    var kind: Option<StringKind>
    var pending: bytes

    ghost predicate Valid()
      reads this
    {
      Inv(true, Model())
    }

    ghost function Model(): Filter
      reads this
    {
      Filter(state, kind, pending)
    }

    constructor ()
      ensures Valid() && Model() == FRESH
    {
      state, kind, pending := Ground, None, [];
    }

    /** Scrub one chunk; the model's lemmas say what all chunks and `Finish` add up to. */
    method ScrubChunk(chunk: bytes) returns (out: bytes)
      requires Valid()
      modifies this
      ensures Valid() && Output(Model(), out) == Scrub(true, old(Model()), chunk)
    {
      out := [];
      for i := 0 to |chunk|
        invariant Valid()
        invariant var rest := Scrub(true, Model(), chunk[i..]);
                  Output(rest.filter, out + rest.out) == Scrub(true, old(Model()), chunk)
      {
        ghost var first := Step(true, Model(), chunk[i]);
        StepSound(true, Model(), chunk[i], []);
        ScrubCons(true, Model(), chunk[i..]);
        assert chunk[i..][1..] == chunk[i + 1..];
        AppendAssoc(out, first.out, Scrub(true, first.filter, chunk[i + 1..]).out);
        out := StepByte(chunk[i], out);
      }
    }

    /** At the end of the stream what is held back goes out raw: nothing in it starts a query. */
    method Finish() returns (out: bytes)
      requires Valid()
      ensures out == pending && Scrubbed(out) == out && |out| <= 4097
    {
      FinishSound(true, Model());
      HeldBackBound(true, Model());
      out := pending;
    }

    method StepByte(b: byte, out: bytes) returns (out': bytes)
      requires Valid()
      modifies this
      ensures var o := Step(true, old(Model()), b); Model() == o.filter && out' == out + o.out
    {
      out' := out;
      match state {
        case Ground =>
          out' := GroundByte(b, out');
        case Esc =>
          out' := EscByte(b, out');
        case Csi =>
          if |pending| >= MAX_CSI_BYTES {
            out' := Flush(out');
            out' := GroundByte(b, out');
          } else if 0x20 <= b <= 0x3f {
            pending := pending + [b];
          } else if 0x40 <= b <= 0x7e {
            if IsCsiQuery(pending[2..], b) {
              DropPending();
            } else {
              pending := pending + [b];
              out' := Flush(out');
            }
          } else {
            out' := Flush(out');
            out' := GroundByte(b, out');
          }
        case StringBody =>
          pending := pending + [b];
          if b == ESC {
            state := StringEsc;
          } else if b == BEL {
            out' := EndOfString(out');
          } else {
            if |pending| > MAX_STRING_BYTES || !StringMayBeQuery() {
              out' := Flush(out');
            }
          }
        case StringEsc =>
          if b == BACKSLASH {
            pending := pending + [b];
            out' := EndOfString(out');
          } else {
            var esc := pending[|pending| - 1];
            pending := pending[..|pending| - 1];
            out' := Flush(out');
            pending := [esc];
            state := Esc;
            out' := EscByte(b, out');
          }
      }
    }

    method GroundByte(b: byte, out: bytes) returns (out': bytes)
      requires state.Ground?
      modifies this
      ensures var o := StepGround(old(Model()), b); Model() == o.filter && out' == out + o.out
    {
      out' := out;
      if b == ESC {
        pending := pending + [b];
        state := Esc;
      } else {
        out' := out' + [b];
      }
    }

    method EscByte(b: byte, out: bytes) returns (out': bytes)
      requires state.Esc?
      modifies this
      ensures var o := StepEsc(old(Model()), b); Model() == o.filter && out' == out + o.out
    {
      out' := out;
      if b == '[' as int {
        pending := pending + [b];
        state := Csi;
      } else if b == ']' as int || b == 'P' as int || b == '_' as int {
        pending := pending + [b];
        kind := Some(if b == ']' as int then Osc else if b == 'P' as int then Dcs else Apc);
        state := StringBody;
      } else if b == 'Z' as int {
        DropPending();
      } else {
        out' := Flush(out');
        out' := GroundByte(b, out');
      }
    }

    function StringMayBeQuery(): bool
      requires |pending| >= 2
      reads this
    {
      kind.None? || MayBeQuery(kind.value, pending[2..])
    }

    method EndOfString(out: bytes) returns (out': bytes)
      requires |pending| >= 2
      modifies this
      ensures var o := EndString(old(Model())); Model() == o.filter && out' == out + o.out
    {
      var body := StripTerminator(pending[2..]);
      var query :=
        match kind
        case Some(k) => IsStringQuery(k, body)
        case None => false;
      if query {
        DropPending();
        out' := out;
      } else {
        out' := Flush(out);
      }
    }

    method DropPending()
      modifies this
      ensures Model() == FRESH
    {
      pending, kind, state := [], None, Ground;
    }

    method Flush(out: bytes) returns (out': bytes)
      modifies this
      ensures Model() == FRESH && out' == out + old(pending)
    {
      out' := out + pending;
      pending, kind, state := [], None, Ground;
    }
  }

  /** One-shot form for a complete byte string: exactly the queries are gone. */
  method StripQueries(input: bytes) returns (out: bytes)
    ensures out == Scrubbed(input)
  {
    var filter := new QueryFilter();
    out := filter.ScrubChunk(input);
    var rest := filter.Finish();
    ScrubSound(true, FRESH, input, []);
    FinishSound(true, filter.Model());
    assert [] + input + [] == input;
    assert filter.pending + [] == filter.pending;
    out := out + rest;
  }
}
