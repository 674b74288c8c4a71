// Which byte strings are terminal queries, family by family and in numbers:
// the whole strings that the replay filter must drop, and with them
// everything it must keep.

module QueryLaws {
  import opened Bytes
  import opened QueryGrammar
  import opened FilterModel

  // ---------------------------------------------------------------------
  // Control sequences
  // ---------------------------------------------------------------------

  /** A private marker in front of the parameters, or none. */
  predicate IsMarker(marker: bytes) {
    marker == [] || marker == [0x3f] || marker == [0x3e] || marker == [0x3d]
  }

  /** Parameter fields after that marker: what a further marker byte in front would change is left to the marker. */
  ghost predicate AreFields(marker: bytes, fields: seq<bytes>) {
    && fields != [] && NoneContains(fields, SEMI)
    && (forall i :: 0 <= i < |Join(fields, SEMI)| ==> 0x30 <= Join(fields, SEMI)[i] <= 0x3f)
    && (marker == [] && fields[0] != [] ==> fields[0][0] !in {0x3d, 0x3e, 0x3f})
  }

  /** Intermediate bytes; the first of them ends the parameters. */
  ghost predicate AreIntermediates(inter: bytes) {
    && (forall i :: 0 <= i < |inter| ==> 0x20 <= inter[i] <= 0x3f)
    && (inter != [] ==> 0x20 <= inter[0] <= 0x2f)
  }

  function CsiBytes(marker: bytes, fields: seq<bytes>, inter: bytes, final: byte): bytes {
    [0x1b, 0x5b] + (marker + Join(fields, SEMI) + inter) + [final]
  }

  /** The XTWINOPS numbers that ask for a report. */
  ghost predicate AsksForReport(field: bytes) {
    || field == Decimal(11) || field == Decimal(13) || field == Decimal(14) || field == Decimal(15)
    || field == Decimal(16) || field == Decimal(18) || field == Decimal(19) || field == Decimal(20)
    || field == Decimal(21)
  }

  /** DA, DSR, DECRQM, XTVERSION, the kitty keyboard query, XTWINOPS reports and XTSMGRAPHICS reads. */
  ghost predicate MakesReply(marker: bytes, fields: seq<bytes>, inter: bytes, final: byte) {
    || (final == 0x63 && inter == [])
    || (final == 0x6e && inter == [])
    || (final == 0x70 && inter == [0x24])
    || (final == 0x71 && inter == [] && marker == [0x3e])
    || (final == 0x75 && inter == [] && marker == [0x3f] && fields == [[]])
    || (final == 0x74 && inter == [] && fields != [] && AsksForReport(fields[0]))
    || (final == 0x53 && inter == [] && marker == [0x3f] && |fields| > 1
        && (fields[1] == Decimal(1) || fields[1] == Decimal(4)))
  }

  lemma ReportNumbers(field: bytes)
    ensures field in XTWINOPS_REPORTS <==> AsksForReport(field)
  {
    assert Decimal(11) == [0x31, 0x31] && Decimal(13) == [0x31, 0x33] && Decimal(14) == [0x31, 0x34];
    assert Decimal(15) == [0x31, 0x35] && Decimal(16) == [0x31, 0x36] && Decimal(18) == [0x31, 0x38];
    assert Decimal(19) == [0x31, 0x39] && Decimal(20) == [0x32, 0x30] && Decimal(21) == [0x32, 0x31];
  }

  lemma {:induction false} ParamsEndAt(params: bytes, inter: bytes)
    requires forall i :: 0 <= i < |params| ==> 0x30 <= params[i] <= 0x3f
    requires AreIntermediates(inter)
    ensures ParamsEnd(params + inter) == |params|
    decreases params
  {
    if params == [] {
      assert params + inter == inter;
    } else {
      assert (params + inter)[1..] == params[1..] + inter;
      ParamsEndAt(params[1..], inter);
    }
  }

  lemma FirstOfJoin(fields: seq<bytes>)
    requires fields != []
    ensures Join(fields, SEMI) == [] <==> fields == [[]]
    ensures Join(fields, SEMI) != [] ==>
              Join(fields, SEMI)[0] == if fields[0] == [] then SEMI else fields[0][0]
  {
  }

  lemma MarkerStrips(marker: bytes, fields: seq<bytes>)
    requires IsMarker(marker) && AreFields(marker, fields)
    ensures StripMarker(marker + Join(fields, SEMI)) == Join(fields, SEMI)
    ensures forall m: byte :: m == 0x3e || m == 0x3f ==>
              (StartsWith(marker + Join(fields, SEMI), [m]) <==> marker == [m])
    ensures marker + Join(fields, SEMI) == [0x3f] <==> marker == [0x3f] && fields == [[]]
  {
    var list := Join(fields, SEMI);
    FirstOfJoin(fields);
    if marker == [] {
      assert marker + list == list;
    } else {
      assert (marker + list)[1..] == list && (marker + list)[0] == marker[0];
    }
  }

  /** A control sequence of at most 64 bytes is a query exactly when it is one of those. */
  lemma CsiExactly(marker: bytes, fields: seq<bytes>, inter: bytes, final: byte)
    requires IsMarker(marker) && AreFields(marker, fields) && AreIntermediates(inter) && 0x40 <= final <= 0x7e
    requires |CsiBytes(marker, fields, inter, final)| <= 64
    ensures IsQuery(CsiBytes(marker, fields, inter, final)) <==> MakesReply(marker, fields, inter, final)
  {
    var params := marker + Join(fields, SEMI);
    var inner := params + inter;
    var q := CsiBytes(marker, fields, inter, final);
    assert q[0] == ESC && q[1] == 0x5b && q[2..|q| - 1] == inner && q[|q| - 1] == final;
    InnerIsCsi(marker, fields, inter);
    CsiOnly(q);
    InnerReads(marker, fields, inter, final);
  }

  lemma InnerReads(marker: bytes, fields: seq<bytes>, inter: bytes, final: byte)
    requires IsMarker(marker) && AreFields(marker, fields) && AreIntermediates(inter)
    ensures IsCsiQuery(marker + Join(fields, SEMI) + inter, final) <==> MakesReply(marker, fields, inter, final)
  {
    var params := marker + Join(fields, SEMI);
    InnerIsCsi(marker, fields, inter);
    ParamsEndAt(params, inter);
    MarkerStrips(marker, fields);
    SplitJoin(fields, SEMI);
    KnownInner(params, marker, fields, inter, final);
  }

  lemma KnownInner(params: bytes, marker: bytes, fields: seq<bytes>, inter: bytes, final: byte)
    requires ParamsEnd(params + inter) == |params| && fields != [] && Split(StripMarker(params), SEMI) == fields
    requires StartsWith(params, [0x3e]) <==> marker == [0x3e]
    requires StartsWith(params, [0x3f]) <==> marker == [0x3f]
    requires params == [0x3f] <==> marker == [0x3f] && fields == [[]]
    ensures IsCsiQuery(params + inter, final) <==> MakesReply(marker, fields, inter, final)
  {
    assert (params + inter)[..|params|] == params && (params + inter)[|params|..] == inter;
    ReportNumbers(fields[0]);
    assert Decimal(1) == [0x31] && Decimal(4) == [0x34];
  }

  lemma InnerIsCsi(marker: bytes, fields: seq<bytes>, inter: bytes)
    requires IsMarker(marker) && AreFields(marker, fields) && AreIntermediates(inter)
    ensures AllCsiInner(marker + Join(fields, SEMI) + inter)
    ensures forall i :: 0 <= i < |marker + Join(fields, SEMI)| ==> 0x30 <= (marker + Join(fields, SEMI))[i] <= 0x3f
  {
  }

  /** What begins like a control sequence can only be a query of that kind. */
  lemma CsiOnly(q: bytes)
    requires |q| >= 2 && q[0] == ESC && q[1] == 0x5b
    ensures IsQuery(q) <==> IsCsiQueryString(q)
  {
    if IsStringQueryString(q) {
      StringOpens(q);
    }
  }

  lemma StringOpens(q: bytes)
    requires IsStringQueryString(q)
    ensures |q| >= 3 && q[1] in {0x5d, 0x50, 0x5f}
    ensures |q| <= 4098 && (q[|q| - 1] == 0x07 || q[|q| - 2..] == [0x1b, 0x5c])
  {
    var kind, body, terminator :|
      q == StringBytes(kind, body, terminator) && IsTerminator(terminator) && 2 + |body| <= 4096;
    assert q[1] == KindByte(kind);
    assert q[2 + |body|..] == terminator;
  }

  /** A longer one never is. */
  lemma LongCsiIsKept(q: bytes)
    requires |q| > 64 && q[0] == 0x1b && q[1] == 0x5b
    ensures !IsQuery(q)
  {
    CsiOnly(q);
  }

  // ---------------------------------------------------------------------
  // Strings
  // ---------------------------------------------------------------------

  lemma StringOnly(q: bytes, kind: StringKind, body: bytes, terminator: bytes)
    requires q == StringBytes(kind, body, terminator) && IsTerminator(terminator) && Plain(body)
    ensures IsQuery(q) <==> 2 + |body| <= 4096 && IsStringQuery(kind, body)
  {
    assert q[0] == ESC && q[1] == KindByte(kind);
    if IsStringQueryString(q) {
      var m := StringQueryShape(q, kind);
      assert q[m..] == [BEL] || q[m..] == [ESC, BACKSLASH];
      SameBody(q, kind, body, terminator, m);
    }
  }

  /** Only one body lies before the first terminator. */
  lemma SameBody(q: bytes, kind: StringKind, body: bytes, terminator: bytes, m: nat)
    requires q == StringBytes(kind, body, terminator) && IsTerminator(terminator) && Plain(body)
    requires 2 <= m < |q| && Plain(q[2..m]) && (q[m] == BEL || q[m] == ESC)
    ensures m == 2 + |body| && q[2..m] == body
  {
    var end := 2 + |body|;
    assert q[2..end] == body && q[end] == terminator[0];
    assert forall i :: 2 <= i < m ==> q[i] == q[2..m][i - 2];
    assert forall i :: 2 <= i < end ==> q[i] == body[i - 2];
  }

  /** An OSC is a query exactly when its last field is a question mark. */
  lemma OscExactly(fields: seq<bytes>, terminator: bytes)
    requires fields != [] && NoneContains(fields, SEMI) && Plain(Join(fields, SEMI)) && IsTerminator(terminator)
    ensures IsQuery([0x1b, 0x5d] + Join(fields, SEMI) + terminator)
       <==> 2 + |Join(fields, SEMI)| <= 4096 && fields[|fields| - 1] == [0x3f]
  {
    StringOnly([0x1b, 0x5d] + Join(fields, SEMI) + terminator, Osc, Join(fields, SEMI), terminator);
    SplitJoin(fields, SEMI);
  }

  /** A DCS exactly when it begins with `$q` or `+q`. */
  lemma DcsExactly(body: bytes, terminator: bytes)
    requires Plain(body) && IsTerminator(terminator)
    ensures IsQuery([0x1b, 0x50] + body + terminator)
       <==> 2 + |body| <= 4096 && |body| >= 2 && (body[0] == 0x24 || body[0] == 0x2b) && body[1] == 0x71
  {
    StringOnly([0x1b, 0x50] + body + terminator, Dcs, body, terminator);
    if |body| >= 2 {
      assert body[..2] == [body[0], body[1]];
    }
  }

  /** A kitty graphics command exactly when one of its control fields, before any payload, is `a=q`. */
  lemma KittyExactly(control: seq<bytes>, payload: bytes, terminator: bytes)
    requires control != [] && NoneContains(control, COMMA) && SEMI !in Join(control, COMMA)
    requires Plain(Join(control, COMMA) + payload) && (payload != [] ==> payload[0] == SEMI) && IsTerminator(terminator)
    ensures IsQuery([0x1b, 0x5f] + ([0x47] + (Join(control, COMMA) + payload)) + terminator)
       <==> 3 + |Join(control, COMMA)| + |payload| <= 4096 && [0x61, 0x3d, 0x71] in control
  {
    var list := Join(control, COMMA);
    var body := [0x47] + (list + payload);
    assert Plain(body) by {
      forall i | 0 <= i < |body|
        ensures body[i] != ESC && body[i] != BEL
      {
        if i > 0 {
          assert body[i] == (list + payload)[i - 1];
        }
      }
    }
    StringOnly([0x1b, 0x5f] + body + terminator, Apc, body, terminator);
    assert body[1..] == list + payload;
    ControlEnds(list, payload);
    assert (list + payload)[..|list|] == list;
    SplitJoin(control, COMMA);
  }

  lemma {:induction false} ControlEnds(list: bytes, payload: bytes)
    requires SEMI !in list && (payload != [] ==> payload[0] == SEMI)
    ensures FirstIndex(list + payload, SEMI) == |list|
    decreases list
  {
    if list == [] {
      assert list + payload == payload;
    } else {
      assert (list + payload)[1..] == list[1..] + payload;
      ControlEnds(list[1..], payload);
    }
  }

  /** No other APC is a query. */
  lemma OtherApcIsKept(body: bytes, terminator: bytes)
    requires Plain(body) && IsTerminator(terminator) && (body == [] || body[0] != 0x47)
    ensures !IsQuery([0x1b, 0x5f] + body + terminator)
  {
    StringOnly([0x1b, 0x5f] + body + terminator, Apc, body, terminator);
    var none: bytes := [];
    assert KittyControl(body) == none && none[..FirstIndex(none, SEMI)] == none;
    assert Split(none, COMMA) == [none];
  }

  // ---------------------------------------------------------------------
  // Everything else
  // ---------------------------------------------------------------------

  /** DECID is a query, and apart from it every query is one of the strings above. */
  lemma NothingElse(q: bytes)
    ensures IsQuery([0x1b, 0x5a])
    ensures IsQuery(q) && q != [0x1b, 0x5a] ==>
              && |q| >= 3 && q[0] == 0x1b && q[1] in {0x5b, 0x5d, 0x50, 0x5f}
              && (q[1] == 0x5b ==> |q| <= 64 && 0x40 <= q[|q| - 1] <= 0x7e)
              && (q[1] != 0x5b ==> |q| <= 4098 && (q[|q| - 1] == 0x07 || q[|q| - 2..] == [0x1b, 0x5c]))
  {
    if IsStringQueryString(q) {
      StringOpens(q);
    }
  }

  // ---------------------------------------------------------------------
  // The early exit
  // ---------------------------------------------------------------------

  /** Some continuation of this body makes the string a query. */
  ghost predicate CanBecomeQuery(kind: StringKind, body: bytes) {
    exists more :: Plain(more) && IsStringQuery(kind, body + more)
  }

  lemma Becomes(kind: StringKind, body: bytes, more: bytes)
    requires Plain(more) && IsStringQuery(kind, body + more)
    ensures CanBecomeQuery(kind, body)
  {
  }

  lemma OscBecomes(body: bytes)
    ensures CanBecomeQuery(Osc, body)
  {
    JoinSplit(body, SEMI);
    var fields := Split(body, SEMI);
    FieldsThen(fields, [0x3f], SEMI);
    assert NoneContains(fields + [[0x3f]], SEMI);
    SplitJoin(fields + [[0x3f]], SEMI);
    assert (fields + [[0x3f]])[|fields|] == [0x3f];
    assert [SEMI] + [0x3f] == [SEMI, 0x3f];
    Becomes(Osc, body, [SEMI, 0x3f]);
  }

  lemma {:induction false} FieldsThen(fields: seq<bytes>, last: bytes, sep: byte)
    requires fields != []
    ensures Join(fields + [last], sep) == Join(fields, sep) + ([sep] + last)
  {
    if |fields| == 1 {
      assert (fields + [last])[1..] == [last];
    } else {
      assert (fields + [last])[1..] == fields[1..] + [last];
      FieldsThen(fields[1..], last, sep);
    }
  }

  lemma DcsBecomes(body: bytes)
    ensures CanBecomeQuery(Dcs, body) <==>
              (body == [] || body == [0x24] || body == [0x2b] || IsDcsQueryBody(body))
  {
    if body == [] {
      assert body + [0x24, 0x71] == [0x24, 0x71];
      Becomes(Dcs, body, [0x24, 0x71]);
    } else if body == [0x24] || body == [0x2b] {
      assert body + [0x71] == [body[0], 0x71];
      Becomes(Dcs, body, [0x71]);
    } else if IsDcsQueryBody(body) {
      assert body + [] == body;
      Becomes(Dcs, body, []);
    }
    if more :| Plain(more) && IsStringQuery(Dcs, body + more) {
      assert (body + more)[..2] == [(body + more)[0], (body + more)[1]];
      assert body != [] ==> (body + more)[0] == body[0];
      if |body| >= 2 {
        assert body[..2] == [body[0], body[1]] && (body + more)[1] == body[1];
      }
    }
  }

  /** One more control field makes any kitty command ask for a reply. */
  lemma AskedControl(control: bytes)
    ensures KittyIsQuery(control + [COMMA, 0x61, 0x3d, 0x71])
  {
    JoinSplit(control, COMMA);
    var fields, ask := Split(control, COMMA), [0x61, 0x3d, 0x71];
    FieldsThen(fields, ask, COMMA);
    assert NoneContains(fields + [ask], COMMA);
    SplitJoin(fields + [ask], COMMA);
    assert [COMMA] + ask == [COMMA, 0x61, 0x3d, 0x71];
    assert (fields + [ask])[|fields|] == ask;
  }

  /** Control data up to its end, with no payload yet. */
  lemma ControlAlone(control: bytes)
    requires SEMI !in control
    ensures IsStringQuery(Apc, [0x47] + control) <==> KittyIsQuery(control)
  {
    ControlEnds(control, []);
    assert control + [] == control && control[..|control|] == control;
    assert KittyControl([0x47] + control) == control;
  }

  lemma KittyBecomes(control: bytes)
    requires SEMI !in control
    ensures CanBecomeQuery(Apc, [0x47] + control)
  {
    var more := [COMMA, 0x61, 0x3d, 0x71];
    AskedControl(control);
    ControlAlone(control + more);
    assert ([0x47] + control) + more == [0x47] + (control + more);
    Becomes(Apc, [0x47] + control, more);
  }

  lemma KittyDecided(control: bytes, payload: bytes, more: bytes)
    requires SEMI !in control && payload != [] && payload[0] == SEMI
    ensures var body := [0x47] + (control + payload); IsStringQuery(Apc, body + more) <==> KittyIsQuery(control)
  {
    var body := [0x47] + (control + payload);
    assert KittyControl(body + more) == control + (payload + more);
    ControlEnds(control, payload + more);
    assert (control + (payload + more))[..|control|] == control;
  }

  lemma ApcBecomes(body: bytes)
    ensures CanBecomeQuery(Apc, body) <==> MayBeQuery(Apc, body)
  {
    if body == [] {
      KittyBecomes([]);
      var more :| Plain(more) && IsStringQuery(Apc, ([0x47] + []) + more);
      assert body + ([0x47] + more) == ([0x47] + []) + more;
      Becomes(Apc, body, [0x47] + more);
    } else if body[0] != 0x47 {
      forall more
        ensures !IsStringQuery(Apc, body + more)
      {
        NoKitty(body + more);
      }
    } else {
      GraphicsBecome(body);
    }
  }

  lemma NoKitty(body: bytes)
    requires body != [] && body[0] != 0x47
    ensures !IsStringQuery(Apc, body)
  {
    var none: bytes := [];
    assert KittyControl(body) == none && none[..FirstIndex(none, SEMI)] == none;
    assert Split(none, COMMA) == [none];
  }

  lemma GraphicsBecome(body: bytes)
    requires body != [] && body[0] == 0x47
    ensures CanBecomeQuery(Apc, body) <==> MayBeQuery(Apc, body)
  {
    var end := FirstIndex(body, SEMI);
    if end == |body| {
      assert body[..end] == body && body == [0x47] + body[1..];
      assert forall b :: b in body[1..] ==> b in body;
      KittyBecomes(body[1..]);
    } else {
      var control, payload := body[1..end], body[end..];
      assert body == [0x47] + (control + payload);
      assert forall b :: b in control ==> b in body[..end];
      forall more
        ensures IsStringQuery(Apc, body + more) <==> KittyIsQuery(control)
      {
        KittyDecided(control, payload, more);
      }
      if KittyIsQuery(control) {
        Becomes(Apc, body, []);
      }
    }
  }

  /**
   * The early exit gives a body up exactly when no continuation makes it a
   * query, but for one byte of grace: a DCS is judged from its second byte.
   */
  lemma EarlyExitExactly(kind: StringKind, body: bytes)
    ensures MayBeQuery(kind, body) <==> CanBecomeQuery(kind, body) || (kind == Dcs && |body| == 1)
  {
    match kind {
      case Osc => OscBecomes(body);
      case Dcs => DcsBecomes(body);
      case Apc => ApcBecomes(body);
    }
  }
}
