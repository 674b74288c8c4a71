// What a reader makes of a payload that is too short, has bytes to spare, or
// lacks the fields that later protocol versions appended.

module FramePartial {
  import opened Wrappers
  import opened Bytes
  import opened Endian
  import opened Utf8
  import opened Frames
  import opened FrameRoundTrip
  import opened FrameWire

  lemma EmptyNumber(ty: byte)
    requires DecodeEmpty(ty).Some?
    ensures Number(DecodeEmpty(ty).value) == ty
  {
  }

  lemma BlobNumber(ty: byte, p: bytes)
    requires DecodeBlob(ty, p).Some?
    ensures Number(DecodeBlob(ty, p).value) == ty
  {
  }

  lemma IdNumber(ty: byte, p: bytes)
    requires DecodeId(ty, p).Some?
    ensures Number(DecodeId(ty, p).value) == ty
  {
  }

  lemma TextNumber(ty: byte, p: bytes)
    requires DecodeText(ty, p).Some?
    ensures Number(DecodeText(ty, p).value) == ty
  {
  }

  lemma FixedNumber(ty: byte, p: bytes)
    requires DecodeFixed(ty, p).Some?
    ensures Number(DecodeFixed(ty, p).value) == ty
  {
    if ty < 0x30 {
      EarlyFixedNumber(ty, p);
    } else if ty == 0x40 || ty == 0x42 || ty == 0x46 {
      ForwardNumber(ty, p);
    } else {
      LateFixedNumber(ty, p);
    }
  }

  lemma ForwardNumber(ty: byte, p: bytes)
    requires (ty == 0x40 || ty == 0x42 || ty == 0x46) && DecodeFixed(ty, p).Some?
    ensures Number(DecodeFixed(ty, p).value) == ty
  {
  }

  lemma EarlyFixedNumber(ty: byte, p: bytes)
    requires ty < 0x30 && DecodeFixed(ty, p).Some?
    ensures Number(DecodeFixed(ty, p).value) == ty
  {
  }

  lemma LateFixedNumber(ty: byte, p: bytes)
    requires ty >= 0x30 && ty != 0x40 && ty != 0x42 && ty != 0x46 && DecodeFixed(ty, p).Some?
    ensures Number(DecodeFixed(ty, p).value) == ty
  {
  }

  // Each of these readers makes frames of one kind only.

  lemma EnvReader(p: bytes)
    ensures DecodeEnv(p).Some? ==> DecodeEnv(p).value.Env?
  {
  }

  lemma SessionInfoReader(p: bytes)
    ensures DecodeSessionInfo(p).Some? ==> DecodeSessionInfo(p).value.SessionInfo?
  {
  }

  lemma NewSessionReader(p: bytes)
    ensures DecodeNewSession(p).Some? ==> DecodeNewSession(p).value.NewSession?
  {
  }

  lemma AttachReader(p: bytes)
    ensures DecodeAttach(p).Some? ==> DecodeAttach(p).value.Attach?
  {
  }

  lemma NumberOfKind(f: Frame)
    ensures f.Env? ==> Number(f) == 22
    ensures f.SessionInfo? ==> Number(f) == 97
    ensures f.NewSession? ==> Number(f) == 80
    ensures f.Attach? ==> Number(f) == 81
  {
  }

  lemma ByReader(p: bytes)
    ensures DecodeStructured(0x16, p) == DecodeEnv(p) && DecodeStructured(0x61, p) == DecodeSessionInfo(p)
    ensures DecodeStructured(0x50, p) == DecodeNewSession(p) && DecodeStructured(0x51, p) == DecodeAttach(p)
  {
  }

  lemma StructuredNumber(ty: byte, p: bytes)
    requires DecodeStructured(ty, p).Some?
    ensures Number(DecodeStructured(ty, p).value) == ty
  {
    if ty == 0x16 || ty == 0x61 || ty == 0x50 || ty == 0x51 {
      ByReader(p);
      EnvReader(p);
      SessionInfoReader(p);
      NewSessionReader(p);
      AttachReader(p);
      NumberOfKind(DecodeStructured(ty, p).value);
    } else {
      TextLedNumber(ty, p);
    }
  }

  lemma TextLedNumber(ty: byte, p: bytes)
    requires ty != 0x16 && ty != 0x61 && ty != 0x50 && ty != 0x51 && DecodeStructured(ty, p).Some?
    ensures Number(DecodeStructured(ty, p).value) == ty
  {
  }

  /** A payload is never read as a frame of another number, and never under a number that stands for none. */
  lemma ReadUnderItsNumber(ty: byte, p: bytes)
    requires DecodePayload(ty, p).Some?
    ensures Number(DecodePayload(ty, p).value) == ty
  {
    match LayoutOf(ty) {
      case EmptyFrame => EmptyNumber(ty);
      case BlobFrame => BlobNumber(ty, p);
      case IdFrame => IdNumber(ty, p);
      case TextFrame => TextNumber(ty, p);
      case StructuredFrame => StructuredNumber(ty, p);
      case FixedFrame => FixedNumber(ty, p);
    }
  }

  /** Payload bytes a frame of that number needs at the least. */
  function Minimum(number: nat): nat {
    match number
    case 1 => 6
    case 2 => 14
    case 17 => 4
    case 18 => 4
    case 22 => 4
    case 26 => 8
    case 33 => 4
    case 34 => 4
    case 35 => 4
    case 48 => 2
    case 49 => 4
    case 50 => 4
    case 51 => 4
    case 56 => 12
    case 64 => 8
    case 65 => 4
    case 66 => 10
    case 67 => 4
    case 68 => 4
    case 69 => 4
    case 70 => 9
    case 80 => 12
    case 81 => 5
    case 86 => 2
    case 87 => 10
    case 96 => 4
    case 97 => 4
    case 99 => 2
    case 100 => 12
    case _ => 0
  }

  /** Anything shorter is refused. */
  lemma TooShort(ty: byte, p: bytes)
    requires |p| < Minimum(ty)
    ensures DecodePayload(ty, p) == None
  {
    match LayoutOf(ty) {
      case StructuredFrame => StructuredTooShort(ty, p);
      case FixedFrame => FixedTooShort(ty, p);
      case _ => ShortOneTooShort(ty, p);
    }
  }

  lemma StructuredTooShort(ty: byte, p: bytes)
    requires |p| < Minimum(ty) && LayoutOf(ty).StructuredFrame?
    ensures DecodeStructured(ty, p) == None
  {
    if ty == 0x16 || ty == 0x61 {
      ListTooShort(ty, p);
    } else if ty == 0x50 || ty == 0x51 {
      RequestTooShort(ty, p);
    } else {
      TextLedTooShort(ty, p);
    }
  }

  lemma ListTooShort(ty: byte, p: bytes)
    requires (ty == 0x16 || ty == 0x61) && |p| < 4
    ensures DecodeStructured(ty, p) == None
  {
  }

  lemma RequestTooShort(ty: byte, p: bytes)
    requires (ty == 0x50 && |p| < 12) || (ty == 0x51 && |p| < 5)
    ensures DecodeStructured(ty, p) == None
  {
  }

  lemma TextLedTooShort(ty: byte, p: bytes)
    requires ty == 0x56 || ty == 0x57 || ty == 0x63
    requires |p| < Minimum(ty)
    ensures DecodeStructured(ty, p) == None
  {
  }

  lemma FixedTooShort(ty: byte, p: bytes)
    requires |p| < Minimum(ty) && LayoutOf(ty).FixedFrame?
    ensures DecodeFixed(ty, p) == None
  {
  }

  lemma ShortOneTooShort(ty: byte, p: bytes)
    requires |p| < Minimum(ty) && !LayoutOf(ty).StructuredFrame? && !LayoutOf(ty).FixedFrame?
    ensures DecodePayload(ty, p) == None
  {
  }

  lemma OneFieldThenMore(n: nat, k: nat, extra: bytes)
    requires FitsIn(n, k)
    ensures Take1(ToBE(n, k) + extra, k) == Some(n)
  {
    TakeUintBack(n, k, extra);
  }

  lemma TwoFieldsThenMore(m: nat, j: nat, n: nat, k: nat, extra: bytes)
    requires FitsIn(m, j) && FitsIn(n, k)
    ensures Take2(ToBE(m, j) + ToBE(n, k) + extra, j, k) == Some((m, n))
  {
    AppendAssoc(ToBE(m, j), ToBE(n, k), extra);
    TakeUintBack(m, j, ToBE(n, k) + extra);
    OneFieldThenMore(n, k, extra);
  }

  lemma ThreeFieldsThenMore(l: nat, i: nat, m: nat, j: nat, n: nat, k: nat, extra: bytes)
    requires FitsIn(l, i) && FitsIn(m, j) && FitsIn(n, k)
    ensures Take3(ToBE(l, i) + (ToBE(m, j) + ToBE(n, k)) + extra, i, j, k) == Some((l, m, n))
  {
    AppendAssoc(ToBE(l, i), ToBE(m, j) + ToBE(n, k), extra);
    TakeUintBack(l, i, ToBE(m, j) + ToBE(n, k) + extra);
    TwoFieldsThenMore(m, j, n, k, extra);
  }

  lemma IdToleratesMore(f: Frame, extra: bytes)
    requires FieldsFit(f) && CarriesId(f)
    ensures DecodePayload(TypeByte(f), Payload(f) + extra) == Some(f)
  {
    IdPayload(f);
    IdFits(f);
    Fits(IdOf(f));
    OneFieldThenMore(IdOf(f), 4, extra);
    IdByType(f, ToBE(IdOf(f), 4) + extra);
    IdHasIdLayout(f);
  }

  lemma IdHasIdLayout(f: Frame)
    requires CarriesId(f)
    ensures LayoutOf(TypeByte(f)).IdFrame?
  {
  }

  lemma SingleToleratesMore(f: Frame, extra: bytes)
    requires FieldsFit(f) && (f.Resume? || f.TunnelListen?)
    ensures DecodeFixed(TypeByte(f), Payload(f) + extra) == Some(f)
  {
    match f {
      case Resume(o) => Fits(o); OneFieldThenMore(o, 8, extra);
      case TunnelListen(p) => Fits(p); OneFieldThenMore(p, 2, extra);
    }
  }

  lemma PairsTolerateMore(a: nat, b: nat, extra: bytes)
    ensures IsU16(a) && IsU16(b) ==> DecodeFixed(0x11, ToBE(a, 2) + ToBE(b, 2) + extra) == Some(Resize(a, b))
    ensures IsU32(a) && IsU64(b) ==> DecodeFixed(0x38, ToBE(a, 4) + ToBE(b, 8) + extra) == Some(SendOffer(a, b))
    ensures IsU64(a) && IsU32(b) ==> DecodeFixed(0x64, ToBE(a, 8) + ToBE(b, 4) + extra) == Some(AttachAck(a, b))
  {
    Fits(a);
    Fits(b);
    if IsU16(a) && IsU16(b) {
      TwoFieldsThenMore(a, 2, b, 2, extra);
    }
    if IsU32(a) && IsU64(b) {
      TwoFieldsThenMore(a, 4, b, 8, extra);
    }
    if IsU64(a) && IsU32(b) {
      TwoFieldsThenMore(a, 8, b, 4, extra);
    }
  }

  lemma ForwardsTolerateMore(i: nat, a: nat, t: nat, extra: bytes)
    requires IsU32(i) && IsU16(t)
    ensures var p := ToBE(i, 4) + (ToBE(a, 2) + ToBE(t, 2)) + extra;
            IsU16(a) ==> DecodeFixed(0x40, p) == Some(PortForwardListen(i, a, t))
    ensures var p := ToBE(i, 4) + (ToBE(a, 4) + ToBE(t, 2)) + extra;
            IsU32(a) ==> DecodeFixed(0x42, p) == Some(PortForwardOpen(i, a, t))
  {
    Fits(i);
    Fits(a);
    Fits(t);
    if IsU16(a) {
      ThreeFieldsThenMore(i, 4, a, 2, t, 2, extra);
    }
    if IsU32(a) {
      ThreeFieldsThenMore(i, 4, a, 4, t, 2, extra);
    }
  }

  lemma RequestToleratesMore(i: nat, d: nat, l: nat, t: nat, extra: bytes)
    requires IsU32(i) && IsU8(d) && IsU16(l) && IsU16(t)
    ensures DecodeFixed(0x46, ToBE(i, 4) + (ToBE(d, 1) + (ToBE(l, 2) + ToBE(t, 2))) + extra)
         == Some(PortForwardRequest(i, d, l, t))
  {
    Fits(i);
    Fits(d);
    Fits(l);
    Fits(t);
    var after := ToBE(d, 1) + (ToBE(l, 2) + ToBE(t, 2));
    AppendAssoc(ToBE(i, 4), after, extra);
    TakeUintBack(i, 4, after + extra);
    ThreeFieldsThenMore(d, 1, l, 2, t, 2, extra);
  }

  lemma HelloToleratesMore(v: nat, c: nat, d: nat, extra: bytes)
    requires IsU16(v) && IsU32(c) && IsU64(d)
    ensures DecodeFixed(0x01, ToBE(v, 2) + (ToBE(c, 4) + ToBE(d, 8)) + extra) == Some(Hello(v, c, d))
    ensures DecodeFixed(0x02, ToBE(v, 2) + (ToBE(c, 4) + ToBE(d, 8)) + extra) == Some(HelloAck(v, c, d))
  {
    Fits(v);
    Fits(c);
    Fits(d);
    ThreeFieldsThenMore(v, 2, c, 4, d, 8, extra);
    var p := ToBE(v, 2) + (ToBE(c, 4) + ToBE(d, 8)) + extra;
    TakeTrailingBack(d, 8, extra);
    assert p[6..] == ToBE(d, 8) + extra;
  }

  lemma ManyToleratesMore(f: Frame, extra: bytes)
    requires FieldsFit(f) && ManyNumbers(f)
    ensures DecodeFixed(TypeByte(f), Payload(f) + extra) == Some(f)
  {
    match f {
      case Hello(v, c, d) => HelloToleratesMore(v, c, d, extra);
      case HelloAck(v, c, s) => HelloToleratesMore(v, c, s, extra);
      case Resize(c, r) => PairsTolerateMore(c, r, extra);
      case SendOffer(n, t) => PairsTolerateMore(n, t, extra);
      case AttachAck(t, s) => PairsTolerateMore(t, s, extra);
      case PortForwardListen(i, l, t) => ForwardsTolerateMore(i, l, t, extra);
      case PortForwardOpen(i, c, t) => ForwardsTolerateMore(i, c, t, extra);
      case PortForwardRequest(i, d, l, t) => RequestToleratesMore(i, d, l, t, extra);
    }
  }

  lemma NumbersHaveFixedLayout(f: Frame)
    requires ManyNumbers(f) || f.Resume? || f.TunnelListen?
    ensures LayoutOf(TypeByte(f)).FixedFrame?
  {
  }

  /** Frames of fixed fields are read from any payload that holds them, bytes to spare or not. */
  lemma MoreIsTolerated(f: Frame, extra: bytes)
    requires FieldsFit(f) && (OneNumber(f) || ManyNumbers(f))
    ensures DecodePayload(Number(f), Body(f) + extra) == Some(f)
  {
    TypeNumbers(f);
    BodySpelled(f);
    if CarriesId(f) {
      IdToleratesMore(f, extra);
    } else {
      NumbersHaveFixedLayout(f);
      if ManyNumbers(f) {
        ManyToleratesMore(f, extra);
      } else {
        SingleToleratesMore(f, extra);
      }
    }
  }

  /** A greeting from before devices had ids. */
  lemma HelloWithoutDevice(v: nat, c: nat, extra: bytes)
    requires IsU16(v) && IsU32(c) && |extra| < 8
    ensures DecodePayload(1, U16(v) + (U32(c) + extra)) == Some(Hello(v, c, 0))
  {
    HelloFields(v, c, extra);
    assert LayoutOf(1).FixedFrame?;
  }

  lemma HelloFields(v: nat, c: nat, extra: bytes)
    requires IsU16(v) && IsU32(c)
    ensures var p := U16(v) + (U32(c) + extra); Take2(p, 2, 4) == Some((v, c)) && p[6..] == extra
  {
    var p := U16(v) + (U32(c) + extra);
    Fits(v);
    U16Spelled(v);
    TakeUintBack(v, 2, U32(c) + extra);
    CountThenMore(c, extra);
    Halves(U32(c), extra);
    Halves(U16(v), U32(c) + extra);
    DropTwice(p, 2, 6);
  }

  lemma {:induction false} ListThenMore<T(!new)>(take: bytes -> Option<Read<T>>, write: T -> bytes, xs: seq<T>,
                                                 extra: bytes)
    requires forall i :: 0 <= i < |xs| ==> TakenBack(take, write, xs[i])
    ensures TakeAll(take, WriteAll(write, xs) + extra, |xs|) == Some(xs)
    decreases xs
  {
    if xs == [] {
    } else {
      ListThenMore(take, write, xs[1..], extra);
      assert TakenBack(take, write, xs[0]);
      var more := WriteAll(write, xs[1..]) + extra;
      AppendAssoc(write(xs[0]), WriteAll(write, xs[1..]), extra);
      assert take(write(xs[0]) + more) == Some(Read(xs[0], more));
      assert [xs[0]] + xs[1..] == xs;
    }
  }

  /** A counted list ends with its last record, whatever follows. */
  lemma {:induction false} EnvThenMore(vars: seq<(bytes, bytes)>, extra: bytes)
    requires VarsOk(vars) && IsU32(|vars|)
    ensures DecodePayload(22, U32(|vars|) + (VarsWire(vars) + extra)) == Some(Env(vars))
  {
    forall i | 0 <= i < |vars|
      ensures TakenBack(TakeVar, WriteVar, vars[i])
    {
      VarTakenBack(vars[i]);
    }
    ListThenMore(TakeVar, WriteVar, vars, extra);
    VarsSpelled(vars);
    EnvByCount(vars, VarsWire(vars) + extra);
  }

  lemma {:induction false} EnvByCount(vars: seq<(bytes, bytes)>, rest: bytes)
    requires IsU32(|vars|) && TakeAll(TakeVar, rest, |vars|) == Some(vars)
    ensures DecodePayload(22, U32(|vars|) + rest) == Some(Env(vars))
  {
    CountThenMore(|vars|, rest);
    EnvByType(U32(|vars|) + rest);
    ByLayout(22, U32(|vars|) + rest);
  }

  lemma {:induction false} SessionInfoThenMore(es: seq<SessionEntry>, extra: bytes)
    requires EntriesOk(es) && IsU32(|es|) && forall i :: 0 <= i < |es| ==> IsU32(EntryLength(es[i]))
    ensures DecodePayload(97, U32(|es|) + (EntriesWire(es) + extra)) == Some(SessionInfo(es))
  {
    forall i | 0 <= i < |es|
      ensures TakenBack(TakeEntry, WriteEntry, es[i])
    {
      EntryTakenBack(es[i]);
    }
    ListThenMore(TakeEntry, WriteEntry, es, extra);
    EntriesSpelled(es);
    SessionInfoByCount(es, EntriesWire(es) + extra);
  }

  lemma {:induction false} SessionInfoByCount(es: seq<SessionEntry>, rest: bytes)
    requires IsU32(|es|) && TakeAll(TakeEntry, rest, |es|) == Some(es)
    ensures DecodePayload(97, U32(|es|) + rest) == Some(SessionInfo(es))
  {
    CountThenMore(|es|, rest);
    SessionInfoByType(U32(|es|) + rest);
    ByLayout(97, U32(|es|) + rest);
  }

  lemma CountThenMore(n: nat, rest: bytes)
    requires IsU32(n)
    ensures TakeUint(U32(n) + rest, 4) == Some(Read(n, rest))
  {
    Fits(n);
    Spelled(n);
    TakeUintBack(n, 4, rest);
  }

  // A payload cut inside its later fields.

  /** What is left of a cut after a field of `w` bytes. */
  function After(k: nat, w: nat): nat {
    if k < w then 0 else k - w
  }

  lemma CutSlices(field: bytes, rest: bytes, k: nat)
    requires |field| <= k <= |field| + |rest|
    ensures var p := (field + rest)[..k]; p[..|field|] == field && p[|field|..] == rest[..k - |field|]
  {
  }

  /** A field of known bytes, in a payload cut after `k`. */
  lemma CutField(field: bytes, rest: bytes, k: nat)
    requires field != [] && k <= |field| + |rest|
    ensures TakeOrSkip((field + rest)[..k], |field|)
         == Read(if k >= |field| then FromBE(field) else 0, rest[..After(k, |field|)])
    ensures TakeTrailing((field + rest)[..k], |field|)
         == if k >= |field| then Read(FromBE(field), rest[..k - |field|]) else Read(0, (field + rest)[..k])
  {
    if k >= |field| {
      CutSlices(field, rest, k);
    }
  }

  /** The bytes of a number that fits its field read as that number. */
  lemma NumbersBack(n: nat)
    ensures IsU8(n) ==> FromBE(U8(n)) == n
    ensures IsU16(n) ==> FromBE(U16(n)) == n
    ensures IsU32(n) ==> FromBE(U32(n)) == n
    ensures IsU64(n) ==> FromBE(U64(n)) == n
  {
    Spelled(n);
    Widths();
    if IsU8(n) {
      FromToBE(n, 1);
    }
    if IsU16(n) {
      FromToBE(n, 2);
    }
    if IsU32(n) {
      FromToBE(n, 4);
    }
    if IsU64(n) {
      FromToBE(n, 8);
    }
  }

  lemma TextBack(s: bytes, rest: bytes, extra: nat)
    requires IsStr16(s) && |rest| >= extra
    ensures TakeStr(Text(s) + rest, extra) == Some(Read(s, rest))
  {
    TextSpelled(s);
    TakeStrBack(s, rest, extra);
  }

  /** The later fields of an attach, with the flags as the bytes they are. */
  function LaterFields(noReplay: byte, cols: nat, rows: nat, token: nat, offset: nat, dirty: byte): bytes {
    U8(noReplay) + (U16(cols) + (U16(rows) + (U64(token) + (U64(offset) + U8(dirty)))))
  }

  /** The numbers an attach's later fields are read as when only `k` bytes of them are there. */
  ghost predicate ReadLater(p: bytes, k: nat, f: Frame, noReplay: byte, dirty: byte)
    requires f.Attach?
  {
    var first := TakeOrSkip(p, 1);
    var cols := TakeOrSkip(first.rest, 2);
    var rows := TakeOrSkip(cols.rest, 2);
    var token := TakeOrSkip(rows.rest, 8);
    var offset := TakeOrSkip(token.rest, 8);
    var last := TakeOrSkip(offset.rest, 1);
    && first.value == (if k >= 1 then noReplay else 0)
    && cols.value == (if k >= 3 then f.cols else 0) && rows.value == (if k >= 5 then f.rows else 0)
    && token.value == (if k >= 13 then f.attachToken else 0)
    && offset.value == (if k >= 21 then f.renderedOffset else 0)
    && last.value == (if k >= 22 then dirty else 0)
  }

  lemma TokensCut(token: nat, offset: nat, dirty: byte, extra: bytes, k: nat)
    requires IsU64(token) && IsU64(offset) && k <= 17 + |extra|
    ensures var first := TakeOrSkip((U64(token) + (U64(offset) + (U8(dirty) + extra)))[..k], 8);
            var second := TakeOrSkip(first.rest, 8);
            && first.value == (if k >= 8 then token else 0)
            && second.value == (if k >= 16 then offset else 0)
            && TakeOrSkip(second.rest, 1).value == (if k >= 17 then dirty else 0)
  {
    NumbersBack(token);
    NumbersBack(offset);
    NumbersBack(dirty);
    CutField(U64(token), U64(offset) + (U8(dirty) + extra), k);
    CutField(U64(offset), U8(dirty) + extra, After(k, 8));
    CutField(U8(dirty), extra, After(k, 16));
  }

  lemma LaterCut(f: Frame, noReplay: byte, dirty: byte, extra: bytes, k: nat)
    requires f.Attach? && FieldsFit(f) && k <= 22 + |extra|
    ensures var tail := LaterFields(noReplay, f.cols, f.rows, f.attachToken, f.renderedOffset, dirty) + extra;
            |tail| == 22 + |extra| && ReadLater(tail[..k], k, f, noReplay, dirty)
  {
    NumbersBack(noReplay);
    NumbersBack(f.cols);
    NumbersBack(f.rows);
    var p4 := U64(f.attachToken) + (U64(f.renderedOffset) + (U8(dirty) + extra));
    var p3 := U16(f.rows) + p4;
    var p2 := U16(f.cols) + p3;
    assert LaterFields(noReplay, f.cols, f.rows, f.attachToken, f.renderedOffset, dirty) + extra == U8(noReplay) + p2;
    CutField(U8(noReplay), p2, k);
    CutField(U16(f.cols), p3, After(k, 1));
    CutField(U16(f.rows), p4, After(k, 3));
    TokensCut(f.attachToken, f.renderedOffset, dirty, extra, After(k, 5));
  }

  /** The frame an attach is read as when only `k` bytes of its later fields are there. */
  function Shortened(f: Frame, force: byte, noReplay: byte, dirty: byte, k: nat): Frame
    requires f.Attach?
  {
    Attach(f.session, f.clientName, force != 0, k >= 1 && noReplay != 0,
           if k >= 3 then f.cols else 0, if k >= 5 then f.rows else 0,
           if k >= 13 then f.attachToken else 0, if k >= 21 then f.renderedOffset else 0,
           k >= 22 && dirty != 0)
  }

  lemma AttachRestCut(f: Frame, force: byte, noReplay: byte, dirty: byte, p: bytes, k: nat)
    requires f.Attach? && ReadLater(p, k, f, noReplay, dirty)
    ensures DecodeAttachRest(f.session, f.clientName, U8(force) + p) == Shortened(f, force, noReplay, dirty, k)
  {
    Spelled(force);
    Fits(force);
    TakeTrailingBack(force, 1, p);
  }

  /**
   * An attach cut anywhere after its force flag, or with bytes to spare: each
   * later field is read when it is all there and is 0 or off otherwise, and
   * any byte but 0 turns a flag on.
   */
  lemma AttachCut(f: Frame, force: byte, noReplay: byte, dirty: byte, extra: bytes, k: nat)
    requires f.Attach? && FieldsFit(f) && k <= 22 + |extra|
    ensures var tail := LaterFields(noReplay, f.cols, f.rows, f.attachToken, f.renderedOffset, dirty) + extra;
            && |tail| == 22 + |extra|
            && DecodePayload(81, Text(f.session) + (Text(f.clientName) + (U8(force) + tail[..k])))
            == Some(Shortened(f, force, noReplay, dirty, k))
  {
    var tail := LaterFields(noReplay, f.cols, f.rows, f.attachToken, f.renderedOffset, dirty) + extra;
    LaterCut(f, noReplay, dirty, extra, k);
    AttachRestCut(f, force, noReplay, dirty, tail[..k], k);
    AttachWithRest(f, U8(force) + tail[..k]);
  }

  lemma AttachWithRest(f: Frame, rest: bytes)
    requires f.Attach? && FieldsFit(f) && rest != []
    ensures DecodePayload(81, Text(f.session) + (Text(f.clientName) + rest))
         == Some(DecodeAttachRest(f.session, f.clientName, rest))
  {
    TextBack(f.session, Text(f.clientName) + rest, 2);
    TextBack(f.clientName, rest, 1);
    var p := Text(f.session) + (Text(f.clientName) + rest);
    RequestByType(p);
  }

  lemma RequestByType(p: bytes)
    ensures DecodePayload(81, p) == DecodeAttach(p) && DecodePayload(80, p) == DecodeNewSession(p)
  {
    RequestLayouts();
    ByLayout(81, p);
    ByLayout(80, p);
    ByReader(p);
  }

  lemma RequestLayouts()
    ensures LayoutOf(81).StructuredFrame? && LayoutOf(80).StructuredFrame?
  {
  }

  // A creation request cut inside its later fields.

  /** The client's name and the linger as read from `p`: both optional, but a name begun must be whole. */
  ghost predicate ReadCreationTail(p: bytes, got: Option<(bytes, nat)>) {
    var client := if |p| >= 2 then TakeStr(p, 0) else Some(Read([], p));
    got == match client
           case None => None
           case Some(c) => Some((c.value, TakeTrailing(c.rest, 8).value))
  }

  /**
   * What a creation request cut `k` bytes into its later fields gives: no
   * client and no linger before the client's name starts, nothing at all in
   * the middle of that name, and no linger before it is whole.
   */
  function CutCreation(f: Frame, k: nat): Option<(bytes, nat)>
    requires f.NewSession?
  {
    if k < 2 then Some(([], 0))
    else if k < 2 + |f.clientName| then None
    else Some((f.clientName, if k >= 10 + |f.clientName| then f.lingerSecs else 0))
  }

  lemma CreationTailCut(f: Frame, extra: bytes, k: nat)
    requires f.NewSession? && FieldsFit(f) && k <= 10 + |f.clientName| + |extra|
    ensures var tail := Text(f.clientName) + (U64(f.lingerSecs) + extra);
            |tail| == 10 + |f.clientName| + |extra| && ReadCreationTail(tail[..k], CutCreation(f, k))
  {
    var later := U64(f.lingerSecs) + extra;
    var tail := Text(f.clientName) + later;
    var j := 2 + |f.clientName|;
    if k >= j {
      assert tail[..k] == Text(f.clientName) + later[..k - j];
      TextBack(f.clientName, later[..k - j], 0);
      NumbersBack(f.lingerSecs);
      CutField(U64(f.lingerSecs), extra, k - j);
    } else if k >= 2 {
      StringCut(f.clientName, later, k);
    }
  }

  lemma StringCut(s: bytes, rest: bytes, k: nat)
    requires IsStr16(s) && 2 <= k < 2 + |s|
    ensures TakeStr((Text(s) + rest)[..k], 0) == None
  {
    Fits(|s|);
    FromToBE(|s|, 2);
    TextSpelled(s);
    assert (Text(s) + rest)[..k][..2] == ToBE(|s|, 2);
  }

  /** A creation request with its later fields cut anywhere, or with bytes to spare. */
  lemma CreationCut(f: Frame, extra: bytes, k: nat)
    requires f.NewSession? && FieldsFit(f) && k <= 10 + |f.clientName| + |extra|
    ensures var tail := Text(f.clientName) + (U64(f.lingerSecs) + extra);
            var got := CutCreation(f, k);
            && |tail| == 10 + |f.clientName| + |extra|
            && DecodePayload(80, CreationHead(f) + tail[..k])
            == if |CreationHead(f)| + k < 12 || got == None then None
               else Some(f.(clientName := got.value.0, lingerSecs := got.value.1))
  {
    var tail := Text(f.clientName) + (U64(f.lingerSecs) + extra);
    CreationTailCut(f, extra, k);
    CreationWithTail(f, tail[..k], CutCreation(f, k));
    RequestByType(CreationHead(f) + tail[..k]);
  }

  /** The two sizes and then the later fields. */
  lemma CreationSizes(f: Frame, tail: bytes)
    requires f.NewSession? && FieldsFit(f)
    ensures var rows := U16(f.rows) + tail;
            && TakeTrailing(U16(f.cols) + rows, 2) == Read(f.cols, rows)
            && TakeTrailing(rows, 2) == Read(f.rows, tail)
  {
    var rows := U16(f.rows) + tail;
    NumbersBack(f.cols);
    NumbersBack(f.rows);
    CutField(U16(f.cols), rows, 2 + |rows|);
    CutField(U16(f.rows), tail, |rows|);
    assert (U16(f.cols) + rows)[..2 + |rows|] == U16(f.cols) + rows && rows[..|rows|] == rows;
    assert tail[..|tail|] == tail;
  }

  lemma CreationTexts(f: Frame, sizes: bytes)
    requires f.NewSession? && FieldsFit(f) && |sizes| >= 4
    ensures var cwd := Text(f.cwd) + sizes;
            var command := Text(f.command) + cwd;
            && TakeStr(Text(f.name) + command, 2) == Some(Read(f.name, command))
            && TakeStr(command, 2) == Some(Read(f.command, cwd))
            && TakeStr(cwd, 4) == Some(Read(f.cwd, sizes))
  {
    var cwd := Text(f.cwd) + sizes;
    TextBack(f.name, Text(f.command) + cwd, 2);
    TextBack(f.command, cwd, 2);
    TextBack(f.cwd, sizes, 4);
  }

  lemma CreationJoins(f: Frame, tail: bytes)
    requires f.NewSession?
    ensures CreationHead(f) + tail
         == Text(f.name) + (Text(f.command) + (Text(f.cwd) + (U16(f.cols) + (U16(f.rows) + tail))))
  {
    var sizes := U16(f.cols) + U16(f.rows);
    var a, b, c := Text(f.name), Text(f.command), Text(f.cwd);
    AppendAssoc(a, b + (c + sizes), tail);
    AppendAssoc(b, c + sizes, tail);
    AppendAssoc(c, sizes, tail);
    AppendAssoc(U16(f.cols), U16(f.rows), tail);
  }

  lemma CreationWithTail(f: Frame, tail: bytes, got: Option<(bytes, nat)>)
    requires f.NewSession? && FieldsFit(f) && ReadCreationTail(tail, got)
    ensures DecodeNewSession(CreationHead(f) + tail)
         == if |CreationHead(f)| + |tail| < 12 || got == None then None
            else Some(f.(clientName := got.value.0, lingerSecs := got.value.1))
  {
    CreationJoins(f, tail);
    CreationSizes(f, tail);
    CreationTexts(f, U16(f.cols) + (U16(f.rows) + tail));
  }

  // A session entry cut inside its later fields.

  /** What a session entry always carries, with its attached flag as the byte it is. */
  function EntryHead(e: SessionEntry, attached: byte): bytes {
    U32(e.id) + (Text(e.name) + (Text(e.ptyPath) + (U32(e.shellPid) + (U64(e.createdAt) + (U8(attached)
    + (U64(e.lastHeartbeat) + (Text(e.foregroundCmd) + (Text(e.cwd) + Text(e.clientName)))))))))
  }

  function EntryLater(agent: byte, last: byte, activity: nat, linger: nat): bytes {
    U8(agent) + (U8(last) + (U64(activity) + U64(linger)))
  }

  /** The entry that is read when only `k` bytes of its later fields are there. */
  function ShortenedEntry(e: SessionEntry, attached: byte, agent: byte, last: byte, k: nat): SessionEntry {
    e.(attached := attached != 0, agentForwardingActive := k >= 1 && agent != 0, isLastAttached := k >= 2 && last != 0,
       lastActivity := if k >= 10 then e.lastActivity else 0, lingerSecs := if k >= 18 then e.lingerSecs else 0)
  }

  ghost predicate ReadEntryLater(p: bytes, e: SessionEntry, agent: byte, last: byte, k: nat) {
    var a := TakeTrailing(p, 1);
    var l := TakeTrailing(a.rest, 1);
    var activity := TakeTrailing(l.rest, 8);
    var linger := TakeTrailing(activity.rest, 8);
    && a.value == (if k >= 1 then agent else 0) && l.value == (if k >= 2 then last else 0)
    && activity.value == (if k >= 10 then e.lastActivity else 0)
    && linger.value == (if k >= 18 then e.lingerSecs else 0)
  }

  lemma EntryNumbersCut(activity: nat, linger: nat, extra: bytes, k: nat)
    requires IsU64(activity) && IsU64(linger) && k <= 16 + |extra|
    ensures var first := TakeTrailing((U64(activity) + (U64(linger) + extra))[..k], 8);
            && first.value == (if k >= 8 then activity else 0)
            && TakeTrailing(first.rest, 8).value == (if k >= 16 then linger else 0)
  {
    NumbersBack(activity);
    NumbersBack(linger);
    CutField(U64(activity), U64(linger) + extra, k);
    if k >= 8 {
      CutField(U64(linger), extra, k - 8);
    }
  }

  lemma EntryLaterCut(e: SessionEntry, agent: byte, last: byte, extra: bytes, k: nat)
    requires EntryOk(e) && k <= 18 + |extra|
    ensures var tail := EntryLater(agent, last, e.lastActivity, e.lingerSecs) + extra;
            |tail| == 18 + |extra| && ReadEntryLater(tail[..k], e, agent, last, k)
  {
    NumbersBack(agent);
    NumbersBack(last);
    var p3 := U64(e.lastActivity) + (U64(e.lingerSecs) + extra);
    var p2 := U8(last) + p3;
    assert EntryLater(agent, last, e.lastActivity, e.lingerSecs) + extra == U8(agent) + p2;
    CutField(U8(agent), p2, k);
    CutField(U8(last), p3, After(k, 1));
    EntryNumbersCut(e.lastActivity, e.lingerSecs, extra, After(k, 2));
    assert p3[..0] == [];
  }

  /** A session entry with its later fields cut anywhere, or with bytes to spare. */
  lemma EntryCut(e: SessionEntry, attached: byte, agent: byte, last: byte, extra: bytes, k: nat)
    requires EntryOk(e) && k <= 18 + |extra|
    ensures var tail := EntryLater(agent, last, e.lastActivity, e.lingerSecs) + extra;
            && |tail| == 18 + |extra|
            && DecodeEntry(EntryHead(e, attached) + tail[..k]) == Some(ShortenedEntry(e, attached, agent, last, k))
  {
    var tail := EntryLater(agent, last, e.lastActivity, e.lingerSecs) + extra;
    EntryLaterCut(e, agent, last, extra, k);
    EntryWithTail(e, attached, agent, last, k, tail[..k]);
  }

  lemma EntryNumbersBack(e: SessionEntry, attached: byte, rest: bytes)
    requires EntryOk(e)
    ensures var p := U32(e.shellPid) + (U64(e.createdAt) + (U8(attached) + (U64(e.lastHeartbeat) + rest)));
            && FromBE(p[..4]) == e.shellPid && FromBE(p[4..][..8]) == e.createdAt
            && p[4..][8..][0] == attached && FromBE(p[4..][8..][1..][..8]) == e.lastHeartbeat
            && p[4..][8..][1..][8..] == rest
  {
    NumbersBack(e.shellPid);
    NumbersBack(e.createdAt);
    NumbersBack(e.lastHeartbeat);
    var flag := U8(attached) + (U64(e.lastHeartbeat) + rest);
    Halves(U32(e.shellPid), U64(e.createdAt) + flag);
    Halves(U64(e.createdAt), flag);
    FlagAndHeartbeat(attached, e.lastHeartbeat, rest);
  }

  lemma FlagAndHeartbeat(attached: byte, n: nat, rest: bytes)
    ensures var p := U8(attached) + (U64(n) + rest);
            p[0] == attached && p[1..][..8] == U64(n) && p[1..][8..] == rest
  {
    Halves(U8(attached), U64(n) + rest);
    Halves(U64(n), rest);
  }

  lemma Halves(a: bytes, b: bytes)
    ensures (a + b)[..|a|] == a && (a + b)[|a|..] == b
    ensures a != [] ==> (a + b)[0] == a[0]
  {
  }

  lemma EntryTextsBack(e: SessionEntry, tail: bytes)
    requires EntryOk(e)
    ensures var client := Text(e.clientName) + tail;
            && TakeStr(Text(e.foregroundCmd) + (Text(e.cwd) + client), 0)
               == Some(Read(e.foregroundCmd, Text(e.cwd) + client))
            && TakeStr(Text(e.cwd) + client, 0) == Some(Read(e.cwd, client))
            && TakeStr(client, 0) == Some(Read(e.clientName, tail))
  {
    var client := Text(e.clientName) + tail;
    TextBack(e.foregroundCmd, Text(e.cwd) + client, 0);
    TextBack(e.cwd, client, 0);
    TextBack(e.clientName, tail, 0);
  }

  function EntryMiddle(e: SessionEntry, attached: byte, texts: bytes): bytes {
    U32(e.shellPid) + (U64(e.createdAt) + (U8(attached) + (U64(e.lastHeartbeat) + texts)))
  }

  function EntryTexts(e: SessionEntry, tail: bytes): bytes {
    Text(e.foregroundCmd) + (Text(e.cwd) + (Text(e.clientName) + tail))
  }

  lemma EntryMiddleBack(e: SessionEntry, attached: byte, agent: byte, last: byte, k: nat,
                        texts: bytes, cwd: bytes, client: bytes, tail: bytes)
    requires EntryOk(e) && ReadEntryLater(tail, e, agent, last, k)
    requires TakeStr(texts, 0) == Some(Read(e.foregroundCmd, cwd)) && TakeStr(cwd, 0) == Some(Read(e.cwd, client))
    requires TakeStr(client, 0) == Some(Read(e.clientName, tail))
    ensures |EntryMiddle(e, attached, texts)| >= 21
    ensures DecodeEntryMiddle(e.id, e.name, e.ptyPath, EntryMiddle(e, attached, texts))
         == Some(ShortenedEntry(e, attached, agent, last, k))
  {
    EntryNumbersBack(e, attached, texts);
  }

  lemma EntryJoins(e: SessionEntry, attached: byte, tail: bytes)
    ensures EntryHead(e, attached) + tail
         == U32(e.id) + (Text(e.name) + (Text(e.ptyPath) + EntryMiddle(e, attached, EntryTexts(e, tail))))
  {
    var texts := Text(e.foregroundCmd) + (Text(e.cwd) + Text(e.clientName));
    var a, b, c, d := U32(e.shellPid), U64(e.createdAt), U8(attached), U64(e.lastHeartbeat);
    AppendAssoc(Text(e.cwd), Text(e.clientName), tail);
    AppendAssoc(Text(e.foregroundCmd), Text(e.cwd) + Text(e.clientName), tail);
    AppendAssoc(d, texts, tail);
    AppendAssoc(c, d + texts, tail);
    AppendAssoc(b, c + (d + texts), tail);
    AppendAssoc(a, b + (c + (d + texts)), tail);
    AppendAssoc(Text(e.ptyPath), a + (b + (c + (d + texts))), tail);
    AppendAssoc(Text(e.name), Text(e.ptyPath) + (a + (b + (c + (d + texts)))), tail);
    AppendAssoc(U32(e.id), Text(e.name) + (Text(e.ptyPath) + (a + (b + (c + (d + texts))))), tail);
  }

  lemma EntryWithTail(e: SessionEntry, attached: byte, agent: byte, last: byte, k: nat, tail: bytes)
    requires EntryOk(e) && ReadEntryLater(tail, e, agent, last, k)
    ensures DecodeEntry(EntryHead(e, attached) + tail) == Some(ShortenedEntry(e, attached, agent, last, k))
  {
    var client := Text(e.clientName) + tail;
    var middle := EntryMiddle(e, attached, EntryTexts(e, tail));
    var pty := Text(e.ptyPath) + middle;
    var name := Text(e.name) + pty;
    EntryJoins(e, attached, tail);
    NumbersBack(e.id);
    assert (U32(e.id) + name)[..4] == U32(e.id) && (U32(e.id) + name)[4..] == name;
    TextBack(e.name, pty, 0);
    TextBack(e.ptyPath, middle, 0);
    EntryTextsBack(e, tail);
    EntryMiddleBack(e, attached, agent, last, k, EntryTexts(e, tail), Text(e.cwd) + client, client, tail);
  }
}
