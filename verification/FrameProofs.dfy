// The codec's round trips: one frame, a cut frame, and whole streams.

module FrameRoundTrip {
  import opened Wrappers
  import opened Bytes
  import opened Endian
  import opened Utf8
  import opened Frames

  // ---------------------------------------------------------------------
  // Reading back one field
  // ---------------------------------------------------------------------

  ghost predicate FitsIn(n: nat, k: nat) {
    n < Pow256(k)
  }

  lemma Fits(n: nat)
    ensures n < 0x100 ==> FitsIn(n, 1)
    ensures n <= U16_MAX ==> FitsIn(n, 2)
    ensures n <= U32_MAX ==> FitsIn(n, 4)
    ensures n <= U64_MAX ==> FitsIn(n, 8)
  {
    Widths();
  }

  lemma TakeUintBack(n: nat, k: nat, rest: bytes)
    requires FitsIn(n, k)
    ensures TakeUint(ToBE(n, k) + rest, k) == Some(Read(n, rest))
  {
    FromToBE(n, k);
    assert (ToBE(n, k) + rest)[..k] == ToBE(n, k);
    assert (ToBE(n, k) + rest)[k..] == rest;
  }

  lemma Take1Back(n: nat, k: nat)
    requires FitsIn(n, k)
    ensures Take1(ToBE(n, k), k) == Some(n)
  {
    TakeUintBack(n, k, []);
    assert ToBE(n, k) + [] == ToBE(n, k);
  }

  lemma Take2Back(m: nat, j: nat, n: nat, k: nat)
    requires FitsIn(m, j) && FitsIn(n, k)
    ensures Take2(ToBE(m, j) + ToBE(n, k), j, k) == Some((m, n))
  {
    TakeUintBack(m, j, ToBE(n, k));
    Take1Back(n, k);
  }

  lemma Take3Back(l: nat, i: nat, m: nat, j: nat, n: nat, k: nat)
    requires FitsIn(l, i) && FitsIn(m, j) && FitsIn(n, k)
    ensures Take3(ToBE(l, i) + (ToBE(m, j) + ToBE(n, k)), i, j, k) == Some((l, m, n))
  {
    TakeUintBack(l, i, ToBE(m, j) + ToBE(n, k));
    Take2Back(m, j, n, k);
  }

  lemma TakeStrBack(s: bytes, rest: bytes, extra: nat)
    requires IsStr16(s) && |rest| >= extra
    ensures TakeStr(Str16(s) + rest, extra) == Some(Read(s, rest))
  {
    Fits(|s|);
    FromToBE(|s|, 2);
    var p := Str16(s) + rest;
    assert p[..2] == ToBE(|s|, 2);
    assert p[2..2 + |s|] == s;
    assert p[2 + |s|..] == rest;
  }

  lemma TakeTrailingBack(n: nat, k: nat, rest: bytes)
    requires FitsIn(n, k)
    ensures TakeTrailing(ToBE(n, k) + rest, k) == Read(n, rest)
    ensures TakeOrSkip(ToBE(n, k) + rest, k) == Read(n, rest)
  {
    TakeUintBack(n, k, rest);
  }

  lemma TakeFlagBack(b: bool, rest: bytes)
    ensures TakeTrailing(Flag(b) + rest, 1) == Read(if b then 1 else 0, rest)
    ensures TakeOrSkip(Flag(b) + rest, 1) == Read(if b then 1 else 0, rest)
  {
    assert (Flag(b) + rest)[..1] == Flag(b) && (Flag(b) + rest)[1..] == rest;
    assert Flag(b)[..0] == [];
    assert FromBE(Flag(b)) == 256 * FromBE([]) + Flag(b)[0];
  }

  // ---------------------------------------------------------------------
  // One payload
  // ---------------------------------------------------------------------

  /** An error code survives the wire exactly when it is canonical. */
  lemma ErrorCodeRoundTrip(c: ErrorCode)
    ensures ErrorFromU16(ErrorToU16(c)) == c <==> !(c.Unknown? && 1 <= c.value <= 8)
  {
  }

  /** The one number an `IdFrame` carries. */
  ghost function IdOf(f: Frame): nat {
    match f
    case Exit(c) => if -0x8000_0000 <= c then FromI32(c) else 0
    case AgentOpen(c) => c
    case AgentClose(c) => c
    case TunnelOpen(c) => c
    case TunnelClose(c) => c
    case PortForwardReady(i) => i
    case PortForwardClose(c) => c
    case PortForwardStop(i) => i
    case SessionCreated(i) => i
    case _ => 0
  }

  ghost predicate CarriesId(f: Frame) {
    || f.Exit? || f.AgentOpen? || f.AgentClose? || f.TunnelOpen? || f.TunnelClose? || f.PortForwardReady?
    || f.PortForwardClose? || f.PortForwardStop? || f.SessionCreated?
  }

  lemma IdLayout(f: Frame)
    requires LayoutOf(TypeByte(f)).IdFrame?
    ensures CarriesId(f)
  {
  }

  lemma IdPayload(f: Frame)
    requires FieldsFit(f) && CarriesId(f)
    ensures Payload(f) == ToBE(IdOf(f), 4) && PayloadLength(f) == 4
  {
  }

  lemma IdFits(f: Frame)
    requires FieldsFit(f) && CarriesId(f)
    ensures IdOf(f) <= U32_MAX
  {
  }

  lemma IdByType(f: Frame, p: bytes)
    requires FieldsFit(f) && CarriesId(f) && Take1(p, 4) == Some(IdOf(f))
    ensures DecodeId(TypeByte(f), p) == Some(f)
  {
  }

  lemma IdFrameSurvives(f: Frame)
    requires FieldsFit(f) && LayoutOf(TypeByte(f)).IdFrame?
    ensures |Payload(f)| == PayloadLength(f) && DecodeId(TypeByte(f), Payload(f)) == Some(f)
  {
    IdLayout(f);
    IdPayload(f);
    IdFits(f);
    Fits(IdOf(f));
    Take1Back(IdOf(f), 4);
    IdByType(f, ToBE(IdOf(f), 4));
  }

  lemma ResizeSurvives(c: nat, r: nat)
    requires IsU16(c) && IsU16(r)
    ensures DecodeFixed(0x11, ToBE(c, 2) + ToBE(r, 2)) == Some(Resize(c, r))
  {
    Fits(c);
    Fits(r);
    Take2Back(c, 2, r, 2);
  }

  lemma SendOfferSurvives(n: nat, t: nat)
    requires IsU32(n) && IsU64(t)
    ensures DecodeFixed(0x38, ToBE(n, 4) + ToBE(t, 8)) == Some(SendOffer(n, t))
  {
    Fits(n);
    Fits(t);
    Take2Back(n, 4, t, 8);
  }

  lemma AttachAckSurvives(t: nat, s: nat)
    requires IsU64(t) && IsU32(s)
    ensures DecodeFixed(0x64, ToBE(t, 8) + ToBE(s, 4)) == Some(AttachAck(t, s))
  {
    Fits(t);
    Fits(s);
    Take2Back(t, 8, s, 4);
  }

  lemma SingleSurvives(f: Frame)
    requires FieldsFit(f) && (f.Resume? || f.TunnelListen?)
    ensures |Payload(f)| == PayloadLength(f) && DecodeFixed(TypeByte(f), Payload(f)) == Some(f)
  {
    match f {
      case Resume(o) => Fits(o); Take1Back(o, 8);
      case TunnelListen(p) => Fits(p); Take1Back(p, 2);
    }
  }

  lemma ForwardListenSurvives(i: nat, l: nat, t: nat)
    requires IsU32(i) && IsU16(l) && IsU16(t)
    ensures DecodeFixed(0x40, ToBE(i, 4) + (ToBE(l, 2) + ToBE(t, 2))) == Some(PortForwardListen(i, l, t))
  {
    Fits(i);
    Fits(l);
    Fits(t);
    Take3Back(i, 4, l, 2, t, 2);
  }

  lemma ForwardOpenSurvives(i: nat, c: nat, t: nat)
    requires IsU32(i) && IsU32(c) && IsU16(t)
    ensures DecodeFixed(0x42, ToBE(i, 4) + (ToBE(c, 4) + ToBE(t, 2))) == Some(PortForwardOpen(i, c, t))
  {
    Fits(i);
    Fits(c);
    Fits(t);
    Take3Back(i, 4, c, 4, t, 2);
  }

  lemma ForwardRequestSurvives(i: nat, d: nat, l: nat, t: nat)
    requires IsU32(i) && IsU8(d) && IsU16(l) && IsU16(t)
    ensures DecodeFixed(0x46, ToBE(i, 4) + (ToBE(d, 1) + (ToBE(l, 2) + ToBE(t, 2))))
         == Some(PortForwardRequest(i, d, l, t))
  {
    Fits(i);
    Fits(d);
    Fits(l);
    Fits(t);
    Take3Back(d, 1, l, 2, t, 2);
    TakeUintBack(i, 4, ToBE(d, 1) + (ToBE(l, 2) + ToBE(t, 2)));
  }

  lemma HelloSurvives(v: nat, c: nat, d: nat)
    requires IsU16(v) && IsU32(c) && IsU64(d)
    ensures var p := ToBE(v, 2) + (ToBE(c, 4) + ToBE(d, 8));
            |p| == 14 && Take2(p, 2, 4) == Some((v, c)) && TakeTrailing(p[6..], 8).value == d
  {
    Fits(v);
    Fits(c);
    Fits(d);
    TakeUintBack(v, 2, ToBE(c, 4) + ToBE(d, 8));
    TakeUintBack(c, 4, ToBE(d, 8));
    TakeTrailingBack(d, 8, []);
    assert ToBE(d, 8) + [] == ToBE(d, 8);
    assert (ToBE(v, 2) + (ToBE(c, 4) + ToBE(d, 8)))[6..] == ToBE(d, 8);
  }

  lemma HelloAckSurvives(v: nat, c: nat, s: nat)
    requires IsU16(v) && IsU32(c) && IsU64(s)
    ensures var p := ToBE(v, 2) + (ToBE(c, 4) + ToBE(s, 8)); |p| == 14 && Take3(p, 2, 4, 8) == Some((v, c, s))
  {
    Fits(v);
    Fits(c);
    Fits(s);
    Take3Back(v, 2, c, 4, s, 8);
  }

  lemma PairSurvives(f: Frame)
    requires FieldsFit(f) && (f.Resize? || f.SendOffer? || f.AttachAck?)
    ensures |Payload(f)| == PayloadLength(f) && DecodeFixed(TypeByte(f), Payload(f)) == Some(f)
  {
    match f {
      case Resize(c, r) => ResizeSurvives(c, r);
      case SendOffer(n, t) => SendOfferSurvives(n, t);
      case AttachAck(t, s) => AttachAckSurvives(t, s);
    }
  }

  lemma ForwardSurvives(f: Frame)
    requires FieldsFit(f) && (f.PortForwardListen? || f.PortForwardOpen? || f.PortForwardRequest?)
    ensures |Payload(f)| == PayloadLength(f) && DecodeFixed(TypeByte(f), Payload(f)) == Some(f)
  {
    match f {
      case PortForwardListen(i, l, t) => ForwardListenSurvives(i, l, t);
      case PortForwardOpen(i, c, t) => ForwardOpenSurvives(i, c, t);
      case PortForwardRequest(i, d, l, t) => ForwardRequestSurvives(i, d, l, t);
    }
  }

  lemma GreetingSurvives(f: Frame)
    requires FieldsFit(f) && (f.Hello? || f.HelloAck?)
    ensures |Payload(f)| == PayloadLength(f) && DecodeFixed(TypeByte(f), Payload(f)) == Some(f)
  {
    match f {
      case Hello(v, c, d) => HelloSurvives(v, c, d);
      case HelloAck(v, c, s) => HelloAckSurvives(v, c, s);
    }
  }

  lemma FixedLayout(f: Frame)
    requires LayoutOf(TypeByte(f)).FixedFrame?
    ensures || f.Hello? || f.HelloAck? || f.Resume? || f.TunnelListen? || f.Resize? || f.SendOffer? || f.AttachAck?
            || f.PortForwardListen? || f.PortForwardOpen? || f.PortForwardRequest?
  {
  }

  lemma FixedFrameSurvives(f: Frame)
    requires FieldsFit(f) && LayoutOf(TypeByte(f)).FixedFrame?
    ensures |Payload(f)| == PayloadLength(f) && DecodeFixed(TypeByte(f), Payload(f)) == Some(f)
  {
    FixedLayout(f);
    if f.Hello? || f.HelloAck? {
      GreetingSurvives(f);
    } else if f.Resume? || f.TunnelListen? {
      SingleSurvives(f);
    } else if f.Resize? || f.SendOffer? || f.AttachAck? {
      PairSurvives(f);
    } else {
      ForwardSurvives(f);
    }
  }

  lemma PrefixedBlobSurvives(f: Frame)
    requires FieldsFit(f) && (f.AgentData? || f.TunnelData? || f.PortForwardData?)
    ensures |Payload(f)| == PayloadLength(f) && DecodeBlob(TypeByte(f), Payload(f)) == Some(f)
  {
    Fits(f.channelId);
    TakeUintBack(f.channelId, 4, f.data);
    match f {
      case AgentData(c, d) => assert Payload(f) == ToBE(c, 4) + d;
      case TunnelData(c, d) => assert Payload(f) == ToBE(c, 4) + d;
      case PortForwardData(c, d) => assert Payload(f) == ToBE(c, 4) + d;
    }
  }

  lemma BlobFrameSurvives(f: Frame)
    requires FieldsFit(f) && LayoutOf(TypeByte(f)).BlobFrame?
    ensures |Payload(f)| == PayloadLength(f) && DecodeBlob(TypeByte(f), Payload(f)) == Some(f)
  {
    if f.AgentData? || f.TunnelData? || f.PortForwardData? {
      PrefixedBlobSurvives(f);
    } else {
      assert f.Data? || f.Notice? || f.ClipboardSet? || f.ClipboardData? || f.DiagResponse?;
      if f.DiagResponse? {
        LossyKeepsValid(f.text);
      }
    }
  }

  ghost predicate CarriesText(f: Frame) {
    f.OpenUrl? || f.SendCancel? || f.SendFile? || f.KillSession? || f.Tail?
  }

  lemma TextLayout(f: Frame)
    requires LayoutOf(TypeByte(f)).TextFrame?
    ensures CarriesText(f)
  {
  }

  lemma TextByType(f: Frame)
    requires FieldsFit(f) && CarriesText(f)
    ensures |Payload(f)| == PayloadLength(f) && DecodeText(TypeByte(f), Payload(f)) == Some(f)
  {
  }

  lemma TextFrameSurvives(f: Frame)
    requires FieldsFit(f) && LayoutOf(TypeByte(f)).TextFrame?
    ensures |Payload(f)| == PayloadLength(f) && DecodeText(TypeByte(f), Payload(f)) == Some(f)
  {
    TextLayout(f);
    TextByType(f);
  }

  lemma RenameSurvives(s: bytes, n: bytes)
    requires IsStr16(s) && ValidUtf8(n)
    ensures DecodeStructured(0x56, Str16(s) + n) == Some(RenameSession(s, n))
  {
    TakeStrBack(s, n, 0);
  }

  lemma SetLingerSurvives(s: bytes, l: nat)
    requires IsStr16(s) && IsU64(l)
    ensures DecodeStructured(0x57, Str16(s) + ToBE(l, 8)) == Some(SetLinger(s, l))
  {
    Fits(l);
    TakeStrBack(s, ToBE(l, 8), 8);
    FromToBE(l, 8);
    assert ToBE(l, 8)[..8] == ToBE(l, 8);
  }

  lemma ErrorSurvives(c: ErrorCode, m: bytes)
    requires IsCanonical(c) && ValidUtf8(m)
    ensures DecodeStructured(0x63, ToBE(ErrorToU16(c), 2) + m) == Some(Error(c, m))
  {
    Fits(ErrorToU16(c));
    TakeUintBack(ErrorToU16(c), 2, m);
    ErrorCodeRoundTrip(c);
  }

  ghost function NewSessionSizes(f: Frame): bytes
    requires f.NewSession?
  {
    ToBE(f.cols, 2) + (ToBE(f.rows, 2) + (Str16(f.clientName) + ToBE(f.lingerSecs, 8)))
  }

  lemma NewSessionSizesSurvive(f: Frame)
    requires FieldsFit(f) && f.NewSession?
    ensures var p := NewSessionSizes(f);
            var cols := TakeTrailing(p, 2);
            var rows := TakeTrailing(cols.rest, 2);
            && cols.value == f.cols && rows.value == f.rows && |rows.rest| >= 2
            && TakeStr(rows.rest, 0) == Some(Read(f.clientName, ToBE(f.lingerSecs, 8)))
            && TakeTrailing(ToBE(f.lingerSecs, 8), 8).value == f.lingerSecs
    ensures |NewSessionSizes(f)| == 14 + |f.clientName|
  {
    Fits(f.cols);
    Fits(f.rows);
    Fits(f.lingerSecs);
    var linger := ToBE(f.lingerSecs, 8);
    var client := Str16(f.clientName) + linger;
    TakeTrailingBack(f.cols, 2, ToBE(f.rows, 2) + client);
    TakeTrailingBack(f.rows, 2, client);
    TakeStrBack(f.clientName, linger, 0);
    TakeTrailingBack(f.lingerSecs, 8, []);
    assert linger + [] == linger;
  }

  lemma NewSessionSurvives(f: Frame)
    requires FieldsFit(f) && f.NewSession?
    ensures |Payload(f)| == PayloadLength(f) && DecodeNewSession(Payload(f)) == Some(f)
  {
    var sizes := NewSessionSizes(f);
    var cwd := Str16(f.cwd) + sizes;
    NewSessionSizesSurvive(f);
    TakeStrBack(f.name, Str16(f.command) + cwd, 2);
    TakeStrBack(f.command, cwd, 2);
    TakeStrBack(f.cwd, sizes, 4);
    assert Payload(f) == Str16(f.name) + (Str16(f.command) + cwd);
  }

  ghost function AttachNumbers(f: Frame): bytes
    requires f.Attach?
  {
    ToBE(f.cols, 2) + (ToBE(f.rows, 2) + (ToBE(f.attachToken, 8) + (ToBE(f.renderedOffset, 8) + Flag(f.lineDirty))))
  }

  lemma AttachNumbersSurvive(f: Frame)
    requires FieldsFit(f) && f.Attach?
    ensures var cols := TakeOrSkip(AttachNumbers(f), 2);
            var rows := TakeOrSkip(cols.rest, 2);
            var token := TakeOrSkip(rows.rest, 8);
            var offset := TakeOrSkip(token.rest, 8);
            var dirty := TakeOrSkip(offset.rest, 1);
            && cols.value == f.cols && rows.value == f.rows && token.value == f.attachToken
            && offset.value == f.renderedOffset && (dirty.value != 0) == f.lineDirty
    ensures |AttachNumbers(f)| == 21
  {
    Fits(f.cols);
    Fits(f.rows);
    Fits(f.attachToken);
    Fits(f.renderedOffset);
    var offset := ToBE(f.renderedOffset, 8) + Flag(f.lineDirty);
    var token := ToBE(f.attachToken, 8) + offset;
    TakeTrailingBack(f.cols, 2, ToBE(f.rows, 2) + token);
    TakeTrailingBack(f.rows, 2, token);
    TakeTrailingBack(f.attachToken, 8, offset);
    TakeTrailingBack(f.renderedOffset, 8, Flag(f.lineDirty));
    TakeFlagBack(f.lineDirty, []);
    assert Flag(f.lineDirty) + [] == Flag(f.lineDirty);
  }

  ghost function AttachRest(f: Frame): bytes
    requires f.Attach?
  {
    Flag(f.force) + (Flag(f.noReplay) + AttachNumbers(f))
  }

  lemma AttachRestSurvives(f: Frame)
    requires FieldsFit(f) && f.Attach?
    ensures DecodeAttachRest(f.session, f.clientName, AttachRest(f)) == f && |AttachRest(f)| == 23
  {
    AttachNumbersSurvive(f);
    TakeFlagBack(f.force, Flag(f.noReplay) + AttachNumbers(f));
    TakeFlagBack(f.noReplay, AttachNumbers(f));
  }

  lemma AttachSurvives(f: Frame)
    requires FieldsFit(f) && f.Attach?
    ensures |Payload(f)| == PayloadLength(f) && DecodeAttach(Payload(f)) == Some(f)
  {
    AttachRestSurvives(f);
    TakeStrBack(f.session, Str16(f.clientName) + AttachRest(f), 2);
    TakeStrBack(f.clientName, AttachRest(f), 1);
    assert Payload(f) == Str16(f.session) + (Str16(f.clientName) + AttachRest(f));
  }

  // ---------------------------------------------------------------------
  // Counted lists
  // ---------------------------------------------------------------------

  /** Whatever follows it, a written record is taken back whole. */
  ghost predicate TakenBack<T(!new)>(take: bytes -> Option<Read<T>>, write: T -> bytes, x: T) {
    forall rest {:trigger write(x) + rest} :: take(write(x) + rest) == Some(Read(x, rest))
  }

  lemma {:induction false} ListSurvives<T(!new)>(take: bytes -> Option<Read<T>>, write: T -> bytes, xs: seq<T>)
    requires forall i :: 0 <= i < |xs| ==> TakenBack(take, write, xs[i])
    ensures TakeAll(take, WriteAll(write, xs), |xs|) == Some(xs)
    decreases xs
  {
    if xs == [] {
    } else {
      ListSurvives(take, write, xs[1..]);
      assert TakenBack(take, write, xs[0]);
      var p := write(xs[0]) + WriteAll(write, xs[1..]);
      assert take(p) == Some(Read(xs[0], WriteAll(write, xs[1..])));
      assert [xs[0]] + xs[1..] == xs;
    }
  }

  lemma VarTakenBack(v: (bytes, bytes))
    requires IsStr16(v.0) && IsStr16(v.1)
    ensures TakenBack(TakeVar, WriteVar, v)
  {
    forall rest
      ensures TakeVar(WriteVar(v) + rest) == Some(Read(v, rest))
    {
      AppendAssoc(Str16(v.0), Str16(v.1), rest);
      TakeStrBack(v.0, Str16(v.1) + rest, 2);
      TakeStrBack(v.1, rest, 0);
    }
  }

  lemma {:induction false} VarsLength(vars: seq<(bytes, bytes)>)
    ensures |WriteAll(WriteVar, vars)| == EnvLength(vars) && |vars| <= EnvLength(vars)
    decreases vars
  {
    if vars == [] {
    } else {
      VarsLength(vars[1..]);
    }
  }

  lemma EntryTailSurvives(e: SessionEntry)
    requires EntryOk(e)
    ensures var agent := TakeTrailing(EntryTail(e), 1);
            var last := TakeTrailing(agent.rest, 1);
            var activity := TakeTrailing(last.rest, 8);
            var linger := TakeTrailing(activity.rest, 8);
            && (agent.value != 0) == e.agentForwardingActive && (last.value != 0) == e.isLastAttached
            && activity.value == e.lastActivity && linger.value == e.lingerSecs
    ensures |EntryTail(e)| == 18
  {
    Fits(e.lastActivity);
    Fits(e.lingerSecs);
    var linger := ToBE(e.lingerSecs, 8);
    var activity := ToBE(e.lastActivity, 8) + linger;
    TakeFlagBack(e.agentForwardingActive, Flag(e.isLastAttached) + activity);
    TakeFlagBack(e.isLastAttached, activity);
    TakeTrailingBack(e.lastActivity, 8, linger);
    TakeTrailingBack(e.lingerSecs, 8, []);
    assert linger + [] == linger;
  }

  ghost function EntryNumbers(e: SessionEntry, rest: bytes): bytes {
    ToBE(e.shellPid, 4) + (ToBE(e.createdAt, 8) + (Flag(e.attached) + (ToBE(e.lastHeartbeat, 8) + rest)))
  }

  ghost function EntryTexts(e: SessionEntry): bytes {
    Str16(e.foregroundCmd) + (Str16(e.cwd) + (Str16(e.clientName) + EntryTail(e)))
  }

  lemma EntryNumbersSurvive(e: SessionEntry, rest: bytes)
    requires EntryOk(e)
    ensures var p := EntryNumbers(e, rest);
            && |p| == 21 + |rest|
            && FromBE(p[..4]) == e.shellPid && FromBE(p[4..][..8]) == e.createdAt
            && (p[4..][8..][0] != 0) == e.attached && FromBE(p[4..][8..][1..][..8]) == e.lastHeartbeat
            && p[4..][8..][1..][8..] == rest
  {
    Fits(e.shellPid);
    Fits(e.createdAt);
    Fits(e.lastHeartbeat);
    var heartbeat := ToBE(e.lastHeartbeat, 8) + rest;
    var attached := Flag(e.attached) + heartbeat;
    TakeUintBack(e.shellPid, 4, ToBE(e.createdAt, 8) + attached);
    TakeUintBack(e.createdAt, 8, attached);
    assert attached[1..] == heartbeat;
    TakeUintBack(e.lastHeartbeat, 8, rest);
  }

  lemma EntryTextsSurvive(e: SessionEntry)
    requires EntryOk(e)
    ensures var client := Str16(e.clientName) + EntryTail(e);
            && TakeStr(EntryTexts(e), 0) == Some(Read(e.foregroundCmd, Str16(e.cwd) + client))
            && TakeStr(Str16(e.cwd) + client, 0) == Some(Read(e.cwd, client))
            && TakeStr(client, 0) == Some(Read(e.clientName, EntryTail(e)))
  {
    var client := Str16(e.clientName) + EntryTail(e);
    TakeStrBack(e.foregroundCmd, Str16(e.cwd) + client, 0);
    TakeStrBack(e.cwd, client, 0);
    TakeStrBack(e.clientName, EntryTail(e), 0);
  }

  lemma EntryMiddleSurvives(e: SessionEntry)
    requires EntryOk(e)
    ensures |EntryNumbers(e, EntryTexts(e))| >= 21
    ensures DecodeEntryMiddle(e.id, e.name, e.ptyPath, EntryNumbers(e, EntryTexts(e))) == Some(e)
  {
    EntryNumbersSurvive(e, EntryTexts(e));
    EntryTextsSurvive(e);
    EntryTailSurvives(e);
  }

  lemma EntrySurvives(e: SessionEntry)
    requires EntryOk(e)
    ensures DecodeEntry(EncodeEntry(e)) == Some(e) && |EncodeEntry(e)| == EntryLength(e)
  {
    Fits(e.id);
    var middle := EntryNumbers(e, EntryTexts(e));
    TakeUintBack(e.id, 4, Str16(e.name) + (Str16(e.ptyPath) + middle));
    TakeStrBack(e.name, Str16(e.ptyPath) + middle, 0);
    TakeStrBack(e.ptyPath, middle, 0);
    EntryMiddleSurvives(e);
    EntryTailSurvives(e);
  }

  lemma EntryTakenBack(e: SessionEntry)
    requires EntryOk(e) && EntryLength(e) <= U32_MAX
    ensures TakenBack(TakeEntry, WriteEntry, e)
  {
    forall rest
      ensures TakeEntry(WriteEntry(e) + rest) == Some(Read(e, rest))
    {
      TakeEntryBack(e, rest);
    }
  }

  lemma TakeEntryBack(e: SessionEntry, rest: bytes)
    requires EntryOk(e) && EntryLength(e) <= U32_MAX
    ensures TakeEntry(WriteEntry(e) + rest) == Some(Read(e, rest))
  {
    EntrySurvives(e);
    Fits(EntryLength(e));
    AppendAssoc(ToBE(EntryLength(e), 4), EncodeEntry(e), rest);
    TakeUintBack(EntryLength(e), 4, EncodeEntry(e) + rest);
    assert (EncodeEntry(e) + rest)[..EntryLength(e)] == EncodeEntry(e);
    assert (EncodeEntry(e) + rest)[EntryLength(e)..] == rest;
  }

  lemma {:induction false} EntriesLengths(es: seq<SessionEntry>)
    requires EntriesOk(es)
    ensures |WriteAll(WriteEntry, es)| == EntriesLength(es) && |es| <= EntriesLength(es)
    ensures forall i :: 0 <= i < |es| ==> EntryLength(es[i]) <= EntriesLength(es)
    decreases es
  {
    if es == [] {
    } else {
      EntriesLengths(es[1..]);
      EntryWritten(es[0]);
    }
  }

  lemma EntryWritten(e: SessionEntry)
    requires EntryOk(e)
    ensures |WriteEntry(e)| == 4 + EntryLength(e)
  {
    EntrySurvives(e);
  }

  lemma EnvSurvives(vars: seq<(bytes, bytes)>)
    requires VarsOk(vars) && 4 + EnvLength(vars) <= MAX_FRAME_SIZE
    ensures var p := EnvBody(vars);
            |p| == 4 + EnvLength(vars) && DecodeEnv(p) == Some(Env(vars))
  {
    VarsLength(vars);
    forall i | 0 <= i < |vars|
      ensures TakenBack(TakeVar, WriteVar, vars[i])
    {
      VarTakenBack(vars[i]);
    }
    ListSurvives(TakeVar, WriteVar, vars);
    Fits(|vars|);
    TakeUintBack(|vars|, 4, WriteAll(WriteVar, vars));
  }

  lemma SessionInfoSurvives(es: seq<SessionEntry>)
    requires EntriesOk(es) && 4 + EntriesLength(es) <= MAX_FRAME_SIZE
    ensures var p := SessionInfoBody(es);
            |p| == 4 + EntriesLength(es) && DecodeSessionInfo(p) == Some(SessionInfo(es))
  {
    EntriesLengths(es);
    forall i | 0 <= i < |es|
      ensures TakenBack(TakeEntry, WriteEntry, es[i])
    {
      EntryTakenBack(es[i]);
    }
    ListSurvives(TakeEntry, WriteEntry, es);
    Fits(|es|);
    TakeUintBack(|es|, 4, WriteAll(WriteEntry, es));
  }

  lemma StructuredByFields(f: Frame, ty: byte, payload: bytes)
    requires !f.Exit? && TypeByte(f) == ty && Payload(f) == payload && PayloadLength(f) == |payload|
    requires DecodeStructured(ty, payload) == Some(f)
    ensures |Payload(f)| == PayloadLength(f) && DecodeStructured(TypeByte(f), Payload(f)) == Some(f)
  {
  }

  lemma {:induction false} EnvFrameSurvives(vars: seq<(bytes, bytes)>)
    requires VarsOk(vars) && 4 + EnvLength(vars) <= MAX_FRAME_SIZE
    ensures var f := Env(vars);
            |Payload(f)| == PayloadLength(f) && DecodeStructured(TypeByte(f), Payload(f)) == Some(f)
  {
    var payload := EnvBody(vars);
    EnvSurvives(vars);
    EnvFields(vars);
    EnvByType(payload);
    StructuredByFields(Env(vars), 0x16, payload);
  }

  lemma {:induction false} SessionInfoFrameSurvives(es: seq<SessionEntry>)
    requires EntriesOk(es) && 4 + EntriesLength(es) <= MAX_FRAME_SIZE
    ensures var f := SessionInfo(es);
            |Payload(f)| == PayloadLength(f) && DecodeStructured(TypeByte(f), Payload(f)) == Some(f)
  {
    var payload := SessionInfoBody(es);
    SessionInfoSurvives(es);
    SessionInfoFields(es);
    SessionInfoByType(payload);
    StructuredByFields(SessionInfo(es), 0x61, payload);
  }

  lemma ShortFrameSurvives(f: Frame)
    requires FieldsFit(f) && (f.RenameSession? || f.SetLinger? || f.Error?)
    ensures |Payload(f)| == PayloadLength(f) && DecodeStructured(TypeByte(f), Payload(f)) == Some(f)
  {
    match f {
      case RenameSession(s, n) => RenameSurvives(s, n);
      case SetLinger(s, l) => SetLingerSurvives(s, l);
      case Error(c, m) => ErrorSurvives(c, m);
    }
  }

  lemma RequestSurvives(f: Frame)
    requires FieldsFit(f) && (f.NewSession? || f.Attach?)
    ensures |Payload(f)| == PayloadLength(f) && DecodeStructured(TypeByte(f), Payload(f)) == Some(f)
  {
    if f.NewSession? {
      NewSessionSurvives(f);
    } else {
      AttachSurvives(f);
    }
  }

  lemma StructuredLayout(f: Frame)
    requires LayoutOf(TypeByte(f)).StructuredFrame?
    ensures || f.NewSession? || f.Attach? || f.Env? || f.SessionInfo? || f.RenameSession? || f.SetLinger? || f.Error?
  {
  }

  lemma StructuredFrameSurvives(f: Frame)
    requires IsSendable(f) && LayoutOf(TypeByte(f)).StructuredFrame?
    ensures |Payload(f)| == PayloadLength(f) && DecodeStructured(TypeByte(f), Payload(f)) == Some(f)
  {
    StructuredLayout(f);
    if f.NewSession? || f.Attach? {
      RequestSurvives(f);
    } else if f.Env? {
      EnvFrameSurvives(f.vars);
    } else if f.SessionInfo? {
      SessionInfoFrameSurvives(f.sessions);
    } else {
      ShortFrameSurvives(f);
    }
  }

  ghost predicate CarriesNothing(f: Frame) {
    || f.Detached? || f.Ping? || f.Pong? || f.DiagRequest? || f.ServerShutdown? || f.AgentForward? || f.OpenForward?
    || f.ClipboardGet? || f.SendDone? || f.ListSessions? || f.KillServer? || f.Okay?
  }

  lemma EmptyLayout(f: Frame)
    requires LayoutOf(TypeByte(f)).EmptyFrame?
    ensures CarriesNothing(f)
  {
  }

  lemma EmptyByType(f: Frame)
    requires CarriesNothing(f)
    ensures |Payload(f)| == PayloadLength(f) && DecodeEmpty(TypeByte(f)) == Some(f)
  {
  }

  lemma EmptyFrameSurvives(f: Frame)
    requires LayoutOf(TypeByte(f)).EmptyFrame?
    ensures |Payload(f)| == PayloadLength(f) && DecodeEmpty(TypeByte(f)) == Some(f)
  {
    EmptyLayout(f);
    EmptyByType(f);
  }

  /** Every sendable frame: the header length is what is written, and the payload decodes to the frame. */
  lemma PayloadRoundTrip(f: Frame)
    requires IsSendable(f)
    ensures |Payload(f)| == PayloadLength(f)
    ensures DecodePayload(TypeByte(f), Payload(f)) == Some(f)
  {
    match LayoutOf(TypeByte(f)) {
      case EmptyFrame => EmptyFrameSurvives(f);
      case BlobFrame => BlobFrameSurvives(f);
      case IdFrame => IdFrameSurvives(f);
      case TextFrame => TextFrameSurvives(f);
      case StructuredFrame => StructuredFrameSurvives(f);
      case FixedFrame => FixedFrameSurvives(f);
    }
  }

  // ---------------------------------------------------------------------
  // One frame on the wire
  // ---------------------------------------------------------------------

  lemma HeaderBytes(ty: byte, len: nat, payload: bytes, rest: bytes)
    requires len <= U32_MAX
    ensures var src := [ty] + ToBE(len, 4) + payload + rest;
            |src| >= HEADER_LEN && src[0] == ty && FromBE(src[1..5]) == len
  {
    Fits(len);
    FromToBE(len, 4);
    assert ([ty] + ToBE(len, 4) + payload + rest)[1..5] == ToBE(len, 4);
  }

  lemma HeaderReadsBack(f: Frame, rest: bytes)
    requires IsSendable(f)
    ensures var src := Encode(f) + rest;
            |src| >= HEADER_LEN && src[0] == TypeByte(f) && FromBE(src[1..5]) == PayloadLength(f)
  {
    HeaderBytes(TypeByte(f), PayloadLength(f), Payload(f), rest);
  }

  /** A frame is read back whole, leaving exactly what followed it. */
  lemma FrameRoundTrips(f: Frame, rest: bytes)
    requires IsSendable(f)
    ensures DecodeOne(Encode(f) + rest) == Got(f, rest)
  {
    PayloadRoundTrip(f);
    HeaderReadsBack(f, rest);
    var src, len := Encode(f) + rest, PayloadLength(f);
    assert src[5..5 + len] == Payload(f);
    assert src[5 + len..] == rest;
  }

  /** A frame cut short anywhere is not an error and consumes nothing. */
  lemma CutFrameNeedsMore(f: Frame, k: nat)
    requires IsSendable(f) && k < |Encode(f)|
    ensures DecodeOne(Encode(f)[..k]) == NeedMore
  {
    PayloadRoundTrip(f);
    HeaderReadsBack(f, []);
    var whole, cut := Encode(f), Encode(f)[..k];
    assert whole + [] == whole;
    if k >= HEADER_LEN {
      assert cut[1..5] == whole[1..5];
    }
  }

  // ---------------------------------------------------------------------
  // Streams
  // ---------------------------------------------------------------------

  /** The frames at the front of a buffer, the undecided rest, and whether an error ended them. */
  datatype Drained = Drained(frames: seq<Frame>, rest: bytes, failed: bool)

  function Drain(decode: PayloadDecoder, src: bytes): Drained
    decreases |src|
  {
    match DecodeWith(decode, src)
    case NeedMore => Drained([], src, false)
    case Bad => Drained([], Unread(src), true)
    case Got(f, rest) =>
      var more := Drain(decode, rest);
      Drained([f] + more.frames, more.rest, more.failed)
  }

  /** Chunks arriving one by one; after an error the stream is over. */
  function FeedAll(decode: PayloadDecoder, buffer: bytes, chunks: seq<bytes>): Drained
    decreases chunks
  {
    var first := Drain(decode, buffer);
    if chunks == [] || first.failed then first
    else
      var later := FeedAll(decode, first.rest + chunks[0], chunks[1..]);
      Drained(first.frames + later.frames, later.rest, later.failed)
  }

  lemma DecodedIsStable(decode: PayloadDecoder, src: bytes, more: bytes)
    ensures match DecodeWith(decode, src)
            case Got(f, rest) => DecodeWith(decode, src + more) == Got(f, rest + more)
            case Bad => DecodeWith(decode, src + more) == Bad
            case NeedMore => true
  {
    if |src| >= HEADER_LEN {
      assert (src + more)[1..5] == src[1..5];
      var len := FromBE(src[1..5]);
      if |src| >= HEADER_LEN + len {
        assert (src + more)[5..5 + len] == src[5..5 + len];
        assert (src + more)[5 + len..] == src[5 + len..] + more;
      }
    }
  }

  lemma {:induction false} DrainAppend(decode: PayloadDecoder, src: bytes, more: bytes)
    ensures var first, whole := Drain(decode, src), Drain(decode, src + more);
            if first.failed then whole.frames == first.frames && whole.failed
            else
              var later := Drain(decode, first.rest + more);
              whole == Drained(first.frames + later.frames, later.rest, later.failed)
    decreases |src|
  {
    DecodedIsStable(decode, src, more);
    match DecodeWith(decode, src) {
      case Bad =>
      case NeedMore =>
        assert [] + Drain(decode, src + more).frames == Drain(decode, src + more).frames;
      case Got(f, rest) =>
        DrainAppend(decode, rest, more);
        var mid := Drain(decode, rest);
        AppendAssoc([f], mid.frames, Drain(decode, mid.rest + more).frames);
    }
  }

  /** On any bytes at all, how they were cut changes neither the frames nor whether the stream fails. */
  lemma {:induction false} ChunksDoNotMatter(decode: PayloadDecoder, buffer: bytes, chunks: seq<bytes>)
    ensures var whole, fed := Drain(decode, buffer + Flatten(chunks)), FeedAll(decode, buffer, chunks);
            && fed.frames == whole.frames && fed.failed == whole.failed
            && (!whole.failed ==> fed.rest == whole.rest)
    decreases chunks
  {
    var first := Drain(decode, buffer);
    if chunks == [] {
      assert buffer + Flatten(chunks) == buffer;
    } else {
      DrainAppend(decode, buffer, Flatten(chunks));
      if !first.failed {
        ChunksDoNotMatter(decode, first.rest + chunks[0], chunks[1..]);
        AppendAssoc(first.rest, chunks[0], Flatten(chunks[1..]));
      }
    }
  }

  predicate AllSendable(fs: seq<Frame>) {
    forall i :: 0 <= i < |fs| ==> IsSendable(fs[i])
  }

  function EncodeAll(fs: seq<Frame>): bytes
    requires AllSendable(fs)
  {
    if fs == [] then [] else Encode(fs[0]) + EncodeAll(fs[1..])
  }

  /** The decoder recognises the frame at the front of what follows it. */
  ghost predicate Decodes(decode: PayloadDecoder, f: Frame)
    requires IsSendable(f)
  {
    forall rest {:trigger Encode(f) + rest} :: DecodeWith(decode, Encode(f) + rest) == Got(f, rest)
  }

  lemma {:induction false} DrainEncoded(decode: PayloadDecoder, fs: seq<Frame>)
    requires AllSendable(fs) && forall i :: 0 <= i < |fs| ==> Decodes(decode, fs[i])
    ensures Drain(decode, EncodeAll(fs)) == Drained(fs, [], false)
    decreases fs
  {
    if fs == [] {
    } else {
      DrainEncoded(decode, fs[1..]);
      assert Decodes(decode, fs[0]);
      assert DecodeWith(decode, Encode(fs[0]) + EncodeAll(fs[1..])) == Got(fs[0], EncodeAll(fs[1..]));
      assert [fs[0]] + fs[1..] == fs;
    }
  }

  lemma FrameDecodes(f: Frame)
    requires IsSendable(f)
    ensures Decodes(DecodePayload, f)
  {
    forall rest
      ensures DecodeWith(DecodePayload, Encode(f) + rest) == Got(f, rest)
    {
      FrameRoundTrips(f, rest);
    }
  }

  /** The codec law: any frames, encoded and delivered in any chunks, arrive as sent with nothing left. */
  lemma StreamRoundTrip(fs: seq<Frame>, chunks: seq<bytes>)
    requires AllSendable(fs) && Flatten(chunks) == EncodeAll(fs)
    ensures FeedAll(DecodePayload, [], chunks) == Drained(fs, [], false)
  {
    ChunksDoNotMatter(DecodePayload, [], chunks);
    forall i | 0 <= i < |fs|
      ensures Decodes(DecodePayload, fs[i])
    {
      FrameDecodes(fs[i]);
    }
    DrainEncoded(DecodePayload, fs);
    assert [] + Flatten(chunks) == EncodeAll(fs);
  }

  lemma LengthWraps(s: bytes)
    requires |s| == 0x1_0000
    ensures Str16(s) == Str16([]) + s
  {
    assert ToBE(0x100, 1) == ToBE(0, 1);
    assert ToBE(0x1_0000, 2) == ToBE(0, 2);
  }

  /** Why strings must fit their prefix: one of 65536 bytes is read as empty, its bytes as what follows. */
  lemma LongStringIsLost(s: bytes, rest: bytes)
    requires |s| == 0x1_0000
    ensures TakeStr(Str16(s) + rest, 0) == Some(Read([], s + rest))
  {
    LengthWraps(s);
    AppendAssoc(Str16([]), s, rest);
    TakeStrBack([], s + rest, 0);
  }
}
