// The frames of the wire protocol and their encoding (src/protocol.rs).
// Lengths, type bytes and field orders are the source's; a reader's offset is
// kept here as the bytes still unread.

module Frames {
  import opened Wrappers
  import opened Bytes
  import opened Endian
  import opened Utf8

  const HEADER_LEN: nat := 5
  const MAX_FRAME_SIZE: nat := 0x10_0000

  datatype ErrorCode =
    | NoSuchSession | NameAlreadyExists | InvalidName | EmptyName
    | VersionMismatch | UnexpectedFrame | AlreadyAttached | OwnerChanged
    | Unknown(value: nat)

  datatype SessionEntry = SessionEntry(
    id: nat, name: bytes, ptyPath: bytes, shellPid: nat, createdAt: nat, attached: bool, lastHeartbeat: nat,
    foregroundCmd: bytes, cwd: bytes, clientName: bytes, agentForwardingActive: bool, isLastAttached: bool,
    lastActivity: nat, lingerSecs: nat)

  datatype Frame =
    | Data(data: bytes)
    | Resize(cols: nat, rows: nat)
    | Exit(exitCode: int)
    | Detached
    | Ping
    | Pong
    | Env(vars: seq<(bytes, bytes)>)
    | DiagRequest
    | DiagResponse(text: bytes)
    | ServerShutdown
    | Resume(offset: nat)
    | Notice(data: bytes)
    | AgentForward
    | AgentOpen(channelId: nat)
    | AgentData(channelId: nat, data: bytes)
    | AgentClose(channelId: nat)
    | ClipboardSet(data: bytes)
    | ClipboardGet
    | ClipboardData(data: bytes)
    | OpenForward
    | OpenUrl(url: bytes)
    | TunnelListen(port: nat)
    | TunnelOpen(channelId: nat)
    | TunnelData(channelId: nat, data: bytes)
    | TunnelClose(channelId: nat)
    | SendOffer(fileCount: nat, totalBytes: nat)
    | SendDone
    | SendCancel(reason: bytes)
    | PortForwardListen(forwardId: nat, listenPort: nat, targetPort: nat)
    | PortForwardReady(forwardId: nat)
    | PortForwardOpen(forwardId: nat, channelId: nat, targetPort: nat)
    | PortForwardData(channelId: nat, data: bytes)
    | PortForwardClose(channelId: nat)
    | PortForwardStop(forwardId: nat)
    | PortForwardRequest(forwardId: nat, direction: nat, listenPort: nat, targetPort: nat)
    | Hello(version: nat, capabilities: nat, deviceId: nat)
    | HelloAck(version: nat, capabilities: nat, serverId: nat)
    | SendFile(session: bytes)
    | NewSession(name: bytes, command: bytes, cwd: bytes, cols: nat, rows: nat, clientName: bytes, lingerSecs: nat)
    | Attach(session: bytes, clientName: bytes, force: bool, noReplay: bool, cols: nat, rows: nat,
             attachToken: nat, renderedOffset: nat, lineDirty: bool)
    | Tail(session: bytes)
    | ListSessions
    | KillSession(session: bytes)
    | KillServer
    | RenameSession(session: bytes, newName: bytes)
    | SetLinger(session: bytes, lingerSecs: nat)
    | SessionCreated(id: nat)
    | SessionInfo(sessions: seq<SessionEntry>)
    | Okay
    | AttachAck(token: nat, sessionId: nat)
    | Error(code: ErrorCode, message: bytes)

  // ---------------------------------------------------------------------
  // Type bytes and lengths
  // ---------------------------------------------------------------------

  function ErrorToU16(c: ErrorCode): nat {
    match c
    case NoSuchSession => 1
    case NameAlreadyExists => 2
    case InvalidName => 3
    case EmptyName => 4
    case VersionMismatch => 5
    case UnexpectedFrame => 6
    case AlreadyAttached => 7
    case OwnerChanged => 8
    case Unknown(v) => v
  }

  function ErrorFromU16(v: nat): ErrorCode {
    if v == 1 then NoSuchSession
    else if v == 2 then NameAlreadyExists
    else if v == 3 then InvalidName
    else if v == 4 then EmptyName
    else if v == 5 then VersionMismatch
    else if v == 6 then UnexpectedFrame
    else if v == 7 then AlreadyAttached
    else if v == 8 then OwnerChanged
    else Unknown(v)
  }

  function TypeByte(f: Frame): byte {
    match f
    case Hello(_, _, _) => 0x01
    case HelloAck(_, _, _) => 0x02
    case Data(_) => 0x10
    case Resize(_, _) => 0x11
    case Exit(_) => 0x12
    case Detached => 0x13
    case Ping => 0x14
    case Pong => 0x15
    case Env(_) => 0x16
    case DiagRequest => 0x17
    case DiagResponse(_) => 0x18
    case ServerShutdown => 0x19
    case Resume(_) => 0x1a
    case Notice(_) => 0x1b
    case AgentForward => 0x20
    case AgentOpen(_) => 0x21
    case AgentData(_, _) => 0x22
    case AgentClose(_) => 0x23
    case OpenForward => 0x28
    case OpenUrl(_) => 0x29
    case ClipboardSet(_) => 0x2a
    case ClipboardGet => 0x2b
    case ClipboardData(_) => 0x2c
    case TunnelListen(_) => 0x30
    case TunnelOpen(_) => 0x31
    case TunnelData(_, _) => 0x32
    case TunnelClose(_) => 0x33
    case SendOffer(_, _) => 0x38
    case SendDone => 0x39
    case SendCancel(_) => 0x3a
    case SendFile(_) => 0x3b
    case PortForwardListen(_, _, _) => 0x40
    case PortForwardReady(_) => 0x41
    case PortForwardOpen(_, _, _) => 0x42
    case PortForwardData(_, _) => 0x43
    case PortForwardClose(_) => 0x44
    case PortForwardStop(_) => 0x45
    case PortForwardRequest(_, _, _, _) => 0x46
    case NewSession(_, _, _, _, _, _, _) => 0x50
    case Attach(_, _, _, _, _, _, _, _, _) => 0x51
    case ListSessions => 0x52
    case KillSession(_) => 0x53
    case KillServer => 0x54
    case Tail(_) => 0x55
    case RenameSession(_, _) => 0x56
    case SetLinger(_, _) => 0x57
    case SessionCreated(_) => 0x60
    case SessionInfo(_) => 0x61
    case Okay => 0x62
    case Error(_, _) => 0x63
    case AttachAck(_, _) => 0x64
  }

  function EnvLength(vars: seq<(bytes, bytes)>): nat {
    if vars == [] then 0 else 2 + |vars[0].0| + 2 + |vars[0].1| + EnvLength(vars[1..])
  }

  /** Encoded length of one entry, without its length prefix. */
  function EntryLength(e: SessionEntry): nat {
    4 + 2 + |e.name| + 2 + |e.ptyPath| + 4 + 8 + 1 + 8 + 2 + |e.foregroundCmd| + 2 + |e.cwd|
    + 2 + |e.clientName| + 1 + 1 + 8 + 8
  }

  function EntriesLength(es: seq<SessionEntry>): nat {
    if es == [] then 0 else 4 + EntryLength(es[0]) + EntriesLength(es[1..])
  }

  /** The length the encoder computes for the header, before writing any field. */
  function PayloadLength(f: Frame): nat {
    match f
    case Hello(_, _, _) => 14
    case HelloAck(_, _, _) => 14
    case Data(d) => |d|
    case Notice(d) => |d|
    case ClipboardSet(d) => |d|
    case ClipboardData(d) => |d|
    case Resize(_, _) => 4
    case Exit(_) => 4
    case Resume(_) => 8
    case AgentOpen(_) => 4
    case AgentClose(_) => 4
    case TunnelListen(_) => 2
    case TunnelOpen(_) => 4
    case TunnelClose(_) => 4
    case SendOffer(_, _) => 12
    case PortForwardListen(_, _, _) => 8
    case PortForwardReady(_) => 4
    case PortForwardOpen(_, _, _) => 10
    case PortForwardClose(_) => 4
    case PortForwardStop(_) => 4
    case PortForwardRequest(_, _, _, _) => 9
    case SessionCreated(_) => 4
    case AttachAck(_, _) => 12
    case AgentData(_, d) => 4 + |d|
    case TunnelData(_, d) => 4 + |d|
    case PortForwardData(_, d) => 4 + |d|
    case OpenUrl(s) => |s|
    case SendCancel(s) => |s|
    case SendFile(s) => |s|
    case Tail(s) => |s|
    case KillSession(s) => |s|
    case DiagResponse(s) => |s|
    case RenameSession(s, n) => 2 + |s| + |n|
    case SetLinger(s, _) => 2 + |s| + 8
    case NewSession(n, c, w, _, _, cn, _) => 2 + |n| + 2 + |c| + 2 + |w| + 2 + 2 + 2 + |cn| + 8
    case Attach(s, cn, _, _, _, _, _, _, _) => 2 + |s| + 2 + |cn| + 2 + 4 + 8 + 8 + 1
    case Error(_, m) => 2 + |m|
    case Env(vars) => 4 + EnvLength(vars)
    case SessionInfo(es) => 4 + EntriesLength(es)
    case _ => 0
  }

  // ---------------------------------------------------------------------
  // Encoding
  // ---------------------------------------------------------------------

  /** A string behind its truncated 16-bit length. */
  function Str16(s: bytes): bytes {
    ToBE(|s|, 2) + s
  }

  function Flag(b: bool): bytes {
    [if b then 1 else 0]
  }

  /** The bit pattern of an `i32`. */
  function FromI32(n: int): nat
    requires -0x8000_0000 <= n
  {
    if n < 0 then n + 0x1_0000_0000 else n
  }

  function ToI32(n: nat): int {
    if n >= 0x8000_0000 then n - 0x1_0000_0000 else n
  }

  /** Records one after another, each written by `write`. */
  function WriteAll<T>(write: T -> bytes, xs: seq<T>): bytes {
    if xs == [] then [] else write(xs[0]) + WriteAll(write, xs[1..])
  }

  function WriteVar(v: (bytes, bytes)): bytes {
    Str16(v.0) + Str16(v.1)
  }

  function EncodeEntry(e: SessionEntry): bytes {
    ToBE(e.id, 4) + (Str16(e.name) + (Str16(e.ptyPath) + (ToBE(e.shellPid, 4) + (ToBE(e.createdAt, 8)
    + (Flag(e.attached) + (ToBE(e.lastHeartbeat, 8) + (Str16(e.foregroundCmd) + (Str16(e.cwd) + (Str16(e.clientName)
    + EntryTail(e))))))))))
  }

  function EntryTail(e: SessionEntry): bytes {
    Flag(e.agentForwardingActive) + (Flag(e.isLastAttached) + (ToBE(e.lastActivity, 8) + ToBE(e.lingerSecs, 8)))
  }

  /** An entry behind its own length. */
  function WriteEntry(e: SessionEntry): bytes {
    ToBE(EntryLength(e), 4) + EncodeEntry(e)
  }

  function EnvBody(vars: seq<(bytes, bytes)>): bytes {
    ToBE(|vars|, 4) + WriteAll(WriteVar, vars)
  }

  function SessionInfoBody(es: seq<SessionEntry>): bytes {
    ToBE(|es|, 4) + WriteAll(WriteEntry, es)
  }

  function Payload(f: Frame): bytes
    requires f.Exit? ==> -0x8000_0000 <= f.exitCode
  {
    match f
    case Hello(v, c, d) => ToBE(v, 2) + (ToBE(c, 4) + ToBE(d, 8))
    case HelloAck(v, c, s) => ToBE(v, 2) + (ToBE(c, 4) + ToBE(s, 8))
    case Data(d) => d
    case Notice(d) => d
    case ClipboardSet(d) => d
    case ClipboardData(d) => d
    case Resize(c, r) => ToBE(c, 2) + ToBE(r, 2)
    case Exit(c) => ToBE(FromI32(c), 4)
    case Resume(o) => ToBE(o, 8)
    case AgentOpen(c) => ToBE(c, 4)
    case AgentClose(c) => ToBE(c, 4)
    case TunnelListen(p) => ToBE(p, 2)
    case TunnelOpen(c) => ToBE(c, 4)
    case TunnelClose(c) => ToBE(c, 4)
    case SendOffer(n, t) => ToBE(n, 4) + ToBE(t, 8)
    case PortForwardListen(f, l, t) => ToBE(f, 4) + (ToBE(l, 2) + ToBE(t, 2))
    case PortForwardReady(f) => ToBE(f, 4)
    case PortForwardOpen(f, c, t) => ToBE(f, 4) + (ToBE(c, 4) + ToBE(t, 2))
    case PortForwardClose(c) => ToBE(c, 4)
    case PortForwardStop(f) => ToBE(f, 4)
    case PortForwardRequest(f, d, l, t) => ToBE(f, 4) + (ToBE(d, 1) + (ToBE(l, 2) + ToBE(t, 2)))
    case SessionCreated(i) => ToBE(i, 4)
    case AttachAck(t, s) => ToBE(t, 8) + ToBE(s, 4)
    case AgentData(c, d) => ToBE(c, 4) + d
    case TunnelData(c, d) => ToBE(c, 4) + d
    case PortForwardData(c, d) => ToBE(c, 4) + d
    case OpenUrl(s) => s
    case SendCancel(s) => s
    case SendFile(s) => s
    case Tail(s) => s
    case KillSession(s) => s
    case DiagResponse(s) => s
    case RenameSession(s, n) => Str16(s) + n
    case SetLinger(s, l) => Str16(s) + ToBE(l, 8)
    case NewSession(n, c, w, cols, rows, cn, l) =>
      Str16(n) + (Str16(c) + (Str16(w) + (ToBE(cols, 2) + (ToBE(rows, 2) + (Str16(cn) + ToBE(l, 8))))))
    case Attach(s, cn, force, noReplay, cols, rows, token, offset, dirty) =>
      Str16(s) + (Str16(cn) + (Flag(force) + (Flag(noReplay) + (ToBE(cols, 2) + (ToBE(rows, 2)
      + (ToBE(token, 8) + (ToBE(offset, 8) + Flag(dirty))))))))
    case Error(c, m) => ToBE(ErrorToU16(c), 2) + m
    case Env(vars) => EnvBody(vars)
    case SessionInfo(es) => SessionInfoBody(es)
    case _ => []
  }

  function Encode(f: Frame): bytes
    requires f.Exit? ==> -0x8000_0000 <= f.exitCode
  {
    [TypeByte(f)] + ToBE(PayloadLength(f), 4) + Payload(f)
  }

  lemma EncodeByFields(f: Frame, ty: byte, len: nat, payload: bytes)
    requires !f.Exit? && TypeByte(f) == ty && PayloadLength(f) == len && Payload(f) == payload
    ensures Encode(f) == [ty] + ToBE(len, 4) + payload
  {
  }

  lemma {:induction false} EnvFields(vars: seq<(bytes, bytes)>)
    ensures TypeByte(Env(vars)) == 0x16 && PayloadLength(Env(vars)) == 4 + EnvLength(vars)
    ensures Payload(Env(vars)) == EnvBody(vars)
  {
  }

  lemma {:induction false} SessionInfoFields(es: seq<SessionEntry>)
    ensures TypeByte(SessionInfo(es)) == 0x61 && PayloadLength(SessionInfo(es)) == 4 + EntriesLength(es)
    ensures Payload(SessionInfo(es)) == SessionInfoBody(es)
  {
  }

  // ---------------------------------------------------------------------
  // Reading
  // ---------------------------------------------------------------------

  datatype Read<T> = Read(value: T, rest: bytes)

  function TakeUint(p: bytes, k: nat): Option<Read<nat>> {
    if |p| < k then None else Some(Read(FromBE(p[..k]), p[k..]))
  }

  /** A 16-bit length, that many bytes of UTF-8, and at least `extra` bytes after them. */
  function TakeStr(p: bytes, extra: nat): Option<Read<bytes>> {
    if |p| < 2 then None
    else
      var len := FromBE(p[..2]);
      if |p| < 2 + len + extra || !ValidUtf8(p[2..2 + len]) then None
      else Some(Read(p[2..2 + len], p[2 + len..]))
  }

  /** An optional trailing field: zero when the frame is too short to hold it. */
  function TakeTrailing(p: bytes, k: nat): Read<nat> {
    if |p| < k then Read(0, p) else Read(FromBE(p[..k]), p[k..])
  }

  /** The same, for the frame whose reader moves on even past the end. */
  function TakeOrSkip(p: bytes, k: nat): Read<nat> {
    if |p| < k then Read(0, []) else Read(FromBE(p[..k]), p[k..])
  }

  function Take1(p: bytes, a: nat): Option<nat> {
    match TakeUint(p, a) case Some(x) => Some(x.value) case None => None
  }

  function Take2(p: bytes, a: nat, b: nat): Option<(nat, nat)> {
    match TakeUint(p, a)
    case None => None
    case Some(x) => match Take1(x.rest, b) case Some(y) => Some((x.value, y)) case None => None
  }

  function Take3(p: bytes, a: nat, b: nat, c: nat): Option<(nat, nat, nat)> {
    match TakeUint(p, a)
    case None => None
    case Some(x) => match Take2(x.rest, b, c) case Some(y) => Some((x.value, y.0, y.1)) case None => None
  }

  function Take4(p: bytes, a: nat, b: nat, c: nat, d: nat): Option<(nat, nat, nat, nat)> {
    match TakeUint(p, a)
    case None => None
    case Some(x) => match Take3(x.rest, b, c, d) case Some(y) => Some((x.value, y.0, y.1, y.2)) case None => None
  }

  // ---------------------------------------------------------------------
  // Decoding
  // ---------------------------------------------------------------------

  /** One key and its value, each behind its length. */
  function TakeVar(p: bytes): Option<Read<(bytes, bytes)>> {
    match TakeStr(p, 2)
    case None => None
    case Some(key) =>
      match TakeStr(key.rest, 0)
      case None => None
      case Some(val) => Some(Read((key.value, val.value), val.rest))
  }

  /** `count` records one after another, each read by `take`. */
  function TakeAll<T>(take: bytes -> Option<Read<T>>, p: bytes, count: nat): Option<seq<T>>
    decreases count
  {
    if count == 0 then Some([])
    else
      match take(p)
      case None => None
      case Some(x) =>
        match TakeAll(take, x.rest, count - 1)
        case None => None
        case Some(more) => Some([x.value] + more)
  }

  function DecodeEntry(p: bytes): Option<SessionEntry> {
    match TakeUint(p, 4)
    case None => None
    case Some(id) =>
      match TakeStr(id.rest, 0)
      case None => None
      case Some(name) =>
        match TakeStr(name.rest, 0)
        case None => None
        case Some(pty) => if |pty.rest| < 21 then None else DecodeEntryMiddle(id.value, name.value, pty.value, pty.rest)
  }

  function DecodeEntryMiddle(id: nat, name: bytes, pty: bytes, p: bytes): Option<SessionEntry>
    requires |p| >= 21
  {
    var pid, created := FromBE(p[..4]), FromBE(p[4..][..8]);
    var attached := p[4..][8..][0] != 0;
    var heartbeat := FromBE(p[4..][8..][1..][..8]);
    match TakeStr(p[4..][8..][1..][8..], 0)
    case None => None
    case Some(cmd) =>
      match TakeStr(cmd.rest, 0)
      case None => None
      case Some(cwd) =>
        match TakeStr(cwd.rest, 0)
        case None => None
        case Some(client) =>
          var agent := TakeTrailing(client.rest, 1);
          var last := TakeTrailing(agent.rest, 1);
          var activity := TakeTrailing(last.rest, 8);
          var linger := TakeTrailing(activity.rest, 8);
          Some(SessionEntry(id, name, pty, pid, created, attached, heartbeat, cmd.value, cwd.value, client.value,
                            agent.value != 0, last.value != 0, activity.value, linger.value))
  }

  /** One entry, confined to the bytes its length prefix gives it. */
  function TakeEntry(p: bytes): Option<Read<SessionEntry>> {
    match TakeUint(p, 4)
    case None => None
    case Some(len) =>
      if |len.rest| < len.value then None
      else
        match DecodeEntry(len.rest[..len.value])
        case None => None
        case Some(entry) => Some(Read(entry, len.rest[len.value..]))
  }

  function DecodeEnv(p: bytes): Option<Frame> {
    match TakeUint(p, 4)
    case None => None
    case Some(n) => match TakeAll(TakeVar, n.rest, n.value) case Some(vars) => Some(Env(vars)) case None => None
  }

  function DecodeSessionInfo(p: bytes): Option<Frame> {
    match TakeUint(p, 4)
    case None => None
    case Some(n) => match TakeAll(TakeEntry, n.rest, n.value) case Some(es) => Some(SessionInfo(es)) case None => None
  }

  function DecodeNewSession(p: bytes): Option<Frame> {
    if |p| < 12 then None
    else
      match TakeStr(p, 2)
      case None => None
      case Some(name) =>
        match TakeStr(name.rest, 2)
        case None => None
        case Some(command) =>
          match TakeStr(command.rest, 4)
          case None => None
          case Some(cwd) =>
            var cols := TakeTrailing(cwd.rest, 2);
            var rows := TakeTrailing(cols.rest, 2);
            var client := if |rows.rest| >= 2 then TakeStr(rows.rest, 0) else Some(Read([], rows.rest));
            match client
            case None => None
            case Some(client) =>
              Some(NewSession(name.value, command.value, cwd.value, cols.value, rows.value, client.value,
                              TakeTrailing(client.rest, 8).value))
  }

  function DecodeAttach(p: bytes): Option<Frame> {
    if |p| < 5 then None
    else
      match TakeStr(p, 2)
      case None => None
      case Some(session) =>
        match TakeStr(session.rest, 1)
        case None => None
        case Some(client) =>
          Some(DecodeAttachRest(session.value, client.value, client.rest))
  }

  function DecodeAttachRest(session: bytes, client: bytes, p: bytes): Frame {
    var force := TakeOrSkip(p, 1);
    var noReplay := TakeOrSkip(force.rest, 1);
    var cols := TakeOrSkip(noReplay.rest, 2);
    var rows := TakeOrSkip(cols.rest, 2);
    var token := TakeOrSkip(rows.rest, 8);
    var offset := TakeOrSkip(token.rest, 8);
    var dirty := TakeOrSkip(offset.rest, 1);
    Attach(session, client, force.value != 0, noReplay.value != 0, cols.value, rows.value,
           token.value, offset.value, dirty.value != 0)
  }

  function DecodeText(ty: byte, p: bytes): Option<Frame> {
    if !ValidUtf8(p) then None
    else if ty == 0x29 then Some(OpenUrl(p))
    else if ty == 0x3a then Some(SendCancel(p))
    else if ty == 0x3b then Some(SendFile(p))
    else if ty == 0x53 then Some(KillSession(p))
    else if ty == 0x55 then Some(Tail(p))
    else None
  }

  function DecodeEmpty(ty: byte): Option<Frame> {
    if ty == 0x13 then Some(Detached)
    else if ty == 0x14 then Some(Ping)
    else if ty == 0x15 then Some(Pong)
    else if ty == 0x17 then Some(DiagRequest)
    else if ty == 0x19 then Some(ServerShutdown)
    else if ty == 0x20 then Some(AgentForward)
    else if ty == 0x28 then Some(OpenForward)
    else if ty == 0x2b then Some(ClipboardGet)
    else if ty == 0x39 then Some(SendDone)
    else if ty == 0x52 then Some(ListSessions)
    else if ty == 0x54 then Some(KillServer)
    else if ty == 0x62 then Some(Okay)
    else None
  }

  function DecodeBlob(ty: byte, p: bytes): Option<Frame> {
    if ty == 0x10 then Some(Data(p))
    else if ty == 0x1b then Some(Notice(p))
    else if ty == 0x2a then Some(ClipboardSet(p))
    else if ty == 0x2c then Some(ClipboardData(p))
    else if ty == 0x18 then Some(DiagResponse(Lossy(p)))
    else if |p| < 4 then None
    else if ty == 0x22 then Some(AgentData(FromBE(p[..4]), p[4..]))
    else if ty == 0x32 then Some(TunnelData(FromBE(p[..4]), p[4..]))
    else if ty == 0x43 then Some(PortForwardData(FromBE(p[..4]), p[4..]))
    else None
  }

  /** Fixed-field frames: at least their fields, trailing bytes tolerated. */
  function DecodeId(ty: byte, p: bytes): Option<Frame> {
    match Take1(p, 4)
    case None => None
    case Some(n) =>
      if ty == 0x12 then Some(Exit(ToI32(n)))
      else if ty == 0x21 then Some(AgentOpen(n))
      else if ty == 0x23 then Some(AgentClose(n))
      else if ty == 0x31 then Some(TunnelOpen(n))
      else if ty == 0x33 then Some(TunnelClose(n))
      else if ty == 0x41 then Some(PortForwardReady(n))
      else if ty == 0x44 then Some(PortForwardClose(n))
      else if ty == 0x45 then Some(PortForwardStop(n))
      else if ty == 0x60 then Some(SessionCreated(n))
      else None
  }

  function DecodeFixed(ty: byte, p: bytes): Option<Frame> {
    if ty == 0x11 then
      match Take2(p, 2, 2) case Some(x) => Some(Resize(x.0, x.1)) case None => None
    else if ty == 0x1a then
      match Take1(p, 8) case Some(x) => Some(Resume(x)) case None => None
    else if ty == 0x30 then
      match Take1(p, 2) case Some(x) => Some(TunnelListen(x)) case None => None
    else if ty == 0x38 then
      match Take2(p, 4, 8) case Some(x) => Some(SendOffer(x.0, x.1)) case None => None
    else if ty == 0x40 then
      match Take3(p, 4, 2, 2) case Some(x) => Some(PortForwardListen(x.0, x.1, x.2)) case None => None
    else if ty == 0x42 then
      match Take3(p, 4, 4, 2) case Some(x) => Some(PortForwardOpen(x.0, x.1, x.2)) case None => None
    else if ty == 0x46 then
      match Take4(p, 4, 1, 2, 2) case Some(x) => Some(PortForwardRequest(x.0, x.1, x.2, x.3)) case None => None
    else if ty == 0x64 then
      match Take2(p, 8, 4) case Some(x) => Some(AttachAck(x.0, x.1)) case None => None
    else if ty == 0x01 then
      match Take2(p, 2, 4)
      case None => None
      case Some(x) => Some(Hello(x.0, x.1, TakeTrailing(p[6..], 8).value))
    else if ty == 0x02 then
      match Take3(p, 2, 4, 8) case Some(x) => Some(HelloAck(x.0, x.1, x.2)) case None => None
    else None
  }

  function DecodeStructured(ty: byte, p: bytes): Option<Frame> {
    if ty == 0x50 then DecodeNewSession(p)
    else if ty == 0x51 then DecodeAttach(p)
    else if ty == 0x56 then
      match TakeStr(p, 0)
      case Some(s) => if ValidUtf8(s.rest) then Some(RenameSession(s.value, s.rest)) else None
      case None => None
    else if ty == 0x57 then
      match TakeStr(p, 8)
      case Some(s) => Some(SetLinger(s.value, FromBE(s.rest[..8])))
      case None => None
    else if ty == 0x63 then
      match TakeUint(p, 2)
      case Some(c) => if ValidUtf8(c.rest) then Some(Error(ErrorFromU16(c.value), c.rest)) else None
      case None => None
    else if ty == 0x16 then DecodeEnv(p)
    else if ty == 0x61 then DecodeSessionInfo(p)
    else None
  }

  datatype Layout = EmptyFrame | BlobFrame | IdFrame | TextFrame | StructuredFrame | FixedFrame

  /** Which family of decoders a type byte belongs to. */
  function LayoutOf(ty: byte): Layout {
    if DecodeEmpty(ty).Some? then EmptyFrame
    else if ty == 0x10 || ty == 0x18 || ty == 0x1b || ty == 0x22 || ty == 0x2a || ty == 0x2c || ty == 0x32 || ty == 0x43
    then BlobFrame
    else if ty == 0x12 || ty == 0x21 || ty == 0x23 || ty == 0x31 || ty == 0x33 || ty == 0x41 || ty == 0x44 || ty == 0x45
            || ty == 0x60
    then IdFrame
    else if ty == 0x29 || ty == 0x3a || ty == 0x3b || ty == 0x53 || ty == 0x55 then TextFrame
    else if ty == 0x16 || ty == 0x50 || ty == 0x51 || ty == 0x56 || ty == 0x57 || ty == 0x61 || ty == 0x63
    then StructuredFrame
    else FixedFrame
  }

  /** The frame in a complete payload, or nothing when the payload or the type is invalid. */
  function DecodePayload(ty: byte, p: bytes): Option<Frame> {
    match LayoutOf(ty)
    case EmptyFrame => DecodeEmpty(ty)
    case BlobFrame => DecodeBlob(ty, p)
    case IdFrame => DecodeId(ty, p)
    case TextFrame => DecodeText(ty, p)
    case StructuredFrame => DecodeStructured(ty, p)
    case FixedFrame => DecodeFixed(ty, p)
  }

  lemma EnvByType(p: bytes)
    ensures DecodeStructured(0x16, p) == DecodeEnv(p) && LayoutOf(0x16).StructuredFrame?
  {
  }

  lemma SessionInfoByType(p: bytes)
    ensures DecodeStructured(0x61, p) == DecodeSessionInfo(p) && LayoutOf(0x61).StructuredFrame?
  {
  }

  lemma ByLayout(ty: byte, p: bytes)
    requires LayoutOf(ty).StructuredFrame?
    ensures DecodePayload(ty, p) == DecodeStructured(ty, p)
  {
  }

  datatype Decoded = NeedMore | Bad | Got(frame: Frame, rest: bytes)

  /** What one call leaves in the buffer: all of it, or what follows the complete frame. */
  function Unread(src: bytes): bytes {
    if |src| < HEADER_LEN then src
    else
      var len := FromBE(src[1..5]);
      if len > MAX_FRAME_SIZE || |src| < HEADER_LEN + len then src else src[5 + len..]
  }

  /** What the framing layer hands a complete payload to. */
  type PayloadDecoder = (byte, bytes) -> Option<Frame>

  function DecodeWith(decode: PayloadDecoder, src: bytes): (r: Decoded)
    ensures r.Got? ==> |r.rest| < |src|
  {
    if |src| < HEADER_LEN then NeedMore
    else
      var len := FromBE(src[1..5]);
      if len > MAX_FRAME_SIZE then Bad
      else if |src| < HEADER_LEN + len then NeedMore
      else
        match decode(src[0], src[5..5 + len])
        case Some(f) => Got(f, src[5 + len..])
        case None => Bad
  }

  function DecodeOne(src: bytes): Decoded {
    DecodeWith(DecodePayload, src)
  }

  // ---------------------------------------------------------------------
  // Frames that can be sent
  // ---------------------------------------------------------------------

  predicate IsU8(n: nat) { n < 0x100 }
  predicate IsU16(n: nat) { n <= U16_MAX }
  predicate IsU32(n: nat) { n <= U32_MAX }
  predicate IsU64(n: nat) { n <= U64_MAX }

  /** A string whose length fits its 16-bit prefix. */
  predicate IsStr16(s: bytes) { |s| <= U16_MAX && ValidUtf8(s) }

  /** Codes 1 to 8 have names of their own. */
  predicate IsCanonical(c: ErrorCode) {
    c.Unknown? ==> IsU16(c.value) && !(1 <= c.value <= 8)
  }

  predicate EntryOk(e: SessionEntry) {
    && IsU32(e.id) && IsStr16(e.name) && IsStr16(e.ptyPath) && IsU32(e.shellPid) && IsU64(e.createdAt)
    && IsU64(e.lastHeartbeat) && IsStr16(e.foregroundCmd) && IsStr16(e.cwd) && IsStr16(e.clientName)
    && IsU64(e.lastActivity) && IsU64(e.lingerSecs)
  }

  predicate VarsOk(vars: seq<(bytes, bytes)>) {
    forall i :: 0 <= i < |vars| ==> IsStr16(vars[i].0) && IsStr16(vars[i].1)
  }

  predicate EntriesOk(es: seq<SessionEntry>) {
    forall i :: 0 <= i < |es| ==> EntryOk(es[i])
  }

  /** Every field within its type, every string short enough for its prefix, every code canonical. */
  predicate FieldsFit(f: Frame) {
    match f
    case Hello(v, c, d) => IsU16(v) && IsU32(c) && IsU64(d)
    case HelloAck(v, c, s) => IsU16(v) && IsU32(c) && IsU64(s)
    case Resize(c, r) => IsU16(c) && IsU16(r)
    case Exit(c) => -0x8000_0000 <= c < 0x8000_0000
    case Resume(o) => IsU64(o)
    case AgentOpen(c) => IsU32(c)
    case AgentClose(c) => IsU32(c)
    case TunnelListen(p) => IsU16(p)
    case TunnelOpen(c) => IsU32(c)
    case TunnelClose(c) => IsU32(c)
    case SendOffer(n, t) => IsU32(n) && IsU64(t)
    case PortForwardListen(f, l, t) => IsU32(f) && IsU16(l) && IsU16(t)
    case PortForwardReady(f) => IsU32(f)
    case PortForwardOpen(f, c, t) => IsU32(f) && IsU32(c) && IsU16(t)
    case PortForwardClose(c) => IsU32(c)
    case PortForwardStop(f) => IsU32(f)
    case PortForwardRequest(f, d, l, t) => IsU32(f) && IsU8(d) && IsU16(l) && IsU16(t)
    case SessionCreated(i) => IsU32(i)
    case AttachAck(t, s) => IsU64(t) && IsU32(s)
    case AgentData(c, _) => IsU32(c)
    case TunnelData(c, _) => IsU32(c)
    case PortForwardData(c, _) => IsU32(c)
    case OpenUrl(s) => ValidUtf8(s)
    case SendCancel(s) => ValidUtf8(s)
    case SendFile(s) => ValidUtf8(s)
    case Tail(s) => ValidUtf8(s)
    case KillSession(s) => ValidUtf8(s)
    case DiagResponse(s) => ValidUtf8(s)
    case RenameSession(s, n) => IsStr16(s) && ValidUtf8(n)
    case SetLinger(s, l) => IsStr16(s) && IsU64(l)
    case NewSession(n, c, w, cols, rows, cn, l) =>
      IsStr16(n) && IsStr16(c) && IsStr16(w) && IsU16(cols) && IsU16(rows) && IsStr16(cn) && IsU64(l)
    case Attach(s, cn, _, _, cols, rows, token, offset, _) =>
      IsStr16(s) && IsStr16(cn) && IsU16(cols) && IsU16(rows) && IsU64(token) && IsU64(offset)
    case Error(c, m) => IsCanonical(c) && ValidUtf8(m)
    case Env(vars) => VarsOk(vars)
    case SessionInfo(es) => EntriesOk(es)
    case _ => true
  }

  predicate IsSendable(f: Frame) {
    FieldsFit(f) && PayloadLength(f) <= 0x10_0000
  }
}
