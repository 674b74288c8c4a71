// The wire format written out by hand: which number stands for which frame
// and error, and which bytes each frame's fields take.  Nothing here is
// defined from the encoder; the theorems say the codec agrees with it.

module FrameWire {
  import opened Wrappers
  import opened Bytes
  import opened Endian
  import opened Utf8
  import opened Frames
  import opened FrameRoundTrip
  import opened FrameExact

  // ---------------------------------------------------------------------
  // Numbers and strings, byte by byte
  // ---------------------------------------------------------------------

  function U8(n: nat): bytes {
    [n % 0x100]
  }

  function U16(n: nat): bytes {
    [n / 0x100 % 0x100, n % 0x100]
  }

  function U32(n: nat): bytes {
    [n / 0x100_0000 % 0x100, n / 0x1_0000 % 0x100, n / 0x100 % 0x100, n % 0x100]
  }

  function U64(n: nat): bytes {
    U32(n / 0x1_0000_0000) + U32(n)
  }

  /** Two's complement. */
  function I32(n: int): bytes
    requires -0x8000_0000 <= n
  {
    U32(if n < 0 then 0x1_0000_0000 + n else n)
  }

  function Bool(b: bool): bytes {
    if b then [1] else [0]
  }

  function Text(s: bytes): bytes {
    U16(|s|) + s
  }

  lemma ToBEStep(n: nat, k: nat)
    requires k > 0
    ensures ToBE(n, k) == ToBE(n / 256, k - 1) + [n % 256]
  {
  }

  lemma U16Spelled(n: nat)
    ensures ToBE(n, 2) == U16(n)
  {
    ToBEStep(n, 2);
    ToBEStep(n / 256, 1);
  }

  lemma U32Spelled(n: nat)
    ensures ToBE(n, 4) == U32(n)
  {
    ToBEStep(n, 4);
    ToBEStep(n / 256, 3);
    U16Spelled(n / 256 / 256);
    assert n / 256 / 256 / 256 == n / 0x100_0000;
  }

  lemma U64Spelled(n: nat)
    ensures ToBE(n, 8) == U64(n)
  {
    var m := n / 256 / 256 / 256 / 256;
    assert m == n / 0x1_0000_0000;
    U32Spelled(m);
    LastFour(n, 4);
  }

  lemma LastFour(n: nat, k: nat)
    ensures ToBE(n, k + 4) == ToBE(n / 256 / 256 / 256 / 256, k) + U32(n)
  {
    ToBEStep(n, k + 4);
    ToBEStep(n / 256, k + 3);
    ToBEStep(n / 256 / 256, k + 2);
    ToBEStep(n / 256 / 256 / 256, k + 1);
    assert n / 256 / 256 == n / 0x1_0000 && n / 256 / 256 / 256 == n / 0x100_0000;
  }

  lemma Spelled(n: nat)
    ensures ToBE(n, 1) == U8(n) && ToBE(n, 2) == U16(n) && ToBE(n, 4) == U32(n) && ToBE(n, 8) == U64(n)
  {
    ToBEStep(n, 1);
    U16Spelled(n);
    U32Spelled(n);
    U64Spelled(n);
  }

  lemma TextSpelled(s: bytes)
    ensures Str16(s) == Text(s)
  {
    U16Spelled(|s|);
  }

  // ---------------------------------------------------------------------
  // The table
  // ---------------------------------------------------------------------

  /** The number of each frame, as the protocol's documentation lists them. */
  function Number(f: Frame): nat {
    match f
    // handshake
    case Hello(_, _, _) => 1
    case HelloAck(_, _, _) => 2
    // session relay
    case Data(_) => 16
    case Resize(_, _) => 17
    case Exit(_) => 18
    case Detached => 19
    case Ping => 20
    case Pong => 21
    case Env(_) => 22
    case DiagRequest => 23
    case DiagResponse(_) => 24
    case ServerShutdown => 25
    case Resume(_) => 26
    case Notice(_) => 27
    // agent, browser and clipboard
    case AgentForward => 32
    case AgentOpen(_) => 33
    case AgentData(_, _) => 34
    case AgentClose(_) => 35
    case OpenForward => 40
    case OpenUrl(_) => 41
    case ClipboardSet(_) => 42
    case ClipboardGet => 43
    case ClipboardData(_) => 44
    // tunnel and transfer
    case TunnelListen(_) => 48
    case TunnelOpen(_) => 49
    case TunnelData(_, _) => 50
    case TunnelClose(_) => 51
    case SendOffer(_, _) => 56
    case SendDone => 57
    case SendCancel(_) => 58
    case SendFile(_) => 59
    // port forward
    case PortForwardListen(_, _, _) => 64
    case PortForwardReady(_) => 65
    case PortForwardOpen(_, _, _) => 66
    case PortForwardData(_, _) => 67
    case PortForwardClose(_) => 68
    case PortForwardStop(_) => 69
    case PortForwardRequest(_, _, _, _) => 70
    // control
    case NewSession(_, _, _, _, _, _, _) => 80
    case Attach(_, _, _, _, _, _, _, _, _) => 81
    case ListSessions => 82
    case KillSession(_) => 83
    case KillServer => 84
    case Tail(_) => 85
    case RenameSession(_, _) => 86
    case SetLinger(_, _) => 87
    // responses
    case SessionCreated(_) => 96
    case SessionInfo(_) => 97
    case Okay => 98
    case Error(_, _) => 99
    case AttachAck(_, _) => 100
  }

  const NAMED := [NoSuchSession, NameAlreadyExists, InvalidName, EmptyName,
                  VersionMismatch, UnexpectedFrame, AlreadyAttached, OwnerChanged]

  /** The errors with names are 1 to 8, in that order, both ways; every other number is kept as it is. */
  lemma ErrorNumbers(v: nat)
    ensures 1 <= v <= 8 ==> ErrorFromU16(v) == NAMED[v - 1] && ErrorToU16(NAMED[v - 1]) == v
    ensures !(1 <= v <= 8) ==> ErrorFromU16(v) == Unknown(v)
    ensures ErrorToU16(Unknown(v)) == v
  {
  }

  function ErrorNumber(c: ErrorCode): nat {
    match c
    case Unknown(v) => v
    case _ => if c == NAMED[0] then 1 else if c == NAMED[1] then 2 else if c == NAMED[2] then 3
              else if c == NAMED[3] then 4 else if c == NAMED[4] then 5 else if c == NAMED[5] then 6
              else if c == NAMED[6] then 7 else 8
  }

  function VarsWire(vars: seq<(bytes, bytes)>): bytes {
    if vars == [] then [] else Text(vars[0].0) + Text(vars[0].1) + VarsWire(vars[1..])
  }

  function EntryWire(e: SessionEntry): bytes {
    U32(e.id) + (Text(e.name) + (Text(e.ptyPath) + (U32(e.shellPid) + (U64(e.createdAt) + (Bool(e.attached)
    + (U64(e.lastHeartbeat) + (Text(e.foregroundCmd) + (Text(e.cwd) + (Text(e.clientName)
    + (Bool(e.agentForwardingActive) + (Bool(e.isLastAttached) + (U64(e.lastActivity) + U64(e.lingerSecs)))))))))))))
  }

  function EntriesWire(es: seq<SessionEntry>): bytes {
    if es == [] then [] else U32(|EntryWire(es[0])|) + EntryWire(es[0]) + EntriesWire(es[1..])
  }

  function CountedEntries(es: seq<SessionEntry>): bytes {
    U32(|es|) + EntriesWire(es)
  }

  /** The fields of each frame, in the order they travel. */
  function Body(f: Frame): bytes
    requires f.Exit? ==> -0x8000_0000 <= f.exitCode
  {
    match f
    // fixed fields
    case Hello(version, capabilities, device) => U16(version) + (U32(capabilities) + U64(device))
    case HelloAck(version, capabilities, server) => U16(version) + (U32(capabilities) + U64(server))
    case Resize(cols, rows) => U16(cols) + U16(rows)
    case Exit(code) => I32(code)
    case Resume(offset) => U64(offset)
    case AgentOpen(channel) => U32(channel)
    case AgentClose(channel) => U32(channel)
    case TunnelListen(port) => U16(port)
    case TunnelOpen(channel) => U32(channel)
    case TunnelClose(channel) => U32(channel)
    case SendOffer(files, total) => U32(files) + U64(total)
    case PortForwardListen(forward, listen, target) => U32(forward) + (U16(listen) + U16(target))
    case PortForwardReady(forward) => U32(forward)
    case PortForwardOpen(forward, channel, target) => U32(forward) + (U32(channel) + U16(target))
    case PortForwardClose(channel) => U32(channel)
    case PortForwardStop(forward) => U32(forward)
    case PortForwardRequest(forward, direction, listen, target) =>
      U32(forward) + (U8(direction) + (U16(listen) + U16(target)))
    case SessionCreated(id) => U32(id)
    case AttachAck(token, session) => U64(token) + U32(session)
    // a channel and the rest of the frame
    case AgentData(channel, data) => U32(channel) + data
    case TunnelData(channel, data) => U32(channel) + data
    case PortForwardData(channel, data) => U32(channel) + data
    // the whole payload
    case Data(data) => data
    case Notice(data) => data
    case ClipboardSet(data) => data
    case ClipboardData(data) => data
    case OpenUrl(url) => url
    case SendCancel(reason) => reason
    case SendFile(session) => session
    case Tail(session) => session
    case KillSession(session) => session
    case DiagResponse(text) => text
    // structured
    case RenameSession(session, newName) => Text(session) + newName
    case SetLinger(session, secs) => Text(session) + U64(secs)
    case Error(code, message) => U16(ErrorNumber(code)) + message
    case NewSession(_, _, _, _, _, _, _) => CreationHead(f) + (Text(f.clientName) + U64(f.lingerSecs))
    case Attach(_, _, _, _, _, _, _, _, _) => AttachHead(f) + AttachTail(f)
    case Env(vars) => U32(|vars|) + VarsWire(vars)
    case SessionInfo(sessions) => CountedEntries(sessions)
    case _ => []
  }

  /** What a creation request always carries; the client's name and the linger came later. */
  function CreationHead(f: Frame): bytes
    requires f.NewSession?
  {
    Text(f.name) + (Text(f.command) + (Text(f.cwd) + (U16(f.cols) + U16(f.rows))))
  }

  /** What an attach always carries; the other fields came later. */
  function AttachHead(f: Frame): bytes
    requires f.Attach?
  {
    Text(f.session) + (Text(f.clientName) + Bool(f.force))
  }

  function AttachTail(f: Frame): bytes
    requires f.Attach?
  {
    Bool(f.noReplay) + (U16(f.cols) + (U16(f.rows) + (U64(f.attachToken) + (U64(f.renderedOffset) + Bool(f.lineDirty)))))
  }

  /** A frame on the wire: its number, the length of its fields, and its fields. */
  function Wire(f: Frame): bytes
    requires f.Exit? ==> -0x8000_0000 <= f.exitCode
  {
    [Number(f)] + U32(|Body(f)|) + Body(f)
  }

  // ---------------------------------------------------------------------
  // The encoder writes that
  // ---------------------------------------------------------------------

  lemma TypeNumbers(f: Frame)
    ensures TypeByte(f) == Number(f)
  {
  }

  lemma {:induction false} VarsSpelled(vars: seq<(bytes, bytes)>)
    ensures WriteAll(WriteVar, vars) == VarsWire(vars)
  {
    if vars == [] {
    } else {
      VarsSpelled(vars[1..]);
      TextSpelled(vars[0].0);
      TextSpelled(vars[0].1);
    }
  }

  lemma EntrySpelled(e: SessionEntry)
    ensures EncodeEntry(e) == EntryWire(e) && EntryLength(e) == |EntryWire(e)|
  {
    Spelled(e.id);
    Spelled(e.shellPid);
    Spelled(e.createdAt);
    Spelled(e.lastHeartbeat);
    Spelled(e.lastActivity);
    Spelled(e.lingerSecs);
    TextSpelled(e.name);
    TextSpelled(e.ptyPath);
    TextSpelled(e.foregroundCmd);
    TextSpelled(e.cwd);
    TextSpelled(e.clientName);
  }

  lemma {:induction false} EntriesSpelled(es: seq<SessionEntry>)
    ensures WriteAll(WriteEntry, es) == EntriesWire(es)
  {
    if es == [] {
    } else {
      EntriesSpelled(es[1..]);
      EntrySpelled(es[0]);
      U32Spelled(EntryLength(es[0]));
    }
  }

  predicate OneNumber(f: Frame) {
    || f.Exit? || f.Resume? || f.AgentOpen? || f.AgentClose? || f.TunnelListen? || f.TunnelOpen? || f.TunnelClose?
    || f.PortForwardReady? || f.PortForwardClose? || f.PortForwardStop? || f.SessionCreated?
  }

  lemma OneNumberSpelled(f: Frame)
    requires OneNumber(f) && (f.Exit? ==> -0x8000_0000 <= f.exitCode)
    ensures Payload(f) == Body(f)
  {
    match f {
      case Exit(c) => U32Spelled(FromI32(c));
      case Resume(o) => U64Spelled(o);
      case TunnelListen(p) => U16Spelled(p);
      case AgentOpen(c) => U32Spelled(c);
      case AgentClose(c) => U32Spelled(c);
      case TunnelOpen(c) => U32Spelled(c);
      case TunnelClose(c) => U32Spelled(c);
      case PortForwardReady(i) => U32Spelled(i);
      case PortForwardClose(c) => U32Spelled(c);
      case PortForwardStop(i) => U32Spelled(i);
      case SessionCreated(i) => U32Spelled(i);
    }
  }

  predicate ManyNumbers(f: Frame) {
    || f.Hello? || f.HelloAck? || f.Resize? || f.SendOffer? || f.AttachAck?
    || f.PortForwardListen? || f.PortForwardOpen? || f.PortForwardRequest?
  }

  lemma GreetingSpelled(f: Frame)
    requires f.Hello? || f.HelloAck?
    ensures Payload(f) == Body(f)
  {
    Spelled(f.version);
    Spelled(f.capabilities);
    if f.Hello? {
      Spelled(f.deviceId);
    } else {
      Spelled(f.serverId);
    }
  }

  lemma PairSpelled(f: Frame)
    requires f.Resize? || f.SendOffer? || f.AttachAck?
    ensures Payload(f) == Body(f)
  {
    match f {
      case Resize(c, r) => Spelled(c); Spelled(r);
      case SendOffer(n, t) => Spelled(n); Spelled(t);
      case AttachAck(t, s) => Spelled(t); Spelled(s);
    }
  }

  lemma ForwardSpelled(f: Frame)
    requires f.PortForwardListen? || f.PortForwardOpen? || f.PortForwardRequest?
    ensures Payload(f) == Body(f)
  {
    Spelled(f.forwardId);
    Spelled(f.targetPort);
    if f.PortForwardOpen? {
      Spelled(f.channelId);
    } else {
      Spelled(f.listenPort);
      if f.PortForwardRequest? {
        Spelled(f.direction);
      }
    }
  }

  lemma ManyNumbersSpelled(f: Frame)
    requires ManyNumbers(f)
    ensures Payload(f) == Body(f)
  {
    if f.Hello? || f.HelloAck? {
      GreetingSpelled(f);
    } else if f.Resize? || f.SendOffer? || f.AttachAck? {
      PairSpelled(f);
    } else {
      ForwardSpelled(f);
    }
  }

  predicate Structured(f: Frame) {
    f.RenameSession? || f.SetLinger? || f.Error? || f.NewSession? || f.Attach?
  }

  lemma CreationSpelled(f: Frame)
    requires f.NewSession?
    ensures Payload(f) == Body(f)
  {
    TextSpelled(f.name);
    TextSpelled(f.command);
    TextSpelled(f.cwd);
    TextSpelled(f.clientName);
    Spelled(f.cols);
    Spelled(f.rows);
    Spelled(f.lingerSecs);
    var a, b, c := Text(f.name), Text(f.command), Text(f.cwd);
    var sizes, tail := U16(f.cols) + U16(f.rows), Text(f.clientName) + U64(f.lingerSecs);
    assert U16(f.cols) + (U16(f.rows) + tail) == sizes + tail;
    assert a + (b + (c + (sizes + tail))) == (a + (b + (c + sizes))) + tail;
  }

  lemma AttachSpelled(f: Frame)
    requires f.Attach?
    ensures Payload(f) == Body(f)
  {
    TextSpelled(f.session);
    TextSpelled(f.clientName);
    Spelled(f.cols);
    Spelled(f.rows);
    Spelled(f.attachToken);
    Spelled(f.renderedOffset);
    assert Text(f.session) + (Text(f.clientName) + (Bool(f.force) + AttachTail(f))) == AttachHead(f) + AttachTail(f);
  }

  lemma TextThenMoreSpelled(f: Frame)
    requires f.RenameSession? || f.SetLinger?
    ensures Payload(f) == Body(f)
  {
    TextSpelled(f.session);
    if f.SetLinger? {
      Spelled(f.lingerSecs);
    }
  }

  lemma ErrorSpelled(f: Frame)
    requires f.Error?
    ensures Payload(f) == Body(f)
  {
    assert ErrorToU16(f.code) == ErrorNumber(f.code);
    Spelled(ErrorNumber(f.code));
  }

  lemma StructuredSpelled(f: Frame)
    requires Structured(f)
    ensures Payload(f) == Body(f)
  {
    if f.RenameSession? || f.SetLinger? {
      TextThenMoreSpelled(f);
    } else if f.Error? {
      ErrorSpelled(f);
    } else if f.NewSession? {
      CreationSpelled(f);
    } else {
      AttachSpelled(f);
    }
  }

  lemma {:induction false} EnvLayout(vars: seq<(bytes, bytes)>)
    ensures Body(Env(vars)) == U32(|vars|) + VarsWire(vars)
  {
  }

  lemma {:induction false} SessionInfoLayout(es: seq<SessionEntry>)
    ensures Body(SessionInfo(es)) == CountedEntries(es)
  {
  }

  lemma {:induction false} EnvSpelled(vars: seq<(bytes, bytes)>)
    ensures Payload(Env(vars)) == Body(Env(vars))
  {
    EnvLayout(vars);
    VarsSpelled(vars);
    U32Spelled(|vars|);
    EnvFields(vars);
  }

  lemma {:induction false} SessionInfoSpelled(es: seq<SessionEntry>)
    ensures Payload(SessionInfo(es)) == Body(SessionInfo(es))
  {
    SessionInfoLayout(es);
    EntriesSpelled(es);
    U32Spelled(|es|);
    SessionInfoFields(es);
  }

  lemma PrefixedSpelled(f: Frame)
    requires f.AgentData? || f.TunnelData? || f.PortForwardData?
    ensures Payload(f) == Body(f)
  {
    Spelled(f.channelId);
  }

  lemma WholeSpelled(f: Frame)
    requires !OneNumber(f) && !ManyNumbers(f) && !Structured(f) && !f.Env? && !f.SessionInfo?
    requires !f.AgentData? && !f.TunnelData? && !f.PortForwardData?
    ensures Payload(f) == Body(f)
  {
  }

  lemma BodySpelled(f: Frame)
    requires f.Exit? ==> -0x8000_0000 <= f.exitCode
    ensures Payload(f) == Body(f)
  {
    if OneNumber(f) {
      OneNumberSpelled(f);
    } else if ManyNumbers(f) {
      ManyNumbersSpelled(f);
    } else if Structured(f) {
      StructuredSpelled(f);
    } else if f.Env? {
      EnvSpelled(f.vars);
    } else if f.SessionInfo? {
      SessionInfoSpelled(f.sessions);
    } else if f.AgentData? || f.TunnelData? || f.PortForwardData? {
      PrefixedSpelled(f);
    } else {
      WholeSpelled(f);
    }
  }

  /** Every frame goes out as the table says, field by field. */
  lemma WireFormat(f: Frame)
    requires f.Exit? ==> -0x8000_0000 <= f.exitCode
    ensures Encode(f) == Wire(f)
  {
    BodySpelled(f);
    TypeNumbers(f);
    PayloadSize(f);
    U32Spelled(PayloadLength(f));
  }

  /** And those bytes are read as that frame, whatever follows them. */
  lemma WireIsRead(f: Frame, rest: bytes)
    requires IsSendable(f)
    ensures DecodeOne(Wire(f) + rest) == Got(f, rest)
  {
    WireFormat(f);
    FrameRoundTrips(f, rest);
  }
}
