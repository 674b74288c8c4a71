// The readiness pipe between a daemonizing parent and its grandchild (src/lib.rs).

module ReadyPipe {
  import opened Bytes
  import opened Endian
  import opened Utf8

  const READY_TAG: byte := 0x01
  const WARNING_TAG: byte := 0x03

  /** The parent's verdict; texts are as they are shown. */
  datatype Verdict = Ready(pid: nat) | Failed(message: bytes) | Crashed

  datatype Reading = Reading(warnings: seq<bytes>, verdict: Verdict)

  function ReadyRecord(pid: nat): bytes {
    [READY_TAG] + ToLE(pid, 4)
  }

  function WarningBody(message: bytes): bytes {
    message[..Min(|message|, U16_MAX)]
  }

  /** Text as the parent shows it: decoded, broken characters replaced, and trimmed. */
  function Shown(text: bytes): bytes {
    Trim(Lossy(text))
  }

  function WarningRecord(message: bytes): bytes {
    [WARNING_TAG] + ToLE(|WarningBody(message)|, 2) + WarningBody(message)
  }

  /** How received text is turned into what is shown: `Shown` in the program, anything in the lemmas on records. */
  type Rendering = bytes -> bytes

  /** What the parent concludes from everything written before the pipe closed. */
  function Read(show: Rendering, pipe: bytes): Reading
    decreases pipe
  {
    if pipe == [] then Reading([], Crashed)
    else if pipe[0] == READY_TAG then
      Reading([], if |pipe| >= 5 then Ready(FromLE(pipe[1..5])) else Crashed)
    else if pipe[0] == WARNING_TAG then
      if |pipe| < 3 || |pipe| < 3 + FromLE(pipe[1..3]) then Reading([], Crashed)
      else
        var end := 3 + FromLE(pipe[1..3]);
        var rest := Read(show, pipe[end..]);
        Reading([show(pipe[3..end])] + rest.warnings, rest.verdict)
    else Reading([], Failed(show(pipe)))
  }

  function Records(messages: seq<bytes>): bytes {
    if messages == [] then [] else WarningRecord(messages[0]) + Records(messages[1..])
  }

  /** What the parent shows of these warnings. */
  function Delivered(show: Rendering, messages: seq<bytes>): seq<bytes> {
    seq(|messages|, i requires 0 <= i < |messages| => show(WarningBody(messages[i])))
  }

  /** The reading of a pipe whose first records gave `warnings` and whose rest reads as `r`. */
  ghost function After(warnings: seq<bytes>, r: Reading): Reading {
    Reading(warnings + r.warnings, r.verdict)
  }

  lemma AfterNothing(r: Reading)
    ensures After([], r) == r
  {
    assert [] + r.warnings == r.warnings;
  }

  lemma AfterAll(warnings: seq<bytes>)
    ensures warnings + [] == warnings
  {
  }

  lemma AfterMore(warnings: seq<bytes>, more: seq<bytes>, r: Reading)
    ensures After(warnings, After(more, r)) == After(warnings + more, r)
  {
    AppendAssoc(warnings, more, r.warnings);
  }

  lemma WarningLength(message: bytes)
    ensures FromLE(ToLE(|WarningBody(message)|, 2)) == |WarningBody(message)|
  {
    Widths();
    FromToLE(|WarningBody(message)|, 2);
  }

  /** The records byte by byte: 1 and the pid, or 3, the length and at most 65535 bytes of the text, low bytes first. */
  lemma RecordBytes(pid: nat, message: bytes)
    ensures ReadyRecord(pid) == [1, pid % 256, pid / 256 % 256, pid / 0x1_0000 % 256, pid / 0x100_0000 % 256]
    ensures var n := if |message| <= 65535 then |message| else 65535;
            WarningRecord(message) == [3, n % 256, n / 256] + message[..n]
  {
    LEStep(pid, 4);
    LEStep(pid / 256, 3);
    LEStep(pid / 256 / 256, 2);
    LEStep(pid / 256 / 256 / 256, 1);
    assert pid / 256 / 256 == pid / 0x1_0000 && pid / 256 / 256 / 256 == pid / 0x100_0000;
    LEStep(|WarningBody(message)|, 2);
    LEStep(|WarningBody(message)| / 256, 1);
  }

  lemma LEStep(n: nat, k: nat)
    requires k > 0
    ensures ToLE(n, k) == [n % 256] + ToLE(n / 256, k - 1)
  {
  }

  /** Anything that begins with another byte is the text of a failure. */
  lemma OtherBytesFail(show: Rendering, messages: seq<bytes>, text: bytes)
    requires text != [] && text[0] != 1 && text[0] != 3
    ensures Read(show, Records(messages) + text) == Reading(Delivered(show, messages), Failed(show(text)))
  {
    ReadRecords(show, messages, text);
    AfterAll(Delivered(show, messages));
  }

  lemma ReadWarning(show: Rendering, message: bytes, rest: bytes)
    ensures Read(show, WarningRecord(message) + rest) == After([show(WarningBody(message))], Read(show, rest))
  {
    WarningLength(message);
    var pipe := WarningRecord(message) + rest;
    var body := WarningBody(message);
    assert pipe[1..3] == ToLE(|body|, 2);
    assert pipe[3..3 + |body|] == body;
    assert pipe[3 + |body|..] == rest;
  }

  lemma ReadReady(show: Rendering, pid: nat, rest: bytes)
    requires pid <= U32_MAX
    ensures Read(show, ReadyRecord(pid) + rest) == Reading([], Ready(pid))
  {
    Widths();
    FromToLE(pid, 4);
    assert (ReadyRecord(pid) + rest)[1..5] == ToLE(pid, 4);
  }

  lemma FirstDelivered(show: Rendering, messages: seq<bytes>)
    requires messages != []
    ensures Delivered(show, messages) == [show(WarningBody(messages[0]))] + Delivered(show, messages[1..])
  {
  }

  lemma {:induction false} ReadRecords(show: Rendering, messages: seq<bytes>, tail: bytes)
    ensures Read(show, Records(messages) + tail) == After(Delivered(show, messages), Read(show, tail))
    decreases messages
  {
    if messages == [] {
      assert Records(messages) + tail == tail;
      AfterNothing(Read(show, tail));
    } else {
      var later := Records(messages[1..]);
      ReadRecords(show, messages[1..], tail);
      AppendAssoc(WarningRecord(messages[0]), later, tail);
      ReadWarning(show, messages[0], later + tail);
      FirstDelivered(show, messages);
      AfterMore([show(WarningBody(messages[0]))], Delivered(show, messages[1..]), Read(show, tail));
    }
  }

  /** Warnings then ready: exactly those warnings in order, each as it is shown, and that pid. */
  lemma RoundTrip(show: Rendering, messages: seq<bytes>, pid: nat, rest: bytes)
    requires pid <= U32_MAX
    ensures Read(show, Records(messages) + ReadyRecord(pid) + rest) == Reading(Delivered(show, messages), Ready(pid))
  {
    AppendAssoc(Records(messages), ReadyRecord(pid), rest);
    ReadRecords(show, messages, ReadyRecord(pid) + rest);
    ReadReady(show, pid, rest);
    AfterAll(Delivered(show, messages));
  }

  lemma CutWarning(show: Rendering, message: bytes, k: nat)
    requires k < |WarningRecord(message)|
    ensures Read(show, WarningRecord(message)[..k]) == Reading([], Crashed)
  {
    WarningLength(message);
    var whole, cut := WarningRecord(message), WarningRecord(message)[..k];
    assert whole[1..3] == ToLE(|WarningBody(message)|, 2);
    if k >= 3 {
      assert cut[1..3] == whole[1..3];
    }
  }

  lemma CutReady(show: Rendering, pid: nat, k: nat)
    requires k < |ReadyRecord(pid)|
    ensures Read(show, ReadyRecord(pid)[..k]) == Reading([], Crashed)
  {
  }

  lemma CutLater(show: Rendering, message: bytes, later: bytes, k: nat)
    requires |WarningRecord(message)| <= k <= |WarningRecord(message) + later|
    ensures Read(show, (WarningRecord(message) + later)[..k])
         == After([show(WarningBody(message))], Read(show, later[..k - |WarningRecord(message)|]))
  {
    var first := WarningRecord(message);
    assert (first + later)[..k] == first + later[..k - |first|];
    ReadWarning(show, message, later[..k - |first|]);
  }

  /** A stream cut short anywhere is a crash after some of the warnings, never a verdict. */
  lemma {:induction false} StrictPrefixCrashes(show: Rendering, messages: seq<bytes>, pid: nat, k: nat)
    requires k < |Records(messages) + ReadyRecord(pid)|
    ensures var r := Read(show, (Records(messages) + ReadyRecord(pid))[..k]);
            r.verdict == Crashed && r.warnings <= Delivered(show, messages)
    decreases messages
  {
    if messages == [] {
      assert [] + ReadyRecord(pid) == ReadyRecord(pid);
      CutReady(show, pid, k);
    } else {
      var first, later := WarningRecord(messages[0]), Records(messages[1..]) + ReadyRecord(pid);
      AppendAssoc(first, Records(messages[1..]), ReadyRecord(pid));
      if k < |first| {
        assert (first + later)[..k] == first[..k];
        CutWarning(show, messages[0], k);
      } else {
        CutLater(show, messages[0], later, k);
        StrictPrefixCrashes(show, messages[1..], pid, k - |first|);
        FirstDelivered(show, messages);
      }
    }
  }

  ghost predicate WholeBodies(bodies: seq<bytes>) {
    forall i :: 0 <= i < |bodies| ==> |bodies[i]| <= U16_MAX
  }

  /** And only such streams are read as ready: the parent never invents a pid or a warning. */
  lemma {:induction false} ReadyOnlyFromRecords(show: Rendering, pipe: bytes) returns (bodies: seq<bytes>, rest: bytes)
    requires Read(show, pipe).verdict.Ready?
    ensures var r := Read(show, pipe);
            r.verdict.pid <= U32_MAX && WholeBodies(bodies) && r.warnings == Delivered(show, bodies)
            && pipe == Records(bodies) + ReadyRecord(r.verdict.pid) + rest
    decreases pipe
  {
    if pipe[0] == READY_TAG {
      bodies, rest := [], pipe[5..];
      ReadyRecordStarts(pipe);
      assert [] + ReadyRecord(Read(show, pipe).verdict.pid) == ReadyRecord(Read(show, pipe).verdict.pid);
    } else {
      var end := 3 + FromLE(pipe[1..3]);
      var body := pipe[3..end];
      WarningRecordStarts(pipe);
      var later;
      later, rest := ReadyOnlyFromRecords(show, pipe[end..]);
      bodies := [body] + later;
      FirstDelivered(show, bodies);
      assert bodies[1..] == later;
      Reassociate(WarningRecord(body), Records(later), ReadyRecord(Read(show, pipe).verdict.pid), rest);
    }
  }

  lemma Reassociate(a: bytes, b: bytes, c: bytes, d: bytes)
    ensures a + (b + c + d) == (a + b) + c + d
  {
  }

  lemma ReadyRecordStarts(pipe: bytes)
    requires |pipe| >= 5 && pipe[0] == READY_TAG
    ensures FromLE(pipe[1..5]) <= U32_MAX && pipe == ReadyRecord(FromLE(pipe[1..5])) + pipe[5..]
  {
    Widths();
    ToFromLE(pipe[1..5]);
    assert pipe == [pipe[0]] + pipe[1..5] + pipe[5..];
  }

  lemma WarningRecordStarts(pipe: bytes)
    requires |pipe| >= 3 && pipe[0] == WARNING_TAG && |pipe| >= 3 + FromLE(pipe[1..3])
    ensures var end := 3 + FromLE(pipe[1..3]);
            && |pipe[3..end]| <= U16_MAX && WarningBody(pipe[3..end]) == pipe[3..end]
            && pipe == WarningRecord(pipe[3..end]) + pipe[end..]
  {
    Widths();
    ToFromLE(pipe[1..3]);
    var end := 3 + FromLE(pipe[1..3]);
    assert pipe == [pipe[0]] + pipe[1..3] + pipe[3..end] + pipe[end..];
  }

  // ---------------------------------------------------------------------
  // Which warnings arrive unchanged
  // ---------------------------------------------------------------------

  /** A message too long for a record whose last character is the replacement that its cut leaves behind. */
  predicate EndsWhereCut(message: bytes) {
    |message| <= U16_MAX + 2 && IsSuffix(REPLACEMENT, message)
  }

  /** Past its first byte a character holds only continuation bytes. */
  lemma TailInside(m: bytes, q: nat, r: nat)
    requires q <= |m| && q < r < q + Utf8Length(m[q..])
    ensures r < |m| && IsTail(m[r])
  {
    assert m[q..][r - q] == m[r];
  }

  /** A replacement character across the cut is replaced by itself. */
  lemma CutReplacement(m: bytes)
    requires ValidUtf8(m) && |m| > U16_MAX && EndsWhereCut(m)
    ensures Lossy(m[..U16_MAX]) == m
  {
    var q := LossyCut(m, U16_MAX);
    CutAtReplacement(m, q);
    assert m == m[..|m| - 3] + m[|m| - 3..];
  }

  /** Cut inside the replacement it ends with, the text keeps everything before that. */
  lemma CutAtReplacement(m: bytes, q: nat)
    requires |m| > U16_MAX && EndsWhereCut(m) && CutsAt(m, U16_MAX, q)
    ensures q == |m| - 3
  {
    var r := |m| - 3;
    assert m[r..] == REPLACEMENT;
    assert m[r] == 0xef && m[r + 1] == 0xbf && m[r + 2] == 0xbd;
    if q < |m| {
      assert m[q..][0] == m[q];
    }
    if q < r {
      TailInside(m, q, r);
    }
  }

  lemma ReplacementEnds(p: bytes)
    ensures LastSpaceLength(p + REPLACEMENT) == 0
  {
    var s := p + REPLACEMENT;
    assert s[|s| - 1..] == [0xbd] && s[|s| - 2..] == [0xbf, 0xbd] && s[|s| - 3..] == REPLACEMENT;
  }

  lemma SpaceOfStart(s: bytes, t: bytes, q: nat)
    requires 3 <= q <= |s| && q <= |t| && s[..q] == t[..q]
    ensures SpaceLength(s) == SpaceLength(t)
  {
    assert s[..3] == s[..q][..3] && t[..3] == t[..q][..3];
    assert s[0] == s[..q][0] && s[1] == s[..q][1] && s[2] == s[..q][2];
    assert t[0] == t[..q][0] && t[1] == t[..q][1] && t[2] == t[..q][2];
  }

  lemma LongUnchanged(m: bytes)
    requires ValidUtf8(m) && |m| > U16_MAX && Shown(m[..U16_MAX]) == m
    ensures EndsWhereCut(m)
  {
    var q := LossyCut(m, U16_MAX);
    var text := Lossy(m[..U16_MAX]);
    TrimExactly(text);
    assert |m| <= |text|;
    if q < U16_MAX {
      assert text == m[..q] + REPLACEMENT;
      assert text[..q] == m[..q];
      ReplacementEnds(m[..q]);
      SpaceOfStart(text, m, q);
      assert m == text;
      assert m[|m| - 3..] == REPLACEMENT;
    }
  }

  lemma ShortUnchanged(message: bytes)
    requires ValidUtf8(message) && |message| <= U16_MAX
    ensures Shown(WarningBody(message)) == message <==> IsTrimmed(message)
  {
    assert message[..|message|] == message;
    LossyKeepsValid(message);
    TrimExactly(message);
  }

  /** Has no white space at its ends, and is not cut, or cut to no effect. */
  predicate Unchanged(message: bytes) {
    IsTrimmed(message) && (|message| <= U16_MAX || EndsWhereCut(message))
  }

  /** Exactly those messages are shown as they were written. */
  lemma UnchangedExactly(message: bytes)
    requires ValidUtf8(message)
    ensures Shown(WarningBody(message)) == message <==> Unchanged(message)
  {
    if |message| <= U16_MAX {
      ShortUnchanged(message);
    } else if EndsWhereCut(message) {
      CutReplacement(message);
      TrimExactly(message);
    } else if Shown(WarningBody(message)) == message {
      LongUnchanged(message);
    }
  }

  /** The pipe hands over the very warnings that were written exactly when each of them is shown unchanged. */
  lemma WarningsArriveExactly(messages: seq<bytes>, pid: nat, rest: bytes)
    requires pid <= U32_MAX && forall i :: 0 <= i < |messages| ==> ValidUtf8(messages[i])
    ensures Read(Shown, Records(messages) + ReadyRecord(pid) + rest) == Reading(messages, Ready(pid))
       <==> forall i :: 0 <= i < |messages| ==> Unchanged(messages[i])
  {
    RoundTrip(Shown, messages, pid, rest);
    DeliveredUnchanged(messages);
  }

  lemma DeliveredUnchanged(messages: seq<bytes>)
    requires forall i :: 0 <= i < |messages| ==> ValidUtf8(messages[i])
    ensures Delivered(Shown, messages) == messages <==> forall i :: 0 <= i < |messages| ==> Unchanged(messages[i])
  {
    forall i | 0 <= i < |messages|
      ensures Delivered(Shown, messages)[i] == messages[i] <==> Unchanged(messages[i])
    {
      UnchangedExactly(messages[i]);
    }
  }

  /** A complete warning record at the front of the pipe. */
  lemma ReadNext(show: Rendering, pipe: bytes)
    requires |pipe| >= 3 && pipe[0] == WARNING_TAG && |pipe| >= 3 + FromLE(pipe[1..3])
    ensures var end := 3 + FromLE(pipe[1..3]);
            Read(show, pipe) == After([show(pipe[3..end])], Read(show, pipe[end..]))
  {
  }

  /** The parent's loop, consuming the pipe record by record until the verdict. */
  method ReadPipe(show: Rendering, pipe: bytes) returns (warnings: seq<bytes>, verdict: Verdict)
    ensures Reading(warnings, verdict) == Read(show, pipe)
  {
    warnings := [];
    var unread := pipe;
    AfterNothing(Read(show, pipe));
    while true
      invariant Read(show, pipe) == After(warnings, Read(show, unread))
      decreases unread
    {
      AfterAll(warnings);
      if unread == [] {
        return warnings, Crashed;
      }
      var tag := unread[0];
      if tag == READY_TAG {
        verdict := if |unread| - 1 < 4 then Crashed else Ready(FromLE(unread[1..5]));
        return;
      } else if tag == WARNING_TAG {
        if |unread| - 1 < 2 {
          return warnings, Crashed;
        }
        var len := FromLE(unread[1..3]);
        if |unread| - 3 < len {
          return warnings, Crashed;
        }
        var text, next := show(unread[3..3 + len]), unread[3 + len..];
        ReadNext(show, unread);
        AfterMore(warnings, [text], Read(show, next));
        warnings, unread := warnings + [text], next;
      } else {
        assert [tag] + unread[1..] == unread;
        return warnings, Failed(show([tag] + unread[1..]));
      }
    }
  }
}
