// The codec's loops and its buffer (src/protocol.rs), against the functions of Frames.

module FrameLoops {
  import opened Wrappers
  import opened Bytes
  import opened Endian
  import opened Frames

  lemma AppendFields(dst: bytes, a: bytes, b: bytes, c: bytes)
    ensures dst + a + b + c == dst + (a + b + c)
  {
  }

  /** Appends an `Env` frame: the summed length first, then each pair. */
  method WriteEnv(dst: bytes, vars: seq<(bytes, bytes)>) returns (out: bytes)
    ensures out == dst + Encode(Env(vars))
  {
    var bodyLen := SumVars(vars);
    var body := AppendAll(WriteVar, vars);
    var payload := ToBE(|vars|, 4) + body;
    EnvFields(vars);
    EncodeByFields(Env(vars), 0x16, 4 + bodyLen, payload);
    out := dst + ([0x16] + ToBE(4 + bodyLen, 4) + payload);
  }

  method SumVars(vars: seq<(bytes, bytes)>) returns (sum: nat)
    ensures sum == EnvLength(vars)
  {
    sum := 0;
    for i := 0 to |vars|
      invariant sum + EnvLength(vars[i..]) == EnvLength(vars)
    {
      assert vars[i..][1..] == vars[i + 1..];
      sum := sum + 2 + |vars[i].0| + 2 + |vars[i].1|;
    }
    assert vars[|vars|..] == [];
  }

  /** Appends a `SessionInfo` frame, each entry behind its own length. */
  method WriteSessionInfo(dst: bytes, es: seq<SessionEntry>) returns (out: bytes)
    ensures out == dst + Encode(SessionInfo(es))
  {
    var bodyLen := SumEntries(es);
    var body := AppendAll(WriteEntry, es);
    var payload := ToBE(|es|, 4) + body;
    SessionInfoFields(es);
    EncodeByFields(SessionInfo(es), 0x61, 4 + bodyLen, payload);
    out := dst + ([0x61] + ToBE(4 + bodyLen, 4) + payload);
  }

  method SumEntries(es: seq<SessionEntry>) returns (sum: nat)
    ensures sum == EntriesLength(es)
  {
    sum := 0;
    for i := 0 to |es|
      invariant sum + EntriesLength(es[i..]) == EntriesLength(es)
    {
      assert es[i..][1..] == es[i + 1..];
      sum := sum + 4 + EntryLength(es[i]);
    }
    assert es[|es|..] == [];
  }

  /** The loop that appends every record to the body. */
  method AppendAll<T>(write: T -> bytes, xs: seq<T>) returns (body: bytes)
    ensures body == WriteAll(write, xs)
  {
    body := [];
    for i := 0 to |xs|
      invariant body + WriteAll(write, xs[i..]) == WriteAll(write, xs)
    {
      assert xs[i..][1..] == xs[i + 1..];
      AppendAssoc(body, write(xs[i]), WriteAll(write, xs[i + 1..]));
      body := body + write(xs[i]);
    }
    assert body + [] == body;
  }

  method ReadEnv(p: bytes) returns (r: Option<Frame>)
    ensures r == DecodeEnv(p)
  {
    var count := TakeUint(p, 4);
    if count.None? {
      return None;
    }
    var vars := ReadAll(TakeVar, count.value.rest, count.value.value);
    r := if vars.Some? then Some(Env(vars.value)) else None;
  }

  method ReadSessionInfo(p: bytes) returns (r: Option<Frame>)
    ensures r == DecodeSessionInfo(p)
  {
    var count := TakeUint(p, 4);
    if count.None? {
      return None;
    }
    var entries := ReadAll(TakeEntry, count.value.rest, count.value.value);
    r := if entries.Some? then Some(SessionInfo(entries.value)) else None;
  }

  /** The counted loop both list frames run. */
  method ReadAll<T>(take: bytes -> Option<Read<T>>, p: bytes, count: nat) returns (r: Option<seq<T>>)
    ensures r == TakeAll(take, p, count)
  {
    var unread, left, read := p, count, [];
    PrependNothing(TakeAll(take, p, count));
    while left > 0
      invariant Prepend(read, TakeAll(take, unread, left)) == TakeAll(take, p, count)
    {
      var x := take(unread);
      if x.None? {
        return None;
      }
      PrependMore(read, x.value.value, TakeAll(take, x.value.rest, left - 1));
      read, unread, left := read + [x.value.value], x.value.rest, left - 1;
    }
    assert read + [] == read;
    return Some(read);
  }

  function Prepend<T>(done: seq<T>, more: Option<seq<T>>): Option<seq<T>> {
    match more case Some(xs) => Some(done + xs) case None => None
  }

  lemma PrependNothing<T>(more: Option<seq<T>>)
    ensures Prepend([], more) == more
  {
    if more.Some? {
      assert [] + more.value == more.value;
    }
  }

  lemma PrependMore<T>(done: seq<T>, x: T, more: Option<seq<T>>)
    ensures Prepend(done + [x], more) == Prepend(done, Prepend([x], more))
  {
    if more.Some? {
      assert (done + [x]) + more.value == done + ([x] + more.value);
    }
  }
}

module FrameCodecs {
  import opened Wrappers
  import opened Bytes
  import opened Endian
  import opened Frames
  import opened FrameLoops
  import opened FrameRoundTrip

  class FrameCodec {
    var buffer: bytes

    constructor ()
      ensures buffer == []
    {
      buffer := [];
    }

    /** Appends the frame: the counted ones in a loop, the others field by field. */
    method WriteFrame(f: Frame)
      requires f.Exit? ==> -0x8000_0000 <= f.exitCode
      modifies this
      ensures buffer == old(buffer) + Encode(f)
    {
      match f {
        case Env(vars) => buffer := WriteEnv(buffer, vars);
        case SessionInfo(es) => buffer := WriteSessionInfo(buffer, es);
        case _ => buffer := WriteFields(buffer, f);
      }
    }

    static method WriteFields(dst: bytes, f: Frame) returns (out: bytes)
      requires f.Exit? ==> -0x8000_0000 <= f.exitCode
      ensures out == dst + Encode(f)
    {
      out := dst + [TypeByte(f)];
      out := out + ToBE(PayloadLength(f), 4);
      out := out + Payload(f);
      AppendFields(dst, [TypeByte(f)], ToBE(PayloadLength(f), 4), Payload(f));
    }

    /** One frame off the front, or a report that the buffer holds no complete one. */
    method ReadFrame() returns (r: Decoded)
      modifies this
      ensures r == DecodeOne(old(buffer))
      ensures buffer == Unread(old(buffer)) && (r.Got? ==> r.rest == buffer)
    {
      if |buffer| < HEADER_LEN {
        return NeedMore;
      }
      var len := FromBE(buffer[1..5]);
      if len > MAX_FRAME_SIZE {
        return Bad;
      }
      if |buffer| < HEADER_LEN + len {
        return NeedMore;
      }
      var ty, payload := buffer[0], buffer[5..5 + len];
      buffer := buffer[5 + len..];
      var frame := ReadPayload(ty, payload);
      r := if frame.Some? then Got(frame.value, buffer) else Bad;
    }

    static method ReadPayload(ty: byte, p: bytes) returns (r: Option<Frame>)
      ensures r == DecodePayload(ty, p)
    {
      if ty == 0x16 {
        EnvByType(p);
        ByLayout(ty, p);
        r := ReadEnv(p);
      } else if ty == 0x61 {
        SessionInfoByType(p);
        ByLayout(ty, p);
        r := ReadSessionInfo(p);
      } else {
        r := DecodePayload(ty, p);
      }
    }

    /** A chunk arrives: every frame it completes comes out, in order. */
    method Feed(chunk: bytes) returns (frames: seq<Frame>, failed: bool)
      modifies this
      ensures Drained(frames, buffer, failed) == Drain(DecodePayload, old(buffer) + chunk)
    {
      buffer := buffer + chunk;
      frames := [];
      while true
        invariant var more := Drain(DecodePayload, buffer);
                  Drained(frames + more.frames, more.rest, more.failed) == Drain(DecodePayload, old(buffer) + chunk)
        decreases |buffer|
      {
        assert frames + [] == frames;
        var before := buffer;
        var r := ReadFrame();
        match r {
          case NeedMore => return frames, false;
          case Bad => return frames, true;
          case Got(f, rest) =>
            assert frames + ([f] + Drain(DecodePayload, rest).frames) == (frames + [f]) + Drain(DecodePayload, rest).frames;
            frames := frames + [f];
        }
      }
    }
  }
}
