// Which frames survive the wire: exactly those whose fields fit.

module FrameExact {
  import opened Wrappers
  import opened Bytes
  import opened Endian
  import opened Utf8
  import opened Frames
  import opened FrameRoundTrip

  // ---------------------------------------------------------------------
  // What a reader can return
  // ---------------------------------------------------------------------

  lemma {:induction false} PowPositive(k: nat)
    ensures Pow256(k) >= 1
  {
    if k == 0 {
    } else {
      PowPositive(k - 1);
    }
  }

  lemma UintFits(p: bytes, k: nat)
    ensures TakeUint(p, k).Some? ==> FitsIn(TakeUint(p, k).value.value, k)
    ensures FitsIn(TakeTrailing(p, k).value, k) && FitsIn(TakeOrSkip(p, k).value, k)
  {
    PowPositive(k);
    if |p| >= k {
      ToFromBE(p[..k]);
    }
  }

  lemma Bounds(n: nat)
    ensures FitsIn(n, 1) ==> IsU8(n)
    ensures FitsIn(n, 2) ==> IsU16(n)
    ensures FitsIn(n, 4) ==> IsU32(n)
    ensures FitsIn(n, 8) ==> IsU64(n)
  {
    Widths();
  }

  lemma StrFits(p: bytes, extra: nat)
    ensures TakeStr(p, extra).Some? ==> IsStr16(TakeStr(p, extra).value.value)
  {
    if |p| >= 2 {
      ToFromBE(p[..2]);
      Bounds(FromBE(p[..2]));
    }
  }

  lemma Take1Fits(p: bytes, a: nat)
    ensures Take1(p, a).Some? ==> FitsIn(Take1(p, a).value, a)
  {
    UintFits(p, a);
  }

  lemma Take2Fits(p: bytes, a: nat, b: nat)
    ensures Take2(p, a, b).Some? ==> FitsIn(Take2(p, a, b).value.0, a) && FitsIn(Take2(p, a, b).value.1, b)
  {
    UintFits(p, a);
    if |p| >= a {
      Take1Fits(p[a..], b);
    }
  }

  lemma Take3Fits(p: bytes, a: nat, b: nat, c: nat)
    ensures var r := Take3(p, a, b, c);
            r.Some? ==> FitsIn(r.value.0, a) && FitsIn(r.value.1, b) && FitsIn(r.value.2, c)
  {
    UintFits(p, a);
    if |p| >= a {
      Take2Fits(p[a..], b, c);
    }
  }

  lemma Take4Fits(p: bytes, a: nat, b: nat, c: nat, d: nat)
    ensures var r := Take4(p, a, b, c, d);
            r.Some? ==> FitsIn(r.value.0, a) && FitsIn(r.value.1, b) && FitsIn(r.value.2, c) && FitsIn(r.value.3, d)
  {
    UintFits(p, a);
    if |p| >= a {
      Take3Fits(p[a..], b, c, d);
    }
  }

  // ---------------------------------------------------------------------
  // Counted lists
  // ---------------------------------------------------------------------

  ghost predicate ReadsOnly<T(!new)>(take: bytes -> Option<Read<T>>, good: T -> bool) {
    forall p :: take(p).Some? ==> good(take(p).value.value)
  }

  lemma {:induction false} ListFits<T(!new)>(take: bytes -> Option<Read<T>>, good: T -> bool, p: bytes, count: nat)
    requires ReadsOnly(take, good)
    ensures var r := TakeAll(take, p, count);
            r.Some? ==> forall i :: 0 <= i < |r.value| ==> good(r.value[i])
    decreases count
  {
    if count == 0 || take(p).None? {
    } else {
      ListFits(take, good, take(p).value.rest, count - 1);
    }
  }

  predicate VarOk(v: (bytes, bytes)) {
    IsStr16(v.0) && IsStr16(v.1)
  }

  lemma TakeVarFits(p: bytes)
    ensures TakeVar(p).Some? ==> VarOk(TakeVar(p).value.value)
  {
    StrFits(p, 2);
    if TakeStr(p, 2).Some? {
      StrFits(TakeStr(p, 2).value.rest, 0);
    }
  }

  lemma VarsFit(vars: seq<(bytes, bytes)>)
    requires forall i :: 0 <= i < |vars| ==> VarOk(vars[i])
    ensures FieldsFit(Env(vars))
  {
  }

  lemma EnvFits(p: bytes)
    ensures DecodeEnv(p).Some? ==> FieldsFit(DecodeEnv(p).value)
  {
    if |p| >= 4 {
      forall q
        ensures TakeVar(q).Some? ==> VarOk(TakeVar(q).value.value)
      {
        TakeVarFits(q);
      }
      assert ReadsOnly(TakeVar, VarOk);
      ListFits(TakeVar, VarOk, p[4..], FromBE(p[..4]));
      var vars := TakeAll(TakeVar, p[4..], FromBE(p[..4]));
      if vars.Some? {
        forall i | 0 <= i < |vars.value|
          ensures VarOk(vars.value[i])
        {
        }
        VarsFit(vars.value);
      }
    }
  }

  lemma EntryMiddleFits(id: nat, name: bytes, pty: bytes, p: bytes)
    requires IsU32(id) && IsStr16(name) && IsStr16(pty) && |p| >= 21
    ensures var e := DecodeEntryMiddle(id, name, pty, p); e.Some? ==> EntryOk(e.value)
  {
    var texts := p[4..][8..][1..][8..];
    UintFits(p, 4);
    Bounds(FromBE(p[..4]));
    UintFits(p[4..], 8);
    Bounds(FromBE(p[4..][..8]));
    UintFits(p[4..][8..][1..], 8);
    Bounds(FromBE(p[4..][8..][1..][..8]));
    EntryTextsFit(texts);
  }

  lemma EntryTextsFit(p: bytes)
    ensures TakeStr(p, 0).Some? ==>
              var cmd := TakeStr(p, 0).value;
              && IsStr16(cmd.value)
              && (TakeStr(cmd.rest, 0).Some? ==>
                    var cwd := TakeStr(cmd.rest, 0).value;
                    && IsStr16(cwd.value)
                    && (TakeStr(cwd.rest, 0).Some? ==>
                          var client := TakeStr(cwd.rest, 0).value;
                          IsStr16(client.value) && TailNumbersFit(client.rest)))
  {
    StrFits(p, 0);
    if TakeStr(p, 0).Some? {
      var cmd := TakeStr(p, 0).value;
      StrFits(cmd.rest, 0);
      if TakeStr(cmd.rest, 0).Some? {
        var cwd := TakeStr(cmd.rest, 0).value;
        StrFits(cwd.rest, 0);
        if TakeStr(cwd.rest, 0).Some? {
          TailFits(TakeStr(cwd.rest, 0).value.rest);
        }
      }
    }
  }

  ghost predicate TailNumbersFit(p: bytes) {
    var last := TakeTrailing(TakeTrailing(p, 1).rest, 1);
    var activity := TakeTrailing(last.rest, 8);
    IsU64(activity.value) && IsU64(TakeTrailing(activity.rest, 8).value)
  }

  lemma TailFits(p: bytes)
    ensures TailNumbersFit(p)
  {
    var last := TakeTrailing(TakeTrailing(p, 1).rest, 1);
    var activity := TakeTrailing(last.rest, 8);
    UintFits(last.rest, 8);
    Bounds(activity.value);
    UintFits(activity.rest, 8);
    Bounds(TakeTrailing(activity.rest, 8).value);
  }

  lemma EntryFits(p: bytes)
    ensures DecodeEntry(p).Some? ==> EntryOk(DecodeEntry(p).value)
  {
    if DecodeEntry(p).Some? {
      var id := TakeUint(p, 4).value;
      var name := TakeStr(id.rest, 0).value;
      var pty := TakeStr(name.rest, 0).value;
      UintFits(p, 4);
      Bounds(id.value);
      StrFits(id.rest, 0);
      StrFits(name.rest, 0);
      EntryMiddleFits(id.value, name.value, pty.value, pty.rest);
    }
  }

  lemma TakeEntryFits(p: bytes)
    ensures TakeEntry(p).Some? ==> EntryOk(TakeEntry(p).value.value)
  {
    if TakeEntry(p).Some? {
      var len := TakeUint(p, 4).value;
      EntryFits(len.rest[..len.value]);
    }
  }

  lemma EntriesFit(es: seq<SessionEntry>)
    requires forall i :: 0 <= i < |es| ==> EntryOk(es[i])
    ensures FieldsFit(SessionInfo(es))
  {
  }

  lemma SessionInfoFits(p: bytes)
    ensures DecodeSessionInfo(p).Some? ==> FieldsFit(DecodeSessionInfo(p).value)
  {
    if |p| >= 4 {
      forall q
        ensures TakeEntry(q).Some? ==> EntryOk(TakeEntry(q).value.value)
      {
        TakeEntryFits(q);
      }
      assert ReadsOnly(TakeEntry, EntryOk);
      ListFits(TakeEntry, EntryOk, p[4..], FromBE(p[..4]));
      var entries := TakeAll(TakeEntry, p[4..], FromBE(p[..4]));
      if entries.Some? {
        forall i | 0 <= i < |entries.value|
          ensures EntryOk(entries.value[i])
        {
        }
        EntriesFit(entries.value);
      }
    }
  }

  // ---------------------------------------------------------------------
  // Whatever is decoded fits
  // ---------------------------------------------------------------------

  lemma NewSessionFits(p: bytes)
    ensures DecodeNewSession(p).Some? ==> FieldsFit(DecodeNewSession(p).value)
  {
    if DecodeNewSession(p).Some? {
      var name := TakeStr(p, 2).value;
      var command := TakeStr(name.rest, 2).value;
      var cwd := TakeStr(command.rest, 4).value;
      StrFits(p, 2);
      StrFits(name.rest, 2);
      StrFits(command.rest, 4);
      NewSessionRestFits(cwd.rest);
    }
  }

  lemma NewSessionRestFits(p: bytes)
    ensures var cols := TakeTrailing(p, 2);
            var rows := TakeTrailing(cols.rest, 2);
            var client := if |rows.rest| >= 2 then TakeStr(rows.rest, 0) else Some(Read([], rows.rest));
            && IsU16(cols.value) && IsU16(rows.value)
            && (client.Some? ==> IsStr16(client.value.value) && IsU64(TakeTrailing(client.value.rest, 8).value))
  {
    var cols := TakeTrailing(p, 2);
    var rows := TakeTrailing(cols.rest, 2);
    var client := if |rows.rest| >= 2 then TakeStr(rows.rest, 0) else Some(Read([], rows.rest));
    UintFits(p, 2);
    Bounds(cols.value);
    UintFits(cols.rest, 2);
    Bounds(rows.value);
    StrFits(rows.rest, 0);
    if client.Some? {
      UintFits(client.value.rest, 8);
      Bounds(TakeTrailing(client.value.rest, 8).value);
    }
  }

  lemma AttachRestFits(session: bytes, client: bytes, p: bytes)
    requires IsStr16(session) && IsStr16(client)
    ensures FieldsFit(DecodeAttachRest(session, client, p))
  {
    var noReplay := TakeOrSkip(TakeOrSkip(p, 1).rest, 1);
    var cols := TakeOrSkip(noReplay.rest, 2);
    var rows := TakeOrSkip(cols.rest, 2);
    var token := TakeOrSkip(rows.rest, 8);
    var offset := TakeOrSkip(token.rest, 8);
    UintFits(noReplay.rest, 2);
    Bounds(cols.value);
    UintFits(cols.rest, 2);
    Bounds(rows.value);
    UintFits(rows.rest, 8);
    Bounds(token.value);
    UintFits(token.rest, 8);
    Bounds(offset.value);
  }

  lemma AttachFits(p: bytes)
    ensures DecodeAttach(p).Some? ==> FieldsFit(DecodeAttach(p).value)
  {
    if DecodeAttach(p).Some? {
      var session := TakeStr(p, 2).value;
      var client := TakeStr(session.rest, 1).value;
      StrFits(p, 2);
      StrFits(session.rest, 1);
      AttachRestFits(session.value, client.value, client.rest);
    }
  }

  lemma ShortFits(ty: byte, p: bytes)
    requires ty == 0x56 || ty == 0x57 || ty == 0x63
    ensures DecodeStructured(ty, p).Some? ==> FieldsFit(DecodeStructured(ty, p).value)
  {
    if ty == 0x56 {
      StrFits(p, 0);
    } else if ty == 0x57 {
      StrFits(p, 8);
      if TakeStr(p, 8).Some? {
        UintFits(TakeStr(p, 8).value.rest, 8);
        Bounds(FromBE(TakeStr(p, 8).value.rest[..8]));
      }
    } else {
      UintFits(p, 2);
      if |p| >= 2 {
        Bounds(FromBE(p[..2]));
      }
    }
  }

  lemma StructuredFits(ty: byte, p: bytes)
    ensures DecodeStructured(ty, p).Some? ==> FieldsFit(DecodeStructured(ty, p).value)
  {
    if ty == 0x50 {
      NewSessionFits(p);
    } else if ty == 0x51 {
      AttachFits(p);
    } else if ty == 0x16 {
      EnvFits(p);
    } else if ty == 0x61 {
      SessionInfoFits(p);
    } else if ty == 0x56 || ty == 0x57 || ty == 0x63 {
      ShortFits(ty, p);
    }
  }

  lemma FixedPairFits(ty: byte, p: bytes)
    requires ty == 0x11 || ty == 0x1a || ty == 0x30 || ty == 0x38 || ty == 0x64 || ty == 0x01
    ensures DecodeFixed(ty, p).Some? ==> FieldsFit(DecodeFixed(ty, p).value)
  {
    Widths();
    if ty == 0x11 {
      Take2Fits(p, 2, 2);
    } else if ty == 0x1a {
      Take1Fits(p, 8);
    } else if ty == 0x30 {
      Take1Fits(p, 2);
    } else if ty == 0x38 {
      Take2Fits(p, 4, 8);
    } else if ty == 0x64 {
      Take2Fits(p, 8, 4);
    } else {
      Take2Fits(p, 2, 4);
      if |p| >= 6 {
        UintFits(p[6..], 8);
      }
    }
  }

  lemma FixedFits(ty: byte, p: bytes)
    ensures DecodeFixed(ty, p).Some? ==> FieldsFit(DecodeFixed(ty, p).value)
  {
    Widths();
    if ty == 0x40 {
      Take3Fits(p, 4, 2, 2);
    } else if ty == 0x42 {
      Take3Fits(p, 4, 4, 2);
    } else if ty == 0x46 {
      Take4Fits(p, 4, 1, 2, 2);
    } else if ty == 0x02 {
      Take3Fits(p, 2, 4, 8);
    } else if ty == 0x11 || ty == 0x1a || ty == 0x30 || ty == 0x38 || ty == 0x64 || ty == 0x01 {
      FixedPairFits(ty, p);
    }
  }

  lemma IdDecodedFits(ty: byte, p: bytes)
    ensures DecodeId(ty, p).Some? ==> FieldsFit(DecodeId(ty, p).value)
  {
    Take1Fits(p, 4);
    if |p| >= 4 {
      Bounds(Take1(p, 4).value);
    }
  }

  lemma EmptyFits(ty: byte)
    ensures DecodeEmpty(ty).Some? ==> FieldsFit(DecodeEmpty(ty).value)
  {
  }

  lemma TextFits(ty: byte, p: bytes)
    ensures DecodeText(ty, p).Some? ==> FieldsFit(DecodeText(ty, p).value)
  {
  }

  lemma PrefixedBlobFits(ty: byte, p: bytes)
    requires ty == 0x22 || ty == 0x32 || ty == 0x43
    ensures DecodeBlob(ty, p).Some? ==> FieldsFit(DecodeBlob(ty, p).value)
  {
    if |p| >= 4 {
      UintFits(p, 4);
      Bounds(FromBE(p[..4]));
    }
  }

  lemma BlobFits(ty: byte, p: bytes)
    ensures DecodeBlob(ty, p).Some? ==> FieldsFit(DecodeBlob(ty, p).value)
  {
    if ty == 0x22 || ty == 0x32 || ty == 0x43 {
      PrefixedBlobFits(ty, p);
    } else if ty == 0x18 {
      LossyIsValid(p);
    }
  }

  /** Whatever bytes arrive, a decoded frame has every field within its type and every string short enough. */
  lemma DecodedFits(ty: byte, p: bytes)
    ensures DecodePayload(ty, p).Some? ==> FieldsFit(DecodePayload(ty, p).value)
  {
    match LayoutOf(ty) {
      case EmptyFrame => EmptyFits(ty);
      case BlobFrame => BlobFits(ty, p);
      case IdFrame => IdDecodedFits(ty, p);
      case TextFrame => TextFits(ty, p);
      case StructuredFrame => StructuredFits(ty, p);
      case FixedFrame => FixedFits(ty, p);
    }
  }

  // ---------------------------------------------------------------------
  // The header length is right for every frame
  // ---------------------------------------------------------------------

  lemma EntrySize(e: SessionEntry)
    ensures |WriteEntry(e)| == 4 + EntryLength(e)
  {
    assert |EntryTail(e)| == 18;
  }

  lemma {:induction false} EntriesSize(es: seq<SessionEntry>)
    ensures |WriteAll(WriteEntry, es)| == EntriesLength(es)
    decreases es
  {
    if es == [] {
    } else {
      EntriesSize(es[1..]);
      EntrySize(es[0]);
    }
  }

  lemma RequestSize(f: Frame)
    requires f.NewSession? || f.Attach?
    ensures |Payload(f)| == PayloadLength(f)
  {
  }

  lemma PlainSize(f: Frame)
    requires !f.Env? && !f.SessionInfo? && !f.NewSession? && !f.Attach?
    requires f.Exit? ==> -0x8000_0000 <= f.exitCode
    ensures |Payload(f)| == PayloadLength(f)
  {
  }

  /** Sendable or not, a frame is written with exactly as many bytes as its header length was computed for. */
  lemma PayloadSize(f: Frame)
    requires f.Exit? ==> -0x8000_0000 <= f.exitCode
    ensures |Payload(f)| == PayloadLength(f)
  {
    if f.Env? {
      VarsLength(f.vars);
      EnvFields(f.vars);
    } else if f.SessionInfo? {
      EntriesSize(f.sessions);
      SessionInfoFields(f.sessions);
    } else if f.NewSession? || f.Attach? {
      RequestSize(f);
    } else {
      PlainSize(f);
    }
  }

  // ---------------------------------------------------------------------
  // Exactly the sendable frames come back
  // ---------------------------------------------------------------------

  lemma EncodedSplits(ty: byte, len: nat, payload: bytes, rest: bytes)
    requires |payload| == len
    ensures var src := [ty] + ToBE(len, 4) + payload + rest;
            && |src| == HEADER_LEN + len + |rest| && src[0] == ty
            && src[1..5] == ToBE(len, 4) && src[5..5 + len] == payload
  {
    var src := [ty] + ToBE(len, 4) + payload + rest;
    assert src[1..5] == ToBE(len, 4);
    assert src[5..5 + len] == payload;
  }

  /**
   * A frame is read back as itself, leaving what followed, exactly when its
   * strings fit their prefixes, its error code is canonical, its numbers fit
   * their types and it is within the size limit.
   */
  lemma FrameRoundTripsExactly(f: Frame, rest: bytes)
    requires f.Exit? ==> -0x8000_0000 <= f.exitCode
    ensures DecodeOne(Encode(f) + rest) == Got(f, rest) <==> IsSendable(f)
  {
    if IsSendable(f) {
      FrameRoundTrips(f, rest);
    } else {
      PayloadSize(f);
      UnsendableIsLost(f, TypeByte(f), PayloadLength(f), Payload(f), rest);
    }
  }

  lemma UnsendableIsLost(f: Frame, ty: byte, len: nat, payload: bytes, rest: bytes)
    requires |payload| == len && (FieldsFit(f) ==> len > MAX_FRAME_SIZE)
    ensures DecodeWith(DecodePayload, [ty] + ToBE(len, 4) + payload + rest) != Got(f, rest)
  {
    var src := [ty] + ToBE(len, 4) + payload + rest;
    EncodedSplits(ty, len, payload, rest);
    if FromBE(src[1..5]) == len && len <= MAX_FRAME_SIZE && DecodePayload(ty, payload) == Some(f) {
      DecodedFits(ty, payload);
      assert false;
    }
  }
}
