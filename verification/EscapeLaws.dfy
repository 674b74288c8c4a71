// The keys of the escape processor by number, and where each stretch of
// typing leaves it.

module EscapeLaws {
  import opened Wrappers
  import opened Bytes
  import opened EscapeGrammar
  import opened EscapeModel

  /** The key of each action: period, R, K, Ctrl-Z, number sign and question mark. */
  const KEYS: map<byte, Control> :=
    map[46 := Detach, 82 := Reconnect, 75 := Pin, 26 := Suspend, 35 := Status, 63 := Help]

  /**
   * A tilde at line start and the key after it: an action if the key has one,
   * one tilde for a second tilde, and both bytes otherwise.  Detaching and
   * reconnecting stop the run; a detached processor stays where it was.
   */
  lemma TildeAndKey(key: byte)
    ensures Run(AfterNewline, [126, key]) ==
              if key == 46 then Outcome(AfterTilde, [Act(Detach)], true)
              else if key == 82 then Outcome(Normal, [Act(Reconnect)], true)
              else if key in KEYS then Outcome(Normal, [Act(KEYS[key])], false)
              else if key == 126 then Outcome(Normal, [Byte(126)], false)
              else Outcome(if key == 10 || key == 13 then AfterNewline else Normal, [Byte(126), Byte(key)], false)
  {
    var second := StepByte(AfterTilde, key);
    assert [126, key][1..] == [key] && [key][1..] == [];
    assert Run(AfterTilde, [key]) == Outcome(second.state, second.items, second.stopped) by {
      assert second.items + [] == second.items;
    }
    assert [] + second.items == second.items;
  }

  /** What comes after a stop is not read. */
  lemma NothingAfterStop(s: State, input: bytes, rest: bytes)
    requires Run(s, input).stopped
    ensures Run(s, input + rest) == Run(s, input)
  {
    RunAppend(s, input, rest);
  }

  /**
   * Where typing that was not stopped leaves the processor: at line start
   * exactly after a CR or an LF, and holding a tilde exactly when it was
   * typed there.
   */
  lemma WhereItStands(s: State, input: bytes, last: byte)
    requires !Run(s, input + [last]).stopped
    ensures var before, after := Run(s, input), Run(s, input + [last]);
            && !before.stopped
            && (after.state.AfterNewline? <==> last == 10 || last == 13)
            && (after.state.AfterTilde? <==> last == 126 && before.state.AfterNewline?)
  {
    RunAppend(s, input, [last]);
    assert [last][1..] == [];
  }

  /** Bytes that are no tilde at line start go to the session as they are. */
  ghost predicate NoTildeAtLineStart(s: State, data: bytes)
    decreases data
  {
    data != [] ==>
      && !(s.AfterNewline? && data[0] == 126)
      && NoTildeAtLineStart(if data[0] == 10 || data[0] == 13 then AfterNewline else Normal, data[1..])
  }

  lemma {:induction false} PlainTyping(s: State, data: bytes)
    requires !s.AfterTilde? && NoTildeAtLineStart(s, data)
    ensures Run(s, data).items == AsItems(data) && !Run(s, data).stopped && !Run(s, data).state.AfterTilde?
    decreases data
  {
    if data == [] {
    } else {
      PlainTyping(if data[0] == 10 || data[0] == 13 then AfterNewline else Normal, data[1..]);
      assert AsItems(data) == [Byte(data[0])] + AsItems(data[1..]);
    }
  }

  // ---------------------------------------------------------------------
  // The other way round
  // ---------------------------------------------------------------------

  /** What a reading of typed input makes of it is what the machine does with it: the grammar leaves no choice. */
  lemma {:induction false} ReadingRuns(s: State, ts: seq<Token>)
    requires !s.AfterTilde? && IsReading(AtLineStart(s), ts)
    ensures var o := Run(s, Render(ts));
            && o.items == Emit(ts) && (o.stopped <==> EndsStopped(ts))
            && (!o.stopped ==> !o.state.AfterTilde?)
    decreases ts
  {
    if ts == [] {
    } else {
      TokenRuns(s, ts[0]);
      var first := Run(s, RenderToken(ts[0]));
      RunAppend(s, RenderToken(ts[0]), Render(ts[1..]));
      if first.stopped {
        assert ts == [ts[0]] && EmitToken(ts[0]) + [] == EmitToken(ts[0]);
      } else {
        ReadingRuns(first.state, ts[1..]);
      }
    }
  }

  lemma TokenRuns(s: State, t: Token)
    requires !s.AfterTilde? && Readable(AtLineStart(s), t)
    ensures var o := Run(s, RenderToken(t));
            && o.items == EmitToken(t) && o.stopped == Stops(t)
            && (!o.stopped ==> !o.state.AfterTilde? && AtLineStart(o.state) == LineStartAfter(t))
  {
    match t {
      case Typed(b) =>
        assert [b][1..] == [] && StepByte(s, b).items + [] == StepByte(s, b).items;
      case Doubled => TildeAndKey(126);
      case Passed(b) => TildeAndKey(b);
      case Command(c) => TildeAndKey(ControlByte(c));
    }
  }
}
