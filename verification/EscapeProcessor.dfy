// The `~` escape processor on the client's keyboard input (src/client.rs).
// `EscapeGrammar` reads typed input as a list of tokens without a machine;
// `EscapeModel` is the source's machine byte by byte; `Escapes` is the
// method that groups its output into actions.

module EscapeGrammar {
  import opened Bytes

  const TILDE: byte := 0x7e

  datatype Control = Detach | Reconnect | Pin | Suspend | Status | Help

  /** What the processor hands on: a byte for the session, or something for the client to do. */
  datatype Item = Byte(b: byte) | Act(control: Control)

  /** How a stretch of typed input is understood. */
  datatype Token =
    | Typed(b: byte)         // an ordinary byte
    | Doubled                // `~~` at line start
    | Passed(b: byte)        // `~b` at line start with no meaning: both bytes go on
    | Command(control: Control)

  predicate IsNewline(b: byte) {
    b == LF || b == CR
  }

  function ControlByte(c: Control): byte {
    match c
    case Detach => '.' as int
    case Reconnect => 'R' as int
    case Pin => 'K' as int
    case Suspend => 0x1a
    case Status => '#' as int
    case Help => '?' as int
  }

  predicate IsControlByte(b: byte) {
    b in {0x2e, 0x52, 0x4b, 0x1a, 0x23, 0x3f}
  }

  function RenderToken(t: Token): bytes {
    match t
    case Typed(b) => [b]
    case Doubled => [TILDE, TILDE]
    case Passed(b) => [TILDE, b]
    case Command(c) => [TILDE, ControlByte(c)]
  }

  function EmitToken(t: Token): seq<Item> {
    match t
    case Typed(b) => [Byte(b)]
    case Doubled => [Byte(TILDE)]
    case Passed(b) => [Byte(TILDE), Byte(b)]
    case Command(c) => [Act(c)]
  }

  function Render(ts: seq<Token>): bytes {
    if ts == [] then [] else RenderToken(ts[0]) + Render(ts[1..])
  }

  function Emit(ts: seq<Token>): seq<Item> {
    if ts == [] then [] else EmitToken(ts[0]) + Emit(ts[1..])
  }

  /** May `t` be read here?  A tilde at line start always opens an escape. */
  predicate Readable(lineStart: bool, t: Token) {
    match t
    case Typed(b) => lineStart ==> b != TILDE
    case Doubled => lineStart
    case Passed(b) => lineStart && b != TILDE && !IsControlByte(b)
    case Command(c) => lineStart
  }

  predicate LineStartAfter(t: Token) {
    match t
    case Typed(b) => IsNewline(b)
    case Passed(b) => IsNewline(b)
    case Doubled => false
    case Command(c) => false
  }

  predicate Stops(t: Token) {
    t == Command(Detach) || t == Command(Reconnect)
  }

  /** A reading of input that begins at line start or not; only its last token may stop it. */
  ghost predicate IsReading(lineStart: bool, ts: seq<Token>)
    decreases ts
  {
    ts != [] ==>
      && Readable(lineStart, ts[0])
      && (Stops(ts[0]) ==> |ts| == 1)
      && IsReading(LineStartAfter(ts[0]), ts[1..])
  }

  ghost predicate EndsStopped(ts: seq<Token>) {
    ts != [] && Stops(ts[|ts| - 1])
  }

  function DataCount(items: seq<Item>): nat {
    if items == [] then 0 else (if items[0].Byte? then 1 else 0) + DataCount(items[1..])
  }

  function ActCount(items: seq<Item>): nat {
    if items == [] then 0 else (if items[0].Act? then 1 else 0) + ActCount(items[1..])
  }

  function DoubledCount(ts: seq<Token>): nat {
    if ts == [] then 0 else (if ts[0].Doubled? then 1 else 0) + DoubledCount(ts[1..])
  }

  lemma {:induction false} CountsAppend(a: seq<Item>, b: seq<Item>)
    ensures DataCount(a + b) == DataCount(a) + DataCount(b)
    ensures ActCount(a + b) == ActCount(a) + ActCount(b)
  {
    if a == [] {
      assert a + b == b;
    } else {
      assert (a + b)[1..] == a[1..] + b;
      CountsAppend(a[1..], b);
    }
  }

  /** Every typed byte is accounted for: one per data byte, two per action, one extra per `~~`. */
  lemma {:induction false} ReadingAccounts(ts: seq<Token>)
    ensures |Render(ts)| == DataCount(Emit(ts)) + 2 * ActCount(Emit(ts)) + DoubledCount(ts)
  {
    if ts == [] {
    } else {
      ReadingAccounts(ts[1..]);
      CountsAppend(EmitToken(ts[0]), Emit(ts[1..]));
      assert EmitToken(ts[0])[1..] == if ts[0].Passed? then [Byte(ts[0].b)] else [];
    }
  }
}

module EscapeModel {
  import opened Wrappers
  import opened Bytes
  import opened EscapeGrammar

  datatype State = Normal | AfterNewline | AfterTilde

  datatype Outcome = Outcome(state: State, items: seq<Item>, stopped: bool)

  function ControlOf(b: byte): Option<Control> {
    if b == '.' as int then Some(Detach)
    else if b == 'R' as int then Some(Reconnect)
    else if b == 'K' as int then Some(Pin)
    else if b == 0x1a then Some(Suspend)
    else if b == '#' as int then Some(Status)
    else if b == '?' as int then Some(Help)
    else None
  }

  function StepByte(s: State, b: byte): Outcome {
    match s
    case Normal => Outcome(if IsNewline(b) then AfterNewline else Normal, [Byte(b)], false)
    case AfterNewline =>
      if b == TILDE then Outcome(AfterTilde, [], false)
      else Outcome(if IsNewline(b) then AfterNewline else Normal, [Byte(b)], false)
    case AfterTilde =>
      (match ControlOf(b)
       case Some(Detach) => Outcome(AfterTilde, [Act(Detach)], true)
       case Some(Reconnect) => Outcome(Normal, [Act(Reconnect)], true)
       case Some(c) => Outcome(Normal, [Act(c)], false)
       case None =>
         if b == TILDE then Outcome(Normal, [Byte(TILDE)], false)
         else Outcome(if IsNewline(b) then AfterNewline else Normal, [Byte(TILDE), Byte(b)], false))
  }

  /** A stopping action drops the rest of the input. */
  function Run(s: State, input: bytes): Outcome
    decreases input
  {
    if input == [] then Outcome(s, [], false)
    else
      var first := StepByte(s, input[0]);
      if first.stopped then first
      else
        var rest := Run(first.state, input[1..]);
        Outcome(rest.state, first.items + rest.items, rest.stopped)
  }

  /** Chunk after chunk until one stops. */
  function RunChunks(s: State, chunks: seq<bytes>): Outcome
    decreases chunks
  {
    if chunks == [] then Outcome(s, [], false)
    else
      var first := Run(s, chunks[0]);
      if first.stopped then first
      else
        var rest := RunChunks(first.state, chunks[1..]);
        Outcome(rest.state, first.items + rest.items, rest.stopped)
  }

  lemma {:induction false} RunAppend(s: State, a: bytes, b: bytes)
    ensures var first := Run(s, a);
            Run(s, a + b) == if first.stopped then first
                             else var rest := Run(first.state, b);
                                  Outcome(rest.state, first.items + rest.items, rest.stopped)
    decreases a
  {
    if a == [] {
      assert a + b == b;
      assert [] + Run(s, b).items == Run(s, b).items;
    } else {
      assert (a + b)[1..] == a[1..] + b;
      var first := StepByte(s, a[0]);
      if !first.stopped {
        RunAppend(first.state, a[1..], b);
        var mid := Run(first.state, a[1..]);
        if !mid.stopped {
          var last := Run(mid.state, b);
          assert first.items + (mid.items + last.items) == (first.items + mid.items) + last.items;
        }
      }
    }
  }

  /** How the input was cut into reads does not matter, up to and including the first stop. */
  lemma {:induction false} ChunksDoNotMatter(s: State, chunks: seq<bytes>)
    ensures RunChunks(s, chunks) == Run(s, Flatten(chunks))
    decreases chunks
  {
    if chunks == [] {
    } else {
      RunAppend(s, chunks[0], Flatten(chunks[1..]));
      var first := Run(s, chunks[0]);
      if !first.stopped {
        ChunksDoNotMatter(first.state, chunks[1..]);
      }
    }
  }

  // ---------------------------------------------------------------------
  // The machine reads the grammar
  // ---------------------------------------------------------------------

  /** A tilde held back by the machine. */
  function Held(s: State): bytes {
    if s.AfterTilde? then [TILDE] else []
  }

  predicate AtLineStart(s: State) {
    !s.Normal?
  }

  lemma PrependToken(t: Token, ts: seq<Token>)
    ensures Render([t] + ts) == RenderToken(t) + Render(ts)
    ensures Emit([t] + ts) == EmitToken(t) + Emit(ts)
  {
    assert ([t] + ts)[1..] == ts;
  }

  /** The token a byte completes, if any. */
  function TokenAt(s: State, b: byte): Option<Token> {
    match s
    case Normal => Some(Typed(b))
    case AfterNewline => if b == TILDE then None else Some(Typed(b))
    case AfterTilde =>
      match ControlOf(b)
      case Some(c) => Some(Command(c))
      case None => Some(if b == TILDE then Doubled else Passed(b))
  }

  lemma TokenSteps(s: State, b: byte)
    requires TokenAt(s, b).Some?
    ensures var t, o := TokenAt(s, b).value, StepByte(s, b);
            && Readable(AtLineStart(s), t) && Held(s) + [b] == RenderToken(t) && o.items == EmitToken(t)
            && o.stopped == Stops(t)
            && (!o.stopped ==> !o.state.AfterTilde? && AtLineStart(o.state) == LineStartAfter(t))
  {
  }

  /**
   * The tokens of `ts` and at most one held tilde are, byte for byte, the
   * input consumed (`n` bytes when it stopped, else all of it), and give the output.
   */
  ghost predicate Reads(s: State, input: bytes, ts: seq<Token>, n: nat) {
    var o := Run(s, input);
    && n <= |input| && IsReading(AtLineStart(s), ts) && o.items == Emit(ts)
    && (o.stopped <==> EndsStopped(ts))
    && (o.stopped ==> Held(s) + input[..n] == Render(ts))
    && (!o.stopped ==> n == |input| && Held(s) + input == Render(ts) + Held(o.state))
  }

  lemma ReadsTilde(tail: bytes, ts: seq<Token>, n: nat)
    requires Reads(AfterTilde, tail, ts, n)
    ensures Reads(AfterNewline, [TILDE] + tail, ts, n + 1)
  {
    var input := [TILDE] + tail;
    assert input[1..] == tail;
    assert [] + Run(AfterTilde, tail).items == Run(AfterTilde, tail).items;
    assert Held(AfterNewline) + input[..n + 1] == Held(AfterTilde) + tail[..n];
    assert Held(AfterNewline) + input == Held(AfterTilde) + tail;
  }

  lemma ReadsStop(s: State, b: byte, tail: bytes)
    requires TokenAt(s, b).Some? && StepByte(s, b).stopped
    ensures Reads(s, [b] + tail, [TokenAt(s, b).value], 1)
  {
    var t := TokenAt(s, b).value;
    TokenSteps(s, b);
    PrependToken(t, []);
    assert [t] + [] == [t] && [t][1..] == [];
    assert RenderToken(t) + [] == RenderToken(t) && EmitToken(t) + [] == EmitToken(t);
    assert ([b] + tail)[..1] == [b];
  }

  lemma ConsumedCons(s: State, b: byte, tail: bytes, ts: seq<Token>, n: nat)
    requires TokenAt(s, b).Some? && !StepByte(s, b).stopped && Reads(StepByte(s, b).state, tail, ts, n)
    ensures var input, rest := [b] + tail, Run(StepByte(s, b).state, tail);
            && n + 1 <= |input|
            && (rest.stopped ==> Held(s) + input[..n + 1] == RenderToken(TokenAt(s, b).value) + Render(ts))
            && (!rest.stopped ==>
                  Held(s) + input == RenderToken(TokenAt(s, b).value) + Render(ts) + Held(rest.state))
  {
    var t, input, rest := TokenAt(s, b).value, [b] + tail, Run(StepByte(s, b).state, tail);
    TokenSteps(s, b);
    assert Held(StepByte(s, b).state) == [];
    if rest.stopped {
      assert input[..n + 1] == [b] + tail[..n];
      assert [] + tail[..n] == tail[..n];
      AppendAssoc(Held(s), [b], tail[..n]);
    } else {
      assert [] + tail == tail;
      AppendAssoc(Held(s), [b], tail);
      AppendAssoc(RenderToken(t), Render(ts), Held(rest.state));
    }
  }

  lemma ReadsCons(s: State, b: byte, tail: bytes, ts: seq<Token>, n: nat)
    requires TokenAt(s, b).Some? && !StepByte(s, b).stopped && Reads(StepByte(s, b).state, tail, ts, n)
    ensures Reads(s, [b] + tail, [TokenAt(s, b).value] + ts, n + 1)
  {
    var t := TokenAt(s, b).value;
    TokenSteps(s, b);
    PrependToken(t, ts);
    ConsumedCons(s, b, tail, ts, n);
    assert ([b] + tail)[1..] == tail && ([t] + ts)[1..] == ts;
    RunCons(s, [b] + tail);
  }

  lemma RunCons(s: State, input: bytes)
    requires input != []
    ensures var first := StepByte(s, input[0]);
            Run(s, input) == if first.stopped then first
                             else var rest := Run(first.state, input[1..]);
                                  Outcome(rest.state, first.items + rest.items, rest.stopped)
  {
  }

  /** Every run, in every state, is a reading of its input. */
  lemma {:induction false} RunReads(s: State, input: bytes) returns (ts: seq<Token>, n: nat)
    ensures Reads(s, input, ts, n)
    decreases input
  {
    if input == [] {
      ts, n := [], 0;
      assert Held(s) + input == [] + Held(s);
    } else {
      var b, tail := input[0], input[1..];
      assert input == [b] + tail;
      var first := StepByte(s, b);
      if first.stopped {
        ts, n := [TokenAt(s, b).value], 1;
        ReadsStop(s, b, tail);
      } else {
        ts, n := RunReads(first.state, tail);
        if TokenAt(s, b).None? {
          ReadsTilde(tail, ts, n);
        } else {
          ReadsCons(s, b, tail, ts, n);
          ts := [TokenAt(s, b).value] + ts;
        }
        n := n + 1;
      }
    }
  }

  /** Byte accounting for a whole run, in every state and however it ends. */
  lemma RunAccounts(s: State, input: bytes) returns (ts: seq<Token>, n: nat)
    ensures Reads(s, input, ts, n)
    ensures var o := Run(s, input);
            |Held(s)| + n == DataCount(o.items) + 2 * ActCount(o.items) + DoubledCount(ts)
                             + (if o.stopped then 0 else |Held(o.state)|)
  {
    ts, n := RunReads(s, input);
    ReadingAccounts(ts);
    assert |Held(s) + input[..n]| == |Held(s)| + n;
    assert input[..|input|] == input;
  }

  // ---------------------------------------------------------------------
  // Quoting
  // ---------------------------------------------------------------------

  /** Doubles every tilde that stands at the start of a line. */
  function Quote(lineStart: bool, data: bytes): bytes
    decreases data
  {
    if data == [] then []
    else (if lineStart && data[0] == TILDE then [TILDE, TILDE] else [data[0]]) + Quote(IsNewline(data[0]), data[1..])
  }

  function AsItems(data: bytes): seq<Item> {
    seq(|data|, i requires 0 <= i < |data| => Byte(data[i]))
  }

  lemma {:induction false} QuotedRunsAsData(s: State, data: bytes)
    requires !s.AfterTilde?
    ensures var o := Run(s, Quote(AtLineStart(s), data));
            o.items == AsItems(data) && !o.stopped && !o.state.AfterTilde?
    decreases data
  {
    if data == [] {
    } else {
      var b := data[0];
      var tail := Quote(IsNewline(b), data[1..]);
      assert AsItems(data) == [Byte(b)] + AsItems(data[1..]);
      if AtLineStart(s) && b == TILDE {
        assert ([TILDE, TILDE] + tail)[1..] == [TILDE] + tail;
        assert ([TILDE] + tail)[1..] == tail;
        QuotedRunsAsData(Normal, data[1..]);
        assert [] + ([Byte(TILDE)] + AsItems(data[1..])) == AsItems(data);
      } else {
        assert ([b] + tail)[1..] == tail;
        QuotedRunsAsData(StepByte(s, b).state, data[1..]);
      }
    }
  }

  /** Quoting undoes the processor: any data, quoted and typed in any chunks, arrives as itself. */
  lemma QuotingIsInverse(data: bytes, chunks: seq<bytes>)
    requires Flatten(chunks) == Quote(true, data)
    ensures RunChunks(AfterNewline, chunks).items == AsItems(data)
    ensures !RunChunks(AfterNewline, chunks).stopped
  {
    ChunksDoNotMatter(AfterNewline, chunks);
    QuotedRunsAsData(AfterNewline, data);
  }
}

module Escapes {
  import opened Bytes
  import opened EscapeGrammar
  import opened EscapeModel

  datatype Action = Data(bytes: bytes) | Do(control: Control)

  function FlatAction(a: Action): seq<Item> {
    match a
    case Data(d) => AsItems(d)
    case Do(c) => [Act(c)]
  }

  function Flat(actions: seq<Action>): seq<Item> {
    if actions == [] then [] else Flat(actions[..|actions| - 1]) + FlatAction(actions[|actions| - 1])
  }

  lemma FlatSnoc(actions: seq<Action>, a: Action)
    ensures Flat(actions + [a]) == Flat(actions) + FlatAction(a)
  {
    assert (actions + [a])[..|actions|] == actions;
  }

  ghost predicate NoEmptyData(actions: seq<Action>) {
    forall i :: 0 <= i < |actions| && actions[i].Data? ==> actions[i].bytes != []
  }

  class EscapeProcessor {
    var state: State

    constructor ()
      ensures state == AfterNewline
    {
      state := AfterNewline;
    }

    /** Flattened, the actions are exactly the machine's items; no data action is empty. */
    method Process(input: bytes) returns (actions: seq<Action>)
      modifies this
      ensures var o := Run(old(state), input); state == o.state && Flat(actions) == o.items
      ensures NoEmptyData(actions)
    {
      actions := [];
      var buffer: bytes := [];
      var i := 0;
      while i < |input|
        invariant i <= |input|
        invariant NoEmptyData(actions)
        invariant var rest := Run(state, input[i..]);
                  Outcome(rest.state, Flat(actions) + AsItems(buffer) + rest.items, rest.stopped) == Run(old(state), input)
      {
        ghost var step, before := StepByte(state, input[i]), Flat(actions) + AsItems(buffer);
        RunCons(state, input[i..]);
        assert input[i..][1..] == input[i + 1..];
        AppendAssoc(before, step.items, Run(step.state, input[i + 1..]).items);
        var stop;
        actions, buffer, stop := ProcessByte(input[i], actions, buffer);
        if stop {
          assert AsItems([]) == [];
          return;
        }
        i := i + 1;
      }
      assert Run(state, []).items == [];
      actions := FlushPending(actions, buffer);
    }

    /** One byte: new bytes join the buffer, an action is preceded by what was buffered. */
    method ProcessByte(b: byte, actions: seq<Action>, buffer: bytes)
        returns (actions': seq<Action>, buffer': bytes, stop: bool)
      modifies this
      ensures var o := StepByte(old(state), b);
              && state == o.state && stop == o.stopped
              && Flat(actions') + AsItems(buffer') == Flat(actions) + AsItems(buffer) + o.items
      ensures stop ==> buffer' == []
      ensures NoEmptyData(actions) ==> NoEmptyData(actions')
    {
      actions', buffer', stop := actions, buffer, false;
      assert AsItems([b]) == [Byte(b)];
      match state {
        case Normal =>
          buffer' := Append(actions, buffer, [b]);
          if IsNewline(b) {
            state := AfterNewline;
          }
        case AfterNewline =>
          if b == TILDE {
            state := AfterTilde;
            actions' := FlushPending(actions, buffer);
            buffer' := [];
          } else {
            buffer' := Append(actions, buffer, [b]);
            if !IsNewline(b) {
              state := Normal;
            }
          }
        case AfterTilde =>
          actions', buffer', stop := ProcessEscape(b, actions, buffer);
      }
    }

    /** The byte after a tilde at line start. */
    method ProcessEscape(b: byte, actions: seq<Action>, buffer: bytes)
        returns (actions': seq<Action>, buffer': bytes, stop: bool)
      requires state.AfterTilde?
      modifies this
      ensures var o := StepByte(old(state), b);
              && state == o.state && stop == o.stopped
              && Flat(actions') + AsItems(buffer') == Flat(actions) + AsItems(buffer) + o.items
      ensures stop ==> buffer' == []
      ensures NoEmptyData(actions) ==> NoEmptyData(actions')
    {
      var control := ControlOf(b);
      if control.Some? {
        actions' := Perform(control.value, actions, buffer);
        buffer' := [];
        if control.value != Detach {
          state := Normal;
        }
        stop := control.value == Detach || control.value == Reconnect;
      } else {
        actions', stop := actions, false;
        if b == TILDE {
          buffer' := Append(actions, buffer, [TILDE]);
          assert AsItems([TILDE]) == [Byte(TILDE)];
          state := Normal;
        } else {
          buffer' := Append(actions, buffer, [TILDE, b]);
          assert AsItems([TILDE, b]) == [Byte(TILDE), Byte(b)];
          state := if IsNewline(b) then AfterNewline else Normal;
        }
      }
    }

    static method Perform(control: Control, actions: seq<Action>, buffer: bytes) returns (actions': seq<Action>)
      ensures Flat(actions') + AsItems([]) == Flat(actions) + AsItems(buffer) + [Act(control)]
      ensures NoEmptyData(actions) ==> NoEmptyData(actions')
    {
      actions' := FlushPending(actions, buffer);
      FlatSnoc(actions', Do(control));
      actions' := actions' + [Do(control)];
      assert Flat(actions') + AsItems([]) == Flat(actions');
    }

    static method Append(ghost actions: seq<Action>, buffer: bytes, more: bytes) returns (longer: bytes)
      ensures Flat(actions) + AsItems(longer) == Flat(actions) + AsItems(buffer) + AsItems(more)
    {
      longer := buffer + more;
      assert AsItems(longer) == AsItems(buffer) + AsItems(more);
    }

    static method FlushPending(actions: seq<Action>, buffer: bytes) returns (r: seq<Action>)
      ensures Flat(r) + AsItems([]) == Flat(r) == Flat(actions) + AsItems(buffer)
      ensures r == if buffer == [] then actions else actions + [Data(buffer)]
    {
      r := actions;
      if buffer != [] {
        FlatSnoc(actions, Data(buffer));
        r := r + [Data(buffer)];
      }
    }
  }
}
