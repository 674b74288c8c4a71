// The scrollback buffer of src/scrollback.rs against a declarative split of
// the whole stream into lines.

module ScrollbackSpec {
  import opened Bytes

  const MAX_LINES: nat := 50
  const MAX_LINE_BYTES: nat := 4096

  /** A complete line: closed by its first newline, or cut at the byte limit. */
  ghost predicate IsLine(l: bytes) {
    && 1 <= |l| <= 4096
    && 0x0a !in l[..|l| - 1]
    && (l[|l| - 1] == 0x0a || |l| == 4096)
  }

  ghost predicate IsUnfinished(tail: bytes) {
    0x0a !in tail && |tail| < 4096
  }

  /** `lines` and `tail` are the stream `s` cut after newlines and at the byte limit. */
  ghost predicate IsSplit(s: bytes, lines: seq<bytes>, tail: bytes) {
    && s == Flatten(lines) + tail
    && (forall i :: 0 <= i < |lines| ==> IsLine(lines[i]))
    && IsUnfinished(tail)
  }

  lemma LineNotLonger(l: bytes, rest: bytes, l': bytes, rest': bytes)
    requires IsLine(l) && IsLine(l') && l + rest == l' + rest'
    ensures |l'| <= |l|
  {
    assert forall i :: 0 <= i < |l'| - 1 ==> l'[i] == l'[..|l'| - 1][i];
    assert forall i :: 0 <= i < |l| ==> l[i] == (l' + rest')[i];
  }

  /** A stream that starts with a line does not start with a shorter or longer one. */
  lemma LineIsFirstCut(l: bytes, rest: bytes, l': bytes, rest': bytes)
    requires IsLine(l) && IsLine(l') && l + rest == l' + rest'
    ensures l == l' && rest == rest'
  {
    LineNotLonger(l, rest, l', rest');
    LineNotLonger(l', rest', l, rest);
    var s := l + rest;
    assert s[..|l|] == l && s[..|l'|] == l' && s[|l|..] == rest && s[|l'|..] == rest';
  }

  lemma CompleteLineShows(lines: seq<bytes>, tail: bytes)
    requires lines != [] && IsLine(lines[0])
    ensures !IsUnfinished(Flatten(lines) + tail)
  {
    var s, l := Flatten(lines) + tail, lines[0];
    assert forall i :: 0 <= i < |l| ==> s[i] == l[i];
  }

  /** Every stream has one split only, so `IsSplit` pins the stored lines down. */
  lemma {:induction false} SplitIsUnique(s: bytes, a: seq<bytes>, x: bytes, b: seq<bytes>, y: bytes)
    requires IsSplit(s, a, x) && IsSplit(s, b, y)
    ensures a == b && x == y
    decreases a
  {
    if a == [] || b == [] {
      assert Flatten([]) + x == x && Flatten([]) + y == y;
      if b != [] {
        CompleteLineShows(b, y);
      } else if a != [] {
        CompleteLineShows(a, x);
      }
    } else {
      assert s == a[0] + (Flatten(a[1..]) + x);
      assert s == b[0] + (Flatten(b[1..]) + y);
      LineIsFirstCut(a[0], Flatten(a[1..]) + x, b[0], Flatten(b[1..]) + y);
      SplitIsUnique(Flatten(a[1..]) + x, a[1..], x, b[1..], y);
    }
  }

  /** One byte either lengthens the unfinished tail or closes it into the next line. */
  lemma SplitExtends(s: bytes, lines: seq<bytes>, tail: bytes, b: byte)
    requires IsSplit(s, lines, tail)
    ensures if b == LF || |tail| + 1 >= MAX_LINE_BYTES
            then IsSplit(s + [b], lines + [tail + [b]], [])
            else IsSplit(s + [b], lines, tail + [b])
  {
    var longer := tail + [b];
    assert longer[..|longer| - 1] == tail;
    assert s + [b] == Flatten(lines) + longer;
    FlattenAppend(lines, [longer]);
    assert [longer][1..] == [];
    assert Flatten([longer]) == longer;
    assert Flatten(lines + [longer]) + [] == s + [b];
  }

  /** What is still stored of all completed lines, `cleared` of which were dropped by a clear: the last 50 of the others. */
  ghost function Retained(all: seq<bytes>, cleared: nat): seq<bytes>
    requires cleared <= |all|
  {
    all[if cleared + 50 <= |all| then |all| - 50 else cleared..]
  }

  /** The replay is a suffix of the stream. */
  lemma ReplayIsSuffix(s: bytes, evicted: seq<bytes>, lines: seq<bytes>, tail: bytes)
    requires IsSplit(s, evicted + lines, tail)
    ensures IsSuffix(Flatten(lines) + tail, s)
  {
    FlattenAppend(evicted, lines);
    var replay := Flatten(lines) + tail;
    AppendAssoc(Flatten(evicted), Flatten(lines), tail);
    SuffixOfAppend(Flatten(evicted), replay);
  }
}

module Scrollback {
  import opened Bytes
  import opened ScrollbackSpec

  class ScrollbackBuffer {
    var lines: seq<bytes>
    var partial: bytes
    const maxLines: nat

    ghost var pushed: bytes          // every byte ever pushed
    ghost var evicted: seq<bytes>    // completed lines no longer stored
    ghost var cleared: nat           // how many lines were complete at the last clear

    ghost predicate Valid()
      reads this
    {
      && maxLines == MAX_LINES
      && IsSplit(pushed, evicted + lines, partial)
      && cleared <= |evicted|
      && lines == Retained(evicted + lines, cleared)
    }

    constructor ()
      ensures Valid() && pushed == [] && cleared == 0 && evicted == []
    {
      lines, partial, maxLines := [], [], MAX_LINES;
      pushed, evicted, cleared := [], [], 0;
    }

    method Push(data: bytes)
      requires Valid()
      modifies this
      ensures Valid() && pushed == old(pushed) + data && cleared == old(cleared)
      ensures old(evicted + lines) <= evicted + lines
    {
      for i := 0 to |data|
        invariant Valid() && pushed == old(pushed) + data[..i] && cleared == old(cleared)
        invariant old(evicted + lines) <= evicted + lines
      {
        var b := data[i];
        SplitExtends(pushed, evicted + lines, partial, b);
        partial := partial + [b];
        pushed := pushed + [b];
        if b == LF || |partial| >= MAX_LINE_BYTES {
          FlushPartial();
        }
        assert data[..i + 1] == data[..i] + [b];
      }
    }

    method FlushPartial()
      requires maxLines == MAX_LINES && cleared <= |evicted| && lines == Retained(evicted + lines, cleared)
      modifies this`lines, this`partial, this`evicted
      ensures partial == [] && evicted + lines == old(evicted + lines) + [old(partial)]
      ensures cleared <= |evicted| && lines == Retained(evicted + lines, cleared)
    {
      var line := partial;
      partial := [];
      lines := lines + [line];
      if |lines| > maxLines {
        evicted := evicted + [lines[0]];
        lines := lines[1..];
      }
      assert evicted + lines == old(evicted + lines) + [line];
    }

    method LinesAndPartial() returns (replay: seq<bytes>)
      requires Valid()
      ensures replay == lines + if partial == [] then [] else [partial]
      ensures IsSuffix(Flatten(replay), pushed)
      ensures |replay| <= 51
    {
      replay := lines;
      if partial != [] {
        replay := replay + [partial];
      }
      FlattenAppend(lines, [partial]);
      assert [partial][1..] == [];
      assert Flatten([partial]) == partial;
      assert Flatten(lines) + [] == Flatten(lines);
      ReplayIsSuffix(pushed, evicted, lines, partial);
    }

    method Clear()
      requires Valid()
      modifies this`lines, this`evicted, this`cleared
      ensures Valid() && lines == [] && cleared == |evicted|
      ensures evicted == old(evicted + lines)
    {
      evicted := evicted + lines;
      lines := [];
      cleared := |evicted|;
      assert evicted + lines == evicted;
    }
  }
}
