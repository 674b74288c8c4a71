// UTF-8 as the Rust standard library reads it: validity (section 4 of
// RFC 3629), lossy decoding, and trimming of white space.

module Utf8 {
  import opened Bytes

  /** U+FFFD */
  const REPLACEMENT: bytes := [0xef, 0xbf, 0xbd]

  predicate IsTail(b: byte) {
    0x80 <= b <= 0xbf
  }

  /** May `b` follow the first byte of a three- or four-byte character? */
  predicate IsSecond(lead: byte, b: byte) {
    if lead == 0xe0 then 0xa0 <= b <= 0xbf
    else if lead == 0xed then 0x80 <= b <= 0x9f
    else if lead == 0xf0 then 0x90 <= b <= 0xbf
    else if lead == 0xf4 then 0x80 <= b <= 0x8f
    else IsTail(b)
  }

  /** Length of the character that starts `s`, or 0 if none does. */
  function Utf8Length(s: bytes): (n: nat)
    ensures n <= |s| && n <= 4
  {
    if |s| >= 1 && s[0] <= 0x7f then 1
    else if |s| >= 2 && 0xc2 <= s[0] <= 0xdf && IsTail(s[1]) then 2
    else if |s| >= 3 && 0xe0 <= s[0] <= 0xef && IsSecond(s[0], s[1]) && IsTail(s[2]) then 3
    else if |s| >= 4 && 0xf0 <= s[0] <= 0xf4 && IsSecond(s[0], s[1]) && IsTail(s[2]) && IsTail(s[3]) then 4
    else 0
  }

  predicate ValidUtf8(s: bytes)
    decreases s
  {
    s != [] ==> Utf8Length(s) > 0 && ValidUtf8(s[Utf8Length(s)..])
  }

  // ---------------------------------------------------------------------
  // Lossy decoding
  // ---------------------------------------------------------------------

  /** How many bytes of a broken character are given up together. */
  function BrokenLength(s: bytes): (n: nat)
    requires s != []
    ensures 1 <= n <= |s|
  {
    if |s| >= 2 && 0xe0 <= s[0] <= 0xf4 && IsSecond(s[0], s[1]) then
      if |s| >= 3 && s[0] >= 0xf0 && IsTail(s[2]) then 3 else 2
    else 1
  }

  /** `String::from_utf8_lossy`: every broken stretch becomes one replacement character. */
  function Lossy(s: bytes): bytes
    decreases s
  {
    if s == [] then []
    else if Utf8Length(s) > 0 then s[..Utf8Length(s)] + Lossy(s[Utf8Length(s)..])
    else REPLACEMENT + Lossy(s[BrokenLength(s)..])
  }

  ghost predicate IsCharacter(c: bytes) {
    c != [] && Utf8Length(c) == |c|
  }

  lemma CharacterFirst(c: bytes, rest: bytes)
    requires IsCharacter(c)
    ensures Utf8Length(c + rest) == |c| && (c + rest)[|c|..] == rest && (c + rest)[..|c|] == c
  {
  }

  lemma FirstCharacter(s: bytes)
    requires Utf8Length(s) > 0
    ensures IsCharacter(s[..Utf8Length(s)])
  {
  }

  lemma LossyFirst(c: bytes, rest: bytes)
    requires IsCharacter(c)
    ensures Lossy(c + rest) == c + Lossy(rest)
  {
    CharacterFirst(c, rest);
  }

  lemma {:induction false} LossyIsValid(s: bytes)
    ensures ValidUtf8(Lossy(s))
    decreases s
  {
    if s == [] {
    } else if Utf8Length(s) > 0 {
      var n := Utf8Length(s);
      LossyIsValid(s[n..]);
      FirstCharacter(s);
      CharacterFirst(s[..n], Lossy(s[n..]));
    } else {
      LossyIsValid(s[BrokenLength(s)..]);
      CharacterFirst(REPLACEMENT, Lossy(s[BrokenLength(s)..]));
    }
  }

  lemma {:induction false} LossyKeepsValid(s: bytes)
    requires ValidUtf8(s)
    ensures Lossy(s) == s
    decreases s
  {
    if s == [] {
    } else {
      LossyKeepsValid(s[Utf8Length(s)..]);
    }
  }

  /** Decoding loses nothing exactly when there was nothing broken. */
  lemma LossyExactly(s: bytes)
    ensures Lossy(s) == s <==> ValidUtf8(s)
  {
    LossyIsValid(s);
    if ValidUtf8(s) {
      LossyKeepsValid(s);
    }
  }

  /** Part of a character that `m` goes on to complete: given up as a whole. */
  lemma CutCharacter(m: bytes, k: nat)
    requires 0 < k < Utf8Length(m)
    ensures Lossy(m[..k]) == REPLACEMENT
  {
    var cut := m[..k];
    assert Utf8Length(cut) == 0 && BrokenLength(cut) == k;
    assert cut[k..] == [];
    assert REPLACEMENT + [] == REPLACEMENT;
  }

  /** `q` is where the character that a cut at `k` falls into begins; `k` itself when it falls into none. */
  ghost predicate CutsAt(m: bytes, k: nat, q: nat)
    requires k <= |m|
  {
    && q <= k && ValidUtf8(m[q..]) && (q < k ==> k < q + Utf8Length(m[q..]))
    && Lossy(m[..k]) == m[..q] + if q < k then REPLACEMENT else []
  }

  lemma CutsFirst(m: bytes, k: nat)
    requires ValidUtf8(m) && k <= |m| && (k == 0 || k < Utf8Length(m))
    ensures CutsAt(m, k, 0)
  {
    assert m[0..] == m;
    if k > 0 {
      CutCharacter(m, k);
      assert m[..0] + REPLACEMENT == REPLACEMENT;
    }
  }

  lemma LossyAcross(m: bytes, n: nat, k: nat, q: nat, tail: bytes)
    requires 0 < n == Utf8Length(m) && n <= k <= |m| && q <= k - n
    requires Lossy(m[n..][..k - n]) == m[n..][..q] + tail
    ensures Lossy(m[..k]) == m[..n + q] + tail
  {
    FirstCharacter(m);
    TakeAcross(m, n, k);
    LossyFirst(m[..n], m[n..][..k - n]);
    TakeAcross(m, n, n + q);
    AppendAssoc(m[..n], m[n..][..q], tail);
  }

  lemma CutsLater(m: bytes, n: nat, k: nat, q: nat)
    requires 0 < n == Utf8Length(m) && n <= k <= |m| && CutsAt(m[n..], k - n, q)
    ensures CutsAt(m, k, n + q)
  {
    LossyAcross(m, n, k, q, if n + q < k then REPLACEMENT else []);
    DropTwice(m, n, n + q);
  }

  /** Cutting valid text keeps the characters before the cut and turns one cut in two into a replacement. */
  lemma {:induction false} LossyCut(m: bytes, k: nat) returns (q: nat)
    requires ValidUtf8(m) && k <= |m|
    ensures CutsAt(m, k, q)
    decreases |m|
  {
    var n := Utf8Length(m);
    if k == 0 || k < n {
      q := 0;
      CutsFirst(m, k);
    } else {
      var rest := LossyCut(m[n..], k - n);
      q := n + rest;
      CutsLater(m, n, k, rest);
    }
  }

  // ---------------------------------------------------------------------
  // Trimming
  // ---------------------------------------------------------------------

  /** Bytes of the white-space character that starts `s`, or 0. */
  function SpaceLength(s: bytes): (n: nat)
    ensures n <= |s| && n <= 3
  {
    if |s| >= 1 && (0x09 <= s[0] <= 0x0d || s[0] == 0x20) then 1
    else if |s| >= 2 && s[0] == 0xc2 && (s[1] == 0x85 || s[1] == 0xa0) then 2
    else if |s| >= 3 &&
            (s[..3] == [0xe1, 0x9a, 0x80] || (s[0] == 0xe2 && s[1] == 0x80 && (0x80 <= s[2] <= 0x8a || s[2] in {0xa8, 0xa9, 0xaf}))
             || s[..3] == [0xe2, 0x81, 0x9f] || s[..3] == [0xe3, 0x80, 0x80]) then 3
    else 0
  }

  /** Bytes of the white-space character that ends `s`, or 0. */
  function LastSpaceLength(s: bytes): (n: nat)
    ensures n <= |s| && n <= 3
  {
    if |s| >= 1 && SpaceLength(s[|s| - 1..]) == 1 then 1
    else if |s| >= 2 && SpaceLength(s[|s| - 2..]) == 2 then 2
    else if |s| >= 3 && SpaceLength(s[|s| - 3..]) == 3 then 3
    else 0
  }

  function TrimStart(s: bytes): (r: bytes)
    ensures |r| <= |s| && SpaceLength(r) == 0 && (SpaceLength(s) == 0 <==> r == s)
    decreases s
  {
    if SpaceLength(s) == 0 then s else TrimStart(s[SpaceLength(s)..])
  }

  function TrimEnd(s: bytes): (r: bytes)
    ensures r <= s && LastSpaceLength(r) == 0 && (LastSpaceLength(s) == 0 <==> r == s)
    decreases s
  {
    if LastSpaceLength(s) == 0 then s else TrimEnd(s[..|s| - LastSpaceLength(s)])
  }

  /** `str::trim` */
  function Trim(s: bytes): bytes {
    TrimEnd(TrimStart(s))
  }

  predicate IsTrimmed(s: bytes) {
    SpaceLength(s) == 0 && LastSpaceLength(s) == 0
  }

  lemma SpaceOfPrefix(s: bytes, r: bytes)
    requires r <= s && SpaceLength(s) == 0
    ensures SpaceLength(r) == 0
  {
    if |r| >= 3 {
      assert r[..3] == s[..3];
    }
  }

  /** Trimming leaves trimmed text, and changes only text that was not. */
  lemma TrimExactly(s: bytes)
    ensures IsTrimmed(Trim(s)) && (Trim(s) == s <==> IsTrimmed(s))
  {
    SpaceOfPrefix(TrimStart(s), Trim(s));
    if Trim(s) == s {
      assert |TrimStart(s)| == |s|;
    }
  }

  // ---------------------------------------------------------------------
  // By code point
  // ---------------------------------------------------------------------

  predicate IsScalar(n: nat) {
    n <= 0x10ffff && !(0xd800 <= n <= 0xdfff)
  }

  /** The bytes of a code point. */
  function EncodeScalar(n: nat): bytes
    requires IsScalar(n)
  {
    if n < 0x80 then [n]
    else if n < 0x800 then [0xc0 + n / 0x40, 0x80 + n % 0x40]
    else if n < 0x1_0000 then [0xe0 + n / 0x1000, 0x80 + n / 0x40 % 0x40, 0x80 + n % 0x40]
    else [0xf0 + n / 0x4_0000, 0x80 + n / 0x1000 % 0x40, 0x80 + n / 0x40 % 0x40, 0x80 + n % 0x40]
  }

  ghost predicate Encodes(n: nat, c: bytes) {
    IsScalar(n) && EncodeScalar(n) == c
  }

  lemma ScalarIsCharacter(n: nat)
    requires IsScalar(n)
    ensures IsCharacter(EncodeScalar(n))
  {
  }

  /** A number put together from its 6-bit groups comes apart into them. */
  lemma SixBits(high: nat, low: nat)
    requires low < 0x40
    ensures (high * 0x40 + low) / 0x40 == high && (high * 0x40 + low) % 0x40 == low
  {
  }

  lemma Grouped(a: nat, b: nat, c: nat, d: nat)
    requires b < 0x40 && c < 0x40 && d < 0x40
    ensures var n := ((a * 0x40 + b) * 0x40 + c) * 0x40 + d;
            && n % 0x40 == d && n / 0x40 % 0x40 == c && n / 0x1000 % 0x40 == b && n / 0x4_0000 == a
  {
    var n2 := a * 0x40 + b;
    var n1 := n2 * 0x40 + c;
    var n := n1 * 0x40 + d;
    SixBits(a, b);
    SixBits(n2, c);
    SixBits(n1, d);
    assert n / 0x1000 == n / 0x40 / 0x40 && n / 0x4_0000 == n / 0x40 / 0x40 / 0x40;
  }

  /** The low six bits of a byte. */
  function Low6(b: byte): nat {
    if b < 0x40 then b else if b < 0x80 then b - 0x40 else if b < 0xc0 then b - 0x80 else b - 0xc0
  }

  lemma LongCharacterIsScalar(c: bytes) returns (n: nat)
    requires IsCharacter(c) && |c| == 4
    ensures Encodes(n, c)
  {
    var lead: nat := c[0];
    Grouped(lead - 0xf0, Low6(c[1]), Low6(c[2]), Low6(c[3]));
    n := (((lead - 0xf0) * 0x40 + Low6(c[1])) * 0x40 + Low6(c[2])) * 0x40 + Low6(c[3]);
  }

  lemma CharacterIsScalar(c: bytes) returns (n: nat)
    requires IsCharacter(c)
    ensures Encodes(n, c)
  {
    var lead: nat := c[0];
    if |c| == 1 {
      n := lead;
    } else if |c| == 2 {
      Grouped(0, 0, lead - 0xc0, Low6(c[1]));
      n := (lead - 0xc0) * 0x40 + Low6(c[1]);
    } else if |c| == 3 {
      Grouped(0, lead - 0xe0, Low6(c[1]), Low6(c[2]));
      n := ((lead - 0xe0) * 0x40 + Low6(c[1])) * 0x40 + Low6(c[2]);
    } else {
      n := LongCharacterIsScalar(c);
    }
  }

  /** The characters are the encodings of the code points up to U+10FFFF without the surrogates. */
  lemma CharactersExactly(c: bytes)
    ensures IsCharacter(c) <==> exists n :: Encodes(n, c)
  {
    if IsCharacter(c) {
      var n := CharacterIsScalar(c);
    }
    if n :| Encodes(n, c) {
      ScalarIsCharacter(n);
    }
  }

  /** The code points with the Unicode property White_Space. */
  predicate IsWhiteSpace(n: nat) {
    || 0x9 <= n <= 0xd || n == 0x20 || n == 0x85 || n == 0xa0 || n == 0x1680 || 0x2000 <= n <= 0x200a
    || n == 0x2028 || n == 0x2029 || n == 0x202f || n == 0x205f || n == 0x3000
  }

  /** Text starts with white space exactly when its first code point is one. */
  lemma SpacesExactly(n: nat, rest: bytes)
    requires IsScalar(n)
    ensures SpaceLength(EncodeScalar(n) + rest) == if IsWhiteSpace(n) then |EncodeScalar(n)| else 0
    ensures REPLACEMENT == EncodeScalar(0xfffd)
  {
    var s := EncodeScalar(n) + rest;
    if |s| >= 3 {
      assert s[..3] == [s[0], s[1], s[2]];
    }
  }

  /** Can these bytes be the beginning of a character, or all of one? */
  ghost predicate BeginsCharacter(p: bytes) {
    exists more :: IsCharacter(p + more)
  }

  lemma BeginsWith(p: bytes, more: bytes)
    requires IsCharacter(p + more)
    ensures BeginsCharacter(p)
  {
  }

  /** What is given up together is the longest beginning of a character there is, and one byte if there is none. */
  lemma BrokenExactly(s: bytes, k: nat)
    requires s != [] && Utf8Length(s) == 0 && 2 <= k <= |s|
    ensures k <= BrokenLength(s) <==> BeginsCharacter(s[..k])
  {
    if k <= BrokenLength(s) {
      BeginsWith(s[..k], if s[0] < 0xf0 || k == 3 then [0x80] else [0x80, 0x80]);
    }
    if more :| IsCharacter(s[..k] + more) {
      assert forall i :: 0 <= i < k ==> (s[..k] + more)[i] == s[i];
    }
  }
}
