// Byte strings: splitting at a separator and printing or parsing unsigned
// decimals, with the meaning the Rust standard library gives them.

module Wrappers {
  datatype Option<+T> = None | Some(value: T) {
    function GetOr(default: T): T {
      if Some? then value else default
    }
  }
}

module Bytes {
  import opened Wrappers

  type byte = b: int | 0 <= b < 256
  type bytes = seq<byte>

  const BEL: byte := 0x07
  const BS: byte := 0x08
  const TAB: byte := 0x09
  const LF: byte := 0x0a
  const CR: byte := 0x0d
  const ESC: byte := 0x1b
  const BACKSLASH: byte := 0x5c
  const SEMI: byte := 0x3b
  const COLON: byte := 0x3a
  const COMMA: byte := 0x2c

  predicate IsDigit(b: byte) {
    0x30 <= b <= 0x39
  }

  predicate IsSuffix<T(==)>(suffix: seq<T>, s: seq<T>) {
    |suffix| <= |s| && s[|s| - |suffix|..] == suffix
  }

  // Facts about slices and concatenation, stated once where nothing else is in scope.

  lemma SliceOfTake<T>(s: seq<T>, n: nat, i: nat, j: nat)
    requires i <= j <= n <= |s|
    ensures s[..n][i..j] == s[i..j]
  {
  }

  lemma SliceAcross<T>(a: seq<T>, b: seq<T>, i: nat, j: nat)
    requires i <= |a| <= j <= |a| + |b|
    ensures (a + b)[i..j] == a[i..] + b[..j - |a|]
  {
  }

  lemma TakeThenDrop<T>(s: seq<T>, n: nat)
    requires n <= |s|
    ensures s[..n] + s[n..] == s
  {
  }

  lemma FirstThenDrop<T>(s: seq<T>)
    requires s != []
    ensures [s[0]] + s[1..] == s
  {
  }

  lemma TakeAcross<T>(s: seq<T>, n: nat, k: nat)
    requires n <= k <= |s|
    ensures s[..k] == s[..n] + s[n..][..k - n]
  {
  }

  lemma DropTwice<T>(s: seq<T>, n: nat, k: nat)
    requires n <= k <= |s|
    ensures s[k..] == s[n..][k - n..]
  {
  }

  lemma TailOfTake<T>(s: seq<T>, j: nat)
    requires 0 < j <= |s|
    ensures s[0..j][1..] == s[1..][0..j - 1]
  {
    assert forall k :: 0 <= k < j - 1 ==> s[0..j][1..][k] == s[1..][0..j - 1][k];
  }

  lemma SliceOfTail<T>(s: seq<T>, i: nat, j: nat)
    requires 0 < i <= j <= |s|
    ensures s[i..j] == s[1..][i - 1..j - 1]
  {
    assert forall k :: 0 <= k < j - i ==> s[i..j][k] == s[1..][i - 1..j - 1][k];
  }

  lemma SuffixOfAppend<T>(a: seq<T>, b: seq<T>)
    ensures IsSuffix(b, a + b)
  {
  }

  lemma AppendAssoc<T>(a: seq<T>, b: seq<T>, c: seq<T>)
    ensures (a + b) + c == a + (b + c)
  {
  }

  // ---------------------------------------------------------------------
  // Chunks of a stream
  // ---------------------------------------------------------------------

  function Flatten<T>(chunks: seq<seq<T>>): seq<T> {
    if chunks == [] then [] else chunks[0] + Flatten(chunks[1..])
  }

  lemma FlattenOne<T>(chunk: seq<T>)
    ensures Flatten([chunk]) == chunk
  {
    assert [chunk][1..] == [];
    assert chunk + [] == chunk;
  }

  lemma {:induction false} FlattenAppend<T>(a: seq<seq<T>>, b: seq<seq<T>>)
    ensures Flatten(a + b) == Flatten(a) + Flatten(b)
  {
    if a == [] {
      assert a + b == b;
    } else {
      assert (a + b)[1..] == a[1..] + b;
      FlattenAppend(a[1..], b);
    }
  }

  // ---------------------------------------------------------------------
  // Split and join
  // ---------------------------------------------------------------------

  /** `s.split(sep)`: the pieces between separators; always at least one. */
  function Split(s: bytes, sep: byte): (r: seq<bytes>)
    ensures |r| >= 1
  {
    if s == [] then [[]]
    else
      var rest := Split(s[1..], sep);
      if s[0] == sep then [[]] + rest else [[s[0]] + rest[0]] + rest[1..]
  }

  function Join(parts: seq<bytes>, sep: byte): bytes {
    if parts == [] then []
    else if |parts| == 1 then parts[0]
    else parts[0] + [sep] + Join(parts[1..], sep)
  }

  ghost predicate NoneContains(parts: seq<bytes>, sep: byte) {
    forall i :: 0 <= i < |parts| ==> sep !in parts[i]
  }

  /** Splitting and joining again gives the string back, and no piece holds the separator. */
  lemma {:induction false} JoinSplit(s: bytes, sep: byte)
    ensures Join(Split(s, sep), sep) == s
    ensures NoneContains(Split(s, sep), sep)
  {
    if s == [] {
    } else {
      JoinSplit(s[1..], sep);
      var rest := Split(s[1..], sep);
      if s[0] == sep {
        assert ([[]] + rest)[1..] == rest;
      } else {
        var parts := [[s[0]] + rest[0]] + rest[1..];
        assert parts[1..] == rest[1..];
        assert s == [s[0]] + s[1..];
        if |rest| > 1 {
          assert Join(parts, sep) == [s[0]] + rest[0] + [sep] + Join(rest[1..], sep);
          assert Join(rest, sep) == rest[0] + [sep] + Join(rest[1..], sep);
        }
      }
    }
  }

  /** Joining pieces that hold no separator and splitting again gives the pieces back. */
  lemma {:induction false} SplitJoin(parts: seq<bytes>, sep: byte)
    requires parts != [] && NoneContains(parts, sep)
    ensures Split(Join(parts, sep), sep) == parts
  {
    if |parts| == 1 {
      SplitPiece(parts[0], [], sep);
      assert parts[0] + [] == parts[0];
    } else {
      SplitJoin(parts[1..], sep);
      var tail := [sep] + Join(parts[1..], sep);
      assert tail[1..] == Join(parts[1..], sep);
      assert Split(tail, sep) == [[]] + parts[1..];
      assert Split(tail, sep)[0] == [] && Split(tail, sep)[1..] == parts[1..];
      SplitPiece(parts[0], tail, sep);
      assert parts[0] + [sep] + Join(parts[1..], sep) == parts[0] + tail;
      assert parts[0] + [] == parts[0];
      assert parts == [parts[0]] + parts[1..];
    }
  }

  /** A separator-free prefix only lengthens the first piece. */
  lemma {:induction false} SplitPiece(p: bytes, rest: bytes, sep: byte)
    requires sep !in p
    ensures Split(p + rest, sep) == [p + Split(rest, sep)[0]] + Split(rest, sep)[1..]
  {
    var whole := Split(rest, sep);
    if p == [] {
      assert p + rest == rest;
      assert p + whole[0] == whole[0];
      assert whole == [whole[0]] + whole[1..];
    } else {
      assert (p + rest)[1..] == p[1..] + rest;
      SplitPiece(p[1..], rest, sep);
      assert [p[0]] + (p[1..] + whole[0]) == p + whole[0];
    }
  }

  /** Joining a run of pieces never gives more bytes than joining all of them. */
  lemma {:induction false} JoinSlice(parts: seq<bytes>, i: nat, j: nat, sep: byte)
    requires i < j <= |parts|
    ensures |Join(parts[i..j], sep)| <= |Join(parts, sep)|
    ensures forall b :: b in Join(parts[i..j], sep) ==> b in Join(parts, sep)
    decreases |parts|
  {
    if i > 0 {
      SliceOfTail(parts, i, j);
      JoinSlice(parts[1..], i - 1, j - 1, sep);
    } else if j == 1 {
      assert parts[0..1] == [parts[0]];
    } else {
      TailOfTake(parts, j);
      JoinSlice(parts[1..], 0, j - 1, sep);
    }
  }

  // ---------------------------------------------------------------------
  // Unsigned decimals
  // ---------------------------------------------------------------------

  /** `n.to_string()` */
  function Decimal(n: nat): (r: bytes)
    ensures r != [] && forall b :: b in r ==> IsDigit(b)
  {
    if n < 10 then [0x30 + n] else Decimal(n / 10) + [0x30 + n % 10]
  }

  predicate AllDigits(s: bytes) {
    forall i :: 0 <= i < |s| ==> IsDigit(s[i])
  }

  function DigitsValue(s: bytes): nat
    requires AllDigits(s)
  {
    if s == [] then 0 else 10 * DigitsValue(s[..|s| - 1]) + (s[|s| - 1] - 0x30)
  }

  /**
   * `s.parse::<uN>().ok()` for the unsigned type whose largest value is `max`:
   * an optional `+`, then at least one digit, and a value that fits.
   */
  function ParseUint(s: bytes, max: nat): Option<nat> {
    var digits := if s != [] && s[0] == 0x2b then s[1..] else s;
    if digits == [] || !AllDigits(digits) || DigitsValue(digits) > max then None
    else Some(DigitsValue(digits))
  }

  lemma {:induction false} DecimalValue(n: nat)
    ensures AllDigits(Decimal(n)) && DigitsValue(Decimal(n)) == n
  {
    if n < 10 {
      assert DigitsValue([]) == 0;
      assert Decimal(n)[..0] == [];
    } else {
      DecimalValue(n / 10);
      assert Decimal(n)[..|Decimal(n)| - 1] == Decimal(n / 10);
    }
  }

  /** A printed number parses back to itself whenever the type can hold it. */
  lemma ParseDecimal(n: nat, max: nat)
    ensures ParseUint(Decimal(n), max) == if n <= max then Some(n) else None
  {
    DecimalValue(n);
    assert IsDigit(Decimal(n)[0]);
  }

  function Zeros(k: nat): bytes {
    if k == 0 then [] else [0x30] + Zeros(k - 1)
  }

  lemma {:induction false} ZerosValue(k: nat, digits: bytes)
    requires AllDigits(digits)
    ensures AllDigits(Zeros(k) + digits) && DigitsValue(Zeros(k) + digits) == DigitsValue(digits)
    decreases |digits|, k
  {
    var all := Zeros(k) + digits;
    if k == 0 {
      assert all == digits;
    } else if digits == [] {
      assert all == Zeros(k);
      ZerosEnd(k);
      ZerosValue(k - 1, []);
      assert Zeros(k - 1) + [] == Zeros(k - 1);
    } else {
      ZerosValue(k, digits[..|digits| - 1]);
      assert all[..|all| - 1] == Zeros(k) + digits[..|digits| - 1];
    }
  }

  lemma {:induction false} ZerosEnd(k: nat)
    requires k > 0
    ensures |Zeros(k)| == k && Zeros(k)[..k - 1] == Zeros(k - 1) && Zeros(k)[k - 1] == 0x30
  {
    if k == 1 {
    } else {
      ZerosEnd(k - 1);
      assert Zeros(k)[..k - 1] == [0x30] + Zeros(k - 1)[..k - 2];
    }
  }

  /** A numeral: an optional plus sign, any number of zeros, and the number without leading zeros. */
  function Numeral(plus: bool, zeros: nat, n: nat): bytes {
    (if plus then [0x2b] else []) + (Zeros(zeros) + Decimal(n))
  }

  /** Every numeral parses to its number, whenever the type can hold it. */
  lemma ParseNumeral(plus: bool, zeros: nat, n: nat, max: nat)
    ensures ParseUint(Numeral(plus, zeros, n), max) == if n <= max then Some(n) else None
  {
    var digits := Zeros(zeros) + Decimal(n);
    DecimalValue(n);
    ZerosValue(zeros, Decimal(n));
    assert digits != [] && IsDigit(digits[0]);
    if plus {
      assert Numeral(plus, zeros, n)[1..] == digits;
    } else {
      assert Numeral(plus, zeros, n) == digits;
    }
  }

  lemma ValueSnoc(init: bytes, last: byte)
    requires AllDigits(init) && IsDigit(last)
    ensures AllDigits(init + [last]) && DigitsValue(init + [last]) == 10 * DigitsValue(init) + (last - 0x30)
  {
    assert (init + [last])[..|init|] == init;
  }

  lemma DecimalSnoc(v: nat, last: byte)
    requires v > 0 && IsDigit(last)
    ensures Decimal(10 * v + (last - 0x30)) == Decimal(v) + [last]
  {
    var n := 10 * v + (last - 0x30);
    assert n / 10 == v && n % 10 == last - 0x30;
  }

  lemma ZerosSnoc(k: nat)
    ensures Zeros(k) + [0x30] == Zeros(k + 1)
  {
    ZerosEnd(k + 1);
    assert Zeros(k + 1) == Zeros(k + 1)[..k] + [Zeros(k + 1)[k]];
  }

  /** Digits are zeros and then their number, printed. */
  lemma {:induction false} DigitsAreNumeral(s: bytes) returns (zeros: nat)
    requires s != [] && AllDigits(s)
    ensures s == Zeros(zeros) + Decimal(DigitsValue(s))
    decreases |s|
  {
    var init, last := s[..|s| - 1], s[|s| - 1];
    assert s == init + [last];
    ValueSnoc(init, last);
    if init == [] {
      zeros := 0;
    } else {
      zeros := DigitsAreNumeral(init);
      if DigitsValue(init) == 0 {
        ZerosSnoc(zeros);
        zeros := zeros + 1;
      } else {
        DecimalSnoc(DigitsValue(init), last);
        AppendAssoc(Zeros(zeros), Decimal(DigitsValue(init)), [last]);
      }
    }
  }

  /** And only numerals parse. */
  lemma OnlyNumeralsParse(s: bytes, max: nat) returns (plus: bool, zeros: nat)
    requires ParseUint(s, max).Some?
    ensures s == Numeral(plus, zeros, ParseUint(s, max).value)
  {
    plus := s[0] == 0x2b;
    zeros := DigitsAreNumeral(if plus then s[1..] else s);
  }

  function Pow10(k: nat): nat {
    if k == 0 then 1 else 10 * Pow10(k - 1)
  }

  lemma {:induction false} DecimalLength(n: nat, k: nat)
    requires k >= 1 && n < Pow10(k)
    ensures |Decimal(n)| <= k
  {
    if n < 10 {
    } else {
      assert k > 1;
      assert n / 10 < Pow10(k - 1);
      DecimalLength(n / 10, k - 1);
    }
  }

  // ---------------------------------------------------------------------
  // Machine integers
  // ---------------------------------------------------------------------

  const U16_MAX: nat := 0xffff
  const U32_MAX: nat := 0xffff_ffff
  const U64_MAX: nat := 0xffff_ffff_ffff_ffff
  const USIZE_MAX: nat := U64_MAX

  /** `a + b` on a 64-bit `usize` in a release build: it wraps. */
  function WrappingAdd(a: nat, b: nat): (r: nat)
    ensures r <= USIZE_MAX
    ensures a + b <= USIZE_MAX ==> r == a + b
  {
    (a + b) % (USIZE_MAX + 1)
  }

  function SaturatingAdd(a: nat, b: nat): nat {
    Min(a + b, USIZE_MAX)
  }

  function SaturatingSub(a: nat, b: nat): nat {
    if a < b then 0 else a - b
  }

  function Min(a: nat, b: nat): nat {
    if a < b then a else b
  }

  function Max(a: nat, b: nat): nat {
    if a < b then b else a
  }

  lemma UsizeDecimalLength(n: nat)
    requires n <= USIZE_MAX
    ensures |Decimal(n)| <= 20
  {
    assert Pow10(4) == 10000;
    assert Pow10(8) == 100000000;
    assert Pow10(12) == 1000000000000;
    assert Pow10(16) == 10000000000000000;
    assert Pow10(20) == 100000000000000000000;
    DecimalLength(n, 20);
  }
}
