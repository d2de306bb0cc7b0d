/** The JavaScript string operations the application relies on: searching
    (`indexOf`, `lastIndexOf`, `includes`), splitting on a separator, ASCII
    case mapping, the `\s` class of regular expressions and decimal
    rendering of integers. */
module Strings {
  import opened Wrappers

  /** The characters matched by `\s` in an ECMAScript regular expression
      (white space and line terminators). */
  predicate IsJsSpace(c: char) {
    var n := c as int;
    (9 <= n <= 13) || n == 32 || n == 0xA0 || n == 0x1680 || (0x2000 <= n <= 0x200A) ||
    n == 0x2028 || n == 0x2029 || n == 0x202F || n == 0x205F || n == 0x3000 || n == 0xFEFF
  }

  predicate IsAsciiUpper(c: char) { 'A' <= c <= 'Z' }
  predicate IsAsciiLower(c: char) { 'a' <= c <= 'z' }
  predicate IsAsciiDigit(c: char) { '0' <= c <= '9' }

  function ToLowerChar(c: char): char {
    if IsAsciiUpper(c) then (c as int + 32) as char else c
  }

  function ToUpperChar(c: char): char {
    if IsAsciiLower(c) then (c as int - 32) as char else c
  }

  /** `String.prototype.toLowerCase`, restricted to the ASCII letters. */
  function ToLower(s: string): (r: string)
    ensures |r| == |s|
    ensures forall i :: 0 <= i < |s| ==> r[i] == ToLowerChar(s[i])
  {
    seq(|s|, i requires 0 <= i < |s| => ToLowerChar(s[i]))
  }

  /** `String.prototype.toUpperCase`, restricted to the ASCII letters. */
  function ToUpper(s: string): (r: string)
    ensures |r| == |s|
    ensures forall i :: 0 <= i < |s| ==> r[i] == ToUpperChar(s[i])
  {
    seq(|s|, i requires 0 <= i < |s| => ToUpperChar(s[i]))
  }

  /** `sub` occurs in `s` starting at position `i`. */
  predicate OccursAt(s: string, sub: string, i: int) {
    0 <= i && i + |sub| <= |s| && s[i..i + |sub|] == sub
  }

  lemma SliceOfSlice(s: string, a: nat, b: nat, c: nat, d: nat)
    requires a <= b <= |s| && c <= d <= b - a
    ensures s[a..b][c..d] == s[a + c..a + d]
  {
    assert forall k :: 0 <= k < d - c ==> s[a..b][c..d][k] == s[a + c + k];
  }

  /** A string occurs at the start of itself followed by anything. */
  lemma OccursAtStart(x: string, b: string)
    ensures OccursAt(x + b, x, 0)
  {
    assert (x + b)[..|x|] == x;
  }

  /** A string occurs right after anything put before it. */
  lemma OccursAtEnd(a: string, x: string)
    ensures OccursAt(a + x, x, |a|)
  {
    assert (a + x)[|a|..|a| + |x|] == x;
  }

  /** An occurrence inside an occurrence. */
  lemma OccursWithin(s: string, y: string, i: nat, x: string, j: nat)
    requires OccursAt(s, y, i) && OccursAt(y, x, j)
    ensures OccursAt(s, x, i + j)
  {
    SliceOfSlice(s, i, i + |y|, j, j + |x|);
  }

  /** `s.indexOf(sub, from)`: the first occurrence at or after `from`. */
  function IndexOfFrom(s: string, sub: string, from: nat): (r: Option<nat>)
    ensures r.Some? ==> from <= r.value && OccursAt(s, sub, r.value)
    ensures r.Some? ==> forall j :: from <= j < r.value ==> !OccursAt(s, sub, j)
    ensures r.None? ==> forall j :: from <= j ==> !OccursAt(s, sub, j)
    decreases |s| - from
  {
    if from + |sub| > |s| then None
    else if s[from..from + |sub|] == sub then Some(from)
    else IndexOfFrom(s, sub, from + 1)
  }

  /** `s.startsWith(prefix)`. */
  predicate StartsWith(s: string, prefix: string) {
    OccursAt(s, prefix, 0)
  }

  /** `s.includes(sub)`. */
  predicate Includes(s: string, sub: string) {
    IndexOfFrom(s, sub, 0).Some?
  }

  lemma IncludesIff(s: string, sub: string)
    ensures Includes(s, sub) <==> exists i :: OccursAt(s, sub, i)
  {
    var r := IndexOfFrom(s, sub, 0);
    if r.Some? {
      assert OccursAt(s, sub, r.value);
    }
  }

  /** `s.indexOf(c)` for a single character. */
  function IndexOfChar(s: string, c: char): (r: Option<nat>)
    ensures r.Some? ==> r.value < |s| && s[r.value] == c && c !in s[..r.value]
    ensures r.None? <==> c !in s
  {
    if |s| == 0 then None
    else if s[0] == c then Some(0)
    else
      var t := IndexOfChar(s[1..], c);
      assert s == [s[0]] + s[1..];
      if t.Some? then
        assert s[..t.value + 1] == [s[0]] + s[1..][..t.value];
        Some(t.value + 1)
      else None
  }

  /** `s.lastIndexOf(c)` for a single character. */
  function LastIndexOfChar(s: string, c: char): (r: Option<nat>)
    ensures r.Some? ==> r.value < |s| && s[r.value] == c && c !in s[r.value + 1..]
    ensures r.None? <==> c !in s
  {
    if |s| == 0 then None
    else if s[|s| - 1] == c then Some(|s| - 1)
    else
      assert s == s[..|s| - 1] + [s[|s| - 1]];
      LastIndexOfChar(s[..|s| - 1], c)
  }

  /** The index form of `IndexOfChar`: no earlier position holds `c`. */
  lemma IndexOfCharFirst(s: string, c: char)
    ensures var r := IndexOfChar(s, c);
      (r.Some? ==> forall i :: 0 <= i < r.value ==> s[i] != c) &&
      (r.None? ==> forall i :: 0 <= i < |s| ==> s[i] != c)
  {
    var r := IndexOfChar(s, c);
    if r.Some? {
      forall i | 0 <= i < r.value ensures s[i] != c {
        assert s[i] == s[..r.value][i];
      }
    }
  }

  /** The index form of `LastIndexOfChar`: no later position holds `c`. */
  lemma LastIndexOfCharLast(s: string, c: char)
    ensures var r := LastIndexOfChar(s, c);
      (r.Some? ==> forall j :: r.value < j < |s| ==> s[j] != c) &&
      (r.None? ==> forall j :: 0 <= j < |s| ==> s[j] != c)
  {
    var r := LastIndexOfChar(s, c);
    if r.Some? {
      forall j | r.value < j < |s| ensures s[j] != c {
        assert s[j] == s[r.value + 1..][j - r.value - 1];
      }
    }
  }

  /** `s.split(sep)` for a one-character separator: the pieces between
      occurrences of `sep`, so that "" splits to [""]. */
  function Split(s: string, sep: char): (parts: seq<string>)
    ensures |parts| >= 1
    ensures forall k :: 0 <= k < |parts| ==> sep !in parts[k]
    decreases |s|
  {
    match IndexOfChar(s, sep)
    case None => [s]
    case Some(i) => [s[..i]] + Split(s[i + 1..], sep)
  }

  /** `parts.join(sep)`. */
  function Join(parts: seq<string>, sep: char): string {
    if |parts| == 0 then ""
    else if |parts| == 1 then parts[0]
    else parts[0] + [sep] + Join(parts[1..], sep)
  }

  /** Splitting and joining again gives back the original path. */
  lemma {:induction false} JoinSplit(s: string, sep: char)
    ensures Join(Split(s, sep), sep) == s
    decreases |s|
  {
    match IndexOfChar(s, sep)
    case None =>
    case Some(i) =>
      var rest := Split(s[i + 1..], sep);
      JoinSplit(s[i + 1..], sep);
      assert Split(s, sep) == [s[..i]] + rest;
      assert s == s[..i] + [sep] + s[i + 1..];
  }

  /** Joining pieces that contain no separator and splitting again gives
      back the pieces. */
  lemma {:induction false} SplitJoin(parts: seq<string>, sep: char)
    requires |parts| >= 1
    requires forall k :: 0 <= k < |parts| ==> sep !in parts[k]
    ensures Split(Join(parts, sep), sep) == parts
    decreases |parts|
  {
    if |parts| == 1 {
      assert IndexOfChar(parts[0], sep).None?;
    } else {
      var s := Join(parts, sep);
      var tail := Join(parts[1..], sep);
      assert s == parts[0] + [sep] + tail;
      var i := |parts[0]|;
      assert s[i] == sep;
      assert s[..i] == parts[0];
      var r := IndexOfChar(s, sep);
      assert r.Some? && r.value <= i;
      assert s[i + 1..] == tail;
      SplitJoin(parts[1..], sep);
      assert Split(s, sep) == [parts[0]] + parts[1..];
    }
  }

  /** `!s.trim()`: the text is empty or only white space and line
      terminators. */
  predicate IsBlank(s: string) {
    forall i :: 0 <= i < |s| ==> IsJsSpace(s[i])
  }

  /** `s.padStart(width, c)`. */
  function PadStart(s: string, width: nat, c: char): (r: string)
    ensures |r| == if |s| >= width then |s| else width
    ensures r[|r| - |s|..] == s
    ensures forall i :: 0 <= i < |r| - |s| ==> r[i] == c
  {
    if |s| >= width then s else seq(width - |s|, _ => c) + s
  }

  function DigitChar(d: nat): char
    requires d < 10
  {
    ('0' as int + d) as char
  }

  /** `n.toString()` for a natural number: its decimal digits, most
      significant first, without leading zeros. */
  function NatToDecimal(n: nat): (r: string)
    ensures |r| >= 1
    ensures forall i :: 0 <= i < |r| ==> IsAsciiDigit(r[i])
    decreases n
  {
    if n < 10 then [DigitChar(n)] else NatToDecimal(n / 10) + [DigitChar(n % 10)]
  }

  /** `String(n)` for an integer. */
  function IntToDecimal(n: int): string {
    if n < 0 then "-" + NatToDecimal(-n) else NatToDecimal(n)
  }

  function DigitValue(c: char): int {
    c as int - '0' as int
  }

  /** Reading the decimal digits back gives the number. */
  function DecimalValue(s: string): int {
    if |s| == 0 then 0 else DecimalValue(s[..|s| - 1]) * 10 + DigitValue(s[|s| - 1])
  }

  lemma {:induction false} DecimalRoundTrip(n: nat)
    ensures DecimalValue(NatToDecimal(n)) == n
    decreases n
  {
    var r := NatToDecimal(n);
    if n >= 10 {
      DecimalRoundTrip(n / 10);
      assert r[..|r| - 1] == NatToDecimal(n / 10);
    }
  }
}
