/** The base 64 encoding of section 4 of RFC 4648 as the browser's `btoa`
    and `atob` apply it to "binary strings" (strings whose characters are
    byte values). `atob` is the forgiving decoder: it drops ASCII white
    space, accepts the padding being absent, and discards the bits left over
    in the last group. */
module Base64 {
  import opened Wrappers

  type byte = x: int | 0 <= x < 256
  type sextet = x: int | 0 <= x < 64

  /** The character of the base 64 alphabet for a 6-bit value. */
  function CharOf(v: sextet): char {
    if v < 26 then ('A' as int + v) as char
    else if v < 52 then ('a' as int + (v - 26)) as char
    else if v < 62 then ('0' as int + (v - 52)) as char
    else if v == 62 then '+'
    else '/'
  }

  /** The value of a character of the alphabet; `None` for any other
      character, including the pad character `=`. */
  function ValueOf(c: char): (r: Option<sextet>)
    ensures r.Some? ==> CharOf(r.value) == c
  {
    if 'A' <= c <= 'Z' then Some(c as int - 'A' as int)
    else if 'a' <= c <= 'z' then Some(c as int - 'a' as int + 26)
    else if '0' <= c <= '9' then Some(c as int - '0' as int + 52)
    else if c == '+' then Some(62)
    else if c == '/' then Some(63)
    else None
  }

  lemma ValueOfCharOf(v: sextet)
    ensures ValueOf(CharOf(v)) == Some(v)
    ensures CharOf(v) != '=' && CharOf(v) as int > 32
  {
  }

  /** The 6-bit groups of a byte sequence, most significant bits first; a
      final group of one or two bytes is padded with zero bits to a whole
      number of sextets. */
  function EncodeSextets(b: seq<byte>): (r: seq<sextet>)
    ensures |r| == 4 * (|b| / 3) + (if |b| % 3 == 0 then 0 else |b| % 3 + 1)
    decreases |b|
  {
    if |b| >= 3 then
      [b[0] / 4, (b[0] % 4) * 16 + b[1] / 16, (b[1] % 16) * 4 + b[2] / 64, b[2] % 64] + EncodeSextets(b[3..])
    else if |b| == 2 then [b[0] / 4, (b[0] % 4) * 16 + b[1] / 16, (b[1] % 16) * 4]
    else if |b| == 1 then [b[0] / 4, (b[0] % 4) * 16]
    else []
  }

  /** The bytes that a sequence of sextets spells, dropping the bits of an
      incomplete last byte. */
  function DecodeSextets(v: seq<sextet>): seq<byte>
    decreases |v|
  {
    if |v| < 2 then []
    else
      var x: byte := v[0] as int * 4 + v[1] / 16;
      if |v| == 2 then [x]
      else
        var y: byte := (v[1] as int % 16) * 16 + v[2] / 4;
        if |v| == 3 then [x, y]
        else
          var z: byte := (v[2] as int % 4) * 64 + v[3];
          [x, y, z] + DecodeSextets(v[4..])
  }

  lemma DecodeThree(x: byte, y: byte, z: byte)
    ensures x / 4 * 4 + ((x % 4) * 16 + y / 16) / 16 == x
    ensures ((x % 4) * 16 + y / 16) % 16 * 16 + ((y % 16) * 4 + z / 64) / 4 == y
    ensures ((y % 16) * 4 + z / 64) % 4 * 64 + z % 64 == z
  {
  }

  /** Decoding the sextets of a byte sequence gives the bytes back. */
  lemma {:induction false} DecodeEncodeSextets(b: seq<byte>)
    ensures DecodeSextets(EncodeSextets(b)) == b
    decreases |b|
  {
    if |b| >= 3 {
      DecodeThree(b[0], b[1], b[2]);
      DecodeEncodeSextets(b[3..]);
      var v := EncodeSextets(b);
      assert v[4..] == EncodeSextets(b[3..]);
      assert b == b[..3] + b[3..];
    } else if |b| == 2 {
      DecodeThree(b[0], b[1], 0);
    } else if |b| == 1 {
      DecodeThree(b[0], 0, 0);
    }
  }

  function Chars(v: seq<sextet>): (s: string)
    ensures |s| == |v| && forall i :: 0 <= i < |v| ==> s[i] == CharOf(v[i])
  {
    seq(|v|, i requires 0 <= i < |v| => CharOf(v[i]))
  }

  function Padding(n: nat): string {
    if n % 3 == 1 then "==" else if n % 3 == 2 then "=" else ""
  }

  /** The encoding of a byte sequence: its sextets as characters, padded
      with `=` to a multiple of four characters. */
  function Encode(b: seq<byte>): (s: string)
    ensures |s| % 4 == 0
    ensures |s| == 4 * ((|b| + 2) / 3)
  {
    EncodedLength(|b|);
    Chars(EncodeSextets(b)) + Padding(|b|)
  }

  /** The sextets of `n` bytes and their padding fill whole groups of four
      characters, one group per started group of three bytes. */
  lemma EncodedLength(n: nat)
    ensures 4 * (n / 3) + (if n % 3 == 0 then 0 else n % 3 + 1) + |Padding(n)| == 4 * ((n + 2) / 3)
  {
    var q := n / 3;
    assert n == 3 * q + n % 3;
    assert (n + 2) / 3 == if n % 3 == 0 then q else q + 1;
  }

  /** A string all of whose characters are byte values. */
  predicate IsBinary(s: string) {
    forall i :: 0 <= i < |s| ==> s[i] as int < 256
  }

  function Codes(s: string): (b: seq<byte>)
    requires IsBinary(s)
    ensures |b| == |s| && forall i :: 0 <= i < |s| ==> b[i] == s[i] as int
  {
    seq(|s|, i requires 0 <= i < |s| => s[i] as int)
  }

  /** The binary string whose characters are the given bytes. */
  function Binary(b: seq<byte>): (s: string)
    ensures |s| == |b| && IsBinary(s)
    ensures forall i :: 0 <= i < |b| ==> s[i] as int == b[i]
  {
    seq(|b|, i requires 0 <= i < |b| => b[i] as char)
  }

  lemma CodesBinary(b: seq<byte>)
    ensures Codes(Binary(b)) == b
  {
  }

  lemma BinaryCodes(s: string)
    requires IsBinary(s)
    ensures Binary(Codes(s)) == s
  {
    assert forall i :: 0 <= i < |s| ==> Binary(Codes(s))[i] == s[i];
  }

  /** `btoa(s)`: the encoding of the characters' values, or `None` (an
      `InvalidCharacterError`) when a character is not a byte value. */
  function Btoa(s: string): (r: Option<string>)
    ensures r.Some? <==> IsBinary(s)
    ensures r.Some? ==> |r.value| % 4 == 0
  {
    if IsBinary(s) then Some(Encode(Codes(s))) else None
  }

  /** ASCII white space as the forgiving decoder removes it: tab, line
      feed, form feed, carriage return and space. */
  predicate IsAsciiWhitespace(c: char) {
    c == 9 as char || c == 10 as char || c == 12 as char || c == 13 as char || c == ' '
  }

  function RemoveWhitespace(s: string): (r: string)
    ensures forall i :: 0 <= i < |r| ==> !IsAsciiWhitespace(r[i])
    ensures (forall i :: 0 <= i < |s| ==> !IsAsciiWhitespace(s[i])) ==> r == s
  {
    if |s| == 0 then ""
    else
      var rest := RemoveWhitespace(s[1..]);
      assert forall i :: 1 <= i < |s| ==> s[i] == s[1..][i - 1];
      if IsAsciiWhitespace(s[0]) then rest else [s[0]] + rest
  }

  /** Removing one or two final `=` when the length is a multiple of four. */
  function StripPadding(t: string): string {
    if |t| % 4 == 0 && |t| >= 2 && t[|t| - 2] == '=' && t[|t| - 1] == '=' then t[..|t| - 2]
    else if |t| % 4 == 0 && |t| >= 1 && t[|t| - 1] == '=' then t[..|t| - 1]
    else t
  }

  /** Padding is only removed from a text whose length is a multiple of
      four, and what is removed is at most two final `=`. */
  lemma StripPaddingShape(t: string)
    ensures |t| % 4 != 0 ==> StripPadding(t) == t
    ensures var r := StripPadding(t);
      |r| <= |t| <= |r| + 2 && r == t[..|r|] && forall i :: |r| <= i < |t| ==> t[i] == '='
  {
  }

  /** The values of a string of alphabet characters, or `None` when some
      character is outside the alphabet. */
  function Values(t: string): (r: Option<seq<sextet>>)
    ensures r.Some? <==> forall i :: 0 <= i < |t| ==> ValueOf(t[i]).Some?
    ensures r.Some? ==> |r.value| == |t| && forall i :: 0 <= i < |t| ==> Some(r.value[i]) == ValueOf(t[i])
  {
    if forall i :: 0 <= i < |t| ==> ValueOf(t[i]).Some? then
      Some(seq(|t|, i requires 0 <= i < |t| => ValueOf(t[i]).value))
    else None
  }

  /** `atob(s)`: the decoded binary string, or `None` (an
      `InvalidCharacterError`) when the text is not base 64. */
  function Atob(s: string): (r: Option<string>)
    ensures r.Some? ==> IsBinary(r.value)
  {
    var t := StripPadding(RemoveWhitespace(s));
    if |t| % 4 == 1 then None
    else match Values(t)
      case None => None
      case Some(v) => Some(Binary(DecodeSextets(v)))
  }

  /** The encoding, with its padding removed, is the sextets' characters. */
  lemma StripPaddingOfEncode(b: seq<byte>)
    ensures StripPadding(Encode(b)) == Chars(EncodeSextets(b))
  {
    var v := EncodeSextets(b);
    var c := Chars(v);
    if |c| > 0 {
      ValueOfCharOf(v[|c| - 1]);
    }
    StripPaddingOf(c, Padding(|b|));
  }

  /** Padding of at most two `=` after text that does not end in `=` is
      removed exactly. */
  lemma StripPaddingOf(c: string, pad: string)
    requires pad == "" || pad == "=" || pad == "=="
    requires (|c| + |pad|) % 4 == 0
    requires |c| > 0 ==> c[|c| - 1] != '='
    ensures StripPadding(c + pad) == c
  {
    var e := c + pad;
    if pad == "==" {
      assert e[..|e| - 2] == c;
    } else if pad == "=" {
      assert e[..|e| - 1] == c;
      assert |c| > 0 ==> e[|e| - 2] == c[|c| - 1];
    } else {
      assert e == c;
    }
  }

  /** An encoding holds no white space. */
  lemma EncodeHasNoWhitespace(b: seq<byte>)
    ensures RemoveWhitespace(Encode(b)) == Encode(b)
  {
    var v := EncodeSextets(b);
    var e := Encode(b);
    forall i | 0 <= i < |e| ensures !IsAsciiWhitespace(e[i]) {
      if i < |v| {
        ValueOfCharOf(v[i]);
      } else {
        assert e[i] == Padding(|b|)[i - |v|];
      }
    }
  }

  lemma ValuesOfChars(v: seq<sextet>)
    ensures Values(Chars(v)) == Some(v)
  {
    var t := Chars(v);
    forall i | 0 <= i < |t| ensures ValueOf(t[i]) == Some(v[i]) {
      ValueOfCharOf(v[i]);
    }
    assert Values(t).value == v;
  }

  /** Decoding an encoding gives back the encoded bytes. */
  lemma DecodeEncode(b: seq<byte>)
    ensures Atob(Encode(b)) == Some(Binary(b))
  {
    var v := EncodeSextets(b);
    var t := StripPadding(RemoveWhitespace(Encode(b)));
    assert t == Chars(v) by {
      EncodeHasNoWhitespace(b);
      StripPaddingOfEncode(b);
    }
    assert |t| % 4 != 1 by {
      GroupRemainder(|b| / 3, if |b| % 3 == 0 then 0 else |b| % 3 + 1);
    }
    assert Values(t) == Some(v) by { ValuesOfChars(v); }
    assert DecodeSextets(v) == b by { DecodeEncodeSextets(b); }
  }

  lemma GroupRemainder(q: nat, k: nat)
    requires k < 4
    ensures (4 * q + k) % 4 == k
  {
  }

  /** `atob(btoa(s))` is `s` for every binary string. */
  lemma AtobBtoa(s: string)
    requires IsBinary(s)
    ensures Btoa(s).Some? && Atob(Btoa(s).value) == Some(s)
  {
    DecodeEncode(Codes(s));
    BinaryCodes(s);
  }
}
