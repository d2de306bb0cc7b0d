/** Tolerant JSON extraction (`cleanAndParseJSON` in
    services/geminiService.ts): a strict parse of the whole text, else of the
    first markdown code fence, else of the span from the first `{` or `[` to
    the last matching closer. `JSON.parse` itself is a parameter `parse`,
    so every property here holds whatever the parser accepts. */
module JsonRecovery {
  import opened Wrappers
  import opened Strings
  import opened JsValue

  const Fence: string := "```"

  /** No code fence starts anywhere in `s`. */
  predicate NoFence(s: string) {
    forall i :: 0 <= i < |s| ==> !OccursAt(s, Fence, i)
  }

  /** The length of the run of `\s` characters that starts at `i`. */
  function SpaceRun(s: string, i: nat): (n: nat)
    requires i <= |s|
    ensures i + n <= |s|
    ensures forall k :: i <= k < i + n ==> IsJsSpace(s[k])
    ensures i + n == |s| || !IsJsSpace(s[i + n])
    decreases |s| - i
  {
    if i < |s| && IsJsSpace(s[i]) then 1 + SpaceRun(s, i + 1) else 0
  }

  /** The start of the run of `\s` characters that ends at `f`, not going
      back past `lo`. */
  function SpaceRunBefore(s: string, lo: nat, f: nat): (e: nat)
    requires lo <= f <= |s|
    ensures lo <= e <= f
    ensures forall k :: e <= k < f ==> IsJsSpace(s[k])
    ensures e == lo || !IsJsSpace(s[e - 1])
    decreases f - lo
  {
    if f > lo && IsJsSpace(s[f - 1]) then SpaceRunBefore(s, lo, f - 1) else f
  }

  /** Where the captured text starts for an opening fence at `p`: after the
      fence, after "json" when it follows, and after the longest run of
      `\s` (the greedy `(?:json)?\s*`). */
  function ContentStart(s: string, p: nat): (c: nat)
    requires OccursAt(s, Fence, p)
    ensures p + 3 <= c <= |s|
  {
    var q := p + 3;
    var q1 := if OccursAt(s, "json", q) then q + 4 else q;
    q1 + SpaceRun(s, q1)
  }

  /** The capture group of /```(?:json)?\s*([\s\S]*?)\s*```/ for a match
      that starts at `p`. Backtracking reduces to this: a match exists iff a
      closing fence starts at or after the content start `c` (backing off
      the optional "json" or the spaces cannot help, as those characters are
      not backticks); the lazy group then ends where the run of spaces
      before the first such fence begins. */
  function MatchAt(s: string, p: nat): (r: Option<string>)
    ensures r.Some? ==> OccursAt(s, Fence, p)
  {
    if !OccursAt(s, Fence, p) then None
    else
      var c := ContentStart(s, p);
      match IndexOfFrom(s, Fence, c)
      case None => None
      case Some(f) => Some(s[c..SpaceRunBefore(s, c, f)])
  }

  /** The leftmost match at or after position `p`, as `String.prototype.match`
      with a non-global expression finds it. */
  function FenceMatchFrom(s: string, p: nat): Option<string>
    decreases |s| - p
  {
    if p + 3 > |s| then None
    else if MatchAt(s, p).Some? then MatchAt(s, p)
    else FenceMatchFrom(s, p + 1)
  }

  /** `text.match(markdownRegex)[1]`, or `None` when nothing matches. */
  function FenceMatch(s: string): (r: Option<string>)
    ensures r.Some? ==> exists i, j :: 0 <= i <= j <= |s| && s[i..j] == r.value
  {
    FenceCaptureIsSubstring(s, 0);
    FenceMatchFrom(s, 0)
  }

  lemma {:induction false} FenceCaptureIsSubstring(s: string, p: nat)
    ensures var r := FenceMatchFrom(s, p);
      r.Some? ==> exists i, j :: 0 <= i <= j <= |s| && s[i..j] == r.value
    decreases |s| - p
  {
    if p + 3 <= |s| {
      if MatchAt(s, p).Some? {
        var c := ContentStart(s, p);
        var f := IndexOfFrom(s, Fence, c).value;
        var e := SpaceRunBefore(s, c, f);
        assert s[c..e] == MatchAt(s, p).value;
      } else {
        FenceCaptureIsSubstring(s, p + 1);
      }
    }
  }

  predicate IsOpener(c: char) { c == '{' || c == '[' }

  function Closer(c: char): char { if c == '{' then '}' else ']' }

  /** `a` is the first position of `s` holding `{` or `[`. */
  predicate IsFirstOpener(s: string, a: nat) {
    a < |s| && IsOpener(s[a]) && forall i :: 0 <= i < a ==> !IsOpener(s[i])
  }

  /** No position after `a` holds `c`. */
  predicate NoneAfter(s: string, a: nat, c: char) {
    forall j :: a < j < |s| ==> s[j] != c
  }

  /** The fallback span `[start, end]`: `start` is the first `{` when it
      comes before every `[`, else the first `[`; `end` is the last
      occurrence of the matching closer; the span exists only when
      `end > start`. So the span runs from the first opener to the last
      matching closer, and there is none exactly when no matching closer
      follows the first opener. */
  function BracketSpan(s: string): (r: Option<(nat, nat)>)
    ensures r.Some? ==>
      var (a, b) := r.value;
      a < b < |s| && IsFirstOpener(s, a) && s[b] == Closer(s[a]) && NoneAfter(s, b, Closer(s[a]))
    ensures r.None? ==>
      forall a: nat :: IsFirstOpener(s, a) ==> NoneAfter(s, a, Closer(s[a]))
  {
    var start := FirstOpener(s);
    if start.None? then None
    else
      var end := LastIndexOfChar(s, Closer(s[start.value]));
      LastIndexOfCharLast(s, Closer(s[start.value]));
      if end.Some? && end.value > start.value then Some((start.value, end.value))
      else None
  }

  /** The start of the span: the first `{` when it comes before every `[`,
      else the first `[`. */
  function FirstOpener(s: string): (start: Option<nat>)
    ensures start.Some? ==> IsFirstOpener(s, start.value)
    ensures forall a: nat :: IsFirstOpener(s, a) ==> start == Some(a)
  {
    var openBrace := IndexOfChar(s, '{');
    var openBracket := IndexOfChar(s, '[');
    IndexOfCharFirst(s, '{');
    IndexOfCharFirst(s, '[');
    if openBrace.Some? && (openBracket.None? || openBrace.value < openBracket.value) then openBrace
    else if openBracket.Some? then openBracket
    else None
  }

  /** `cleanAndParseJSON(text)`: `None` for a missing or empty text, else the
      first attempt that parses: the whole text, the fenced block's non-empty
      content, the bracket span. Whatever it returns is the parse of a piece
      of the text. */
  function CleanAndParse(text: Option<string>, parse: string -> Option<Json>): (r: Option<Json>)
    ensures text.None? || text == Some("") ==> r.None?
    ensures r.Some? ==> text.Some? && exists i, j :: 0 <= i <= j <= |text.value| && parse(text.value[i..j]) == r
  {
    if text.None? || text.value == "" then None
    else
      var s := text.value;
      if parse(s).Some? then
        assert s[0..|s|] == s;
        parse(s)
      else
        var m := FenceMatch(s);
        if m.Some? && m.value != "" && parse(m.value).Some? then parse(m.value)
        else match BracketSpan(s)
          case Some((a, b)) => parse(s[a..b + 1])
          case None => None
  }

  /** A text that parses strictly is returned as parsed. */
  lemma StrictParseWins(s: string, parse: string -> Option<Json>, v: Json)
    requires s != "" && parse(s) == Some(v)
    ensures CleanAndParse(Some(s), parse) == Some(v)
  {
  }

  /** No match starts before the first backtick. */
  lemma {:induction false} FenceMatchSkips(s: string, p: nat, p': nat)
    requires p <= p' && forall k :: p <= k < p' && k < |s| ==> s[k] != '`'
    ensures FenceMatchFrom(s, p) == FenceMatchFrom(s, p')
    decreases p' - p
  {
    if p < p' {
      if p + 3 <= |s| {
        assert !OccursAt(s, Fence, p) by { assert s[p..p + 3][0] == s[p]; }
      }
      FenceMatchSkips(s, p + 1, p');
    }
  }

  /** A text without backticks has no fenced block. */
  lemma NoBacktickNoFence(s: string)
    requires '`' !in s
    ensures FenceMatch(s).None?
  {
    FenceMatchSkips(s, 0, |s|);
  }

  /** An opening fence tagged "json" and a line break, followed by a
      non-space character, puts the content start right after the break. */
  lemma TaggedFenceStart(s: string, p: nat)
    requires p + 8 < |s| && s[p..p + 8] == "```json\n" && !IsJsSpace(s[p + 8])
    ensures OccursAt(s, Fence, p) && ContentStart(s, p) == p + 8
  {
    var w := s[p..p + 8];
    SliceOfSlice(s, p, p + 8, 0, 3);
    SliceOfSlice(s, p, p + 8, 3, 7);
    assert w[..3] == Fence && w[3..7] == "json" && w[7] == '\n';
    assert s[p + 7] == w[7];
    assert SpaceRun(s, p + 8) == 0;
    assert SpaceRun(s, p + 7) == 1;
  }

  /** The first fence at or after the start of a fence-free body that is
      followed by a line break and a fence is that closing fence. */
  lemma ClosingFenceFound(s: string, c: nat, body: string)
    requires c + |body| + 4 <= |s| && s[c..c + |body|] == body && NoFence(body)
    requires s[c + |body|..c + |body| + 4] == "\n```"
    ensures IndexOfFrom(s, Fence, c) == Some(c + |body| + 1)
  {
    var n := |body|;
    var f := c + n + 1;
    assert OccursAt(s, Fence, f) by {
      var w := s[c + n..c + n + 4];
      SliceOfSlice(s, c + n, c + n + 4, 1, 4);
      assert s[f..f + 3] == w[1..];
    }
    forall j | c <= j < f ensures !OccursAt(s, Fence, j) {
      NoFenceInBody(s, c, body, j);
    }
    FirstOccurrenceFrom(s, Fence, c, f);
  }

  /** No fence starts inside the body or at the line break after it. */
  lemma NoFenceInBody(s: string, c: nat, body: string, j: nat)
    requires c + |body| + 4 <= |s| && s[c..c + |body|] == body && NoFence(body)
    requires s[c + |body|..c + |body| + 4] == "\n```"
    requires c <= j <= c + |body|
    ensures !OccursAt(s, Fence, j)
  {
    var n := |body|;
    if j + 3 <= c + n {
      SliceOfSlice(s, c, c + n, j - c, j - c + 3);
      assert !OccursAt(body, Fence, j - c);
    } else {
      assert s[c + n] == s[c + n..c + n + 4][0] == '\n';
      assert s[j..j + 3][c + n - j] == s[c + n];
      assert Fence[c + n - j] == '`';
    }
  }

  /** An occurrence at `k` with none between `from` and `k` is the one
      `indexOf` finds. */
  lemma FirstOccurrenceFrom(s: string, sub: string, from: nat, k: nat)
    requires from <= k && OccursAt(s, sub, k)
    requires forall j :: from <= j < k ==> !OccursAt(s, sub, j)
    ensures IndexOfFrom(s, sub, from) == Some(k)
  {
  }

  /** The lazy group stops before the line break that precedes the closing
      fence, as the body does not end in a space. */
  lemma CaptureStopsAtBody(s: string, c: nat, f: nat)
    requires c + 2 <= f <= |s| && IsJsSpace(s[f - 1]) && !IsJsSpace(s[f - 2])
    ensures SpaceRunBefore(s, c, f) == f - 1
  {
  }

  /** The fenced block at `p`, with no backtick before it, is the one the
      expression captures. */
  lemma FenceMatchOfTagged(s: string, p: nat, body: string)
    requires forall k :: 0 <= k < p && k < |s| ==> s[k] != '`'
    requires p + 12 + |body| <= |s| && NoFence(body)
    requires body != "" && !IsJsSpace(body[0]) && !IsJsSpace(body[|body| - 1])
    requires s[p..p + 8] == "```json\n"
    requires s[p + 8..p + 8 + |body|] == body
    requires s[p + 8 + |body|..p + 12 + |body|] == "\n```"
    ensures FenceMatch(s) == Some(body)
  {
    FenceMatchSkips(s, 0, p);
    MatchAtTagged(s, p, body);
  }

  lemma MatchAtTagged(s: string, p: nat, body: string)
    requires p + 12 + |body| <= |s| && NoFence(body)
    requires body != "" && !IsJsSpace(body[0]) && !IsJsSpace(body[|body| - 1])
    requires s[p..p + 8] == "```json\n"
    requires s[p + 8..p + 8 + |body|] == body
    requires s[p + 8 + |body|..p + 12 + |body|] == "\n```"
    ensures MatchAt(s, p) == Some(body)
  {
    var c := p + 8;
    var n := |body|;
    var f := c + n + 1;
    assert s[c] == s[c..c + n][0];
    assert s[f - 2] == s[c..c + n][n - 1];
    assert s[f - 1] == s[c + n..c + n + 4][0];
    SliceOfSlice(s, p + 8, p + 8 + n, 0, n);
    TaggedFenceStart(s, p);
    ClosingFenceFound(s, c, body);
    CaptureStopsAtBody(s, c, f);
  }

  /** A fenced block tagged "json", with any text before it that has no
      backtick and any text after it, yields its content when the whole text
      does not parse. */
  lemma FencedBlockRecovered(pre: string, body: string, post: string,
                             parse: string -> Option<Json>, v: Json)
    requires '`' !in pre && NoFence(body)
    requires body != "" && !IsJsSpace(body[0]) && !IsJsSpace(body[|body| - 1])
    requires parse(pre + "```json\n" + body + "\n```" + post) == None
    requires parse(body) == Some(v)
    ensures CleanAndParse(Some(pre + "```json\n" + body + "\n```" + post), parse) == Some(v)
  {
    var s1 := pre + "```json\n";
    var s2 := s1 + body;
    var s3 := s2 + "\n```";
    var s := s3 + post;
    var p, n := |pre|, |body|;
    assert s[..|s3|] == s3;
    assert s3[..|s2|] == s2;
    assert s2[..|s1|] == s1;
    assert s[p..p + 8] == s1[p..];
    assert s[p + 8..p + 8 + n] == body;
    assert s[p + 8 + n..p + 12 + n] == "\n```";
    forall k | 0 <= k < p ensures s[k] != '`' { assert s[k] == pre[k]; }
    FenceMatchOfTagged(s, p, body);
  }

  /** Prose around a single object, with no backtick anywhere, no opener
      before it and no closing brace after it, yields the object's text. */
  lemma {:induction false} BracedValueRecovered(pre: string, inner: string, post: string,
                                              parse: string -> Option<Json>)
    requires '`' !in pre && '`' !in inner && '`' !in post
    requires forall k :: 0 <= k < |pre| ==> !IsOpener(pre[k])
    requires '}' !in post
    requires parse(pre + "{" + inner + "}" + post) == None
    ensures CleanAndParse(Some(pre + "{" + inner + "}" + post), parse) == parse("{" + inner + "}")
  {
    var s := pre + "{" + inner + "}" + post;
    var a, b := |pre|, |pre| + |inner| + 1;
    NoBacktickNoFence(s);
    assert s[a..b + 1] == "{" + inner + "}";
    assert BracketSpan(s) == Some((a, b)) by {
      assert s[..a] == pre;
      assert s[b + 1..] == post;
      assert IsFirstOpener(s, a) by {
        forall i | 0 <= i < a ensures !IsOpener(s[i]) { assert s[i] == s[..a][i]; }
      }
      assert NoneAfter(s, b, '}') by {
        forall j | b < j < |s| ensures s[j] != '}' { assert s[j] == s[b + 1..][j - b - 1]; }
      }
      BracketSpanOfBraces(s, a, b);
    }
  }

  /** A first opener `{` whose last `}` comes after it gives that span. */
  lemma BracketSpanOfBraces(s: string, a: nat, b: nat)
    requires a < b < |s| && IsFirstOpener(s, a) && s[a] == '{'
    requires s[b] == '}' && NoneAfter(s, b, '}')
    ensures BracketSpan(s) == Some((a, b))
  {
    var r := BracketSpan(s);
    if r.Some? {
      var (a', b') := r.value;
      assert a' == a by {
        assert !(a' < a) && !(a < a');
      }
      assert b' == b by {
        assert !(b' < b) && !(b < b');
      }
    } else {
      assert false;
    }
  }

  /** A text with no fence and no bracket that does not parse gives `None`. */
  lemma UnparsableProseGivesNone(s: string, parse: string -> Option<Json>)
    requires parse(s) == None && '`' !in s && '{' !in s && '[' !in s
    ensures CleanAndParse(Some(s), parse) == None
  {
    NoBacktickNoFence(s);
  }
}
