/**
 * How `renderStory` cuts the story text into pieces with
 * `text.split(/(\[IMAGE:.*?\]|[ \n.,!?;:"'()])/)` and classifies each
 * piece as an illustration, a speakable word or text passed through.
 */
module StoryText {
  import opened Wrappers
  import opened JsString

  /** `[IMAGE:` begins at index `q`. */
  predicate ImageOpensAt(s: string, q: nat) {
    && q + 7 <= |s|
    && s[q] == '[' && s[q + 1] == 'I' && s[q + 2] == 'M' && s[q + 3] == 'A'
    && s[q + 4] == 'G' && s[q + 5] == 'E' && s[q + 6] == ':'
  }

  /** What the regular-expression `.` refuses to match: the ECMAScript line terminators. */
  predicate IsLineTerminator(c: char) {
    c == '\n' || c == '\r' || c == '\U{2028}' || c == '\U{2029}'
  }

  /** The one-character separators `[ \n.,!?;:"'()]`. */
  predicate IsSeparatorChar(c: char) {
    c == ' ' || c == '\n' || c == '.' || c == ',' || c == '!' || c == '?'
    || c == ';' || c == ':' || c == '"' || c == '\'' || c == '(' || c == ')'
  }

  /** The lazy `.*?\]` from index `i`: the first `]`, provided no line terminator comes before it. */
  function CloseBracket(s: string, i: nat): (r: Option<nat>)
    requires i <= |s|
    decreases |s| - i
    ensures r.Some? ==> i <= r.value < |s| && s[r.value] == ']'
    ensures r.Some? ==> forall k :: i <= k < r.value ==> s[k] != ']' && !IsLineTerminator(s[k])
  {
    if i == |s| then None
    else if s[i] == ']' then Some(i)
    else if IsLineTerminator(s[i]) then None
    else CloseBracket(s, i + 1)
  }

  /** The length of the separator that matches at index `q` (0 when none does); the image tag is tried first. */
  function MatchLength(s: string, q: nat): (n: nat)
    requires q < |s|
    ensures q + n <= |s|
  {
    if ImageOpensAt(s, q) && CloseBracket(s, q + 7).Some? then
      CloseBracket(s, q + 7).value + 1 - q
    else if IsSeparatorChar(s[q]) then 1
    else 0
  }

  /** A whole image tag: `[IMAGE:`, a body with no `]` and no line terminator, then `]`. */
  predicate IsImageTag(t: string) {
    && |t| >= 8
    && ImageOpensAt(t, 0)
    && t[|t| - 1] == ']'
    && forall k :: 7 <= k < |t| - 1 ==> t[k] != ']' && !IsLineTerminator(t[k])
  }

  /** What the capturing group of the split can capture. */
  predicate IsSeparator(t: string) {
    IsImageTag(t) || (|t| == 1 && IsSeparatorChar(t[0]))
  }

  /**
   * The split loop of `String.prototype.split` with a capturing regular
   * expression: `p` starts the current piece, `q` is where the next match
   * is tried. Each match closes the piece before it and contributes its
   * captured text; the piece after the last match closes the list.
   */
  function SplitFrom(s: string, p: nat, q: nat): (parts: seq<string>)
    requires p <= q <= |s|
    decreases |s| - q
  {
    if q == |s| then [s[p..]]
    else
      var n := MatchLength(s, q);
      if n == 0 then SplitFrom(s, p, q + 1)
      else [s[p..q], s[q..q + n]] + SplitFrom(s, q + n, q + n)
  }

  function Split(s: string): seq<string> {
    SplitFrom(s, 0, 0)
  }

  /** Concatenation of the pieces, as `join('')` does. */
  function Concat(parts: seq<string>): string {
    if parts == [] then [] else parts[0] + Concat(parts[1..])
  }

  lemma {:induction false} ConcatAppend(a: seq<string>, b: seq<string>)
    ensures Concat(a + b) == Concat(a) + Concat(b)
  {
    if a == [] {
      assert a + b == b;
    } else {
      assert (a + b)[1..] == a[1..] + b;
      ConcatAppend(a[1..], b);
    }
  }

  /** A match found by the split is a separator. */
  lemma MatchIsSeparator(s: string, q: nat)
    requires q < |s| && MatchLength(s, q) > 0
    ensures IsSeparator(s[q..q + MatchLength(s, q)])
  {
    var n := MatchLength(s, q);
    var t := s[q..q + n];
    if ImageOpensAt(s, q) && CloseBracket(s, q + 7).Some? {
      assert forall k :: 0 <= k < |t| ==> t[k] == s[q + k];
      assert IsImageTag(t);
    }
  }

  /** The pieces put back together give the text from `p` on. */
  lemma {:induction false} SplitFromKeepsText(s: string, p: nat, q: nat)
    requires p <= q <= |s|
    decreases |s| - q
    ensures Concat(SplitFrom(s, p, q)) == s[p..]
  {
    if q == |s| {
      ConcatSingle(s[p..]);
    } else {
      var n := MatchLength(s, q);
      if n == 0 {
        SplitFromKeepsText(s, p, q + 1);
      } else {
        SplitFromKeepsText(s, q + n, q + n);
        MatchKeepsText(s, p, q, n);
      }
    }
  }

  lemma ConcatSingle(a: string)
    ensures Concat([a]) == a
  {
    assert [a][1..] == [];
  }

  /** One match step: the piece before the match, the match, and the rest rejoin to the suffix. */
  lemma MatchKeepsText(s: string, p: nat, q: nat, n: nat)
    requires p <= q < |s| && n == MatchLength(s, q) && n > 0
    requires Concat(SplitFrom(s, q + n, q + n)) == s[q + n..]
    ensures Concat(SplitFrom(s, p, q)) == s[p..]
  {
    var a, b := s[p..q], s[q..q + n];
    var rest := SplitFrom(s, q + n, q + n);
    calc {
      Concat(SplitFrom(s, p, q));
      { SplitFromStep(s, p, q, n); }
      Concat([a, b] + rest);
      { ConcatPair(a, b, rest); }
      a + b + s[q + n..];
      { SliceThree(s, p, q, q + n); }
      s[p..];
    }
  }

  lemma SliceThree(s: string, p: nat, q: nat, r: nat)
    requires p <= q <= r <= |s|
    ensures s[p..] == s[p..q] + s[q..r] + s[r..]
  {
  }

  /** Unfolding the split at a match. */
  lemma SplitFromStep(s: string, p: nat, q: nat, n: nat)
    requires p <= q < |s| && n == MatchLength(s, q) && n > 0
    ensures SplitFrom(s, p, q) == [s[p..q], s[q..q + n]] + SplitFrom(s, q + n, q + n)
  {
  }

  lemma ConcatPair(a: string, b: string, rest: seq<string>)
    ensures Concat([a, b] + rest) == a + b + Concat(rest)
  {
    assert ([a, b] + rest)[1..] == [b] + rest;
    assert ([b] + rest)[1..] == rest;
  }

  /** Every odd-numbered piece is a separator the split matched. */
  lemma {:induction false} SplitFromSeparators(s: string, p: nat, q: nat)
    requires p <= q <= |s|
    decreases |s| - q
    ensures forall i :: 0 <= i < |SplitFrom(s, p, q)| && i % 2 == 1 ==> IsSeparator(SplitFrom(s, p, q)[i])
  {
    if q < |s| {
      var n := MatchLength(s, q);
      if n == 0 {
        SplitFromSeparators(s, p, q + 1);
      } else {
        var parts := SplitFrom(s, p, q);
        var rest := SplitFrom(s, q + n, q + n);
        SplitFromSeparators(s, q + n, q + n);
        MatchIsSeparator(s, q);
        assert parts == [s[p..q], s[q..q + n]] + rest;
        forall i | 0 <= i < |parts| && i % 2 == 1
          ensures IsSeparator(parts[i])
        {
          if i >= 2 {
            assert parts[i] == rest[i - 2];
          }
        }
      }
    }
  }

  /** What one piece becomes on the page. */
  datatype Token =
    | Image(source: string, src: string)   // an `<img>` whose path is the story's folder and the trimmed tag body
    | Word(source: string)                 // a speakable `<span>`
    | Plain(source: string)                // whitespace and punctuation, as is

  /** `/^\[IMAGE:(.*?)\]$/`: the whole piece is an image tag; the lazy body may itself hold `]`. */
  predicate IsWholeImage(part: string) {
    && |part| >= 8
    && ImageOpensAt(part, 0)
    && part[|part| - 1] == ']'
    && forall k :: 7 <= k < |part| - 1 ==> !IsLineTerminator(part[k])
  }

  /** `/[a-zA-Z]/.test(part)` */
  predicate HasAsciiLetter(part: string) {
    exists k :: 0 <= k < |part| && IsAsciiLetter(part[k])
  }

  /** The classification of a non-empty piece. */
  function Classify(part: string, storyPath: string): (t: Token)
    ensures t.source == part
    ensures t.Image? <==> IsWholeImage(part)
    ensures t.Word? <==> !IsWholeImage(part) && HasAsciiLetter(part)
    ensures t.Image? ==> t.src == storyPath + Trim(part[7..|part| - 1])
  {
    if IsWholeImage(part) then Image(part, storyPath + Trim(part[7..|part| - 1]))
    else if HasAsciiLetter(part) then Word(part)
    else Plain(part)
  }

  /** The tokens of the non-empty pieces, in order (an empty piece renders as nothing). */
  function Tokens(parts: seq<string>, storyPath: string): (ts: seq<Token>)
    ensures |ts| <= |parts|
    ensures forall i :: 0 <= i < |ts| ==> ts[i].source != []
  {
    if parts == [] then []
    else if parts[0] == [] then Tokens(parts[1..], storyPath)
    else [Classify(parts[0], storyPath)] + Tokens(parts[1..], storyPath)
  }

  /** The text a token list was made from. */
  function Sources(ts: seq<Token>): string {
    if ts == [] then [] else ts[0].source + Sources(ts[1..])
  }

  lemma {:induction false} TokensKeepText(parts: seq<string>, storyPath: string)
    ensures Sources(Tokens(parts, storyPath)) == Concat(parts)
  {
    if parts != [] {
      TokensKeepText(parts[1..], storyPath);
      var rest := Tokens(parts[1..], storyPath);
      if parts[0] != [] {
        var t := Classify(parts[0], storyPath);
        var ts := [t] + rest;
        assert Tokens(parts, storyPath) == ts;
        assert ts[1..] == rest;
        assert Sources(ts) == t.source + Sources(rest);
      } else {
        assert Tokens(parts, storyPath) == rest;
      }
    }
  }

  /** What the story area shows. */
  datatype StoryView = Prompt | Story(tokens: seq<Token>)

  /** `renderStory()` for the text in the input box and the folder of the loaded story. */
  function RenderStory(text: string, storyPath: string): (v: StoryView)
    ensures v.Prompt? <==> forall k :: 0 <= k < |text| ==> IsWhitespace(text[k])
  {
    if Trim(text) == [] then Prompt else Story(Tokens(Split(text), storyPath))
  }

  /** Rendering loses no character: the tokens spell out the text they came from. */
  lemma RenderedStoryKeepsText(text: string, storyPath: string)
    requires RenderStory(text, storyPath).Story?
    ensures Sources(RenderStory(text, storyPath).tokens) == text
  {
    SplitFromKeepsText(text, 0, 0);
    TokensKeepText(Split(text), storyPath);
  }

  /** Every captured separator is a one-character separator or a well-formed image tag, so it never becomes a word. */
  lemma SeparatorsAreNotWords(text: string, i: nat, storyPath: string)
    requires i < |Split(text)| && i % 2 == 1
    ensures Split(text)[i] != [] && !Classify(Split(text)[i], storyPath).Word?
  {
    SplitFromSeparators(text, 0, 0);
    var t := Split(text)[i];
    if !IsImageTag(t) {
      assert !IsAsciiLetter(t[0]);
    }
  }
}
