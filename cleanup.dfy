/** The clean-up applied to the model's text before `JSON.parse`:
    `text.replace(/```json\s*|\s*```/g, '')`, optionally followed by
    `.replace(/[“”]/g, '"').replace(/[‘’]/g, "'")`,
    and finally `.trim()`. */
module Cleanup {
  import opened Text

  const Fence := "```"
  const JsonFence := "```json"

  /** U+201C and U+201D, left and right double quotation marks. */
  const DoubleQuotes: set<char> := {'\U{201C}', '\U{201D}'}
  /** U+2018 and U+2019, left and right single quotation marks. */
  const SingleQuotes: set<char> := {'\U{2018}', '\U{2019}'}

  predicate IsSmartQuote(c: char)
  {
    c in DoubleQuotes || c in SingleQuotes
  }

  /** The length of the match of `/```json\s*|\s*```/` that starts at the
      front of `s`, or 0 when neither alternative matches there. The first
      alternative is tried first and its `\s*` is greedy; in the second, the
      greedy `\s*` can only be followed by a backtick after the whole
      whitespace run, so backtracking never finds a shorter match. */
  function MatchAt(s: string): (n: nat)
    ensures n <= |s|
    ensures n == 0 || n >= 3
    ensures '`' !in s ==> n == 0
  {
    if StartsWith(s, JsonFence) then
      assert s[0] == JsonFence[0];
      7 + LeadingSpaces(s[7..])
    else if StartsWith(s[LeadingSpaces(s)..], Fence) then
      assert s[LeadingSpaces(s)] == Fence[0];
      LeadingSpaces(s) + 3
    else 0
  }

  /** The global replace with `''`: matches are found left to right, do not
      overlap, and only the matched markers are deleted. */
  function StripFences(s: string): (r: string)
    ensures |r| <= |s|
    decreases |s|
  {
    if |s| == 0 then ""
    else
      var n := MatchAt(s);
      if n > 0 then StripFences(s[n..]) else [s[0]] + StripFences(s[1..])
  }

  /** Stripping only deletes characters: whatever it leaves was in its input. */
  lemma {:induction false} StripFencesChars(s: string, c: char)
    requires c in StripFences(s)
    ensures c in s
    decreases |s|
  {
    var n := MatchAt(s);
    if n > 0 {
      StripFencesChars(s[n..], c);
    } else if c != s[0] {
      assert StripFences(s) == [s[0]] + StripFences(s[1..]);
      StripFencesChars(s[1..], c);
    }
  }

  /** A text without a backtick contains no marker and is left as it is. */
  lemma {:induction false} StripFencesNoBacktick(s: string)
    requires '`' !in s
    ensures StripFences(s) == s
    decreases |s|
  {
    if |s| > 0 {
      assert MatchAt(s) == 0;
      assert '`' !in s[1..];
      StripFencesNoBacktick(s[1..]);
      assert s == [s[0]] + s[1..];
    }
  }

  /** `s.replace(/[...]/g, replacement)`: every character of `targets` becomes `replacement`. */
  function ReplaceChars(s: string, targets: set<char>, replacement: char): (r: string)
    ensures |r| == |s|
    ensures forall i :: 0 <= i < |s| ==> r[i] == if s[i] in targets then replacement else s[i]
  {
    if |s| == 0 then ""
    else [if s[0] in targets then replacement else s[0]] + ReplaceChars(s[1..], targets, replacement)
  }

  /** The two smart-quote replacements, in source order. */
  function MapQuotes(s: string): (r: string)
    ensures |r| == |s|
  {
    ReplaceChars(ReplaceChars(s, DoubleQuotes, '"'), SingleQuotes, '\'')
  }

  /** The whole clean-up chain; `mapQuotes` selects the variant with the
      smart-quote replacements. */
  function Clean(raw: string, mapQuotes: bool): (r: string)
  {
    if mapQuotes then Trim(MapQuotes(StripFences(raw))) else Trim(StripFences(raw))
  }

  /** The quote mapping leaves a text without smart quotes unchanged. */
  lemma MapQuotesNoQuotes(s: string)
    requires forall i :: 0 <= i < |s| ==> !IsSmartQuote(s[i])
    ensures MapQuotes(s) == s
  {
  }

  /** With the quote mapping, no smart quotation mark survives the clean-up. */
  lemma NoSmartQuotesAfterClean(raw: string)
    ensures forall i :: 0 <= i < |Clean(raw, true)| ==> !IsSmartQuote(Clean(raw, true)[i])
  {
    var m := MapQuotes(StripFences(raw));
    assert forall k :: 0 <= k < |m| ==> !IsSmartQuote(m[k]);
    forall i | 0 <= i < |Clean(raw, true)| ensures !IsSmartQuote(Clean(raw, true)[i]) {
      TrimChars(m, Clean(raw, true)[i]);
    }
  }

  /** Without a backtick in the input, the clean-up is the quote mapping
      followed by trimming, or trimming alone. */
  lemma CleanWithoutBackticks(raw: string)
    requires '`' !in raw
    ensures Clean(raw, true) == Trim(MapQuotes(raw))
    ensures Clean(raw, false) == Trim(raw)
  {
    StripFencesNoBacktick(raw);
  }

  /** The quote mapping works character by character: double smart quotes
      become '"', single smart quotes become '\'', all else is kept. */
  lemma MapQuotesChars(s: string)
    ensures |MapQuotes(s)| == |s|
    ensures forall i :: 0 <= i < |s| ==>
      MapQuotes(s)[i] == (if s[i] in DoubleQuotes then '"' else if s[i] in SingleQuotes then '\'' else s[i])
  {
    var d := ReplaceChars(s, DoubleQuotes, '"');
    assert forall i :: 0 <= i < |s| ==> d[i] == if s[i] in DoubleQuotes then '"' else s[i];
  }

  /** The clean-up never makes its input longer. */
  lemma CleanShrinks(raw: string, mapQuotes: bool)
    ensures |Clean(raw, mapQuotes)| <= |raw|
  {
  }

  /** Only fence markers are deleted: text up to a closing marker (and the
      whitespace in front of that marker) is kept as it is, and stripping
      resumes after the marker. A closing marker directly followed by
      `json` would be read as an opening marker instead, hence the last
      requirement. */
  lemma {:induction false} MarkersOnlyRemoved(t: string, w: string, rest: string)
    requires '`' !in t
    requires t == [] || !IsSpace(t[|t| - 1])
    requires AllSpace(w)
    requires |w| > 0 || !StartsWith(rest, "json")
    ensures StripFences(t + (w + (Fence + rest))) == t + StripFences(rest)
    decreases |t|
  {
    if |t| == 0 {
      assert t + (w + (Fence + rest)) == w + (Fence + rest);
      ClosingStrip(w, rest);
    } else {
      BodyTail(t);
      MarkersOnlyRemoved(t[1..], w, rest);
      BodyStep(t, w + (Fence + rest), StripFences(rest));
    }
  }

  /** The tail of a body without backticks that ends in a non-space character is such a body too. */
  lemma BodyTail(t: string)
    requires |t| > 0 && '`' !in t && !IsSpace(t[|t| - 1])
    ensures '`' !in t[1..] && (t[1..] == [] || !IsSpace(t[1..][|t[1..]| - 1]))
  {
    forall i | 0 <= i < |t[1..]| ensures t[1..][i] != '`' { assert t[1..][i] == t[i + 1]; }
  }

  /** A closing marker and the whitespace before it are deleted as one match. */
  lemma ClosingStrip(w: string, rest: string)
    requires AllSpace(w)
    requires |w| > 0 || !StartsWith(rest, "json")
    ensures StripFences(w + (Fence + rest)) == StripFences(rest)
  {
    ClosingMarker(w, rest);
    StripMatched(w + (Fence + rest));
    DropTwo(w, Fence, rest);
  }

  /** One step of the global replace at a match. */
  lemma StripMatched(s: string)
    requires MatchAt(s) > 0
    ensures StripFences(s) == StripFences(s[MatchAt(s)..])
  {
  }

  /** One step of the global replace where nothing matches: the character is copied. */
  lemma StripCopies(t: string, u: string)
    requires |t| > 0 && MatchAt(t + u) == 0
    ensures StripFences(t + u) == [t[0]] + StripFences(t[1..] + u)
  {
    assert (t + u)[1..] == t[1..] + u;
  }

  /** Inside a body without backticks, stripping copies the current character. */
  lemma BodyStep(t: string, u: string, tail: string)
    requires |t| > 0 && '`' !in t && !IsSpace(t[|t| - 1])
    requires StripFences(t[1..] + u) == t[1..] + tail
    ensures StripFences(t + u) == t + tail
  {
    BodyDoesNotMatch(t, u);
    StripCopies(t, u);
    ConsTail(t, tail);
  }

  lemma ConsTail(t: string, tail: string)
    requires |t| > 0
    ensures [t[0]] + (t[1..] + tail) == t + tail
  {
    assert t == [t[0]] + t[1..];
  }

  /** Whitespace and a closing marker form one match of the second alternative. */
  lemma ClosingMarker(w: string, rest: string)
    requires AllSpace(w)
    requires |w| > 0 || !StartsWith(rest, "json")
    ensures MatchAt(w + (Fence + rest)) == |w| + 3
  {
    var s := w + (Fence + rest);
    SpaceRunBeforeFence(w, Fence + rest);
    assert s[|w|..] == Fence + rest;
    assert s[|w|..][..3] == Fence;
    if |w| > 0 {
      assert s[0] == w[0];
      assert s[0] != JsonFence[0];
    } else {
      assert s == Fence + rest;
      assert |s| >= 7 ==> s[..7][3..] == rest[..4];
      assert JsonFence[3..] == "json";
    }
  }

  /** At a position inside a body without backticks that ends in a non-space character, nothing matches. */
  lemma BodyDoesNotMatch(t: string, u: string)
    requires |t| > 0 && '`' !in t && !IsSpace(t[|t| - 1])
    ensures MatchAt(t + u) == 0
  {
    var s := t + u;
    assert s[0] == t[0];
    assert s[0] != JsonFence[0];
    SpaceRunInside(t, u);
    var k := LeadingSpaces(s);
    assert s[k] == t[k];
    assert s[k..][0] == s[k];
  }

  /** An all-whitespace prefix followed by a backtick is exactly the leading whitespace run. */
  lemma SpaceRunBeforeFence(w: string, u: string)
    requires AllSpace(w)
    requires |u| > 0 && u[0] == '`'
    ensures LeadingSpaces(w + u) == |w|
    decreases |w|
  {
    if |w| > 0 {
      assert (w + u)[1..] == w[1..] + u;
      SpaceRunBeforeFence(w[1..], u);
    } else {
      assert w + u == u;
    }
  }

  /** When `t` ends in a non-space character, the leading whitespace run of `t + u` stays inside `t`. */
  lemma SpaceRunInside(t: string, u: string)
    requires |t| > 0 && !IsSpace(t[|t| - 1])
    ensures LeadingSpaces(t + u) < |t|
    decreases |t|
  {
    if IsSpace(t[0]) {
      assert |t| > 1;
      assert (t + u)[1..] == t[1..] + u;
      SpaceRunInside(t[1..], u);
    }
  }

  /** A single fenced block: an opening "```json" marker, whitespace, a body
      without backticks or smart quotes that neither starts nor ends with
      whitespace, whitespace and a closing marker clean to exactly the body. */
  lemma FencedBlock(w1: string, body: string, w2: string, mapQuotes: bool)
    requires AllSpace(w1) && AllSpace(w2)
    requires '`' !in body
    requires body == [] || (!IsSpace(body[0]) && !IsSpace(body[|body| - 1]))
    requires forall i :: 0 <= i < |body| ==> !IsSmartQuote(body[i])
    ensures Clean(JsonFence + (w1 + (body + (w2 + Fence))), mapQuotes) == body
  {
    StripFencedBlock(w1, body, w2);
    CleanOfStripped(JsonFence + (w1 + (body + (w2 + Fence))), body, mapQuotes);
  }

  /** Stripping a single fenced block leaves exactly its body. */
  lemma StripFencedBlock(w1: string, body: string, w2: string)
    requires AllSpace(w1) && AllSpace(w2)
    requires '`' !in body
    requires body == [] || (!IsSpace(body[0]) && !IsSpace(body[|body| - 1]))
    ensures StripFences(JsonFence + (w1 + (body + (w2 + Fence)))) == body
  {
    if body == [] {
      assert body + (w2 + Fence) == w2 + Fence;
      StripEmptyBlock(w1, w2);
    } else {
      StripOpened(w1, body + (w2 + Fence));
      MarkersClose(body, w2);
    }
  }

  /** With an empty body the opening marker's whitespace run reaches the closing marker. */
  lemma StripEmptyBlock(w1: string, w2: string)
    requires AllSpace(w1) && AllSpace(w2)
    ensures StripFences(JsonFence + (w1 + (w2 + Fence))) == ""
  {
    assert w1 + (w2 + Fence) == (w1 + w2) + Fence;
    StripOpened(w1 + w2, Fence);
    StripFenceAlone();
  }

  /** A body followed by whitespace and a final closing marker strips to the body. */
  lemma MarkersClose(t: string, w: string)
    requires '`' !in t
    requires |t| > 0 && !IsSpace(t[|t| - 1])
    requires AllSpace(w)
    ensures StripFences(t + (w + Fence)) == t
  {
    assert Fence + "" == Fence;
    MarkersOnlyRemoved(t, w, "");
    assert t + StripFences("") == t;
  }

  /** An opening marker and the whitespace after it are deleted as one match. */
  lemma StripOpened(w: string, u: string)
    requires AllSpace(w)
    requires |u| > 0 && (u[0] == '`' || !IsSpace(u[0]))
    ensures StripFences(JsonFence + (w + u)) == StripFences(u)
  {
    var s := JsonFence + (w + u);
    OpeningMarker(w, u);
    StripMatched(s);
    DropTwo(JsonFence, w, u);
  }

  lemma DropTwo(a: string, b: string, c: string)
    ensures (a + (b + c))[|a| + |b|..] == c
  {
  }

  /** Once stripping has left a text without smart quotes and without
      surrounding whitespace, the rest of the chain leaves it unchanged. */
  lemma CleanOfStripped(s: string, x: string, mapQuotes: bool)
    requires StripFences(s) == x
    requires x == [] || (!IsSpace(x[0]) && !IsSpace(x[|x| - 1]))
    requires forall i :: 0 <= i < |x| ==> !IsSmartQuote(x[i])
    ensures Clean(s, mapQuotes) == x
  {
    MapQuotesNoQuotes(x);
    TrimNoop(x);
  }

  /** An opening "```json" marker takes the whitespace run that follows it. */
  lemma OpeningMarker(w: string, u: string)
    requires AllSpace(w)
    requires |u| > 0 && (u[0] == '`' || !IsSpace(u[0]))
    ensures MatchAt(JsonFence + (w + u)) == 7 + |w|
  {
    var s := JsonFence + (w + u);
    assert s[..7] == JsonFence;
    assert s[7..] == w + u;
    if u[0] == '`' { SpaceRunBeforeFence(w, u); } else { NonSpaceAfterRun(w, u); }
  }

  /** An all-whitespace prefix followed by a non-space character is exactly the leading whitespace run. */
  lemma NonSpaceAfterRun(w: string, u: string)
    requires AllSpace(w)
    requires |u| > 0 && !IsSpace(u[0])
    ensures LeadingSpaces(w + u) == |w|
    decreases |w|
  {
    if |w| > 0 {
      assert (w + u)[1..] == w[1..] + u;
      NonSpaceAfterRun(w[1..], u);
    } else {
      assert w + u == u;
    }
  }

  /** "```json\n{\"a\":1}\n```" cleans to {"a":1}. */
  lemma FencedJsonExample()
    ensures Clean("```json\n{\"a\":1}\n```", true) == "{\"a\":1}"
    ensures Clean("```json\n{\"a\":1}\n```", false) == "{\"a\":1}"
  {
    var body := "{\"a\":1}";
    assert "```json\n{\"a\":1}\n```" == JsonFence + ("\n" + (body + ("\n" + Fence)));
    FencedBlock("\n", body, "\n", true);
    FencedBlock("\n", body, "\n", false);
  }

  /** Whitespace in front of an opening fence lets the second alternative
      match first: the marker and the whitespace go, the tag after it stays. */
  lemma TagSurvivesAfterWhitespace(w: string, body: string, mapQuotes: bool)
    requires |w| > 0 && AllSpace(w)
    requires '`' !in body
    requires body == [] || !IsSpace(body[|body| - 1])
    requires forall i :: 0 <= i < |body| ==> !IsSmartQuote(body[i])
    ensures Clean(w + (JsonFence + body), mapQuotes) == "json" + body
  {
    StripTag(w, body);
    TagHasNoQuotes(body);
    CleanOfStripped(w + (JsonFence + body), "json" + body, mapQuotes);
  }

  lemma StripTag(w: string, body: string)
    requires |w| > 0 && AllSpace(w)
    requires '`' !in body
    ensures StripFences(w + (JsonFence + body)) == "json" + body
  {
    var x := "json" + body;
    assert JsonFence == Fence + "json";
    assert JsonFence + body == Fence + x;
    ClosingStrip(w, x);
    TagHasNoBacktick(body);
    StripFencesNoBacktick(x);
  }

  lemma TagHasNoBacktick(body: string)
    requires '`' !in body
    ensures '`' !in "json" + body
  {
  }

  lemma TagHasNoQuotes(body: string)
    requires forall i :: 0 <= i < |body| ==> !IsSmartQuote(body[i])
    ensures forall i :: 0 <= i < |"json" + body| ==> !IsSmartQuote(("json" + body)[i])
  {
    var x := "json" + body;
    forall i | 0 <= i < |x| ensures !IsSmartQuote(x[i]) {
      if i >= 4 { assert x[i] == body[i - 4]; }
    }
  }

  /** "\n```json\n{}" cleans to "json\n{}": the tag survives. */
  lemma LeadingWhitespaceExample()
    ensures Clean("\n" + (JsonFence + "\n{}"), true) == "json" + "\n{}"
  {
    TagSurvivesAfterWhitespace("\n", "\n{}", true);
  }

  /** A string shorter than a marker contains no match. */
  lemma {:induction false} StripFencesShort(s: string)
    requires |s| < 3
    ensures StripFences(s) == s
    decreases |s|
  {
    if |s| > 0 {
      StripFencesShort(s[1..]);
      assert s == [s[0]] + s[1..];
    }
  }

  /** A lone backtick followed by whitespace is not the start of a match. */
  lemma LoneBacktick(x: string)
    requires |x| > 0 && IsSpace(x[0])
    ensures MatchAt("`" + x) == 0
  {
    var s := "`" + x;
    assert s[1] == x[0];
    assert !StartsWith(s, JsonFence) by { assert |s| >= 7 ==> s[..7][1] == x[0]; }
    assert LeadingSpaces(s) == 0;
    assert !StartsWith(s, Fence) by { assert |s| >= 3 ==> s[..3][1] == x[0]; }
  }

  /** The clean-up is not idempotent: a lone backtick, whitespace, five
      backticks. The first pass deletes the whitespace and the first three of
      the five backticks, and the lone backtick joins the two left over into
      a new marker, which the second pass deletes. */
  lemma CleanNotIdempotent(w: string)
    requires |w| > 0 && AllSpace(w)
    ensures Clean("`" + (w + (Fence + "``")), true) == Fence
    ensures Clean(Clean("`" + (w + (Fence + "``")), true), true) == ""
  {
    CleanOnce(w);
    CleanFenceAlone();
  }

  lemma CleanOnce(w: string)
    requires |w| > 0 && AllSpace(w)
    ensures Clean("`" + (w + (Fence + "``")), true) == Fence
  {
    StripOnce(w);
    FencePlain();
    CleanOfStripped("`" + (w + (Fence + "``")), Fence, true);
  }

  lemma FencePlain()
    ensures !IsSpace(Fence[0]) && !IsSpace(Fence[|Fence| - 1])
    ensures forall i :: 0 <= i < |Fence| ==> !IsSmartQuote(Fence[i])
  {
  }

  /** A bare marker cleans to the empty string. */
  lemma CleanFenceAlone()
    ensures Clean(Fence, true) == ""
  {
    StripFenceAlone();
    CleanOfStripped(Fence, "", true);
  }

  /** The instance "` \n`````": it cleans to "```", and that cleans to "". */
  lemma CleanNotIdempotentExample()
    ensures Clean("`" + (" \n" + (Fence + "``")), true) == Fence
    ensures Clean(Clean("`" + (" \n" + (Fence + "``")), true), true) == ""
  {
    CleanNotIdempotent(" \n");
  }

  lemma StripOnce(w: string)
    requires |w| > 0 && AllSpace(w)
    ensures StripFences("`" + (w + (Fence + "``"))) == Fence
  {
    var x := w + (Fence + "``");
    LoneBacktick(x);
    StripCopies("`", x);
    assert "`"[1..] + x == x;
    ClosingStrip(w, "``");
    StripFencesShort("``");
    assert "`" + "``" == Fence;
  }

  lemma StripFenceAlone()
    ensures StripFences(Fence) == ""
  {
    assert Fence == "" + (Fence + "");
    ClosingStrip("", "");
  }

  /** Without the quote mapping a smart quote passes through the clean-up. */
  lemma SmartQuoteSurvivesFenceOnlyClean()
    ensures Clean("{\U{201C}a\U{201D}:1}", false) == "{\U{201C}a\U{201D}:1}"
  {
    SmartQuoteFenceOnly("{\U{201C}a\U{201D}:1}");
  }

  lemma SmartQuoteFenceOnly(s: string)
    requires '`' !in s
    requires |s| > 0 && !IsSpace(s[0]) && !IsSpace(s[|s| - 1])
    ensures Clean(s, false) == s
  {
    StripFencesNoBacktick(s);
    TrimNoop(s);
  }
}
