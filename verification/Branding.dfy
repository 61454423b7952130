/** Branding of the page title: HTML escaping and the title rewrite that relies on it. */
module Branding {
  import opened Collections
  import opened Strings

  // ---- Escaping ----

  function EscapeChar(c: char): (r: string)
    ensures r != ""
  {
    match c
    case '&' => "&amp;"
    case '<' => "&lt;"
    case '>' => "&gt;"
    case '\"' => "&quot;"
    case '\'' => "&#39;"
    case _ => [c]
  }

  function Escape(s: string): (r: string)
    ensures '<' !in r && '>' !in r && '\"' !in r && '\'' !in r
  {
    if s == "" then "" else EscapeChar(s[0]) + Escape(s[1..])
  }

  /** Reading one character back: the character and how many escaped characters it took. */
  function ReadChar(s: string): (char, nat)
    requires s != ""
  {
    if "&amp;" <= s then ('&', 5)
    else if "&lt;" <= s then ('<', 4)
    else if "&gt;" <= s then ('>', 4)
    else if "&quot;" <= s then ('\"', 6)
    else if "&#39;" <= s then ('\'', 5)
    else (s[0], 1)
  }

  function Unescape(s: string): string {
    if s == "" then "" else [ReadChar(s).0] + Unescape(s[ReadChar(s).1..])
  }

  lemma {:induction false} ReadsEscapedChar(c: char, rest: string)
    ensures ReadChar(EscapeChar(c) + rest) == (c, |EscapeChar(c)|)
  {
    var s := EscapeChar(c) + rest;
    assert s[0] == EscapeChar(c)[0];
    if c == '&' {
      assert "&amp;" <= s;
    } else if c == '<' {
      assert s[1] == 'l' && "&lt;" <= s;
    } else if c == '>' {
      assert s[1] == 'g' && "&gt;" <= s;
    } else if c == '\"' {
      assert s[1] == 'q' && "&quot;" <= s;
    } else if c == '\'' {
      assert s[1] == '#' && "&#39;" <= s;
    }
  }

  /** Escaping loses nothing. */
  lemma {:induction false} EscapeInvertible(s: string)
    ensures Unescape(Escape(s)) == s
  {
    if s != "" {
      ReadsEscapedChar(s[0], Escape(s[1..]));
      assert Escape(s)[|EscapeChar(s[0])|..] == Escape(s[1..]);
      EscapeInvertible(s[1..]);
      assert s == [s[0]] + s[1..];
    }
  }

  // ---- Finding the title ----

  const OPEN := "<title>"
  const CLOSE := "</title>"

  function Lower(c: char): char {
    if 'A' <= c <= 'Z' then c + 32 as char else c
  }

  /** Whether `word` stands at position i, in any case. */
  predicate WordAt(s: string, i: nat, word: string) {
    i + |word| <= |s| && forall k :: 0 <= k < |word| ==> Lower(s[i + k]) == word[k]
  }

  /** A match from i whose closing tag stands at j: no `<` in between. */
  predicate TitleAt(s: string, i: nat, j: nat) {
    && WordAt(s, i, OPEN)
    && i + |OPEN| <= j
    && WordAt(s, j, CLOSE)
    && forall k :: i + |OPEN| <= k < j ==> s[k] != '<'
  }

  /** `c` is the lower-case letter `l` or its capital. */
  predicate Either(c: char, l: char)
    requires 'a' <= l <= 'z'
  {
    c == l || c as int == l as int - 32
  }

  /** The tags, letter by letter. */
  lemma {:induction false} TagsExactly(s: string, i: nat)
    ensures WordAt(s, i, OPEN) <==>
      && i + 7 <= |s| && s[i] == '<' && Either(s[i + 1], 't') && Either(s[i + 2], 'i') && Either(s[i + 3], 't')
      && Either(s[i + 4], 'l') && Either(s[i + 5], 'e') && s[i + 6] == '>'
    ensures WordAt(s, i, CLOSE) <==>
      && i + 8 <= |s| && s[i] == '<' && s[i + 1] == '/' && Either(s[i + 2], 't') && Either(s[i + 3], 'i')
      && Either(s[i + 4], 't') && Either(s[i + 5], 'l') && Either(s[i + 6], 'e') && s[i + 7] == '>'
  {
    assert OPEN[0] == '<' && OPEN[1] == 't' && OPEN[2] == 'i' && OPEN[3] == 't' && OPEN[4] == 'l' && OPEN[5] == 'e'
        && OPEN[6] == '>' && |OPEN| == 7;
    assert CLOSE[0] == '<' && CLOSE[1] == '/' && CLOSE[2] == 't' && CLOSE[3] == 'i' && CLOSE[4] == 't'
        && CLOSE[5] == 'l' && CLOSE[6] == 'e' && CLOSE[7] == '>' && |CLOSE| == 8;
    WordSteps(s, i, OPEN);
    WordSteps(s, i, CLOSE);
  }

  lemma {:induction false} WordSteps(s: string, i: nat, word: string)
    ensures WordAt(s, i, word) <==> i + |word| <= |s| && forall k :: i <= k < i + |word| ==> Lower(s[k]) == word[k - i]
  {
    if WordAt(s, i, word) {
      forall k | i <= k < i + |word| ensures Lower(s[k]) == word[k - i] {
        assert s[i + (k - i)] == s[k];
      }
    }
  }

  lemma {:induction false} WordStart(s: string, i: nat, word: string)
    requires WordAt(s, i, word) && word != "" && word[0] == '<'
    ensures i < |s| && s[i] == '<'
  {
    assert Lower(s[i + 0]) == word[0];
  }

  /** The closing tag of a match stands at the first `<` after the opening tag. */
  lemma {:induction false} ClosesAtFirst(s: string, i: nat, j: nat)
    requires TitleAt(s, i, j)
    ensures i + |OPEN| <= |s| && Find(s[i + |OPEN|..], '<') == Some(j - i - |OPEN|)
  {
    WordStart(s, j, CLOSE);
    var inside := s[i + |OPEN|..j];
    assert '<' !in inside;
    assert s[i + |OPEN|..] == inside + ['<'] + s[j + 1..];
    FindAfter(inside, '<', s[j + 1..]);
  }

  /** Where the closing tag of a match from i stands. */
  function CloseOf(s: string, i: nat): (r: Option<nat>)
    ensures r.Some? ==> TitleAt(s, i, r.value)
    ensures r.None? ==> forall j :: !TitleAt(s, i, j)
  {
    assert forall j: nat :: TitleAt(s, i, j) ==>
      i + |OPEN| <= |s| && Find(s[i + |OPEN|..], '<') == Some(j - i - |OPEN|)
    by {
      forall j: nat | TitleAt(s, i, j)
        ensures i + |OPEN| <= |s| && Find(s[i + |OPEN|..], '<') == Some(j - i - |OPEN|)
      {
        ClosesAtFirst(s, i, j);
      }
    }
    if !WordAt(s, i, OPEN) then None
    else
      var at := Find(s[i + |OPEN|..], '<');
      if at.None? then None
      else
        var j := i + |OPEN| + at.value;
        assert forall k :: i + |OPEN| <= k < j ==> s[k] == s[i + |OPEN|..][..at.value][k - i - |OPEN|];
        if WordAt(s, j, CLOSE) then Some(j) else None
  }

  /** The leftmost match at or after i. */
  function TitleFrom(s: string, i: nat): (r: Option<(nat, nat)>)
    requires i <= |s|
    ensures r.Some? ==> i <= r.value.0 && TitleAt(s, r.value.0, r.value.1)
    ensures r.Some? ==> forall k, j :: i <= k < r.value.0 ==> !TitleAt(s, k, j)
    ensures r.None? ==> forall k, j :: i <= k ==> !TitleAt(s, k, j)
    decreases |s| - i
  {
    hide TitleAt, CloseOf;
    if CloseOf(s, i).Some? then Some((i, CloseOf(s, i).value))
    else if i == |s| then None
    else TitleFrom(s, i + 1)
  }

  // ---- Replacing it ----

  /** The special forms of a replacement string: $$, $&, $` and $'. */
  predicate Special(c: char) {
    c == '$' || c == '&' || c == '`' || c == '\''
  }

  /** A replacement string expanded for a match between `before` and `after`. */
  function Expand(t: string, before: string, matched: string, after: string): string {
    if t == "" then ""
    else if t[0] == '$' && |t| >= 2 && Special(t[1]) then
      (match t[1]
       case '$' => "$"
       case '&' => matched
       case '`' => before
       case _ => after) + Expand(t[2..], before, matched, after)
    else [t[0]] + Expand(t[1..], before, matched, after)
  }

  /** What each pattern becomes, wherever it stands after text without a `$`; other text stays. */
  lemma {:induction false} PatternsExactly(prefix: string, c: char, rest: string, before: string, matched: string,
                                           after: string)
    requires '$' !in prefix
    ensures var tail := Expand(rest, before, matched, after);
      Expand(prefix + (['$', c] + rest), before, matched, after) == prefix +
        match c
        case '$' => "$" + tail
        case '&' => matched + tail
        case '`' => before + tail
        case '\'' => after + tail
        case _ => "$" + Expand([c] + rest, before, matched, after)
  {
    SkipsPlain(prefix, ['$', c] + rest, before, matched, after);
    assert (['$', c] + rest)[2..] == rest && (['$', c] + rest)[1..] == [c] + rest;
  }

  lemma {:induction false} SkipsPlain(prefix: string, rest: string, before: string, matched: string, after: string)
    requires '$' !in prefix
    ensures Expand(prefix + rest, before, matched, after) == prefix + Expand(rest, before, matched, after)
  {
    if prefix == "" {
      assert prefix + rest == rest;
    } else {
      assert (prefix + rest)[1..] == prefix[1..] + rest;
      SkipsPlain(prefix[1..], rest, before, matched, after);
    }
  }

  const SUFFIX := " - AI API Gateway"

  function Caption(siteName: string): string {
    Escape(siteName) + SUFFIX
  }

  function Template(siteName: string): string {
    OPEN + Caption(siteName) + CLOSE
  }

  /** The title step of `injectBranding` for a trimmed site name; an empty name changes nothing. */
  function BrandTitle(html: string, siteName: string): (r: string)
    ensures siteName == "" ==> r == html
    ensures TitleFrom(html, 0).None? ==> r == html
  {
    var m := TitleFrom(html, 0);
    if siteName == "" || m.None? then html
    else
      var a, b := m.value.0, m.value.1 + |CLOSE|;
      html[..a] + Expand(Template(siteName), html[..a], html[a..b], html[b..]) + html[b..]
  }

  /** No `$` stands before a character that makes it special, escaped or not. */
  predicate PlainName(s: string) {
    forall i :: 0 <= i < |s| - 1 && s[i] == '$' ==> !Special(EscapeChar(s[i + 1])[0])
  }

  predicate PlainTemplate(t: string) {
    forall i :: 0 <= i < |t| - 1 && t[i] == '$' ==> !Special(t[i + 1])
  }

  lemma {:induction false} ExpandPlain(t: string, before: string, matched: string, after: string)
    requires PlainTemplate(t)
    ensures Expand(t, before, matched, after) == t
  {
    if t != "" {
      assert PlainTemplate(t[1..]) by {
        forall i | 0 <= i < |t| - 2 && t[1..][i] == '$' ensures !Special(t[1..][i + 1]) {
          assert t[i + 1] == '$';
        }
      }
      assert t[0] == '$' && |t| >= 2 ==> !Special(t[0 + 1]);
      ExpandPlain(t[1..], before, matched, after);
    }
  }

  lemma {:induction false} EscapeAppend(s: string, t: string)
    ensures Escape(s + t) == Escape(s) + Escape(t)
  {
    if s == "" {
      assert s + t == t;
    } else {
      assert (s + t)[1..] == s[1..] + t;
      EscapeAppend(s[1..], t);
    }
  }

  predicate Unremarkable(s: string) {
    forall i :: 0 <= i < |s| ==> EscapeChar(s[i]) == [s[i]]
  }

  lemma {:induction false} EscapeUnremarkable(s: string)
    requires Unremarkable(s)
    ensures Escape(s) == s
  {
    if s != "" {
      EscapeUnremarkable(s[1..]);
      assert s == [s[0]] + s[1..];
    }
  }

  lemma {:induction false} SuffixUnremarkable()
    ensures Unremarkable(SUFFIX) && '<' !in SUFFIX
  {
    forall i | 0 <= i < |SUFFIX| ensures EscapeChar(SUFFIX[i]) == [SUFFIX[i]] && SUFFIX[i] != '<' {
      hide EscapeChar;
      assert SUFFIX[i] == ' ' || SUFFIX[i] == '-' || 'A' <= SUFFIX[i] <= 'z';
      PlainChar(SUFFIX[i]);
    }
  }

  lemma {:induction false} PlainChar(c: char)
    requires c == ' ' || c == '-' || 'A' <= c <= 'z'
    ensures EscapeChar(c) == [c] && c != '<'
  {
  }

  lemma {:induction false} SuffixIs()
    ensures SUFFIX == " - AI API Gateway"
  {
  }

  /** The caption decodes to the site name followed by the product name. */
  lemma {:induction false} CaptionDecodes(siteName: string)
    ensures Unescape(Caption(siteName)) == siteName + SUFFIX
    ensures '<' !in Caption(siteName)
  {
    hide Unescape, Unremarkable, SUFFIX;
    SuffixUnremarkable();
    EscapeUnremarkable(SUFFIX);
    EscapeAppend(siteName, SUFFIX);
    EscapeInvertible(siteName + SUFFIX);
  }

  lemma {:induction false} PlainEscape(s: string, i: nat)
    requires PlainName(s) && i + 1 < |Escape(s)| && Escape(s)[i] == '$'
    ensures !Special(Escape(s)[i + 1])
  {
    var first := EscapeChar(s[0]);
    var rest := Escape(s[1..]);
    assert PlainName(s[1..]) by {
      forall k | 0 <= k < |s| - 2 && s[1..][k] == '$' ensures !Special(EscapeChar(s[1..][k + 1])[0]) {
        assert s[k + 1] == '$';
      }
    }
    if i >= |first| {
      PlainEscape(s[1..], i - |first|);
    } else if i + 1 == |first| {
      assert first == "$" && s[0] == '$';
      assert rest[0] == EscapeChar(s[1])[0];
      assert !Special(EscapeChar(s[0 + 1])[0]);
    }
  }

  lemma {:induction false} SpaceIsPlain()
    ensures !Special(' ') && SUFFIX[0] == ' ' && '$' !in SUFFIX && '$' !in OPEN && '$' !in CLOSE
  {
  }

  lemma {:induction false} PlainNamePlainTemplate(siteName: string)
    requires PlainName(siteName)
    ensures PlainTemplate(Template(siteName))
  {
    hide Escape, PlainName, Special;
    var e, t := Escape(siteName), Template(siteName);
    SpaceIsPlain();
    forall i | 0 <= i < |t| - 1 && t[i] == '$' ensures !Special(t[i + 1]) {
      assert |OPEN| <= i < |OPEN| + |e|;
      assert e[i - |OPEN|] == '$';
      if i + 1 < |OPEN| + |e| {
        PlainEscape(siteName, i - |OPEN|);
        assert t[i + 1] == e[i - |OPEN| + 1];
      } else {
        assert t[i + 1] == ' ';
      }
    }
  }

  // ---- What the title step does ----

  lemma {:induction false} TitleEnds(s: string, i: nat, j: nat)
    requires TitleAt(s, i, j)
    ensures i + |OPEN| <= j <= |s| - |CLOSE|
  {
  }

  /** A match depends only on the text up to its end. */
  lemma {:induction false} TitleLocal(s: string, r: string, i: nat, j: nat, n: nat)
    requires TitleAt(s, i, j) && j + |CLOSE| <= n <= |s| && n <= |r| && s[..n] == r[..n]
    ensures TitleAt(r, i, j)
  {
    assert forall k :: 0 <= k < n ==> s[k] == s[..n][k] == r[..n][k] == r[k];
  }

  /** A tag has no `<` but its first character. */
  lemma {:induction false} TagInside(s: string, i: nat, word: string, a: nat)
    requires (word == OPEN || word == CLOSE) && WordAt(s, i, word) && i < a < i + |word|
    ensures s[a] != '<'
  {
    assert Lower(s[i + (a - i)]) == word[a - i];
  }

  lemma {:induction false} OpenIsNotClose(s: string, i: nat)
    requires WordAt(s, i, OPEN)
    ensures !WordAt(s, i, CLOSE)
  {
    assert Lower(s[i + 1]) == OPEN[1];
    assert OPEN[1] != CLOSE[1];
  }

  /** A match that starts before a `<title>` ends before it. */
  lemma {:induction false} TitleStopsBefore(s: string, i: nat, j: nat, a: nat)
    requires TitleAt(s, i, j) && i < a && WordAt(s, a, OPEN)
    ensures j + |CLOSE| <= a
  {
    WordStart(s, a, OPEN);
    OpenIsNotClose(s, a);
    if a < i + |OPEN| {
      TagInside(s, i, OPEN, a);
    } else if j < a < j + |CLOSE| {
      TagInside(s, j, CLOSE, a);
    }
  }

  lemma {:induction false} LeftmostIs(s: string, a: nat, j: nat)
    requires TitleAt(s, a, j)
    requires forall i: nat, k: nat :: i < a ==> !TitleAt(s, i, k)
    ensures TitleFrom(s, 0) == Some((a, j))
  {
    hide TitleFrom, TitleAt, Find;
    var m := TitleFrom(s, 0);
    assert m.Some? && m.value.0 == a;
    ClosesAtFirst(s, a, j);
    ClosesAtFirst(s, a, m.value.1);
  }

  /**
   * For every page with a title and every site name free of replacement patterns: the text around
   * the leftmost title is unchanged, the new title stands at the same place and is again the leftmost
   * one, and its text decodes to the site name and the product name.
   */
  lemma {:induction false} TitleReplaced(html: string, siteName: string)
    requires siteName != "" && PlainName(siteName) && TitleFrom(html, 0).Some?
    ensures var (a, j) := TitleFrom(html, 0).value;
      var r := BrandTitle(html, siteName);
      && r == html[..a] + Template(siteName) + html[j + |CLOSE|..]
      && TitleFrom(r, 0) == Some((a, a + |OPEN| + |Caption(siteName)|))
      && Unescape(r[a + |OPEN|..a + |OPEN| + |Caption(siteName)|]) == siteName + " - AI API Gateway"
  {
    SuffixIs();
    hide *;
    var (a, j) := TitleFrom(html, 0).value;
    ReplacedText(html, siteName);
    var before, c, after := html[..a], Caption(siteName), html[j + |CLOSE|..];
    CaptionDecodes(siteName);
    Placed(before, c, after);
    NewTitle(before + (OPEN + c + CLOSE) + after, a, c);
    LeftmostKept(html, BrandTitle(html, siteName), a, a + |OPEN| + |c|);
  }

  lemma {:induction false} ReplacedText(html: string, siteName: string)
    requires siteName != "" && PlainName(siteName) && TitleFrom(html, 0).Some?
    ensures var (a, j) := TitleFrom(html, 0).value;
      && a + |OPEN| <= j <= |html| - |CLOSE|
      && BrandTitle(html, siteName) == html[..a] + (OPEN + Caption(siteName) + CLOSE) + html[j + |CLOSE|..]
      && Template(siteName) == OPEN + Caption(siteName) + CLOSE
  {
    hide Expand, TitleFrom, PlainName, PlainTemplate, Caption, TitleAt;
    var (a, j) := TitleFrom(html, 0).value;
    TitleEnds(html, a, j);
    PlainNamePlainTemplate(siteName);
    ExpandPlain(Template(siteName), html[..a], html[a..j + |CLOSE|], html[j + |CLOSE|..]);
  }

  /** A title that replaces the leftmost one, with the same text before it, is the leftmost one. */
  lemma {:induction false} LeftmostKept(html: string, r: string, a: nat, close: nat)
    requires TitleFrom(html, 0).Some? && TitleFrom(html, 0).value.0 == a
    requires a <= |html| && a <= |r| && r[..a] == html[..a] && TitleAt(r, a, close)
    ensures TitleFrom(r, 0) == Some((a, close))
  {
    hide TitleFrom;
    forall i: nat, k: nat | i < a ensures !TitleAt(r, i, k) {
      if TitleAt(r, i, k) {
        TitleStopsBefore(r, i, k, a);
        TitleLocal(r, html, i, k, a);
      }
    }
    LeftmostIs(r, a, close);
  }

  lemma {:induction false} Placed(before: string, caption: string, after: string)
    ensures var r, t := before + (OPEN + caption + CLOSE) + after, OPEN + caption + CLOSE;
      && r[..|before|] == before
      && r[|before| + |OPEN|..|before| + |OPEN| + |caption|] == caption
      && forall k :: 0 <= k < |t| ==> r[|before| + k] == t[k]
  {
  }

  lemma {:induction false} NewTitle(r: string, a: nat, caption: string)
    requires '<' !in caption && a + |OPEN| + |caption| + |CLOSE| <= |r|
    requires forall k :: 0 <= k < |OPEN + caption + CLOSE| ==> r[a + k] == (OPEN + caption + CLOSE)[k]
    ensures TitleAt(r, a, a + |OPEN| + |caption|)
  {
    var t := OPEN + caption + CLOSE;
    forall k | 0 <= k < |OPEN| ensures Lower(r[a + k]) == OPEN[k] {
      assert t[k] == OPEN[k];
    }
    var j := a + |OPEN| + |caption|;
    forall k | 0 <= k < |CLOSE| ensures Lower(r[j + k]) == CLOSE[k] {
      assert r[a + (|OPEN| + |caption| + k)] == t[|OPEN| + |caption| + k] == CLOSE[k];
    }
    forall k | a + |OPEN| <= k < j ensures r[k] != '<' {
      assert r[a + (k - a)] == t[k - a] == caption[k - a - |OPEN|];
    }
  }

  /** Branding a branded page again changes nothing. */
  lemma {:induction false} BrandTwice(html: string, siteName: string)
    requires PlainName(siteName)
    ensures BrandTitle(BrandTitle(html, siteName), siteName) == BrandTitle(html, siteName)
  {
    hide Escape, Expand, TitleFrom, PlainName, Caption, Template;
    if siteName != "" && TitleFrom(html, 0).Some? {
      TitleReplaced(html, siteName);
      var r := BrandTitle(html, siteName);
      TitleReplaced(r, siteName);
      var (a, j) := TitleFrom(html, 0).value;
      var t := Template(siteName);
      TemplateSize(siteName);
      assert r[..a] == html[..a];
      assert r[a + |t|..] == html[j + |CLOSE|..];
    }
  }

  lemma {:induction false} TemplateSize(siteName: string)
    ensures |Template(siteName)| == |OPEN| + |Caption(siteName)| + |CLOSE|
  {
  }

  // ---- Site names with replacement patterns ----

  function Count(s: string): nat {
    if s == "" then 0 else (if s[0] == '<' then 1 else 0) + Count(s[1..])
  }

  lemma {:induction false} CountAppend(s: string, t: string)
    ensures Count(s + t) == Count(s) + Count(t)
  {
    if s == "" {
      assert s + t == t;
    } else {
      assert (s + t)[1..] == s[1..] + t;
      CountAppend(s[1..], t);
    }
  }

  /** An expansion with more tags than its template, or shorter, or of a template without patterns. */
  predicate Differs(t: string, e: string) {
    && Count(e) >= Count(t)
    && (Count(e) == Count(t) ==> |e| <= |t|)
    && (Count(e) == Count(t) && |e| == |t| ==> PlainTemplate(t))
  }

  lemma {:induction false} PatternDiffers(t: string, x: string, rest: string)
    requires |t| >= 2 && t[0] == '$' && t[1] != '<' && Differs(t[2..], rest)
    requires Count(x) > 0 || |x| <= 1
    ensures Differs(t, x + rest)
  {
    hide PlainTemplate;
    assert t == [t[0], t[1]] + t[2..];
    CountAppend([t[0], t[1]], t[2..]);
    CountAppend(x, rest);
    assert Count([t[0], t[1]]) == 0 by {
      assert [t[0], t[1]][1..] == [t[1]];
    }
  }

  /** On a page that is nothing but a title, expanding any pattern changes the replacement. */
  lemma {:induction false} ExpandChanges(t: string, matched: string)
    requires Count(matched) > 0
    ensures Differs(t, Expand(t, "", matched, ""))
  {
    if t != "" {
      if t[0] == '$' && |t| >= 2 && Special(t[1]) {
        hide Differs, Count, PlainTemplate;
        ExpandChanges(t[2..], matched);
        var rest := Expand(t[2..], "", matched, "");
        PatternDiffers(t, "$", rest);
        PatternDiffers(t, matched, rest);
        PatternDiffers(t, "", rest);
      } else {
        ExpandChanges(t[1..], matched);
        var rest := Expand(t[1..], "", matched, "");
        assert ([t[0]] + rest)[1..] == rest;
        if PlainTemplate(t[1..]) {
          PlainLonger(t);
        }
      }
    }
  }

  lemma {:induction false} PlainLonger(t: string)
    requires t != "" && PlainTemplate(t[1..]) && !(t[0] == '$' && |t| >= 2 && Special(t[1]))
    ensures PlainTemplate(t)
  {
    forall i | 0 <= i < |t| - 1 && t[i] == '$' ensures !Special(t[i + 1]) {
      if i > 0 {
        assert t[1..][i - 1] == '$';
      }
    }
  }

  lemma {:induction false} PatternEscapes(s: string) returns (k: nat)
    requires !PlainName(s)
    ensures k + 1 < |Escape(s)| && Escape(s)[k] == '$' && Special(Escape(s)[k + 1])
  {
    hide Special;
    if s[0] == '$' && Special(EscapeChar(s[1])[0]) {
      k := 0;
      assert Escape(s[1..])[0] == EscapeChar(s[1])[0];
    } else {
      assert !PlainName(s[1..]) by {
        var i :| 0 <= i < |s| - 1 && s[i] == '$' && Special(EscapeChar(s[i + 1])[0]);
        assert s[1..][i - 1] == s[i] && s[1..][i] == s[i + 1];
      }
      hide PlainName;
      k := PatternEscapes(s[1..]);
      k := k + |EscapeChar(s[0])|;
    }
  }

  /** The leftmost title of the page is replaced by the template as it stands. */
  ghost predicate Verbatim(html: string, siteName: string) {
    TitleFrom(html, 0).Some? ==>
      var (a, j) := TitleFrom(html, 0).value;
      BrandTitle(html, siteName) == html[..a] + Template(siteName) + html[j + |CLOSE|..]
  }

  /** The seven characters that turn a `$` before them into a pattern, themselves or by how they are escaped. */
  predicate Completes(c: char) {
    c == '$' || c == '`' || c == '&' || c == '<' || c == '>' || c == '\"' || c == '\''
  }

  lemma {:induction false} CompletesExactly(c: char)
    ensures Completes(c) <==> Special(EscapeChar(c)[0])
  {
  }

  lemma {:induction false} PlainExactly(s: string)
    ensures PlainName(s) <==> forall i :: 0 <= i < |s| - 1 && s[i] == '$' ==> !Completes(s[i + 1])
  {
    hide Special, EscapeChar, Completes;
    forall c ensures Completes(c) <==> Special(EscapeChar(c)[0]) {
      CompletesExactly(c);
    }
  }

  /** The escaped site name reaches every page unchanged if and only if it contains no replacement pattern. */
  lemma {:induction false} VerbatimExactly(siteName: string)
    requires siteName != ""
    ensures PlainName(siteName) <==> forall html :: Verbatim(html, siteName)
    ensures PlainName(siteName) <==>
      forall i :: 0 <= i < |siteName| - 1 && siteName[i] == '$' ==> !Completes(siteName[i + 1])
  {
    PlainExactly(siteName);
    hide Escape, Unescape, TitleFrom, PlainName, Expand;
    if PlainName(siteName) {
      forall html ensures Verbatim(html, siteName) {
        if TitleFrom(html, 0).Some? {
          TitleReplaced(html, siteName);
        }
      }
    } else {
      PatternShows(siteName);
    }
  }

  const TITLE_ONLY := OPEN + CLOSE

  lemma {:induction false} TitleOnly(siteName: string)
    requires siteName != ""
    ensures TitleFrom(TITLE_ONLY, 0) == Some((0, |OPEN|)) && Count(TITLE_ONLY) > 0
    ensures BrandTitle(TITLE_ONLY, siteName) == Expand(Template(siteName), "", TITLE_ONLY, "")
  {
    hide Escape, TitleFrom, Expand, Template;
    assert OPEN + "" + CLOSE == TITLE_ONLY;
    NewTitle(TITLE_ONLY, 0, "");
    LeftmostIs(TITLE_ONLY, 0, |OPEN|);
    var n := |OPEN| + |CLOSE|;
    assert TITLE_ONLY[..0] == "" && TITLE_ONLY[0..n] == TITLE_ONLY && TITLE_ONLY[n..] == "";
    var e := Expand(Template(siteName), "", TITLE_ONLY, "");
    assert "" + e + "" == e;
  }

  lemma {:induction false} PatternShows(siteName: string)
    requires siteName != "" && !PlainName(siteName)
    ensures !Verbatim(TITLE_ONLY, siteName)
  {
    hide Escape, TitleFrom, PlainName, Expand, BrandTitle, TITLE_ONLY, Special, Count;
    var t := Template(siteName);
    TitleOnly(siteName);
    var k := PatternEscapes(siteName);
    assert t[|OPEN| + k] == Escape(siteName)[k] && t[|OPEN| + k + 1] == Escape(siteName)[k + 1];
    ExpandChanges(t, TITLE_ONLY);
    TitleOnlyEnds();
    assert TITLE_ONLY[..0] + t + TITLE_ONLY[|OPEN| + |CLOSE|..] == t;
  }

  lemma {:induction false} TitleOnlyEnds()
    ensures |TITLE_ONLY| == |OPEN| + |CLOSE|
  {
  }
}
