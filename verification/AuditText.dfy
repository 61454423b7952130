/** The string operations of the audit script. */
module AuditText {
  import opened Collections
  import opened Strings

  /** Characters that `strip` removes. */
  predicate IsSpace(c: char) {
    || '\t' <= c <= '\r' || c == ' ' || '\U{1c}' <= c <= '\U{1f}' || c == '\U{85}' || c == '\U{a0}' || c == '\U{1680}'
    || '\U{2000}' <= c <= '\U{200a}' || c == '\U{2028}' || c == '\U{2029}' || c == '\U{202f}' || c == '\U{205f}'
    || c == '\U{3000}'
  }

  /** The same 29 characters by their code points. */
  lemma {:induction false} SpaceExactly(c: char)
    ensures IsSpace(c) <==>
      var n := c as int;
      9 <= n <= 13 || 28 <= n <= 32 || n in {133, 160, 5760, 8232, 8233, 8239, 8287, 12288} || 8192 <= n <= 8202
  {
  }

  function LStrip(s: string): (r: string)
    ensures |r| <= |s| && r == s[|s| - |r|..]
    ensures r != "" ==> !IsSpace(r[0])
    ensures forall i :: 0 <= i < |s| - |r| ==> IsSpace(s[i])
  {
    if s != "" && IsSpace(s[0]) then LStrip(s[1..]) else s
  }

  function RStrip(s: string): (r: string)
    ensures |r| <= |s| && r == s[..|r|]
    ensures r != "" ==> !IsSpace(r[|r| - 1])
    ensures forall i :: |r| <= i < |s| ==> IsSpace(s[i])
  {
    if s != "" && IsSpace(s[|s| - 1]) then RStrip(s[..|s| - 1]) else s
  }

  /** A string without leading or trailing white space. */
  predicate Trimmed(s: string) {
    s != "" ==> !IsSpace(s[0]) && !IsSpace(s[|s| - 1])
  }

  function Strip(s: string): (r: string)
    ensures Trimmed(r)
    ensures Trimmed(s) ==> r == s
  {
    RStrip(LStrip(s))
  }

  predicate AllSpace(s: string) {
    forall i :: 0 <= i < |s| ==> IsSpace(s[i])
  }

  lemma {:induction false} LStripPadding(pad: string, s: string)
    requires AllSpace(pad)
    ensures LStrip(pad + s) == LStrip(s)
  {
    if pad == "" {
      assert pad + s == s;
    } else {
      assert (pad + s)[1..] == pad[1..] + s;
      LStripPadding(pad[1..], s);
    }
  }

  lemma {:induction false} RStripPadding(s: string, pad: string)
    requires AllSpace(pad)
    ensures RStrip(s + pad) == RStrip(s)
  {
    if pad == "" {
      assert s + pad == s;
    } else {
      var n := |pad| - 1;
      assert (s + pad)[..|s| + n] == s + pad[..n];
      RStripPadding(s, pad[..n]);
    }
  }

  lemma {:induction false} StripsToNothing(s: string)
    requires AllSpace(s)
    ensures Strip(s) == ""
  {
    assert s + "" == s;
    LStripPadding(s, "");
  }

  lemma {:induction false} LStripKeeps(s: string)
    requires s != "" && !IsSpace(s[0])
    ensures LStrip(s) == s
  {
  }

  lemma {:induction false} RStripKeeps(s: string)
    requires s != "" && !IsSpace(s[|s| - 1])
    ensures RStrip(s) == s
  {
  }

  /** Stripping does not see the padding: the result depends on the trimmed core alone. */
  lemma {:induction false} StripPadded(left: string, core: string, right: string)
    requires AllSpace(left) && AllSpace(right) && Trimmed(core)
    ensures Strip(left + core + right) == core
  {
    hide IsSpace, LStrip, RStrip;
    assert left + core + right == left + (core + right);
    LStripPadding(left, core + right);
    if core == "" {
      assert core + right == right;
      StripsToNothing(right);
    } else {
      assert (core + right)[0] == core[0];
      LStripKeeps(core + right);
      RStripPadding(core, right);
      RStripKeeps(core);
    }
  }

  predicate StartsWith(s: string, prefix: string) {
    prefix <= s
  }

  predicate Quoted(v: string, quote: char) {
    v != "" && v[0] == quote && v[|v| - 1] == quote
  }

  /** One pair of equal quotes around a value is removed; a lone quote counts as both. */
  function Unquote(v: string): string {
    if Quoted(v, '\"') || Quoted(v, '\'') then (if |v| >= 2 then v[1..|v| - 1] else "") else v
  }

  /** Split a `key: value` line at its first colon; None where the script raises. */
  function SplitKV(line: string): (r: Option<(string, string)>)
    ensures r.Some? <==> ':' in line
  {
    var at := Find(line, ':');
    if at.None? then None
    else Some((Strip(line[..at.value]), Unquote(Strip(line[at.value + 1..]))))
  }

  // ---- What splitting finds ----

  /** Text that begins and ends with the same quote; a lone quote does. */
  predicate BetweenQuotes(v: string) {
    v != "" && (v[0] == '\"' || v[0] == '\'') && v[|v| - 1] == v[0]
  }

  lemma {:induction false} UnquoteIs(v: string)
    ensures !BetweenQuotes(v) ==> Unquote(v) == v
    ensures BetweenQuotes(v) && |v| >= 2 ==> [v[0]] + Unquote(v) + [v[0]] == v
    ensures BetweenQuotes(v) && |v| == 1 ==> Unquote(v) == ""
  {
  }

  /**
   * A line `key: value`, however padded: the key comes back, and so does a value that does not both
   * begin and end with one quote; a value that does loses that pair, and a lone quote everything.
   */
  lemma {:induction false} SplitExactly(left: string, key: string, right: string, gap: string, value: string,
                                        tail: string)
    requires AllSpace(left) && AllSpace(right) && AllSpace(gap) && AllSpace(tail)
    requires Trimmed(key) && ':' !in key && Trimmed(value)
    ensures var r := SplitKV(left + key + right + [':'] + (gap + value + tail));
      && r.Some? && r.value.0 == key
      && (!BetweenQuotes(value) ==> r.value.1 == value)
      && (BetweenQuotes(value) && |value| >= 2 ==> [value[0]] + r.value.1 + [value[0]] == value)
      && (BetweenQuotes(value) && |value| == 1 ==> r.value.1 == "")
  {
    NoColon(left);
    NoColon(right);
    UnquoteIs(value);
    hide Strip, Unquote, AllSpace, BetweenQuotes;
    var before, after := left + key + right, gap + value + tail;
    FindAfter(before, ':', after);
    var line := before + [':'] + after;
    assert line[..|before|] == before && line[|before| + 1..] == after;
    StripPadded(left, key, right);
    StripPadded(gap, value, tail);
  }

  lemma {:induction false} NoColon(pad: string)
    requires AllSpace(pad)
    ensures ':' !in pad
  {
  }

  // ---- Writing values ----

  datatype Style = Bare | SingleQuoted | DoubleQuoted

  function Dressed(value: string, style: Style): string {
    match style
    case Bare => value
    case SingleQuoted => ['\''] + value + ['\'']
    case DoubleQuoted => ['\"'] + value + ['\"']
  }

  /** Any value may stand in quotes; without quotes it must not need them. */
  predicate Fits(value: string, style: Style) {
    style.Bare? ==> Trimmed(value) && !BetweenQuotes(value)
  }

  /** A trimmed colon-free key and a value in a style that fits survive. */
  lemma {:induction false} SplitDressed(key: string, gap: string, value: string, style: Style)
    requires Trimmed(key) && ':' !in key && AllSpace(gap) && Fits(value, style)
    ensures Trimmed(Dressed(value, style))
    ensures SplitKV(key + [':'] + (gap + Dressed(value, style))) == Some((key, value))
  {
    hide SplitKV;
    var dressed := Dressed(value, style);
    assert [] + key + [] == key && gap + dressed + [] == gap + dressed;
    SplitExactly([], key, [], gap, dressed, []);
    var r := SplitKV(key + [':'] + (gap + dressed));
    if !style.Bare? {
      assert [dressed[0]] + value + [dressed[0]] == dressed;
      assert dressed[1..|dressed| - 1] == value == r.value.1;
    }
  }
}
