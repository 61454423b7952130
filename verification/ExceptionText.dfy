/** The exception list as the text of a file: line breaks, and the round trip through printed text. */
module ExceptionText {
  import opened Collections
  import opened Strings
  import opened AuditText
  import opened ExceptionFile

  // ---- Reading text line by line ----

  /** Universal newlines: every line break reads as a newline. */
  function Translate(text: string): (r: string)
    ensures '\r' !in r
    decreases |text|
  {
    if text == "" then ""
    else if text[0] != '\r' then [text[0]] + Translate(text[1..])
    else "\n" + Translate(if |text| >= 2 && text[1] == '\n' then text[2..] else text[1..])
  }

  /** The lines of a text, each with its newline. */
  function LinesOf(text: string): seq<string>
    decreases |text|
  {
    var at := Find(text, '\n');
    if text == "" then []
    else if at.None? then [text]
    else [text[..at.value + 1]] + LinesOf(text[at.value + 1..])
  }

  /** What iterating over the opened file yields. */
  function Read(text: string): seq<string> {
    LinesOf(Translate(text))
  }

  predicate Unbroken(s: string) {
    '\n' !in s && '\r' !in s
  }

  /** A line that has been read: no line break but perhaps a newline at its end. */
  predicate LineRead(line: string) {
    Unbroken(line) || (line != "" && line[|line| - 1] == '\n' && Unbroken(line[..|line| - 1]))
  }

  lemma {:induction false} LinesUnbroken(text: string, i: nat)
    requires '\r' !in text && i < |LinesOf(text)|
    ensures LineRead(LinesOf(text)[i])
    decreases |text|
  {
    hide Find;
    var at := Find(text, '\n');
    if at.Some? {
      var line := text[..at.value + 1];
      if i == 0 {
        assert line[..|line| - 1] == text[..at.value];
      } else {
        hide LineRead;
        LinesUnbroken(text[at.value + 1..], i - 1);
      }
    }
  }

  lemma {:induction false} LStripBefore(s: string, pad: string)
    requires !AllSpace(s)
    ensures LStrip(s + pad) == LStrip(s) + pad
  {
    if IsSpace(s[0]) {
      assert (s + pad)[1..] == s[1..] + pad;
      assert !AllSpace(s[1..]) by {
        var i :| 0 <= i < |s| && !IsSpace(s[i]);
        assert s[1..][i - 1] == s[i];
      }
      LStripBefore(s[1..], pad);
    }
  }

  /** White space at the end of a line does not show after stripping. */
  lemma {:induction false} StripEnd(s: string, pad: string)
    requires AllSpace(pad)
    ensures Strip(s + pad) == Strip(s)
  {
    hide IsSpace, LStrip, RStrip;
    if AllSpace(s) {
      StripsToNothing(s);
      assert AllSpace(s + pad);
      StripsToNothing(s + pad);
    } else {
      LStripBefore(s, pad);
      RStripPadding(LStrip(s), pad);
    }
  }

  // ---- Printing text ----

  /** The lines with a newline after each. */
  function Terminated(lines: seq<string>): (r: seq<string>)
    ensures |r| == |lines|
  {
    seq(|lines|, i requires 0 <= i < |lines| => lines[i] + "\n")
  }

  function Join(lines: seq<string>): string {
    if lines == [] then "" else lines[0] + "\n" + Join(lines[1..])
  }

  function PrintText(blocks: seq<seq<Written>>): string
    requires NoEmptyBlock(blocks)
  {
    Join(Print(blocks))
  }

  lemma {:induction false} LinesOfJoined(line: string, rest: string)
    requires Unbroken(line)
    ensures LinesOf(line + "\n" + rest) == [line + "\n"] + LinesOf(rest)
  {
    hide Find;
    var text := line + "\n" + rest;
    assert text == line + ['\n'] + rest;
    FindAfter(line, '\n', rest);
    assert text[..|line| + 1] == line + "\n" && text[|line| + 1..] == rest;
  }

  // ---- Line breaks of every kind ----

  datatype Break = LF | CRLF | CR {
    function Text(): string {
      match this case LF => "\n" case CRLF => "\r\n" case CR => "\r"
    }
  }

  /** The lines, each followed by its break, and what follows the last break. */
  function TextOf(lines: seq<string>, breaks: seq<Break>, rest: string): string
    requires |breaks| == |lines|
  {
    if lines == [] then rest else lines[0] + breaks[0].Text() + TextOf(lines[1..], breaks[1..], rest)
  }

  /** No lone CR directly before an LF: those two would be one break. */
  ghost predicate Apart(lines: seq<string>, breaks: seq<Break>)
    requires |breaks| == |lines|
  {
    forall i :: 0 <= i < |lines| - 1 && breaks[i].CR? && lines[i + 1] == "" ==> !breaks[i + 1].LF?
  }

  lemma {:induction false} TranslateBreak(s: string, e: Break, rest: string)
    requires Unbroken(s) && (e.CR? && rest != "" ==> rest[0] != '\n')
    ensures Translate(s + e.Text() + rest) == s + "\n" + Translate(rest)
  {
    var text := s + e.Text() + rest;
    if s == "" {
      assert text == e.Text() + rest;
      assert text[|e.Text()|..] == rest;
    } else {
      assert text[1..] == s[1..] + e.Text() + rest;
      TranslateBreak(s[1..], e, rest);
    }
  }

  lemma {:induction false} TranslateRest(s: string)
    requires Unbroken(s)
    ensures Translate(s) == s
  {
    if s != "" {
      TranslateRest(s[1..]);
    }
  }

  lemma {:induction false} FirstOfText(lines: seq<string>, breaks: seq<Break>, rest: string)
    requires |breaks| == |lines| && Unbroken(rest) && forall i :: 0 <= i < |lines| ==> Unbroken(lines[i])
    requires lines != [] && lines[0] == "" ==> !breaks[0].LF?
    ensures var text := TextOf(lines, breaks, rest);
      text != "" ==> text[0] != '\n'
  {
    var text := TextOf(lines, breaks, rest);
    if lines != [] {
      var tail := TextOf(lines[1..], breaks[1..], rest);
      assert text == lines[0] + breaks[0].Text() + tail;
      assert text[0] == if lines[0] != "" then lines[0][0] else breaks[0].Text()[0];
    }
  }

  lemma {:induction false} ApartTail(lines: seq<string>, breaks: seq<Break>)
    requires |breaks| == |lines| > 0 && Apart(lines, breaks)
    ensures Apart(lines[1..], breaks[1..])
    ensures breaks[0].CR? && |lines| > 1 && lines[1] == "" ==> !breaks[1].LF?
  {
  }

  /**
   * A text is read as its lines, each ending in a newline whatever its break was, and a last line
   * without one if the text does not end in a break.
   */
  lemma {:induction false} ReadLines(lines: seq<string>, breaks: seq<Break>, rest: string)
    requires |breaks| == |lines| && Unbroken(rest) && forall i :: 0 <= i < |lines| ==> Unbroken(lines[i])
    requires Apart(lines, breaks)
    ensures Read(TextOf(lines, breaks, rest)) == Terminated(lines) + (if rest == "" then [] else [rest])
  {
    if lines == [] {
      TranslateRest(rest);
      assert Terminated(lines) == [];
    } else {
      var tail := TextOf(lines[1..], breaks[1..], rest);
      ApartTail(lines, breaks);
      if breaks[0].CR? {
        FirstOfText(lines[1..], breaks[1..], rest);
      }
      hide Translate, LinesOf, Unbroken, Terminated;
      ReadLines(lines[1..], breaks[1..], rest);
      TranslateBreak(lines[0], breaks[0], tail);
      LinesOfJoined(lines[0], Translate(tail));
      JoinedHead(lines);
    }
  }

  lemma {:induction false} ReadNothing()
    ensures Read(Join([])) == [] && Terminated([]) == []
  {
  }

  lemma {:induction false} JoinedHead(lines: seq<string>)
    requires lines != []
    ensures Join(lines) == lines[0] + "\n" + Join(lines[1..])
    ensures Terminated(lines) == [lines[0] + "\n"] + Terminated(lines[1..])
  {
  }

  /** Lines without line breaks are read back as they were joined. */
  lemma {:induction false} ReadJoin(lines: seq<string>)
    requires forall i :: 0 <= i < |lines| ==> Unbroken(lines[i])
    ensures Read(Join(lines)) == Terminated(lines)
  {
    hide Translate, LinesOf, Unbroken, Join, Terminated;
    if lines == [] {
      ReadNothing();
    } else {
      ReadJoin(lines[1..]);
      JoinedHead(lines);
      var rest := Join(lines[1..]);
      TranslateBreak(lines[0], LF, rest);
      LinesOfJoined(lines[0], Translate(rest));
    }
  }

  /** No key and no value contains a line break. */
  ghost predicate NoBreaks(blocks: seq<seq<Pair>>) {
    forall i, j :: 0 <= i < |blocks| && 0 <= j < |blocks[i]| ==> Unbroken(blocks[i][j].0) && Unbroken(blocks[i][j].1)
  }

  lemma {:induction false} PairUnbroken(w: Written)
    requires Unbroken(w.key) && Unbroken(w.value)
    ensures Unbroken(PrintEntry(w)) && Unbroken(PrintField(w))
  {
  }

  lemma {:induction false} RecordsUnbroken(blocks: seq<seq<Written>>, i: nat)
    requires NoEmptyBlock(blocks) && NoBreaks(Plain(blocks)) && i < |PrintRecords(blocks)|
    ensures Unbroken(PrintRecords(blocks)[i])
  {
    hide Unbroken, PrintEntry, PrintField;
    var n := |blocks| - 1;
    var b, before := blocks[n], PrintRecords(blocks[..n]);
    if i < |before| {
      assert forall m, j :: 0 <= m < n && 0 <= j < |blocks[..n][m]| ==>
        Plain(blocks[..n])[m][j] == Plain(blocks)[m][j];
      RecordsUnbroken(blocks[..n], i);
    } else {
      var j := i - |before|;
      assert Plain(blocks)[n][j] == b[j].Pair();
      PairUnbroken(b[j]);
    }
  }

  /** Printing to a file and parsing it gives the records back, if keys and values have no line breaks. */
  lemma {:induction false} TextRoundTrip(blocks: seq<seq<Written>>)
    requires AllPrintable(blocks) && NoBreaks(Plain(blocks))
    ensures Parse(Read(PrintText(blocks))) == Some(Records(Plain(blocks)))
  {
    hide Parse, Unbroken, Strip, AllPrintable, Plain;
    var lines := Print(blocks);
    forall i | 0 <= i < |lines| ensures Unbroken(lines[i]) {
      if i < 2 {
        HeadersUnbroken();
      } else {
        RecordsUnbroken(blocks, i - 2);
      }
    }
    ReadJoin(lines);
    forall i | 0 <= i < |lines| ensures Strip(Terminated(lines)[i]) == Strip(lines[i]) {
      StripEnd(lines[i], "\n");
    }
    IndentationIgnored(Terminated(lines), lines);
    RoundTrip(blocks);
  }

  lemma {:induction false} HeadersUnbroken()
    ensures Unbroken("version: 1") && Unbroken("exceptions:")
  {
  }

  // ---- Parsed records never contain a line break ----

  lemma {:induction false} StripUnbroken(s: string)
    requires Unbroken(s)
    ensures Unbroken(Strip(s))
  {
    var l := LStrip(s);
    assert forall c :: c in l ==> c in s;
    assert forall c :: c in RStrip(l) ==> c in l;
  }

  lemma {:induction false} SplitUnbroken(line: string)
    requires Unbroken(line) && SplitKV(line).Some?
    ensures Unbroken(SplitKV(line).value.0) && Unbroken(SplitKV(line).value.1)
  {
    hide Strip, Find;
    var at := Find(line, ':');
    StripUnbroken(line[..at.value]);
    StripUnbroken(line[at.value + 1..]);
  }

  predicate LineUnbroken(line: Line) {
    (line.Entry? || line.Field?) ==> Unbroken(line.key) && Unbroken(line.value)
  }

  lemma {:induction false} ClassifyUnbroken(raw: string)
    requires Unbroken(Strip(raw))
    ensures LineUnbroken(Classify(raw))
  {
    hide Strip, SplitKV, Skipped;
    var line := Strip(raw);
    if StartsEntry(line) {
      StripUnbroken(line[2..]);
      if SplitKV(Strip(line[2..])).Some? {
        SplitUnbroken(Strip(line[2..]));
      }
    } else if SplitKV(line).Some? {
      SplitUnbroken(line);
    }
  }

  lemma {:induction false} BlocksUnbroken(lines: seq<string>)
    requires forall i :: 0 <= i < |lines| ==> LineUnbroken(Classify(lines[i]))
    ensures NoBreaks(Blocks(lines))
  {
    hide Classify, Unbroken;
    if lines != [] {
      BlocksUnbroken(lines[..|lines| - 1]);
      assert LineUnbroken(Classify(lines[|lines| - 1]));
    }
  }

  lemma {:induction false} ReadUnbroken(text: string)
    ensures NoBreaks(Blocks(Read(text)))
  {
    hide Classify, Strip, Blocks, NoBreaks, Translate, LinesOf, Unbroken;
    var lines := Read(text);
    forall i | 0 <= i < |lines| ensures LineUnbroken(Classify(lines[i])) {
      LinesUnbroken(Translate(text), i);
      if Unbroken(lines[i]) {
        StripUnbroken(lines[i]);
      } else {
        var body := lines[i][..|lines[i]| - 1];
        assert lines[i] == body + "\n";
        StripEnd(body, "\n");
        StripUnbroken(body);
      }
      ClassifyUnbroken(lines[i]);
    }
    BlocksUnbroken(lines);
  }

  lemma {:induction false} RecordHolds(pairs: seq<Pair>, k: string)
    requires k in ToRecord(pairs)
    ensures exists i :: 0 <= i < |pairs| && pairs[i] == (k, ToRecord(pairs)[k])
  {
    var n := |pairs| - 1;
    if pairs[n].0 != k {
      RecordHolds(pairs[..n], k);
      var i :| 0 <= i < n && pairs[..n][i] == (k, ToRecord(pairs)[k]);
      assert pairs[i] == (k, ToRecord(pairs)[k]);
    }
  }

  /** The keys of one record are distinct. */
  ghost predicate Keyed(block: seq<Pair>) {
    forall i, j :: 0 <= i < j < |block| ==> block[i].0 != block[j].0
  }

  lemma {:induction false} PairRecorded(block: seq<Pair>, i: nat)
    requires Keyed(block) && i < |block|
    ensures block[i].0 in ToRecord(block) && ToRecord(block)[block[i].0] == block[i].1
  {
    var n := |block| - 1;
    if i < n {
      PairRecorded(block[..n], i);
    }
  }

  lemma {:induction false} ReturnedUnbroken(blocks: seq<seq<Pair>>, lines: seq<string>, i: nat, j: nat)
    requires NoBreaks(Blocks(lines)) && Records(Blocks(lines)) == Records(blocks)
    requires i < |blocks| && j < |blocks[i]| && Keyed(blocks[i])
    ensures Unbroken(blocks[i][j].0) && Unbroken(blocks[i][j].1)
  {
    hide ToRecord, Unbroken, Blocks;
    PairRecorded(blocks[i], j);
    var read := Blocks(lines)[i];
    assert |Records(Blocks(lines))| == |Records(blocks)|;
    assert ToRecord(read) == Records(Blocks(lines))[i] == Records(blocks)[i] == ToRecord(blocks[i]);
    RecordHolds(read, blocks[i][j].0);
  }

  /**
   * Records with printable, distinct keys, each value bare or in either quote, survive being printed
   * to a file and parsed if and only if no key and no value contains a line break.
   */
  lemma {:induction false} RoundTripExactly(blocks: seq<seq<Written>>)
    requires AllPrintable(blocks) && forall i :: 0 <= i < |blocks| ==> Keyed(PairsOf(blocks[i]))
    ensures Parse(Read(PrintText(blocks))) == Some(Records(Plain(blocks))) <==> NoBreaks(Plain(blocks))
  {
    hide Parse, Read, Records, Blocks, AllPrintable, Unbroken;
    var plain := Plain(blocks);
    if NoBreaks(plain) {
      TextRoundTrip(blocks);
    }
    if Parse(Read(PrintText(blocks))) == Some(Records(plain)) {
      var lines := Read(PrintText(blocks));
      ReadUnbroken(PrintText(blocks));
      ParseIsBlocks(lines);
      forall i, j | 0 <= i < |plain| && 0 <= j < |plain[i]|
        ensures Unbroken(plain[i][j].0) && Unbroken(plain[i][j].1)
      {
        ReturnedUnbroken(plain, lines, i, j);
      }
    }
  }
}
