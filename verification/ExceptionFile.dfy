/** The hand-written parser of the audit exception list, its grammar, and a printer for it. */
module ExceptionFile {
  import opened Collections
  import opened Strings
  import opened AuditText

  type Record = map<string, string>
  type Pair = (string, string)

  // ---- Lines ----

  datatype Line = Ignored | Entry(key: string, value: string) | BadEntry | Field(key: string, value: string)

  predicate Skipped(line: string) {
    line == "" || line[0] == '#' || StartsWith(line, "version:") || StartsWith(line, "exceptions:")
  }

  predicate StartsEntry(line: string) {
    StartsWith(line, "- ")
  }

  /** What a raw line says; BadEntry is an entry line without a colon after its dash. */
  function Classify(raw: string): Line {
    var line := Strip(raw);
    if Skipped(line) then Ignored
    else if StartsEntry(line) then
      var kv := SplitKV(Strip(line[2..]));
      if kv.None? then BadEntry else Entry(kv.value.0, kv.value.1)
    else
      var kv := SplitKV(line);
      if kv.None? then Ignored else Field(kv.value.0, kv.value.1)
  }

  /** An entry line always has something after its dash. */
  lemma {:induction false} EntryHasRest(line: string)
    requires Trimmed(line) && StartsEntry(line)
    ensures Strip(line[2..]) != ""
  {
    var rest := line[2..];
    assert line[1] == ' ' && IsSpace(line[1]) && !IsSpace(line[|line| - 1]);
    assert rest != "" && !IsSpace(rest[|rest| - 1]);
    var l := LStrip(rest);
    assert l == rest[|rest| - |l|..];
  }

  // ---- The parser ----

  /** The records closed so far and the one being filled. */
  datatype State = State(exceptions: seq<Record>, current: Option<Record>) {
    function Flushed(): seq<Record> {
      if current.Some? && current.value != map[] then exceptions + [current.value] else exceptions
    }
  }

  /** One line; None where the script raises. */
  function Apply(st: State, line: Line): Option<State> {
    match line
    case Ignored => Some(st)
    case BadEntry => None
    case Entry(k, v) => Some(State(st.Flushed(), Some(map[k := v])))
    case Field(k, v) => Some(if st.current.None? then st else st.(current := Some(st.current.value[k := v])))
  }

  function Fold(lines: seq<string>): Option<State> {
    if lines == [] then Some(State([], None))
    else
      var n := |lines| - 1;
      var st := Fold(lines[..n]);
      if st.None? then None else Apply(st.value, Classify(lines[n]))
  }

  function Parse(lines: seq<string>): Option<seq<Record>> {
    var st := Fold(lines);
    if st.None? then None else Some(st.value.Flushed())
  }

  method ParseLine(raw: string, exceptions: seq<Record>, current: Option<Record>)
    returns (ok: bool, exceptions': seq<Record>, current': Option<Record>)
    ensures Apply(State(exceptions, current), Classify(raw)) == if ok then Some(State(exceptions', current')) else None
  {
    hide Strip, SplitKV;
    ok, exceptions', current' := true, exceptions, current;
    var line := Strip(raw);
    if line == "" || line[0] == '#' {
      return;
    }
    if StartsWith(line, "version:") || StartsWith(line, "exceptions:") {
      return;
    }
    if StartsWith(line, "- ") {
      EntryHasRest(line);
      if current.Some? && current.value != map[] {
        exceptions' := exceptions + [current.value];
      }
      current' := Some(map[]);
      line := Strip(line[2..]);
      if line != "" {
        var kv := SplitKV(line);
        if kv.None? {
          ok := false;
          return;
        }
        current' := Some(map[kv.value.0 := kv.value.1]);
      }
      return;
    }
    if current.Some? && ':' in line {
      var kv := SplitKV(line);
      current' := Some(current.value[kv.value.0 := kv.value.1]);
    }
  }

  method ParseExceptions(lines: seq<string>) returns (r: Option<seq<Record>>)
    ensures r == Parse(lines)
    ensures r.Some? <==> NoBadEntry(lines)
    ensures r.Some? ==> r.value == Records(Blocks(lines))
  {
    hide Classify;
    ParseIsBlocks(lines);
    var exceptions: seq<Record>, current: Option<Record> := [], None;
    for i := 0 to |lines|
      invariant Fold(lines[..i]) == Some(State(exceptions, current))
    {
      assert lines[..i + 1][..i] == lines[..i];
      var ok;
      ok, exceptions, current := ParseLine(lines[i], exceptions, current);
      if !ok {
        FoldFails(lines, i + 1);
        return None;
      }
    }
    assert lines[..|lines|] == lines;
    if current.Some? && current.value != map[] {
      exceptions := exceptions + [current.value];
    }
    r := Some(exceptions);
  }

  lemma {:induction false} FoldFails(lines: seq<string>, i: nat)
    requires i <= |lines| && Fold(lines[..i]).None?
    ensures Fold(lines).None?
  {
    hide Apply, Classify;
    if i == |lines| {
      assert lines[..i] == lines;
    } else {
      var n := |lines| - 1;
      assert lines[..n][..i] == lines[..i];
      FoldFails(lines[..n], i);
    }
  }

  // ---- The grammar ----

  ghost predicate NoBadEntry(lines: seq<string>) {
    forall i :: 0 <= i < |lines| ==> Classify(lines[i]) != BadEntry
  }

  function AddField(blocks: seq<seq<Pair>>, p: Pair): seq<seq<Pair>> {
    if blocks == [] then [] else blocks[|blocks| - 1 := blocks[|blocks| - 1] + [p]]
  }

  /** The pairs written under each entry; fields before the first entry belong to none. */
  function Blocks(lines: seq<string>): seq<seq<Pair>> {
    if lines == [] then []
    else
      var before := Blocks(lines[..|lines| - 1]);
      match Classify(lines[|lines| - 1])
      case Entry(k, v) => before + [[(k, v)]]
      case Field(k, v) => AddField(before, (k, v))
      case _ => before
  }

  /** A later value of a key replaces an earlier one. */
  function ToRecord(pairs: seq<Pair>): Record {
    if pairs == [] then map[]
    else ToRecord(pairs[..|pairs| - 1])[pairs[|pairs| - 1].0 := pairs[|pairs| - 1].1]
  }

  function Records(blocks: seq<seq<Pair>>): (r: seq<Record>)
    ensures |r| == |blocks|
  {
    seq(|blocks|, i requires 0 <= i < |blocks| => ToRecord(blocks[i]))
  }

  function Entries(lines: seq<string>): nat {
    if lines == [] then 0
    else Entries(lines[..|lines| - 1]) + (if Classify(lines[|lines| - 1]).Entry? then 1 else 0)
  }

  lemma {:induction false} RecordNotEmpty(pairs: seq<Pair>)
    requires pairs != []
    ensures ToRecord(pairs) != map[]
  {
    assert pairs[|pairs| - 1].0 in ToRecord(pairs);
  }

  ghost predicate NoEmptyBlock<T>(blocks: seq<seq<T>>) {
    forall i :: 0 <= i < |blocks| ==> blocks[i] != []
  }

  /** What the parser state says about the lines read so far. */
  ghost predicate StateIs(st: State, blocks: seq<seq<Pair>>) {
    && NoEmptyBlock(blocks)
    && (st.current.None? <==> blocks == [])
    && (st.current.None? ==> st.exceptions == [])
    && (st.current.Some? ==>
          && st.exceptions == Records(blocks[..|blocks| - 1])
          && st.current.value == ToRecord(blocks[|blocks| - 1]))
  }

  lemma {:induction false} FlushedIs(st: State, blocks: seq<seq<Pair>>)
    requires StateIs(st, blocks)
    ensures st.Flushed() == Records(blocks)
  {
    if blocks != [] {
      var n := |blocks| - 1;
      RecordNotEmpty(blocks[n]);
      assert Records(blocks) == Records(blocks[..n]) + [ToRecord(blocks[n])];
    }
  }

  lemma {:induction false} ApplyEntry(st: State, blocks: seq<seq<Pair>>, k: string, v: string)
    requires StateIs(st, blocks)
    ensures StateIs(Apply(st, Entry(k, v)).value, blocks + [[(k, v)]])
  {
    FlushedIs(st, blocks);
    assert (blocks + [[(k, v)]])[..|blocks|] == blocks;
    assert [(k, v)][..0] == [];
  }

  lemma {:induction false} ApplyField(st: State, blocks: seq<seq<Pair>>, k: string, v: string)
    requires StateIs(st, blocks)
    ensures StateIs(Apply(st, Field(k, v)).value, AddField(blocks, (k, v)))
  {
    if blocks != [] {
      var n := |blocks| - 1;
      var last := blocks[n] + [(k, v)];
      assert AddField(blocks, (k, v))[..n] == blocks[..n];
      assert last[..|last| - 1] == blocks[n];
    }
  }

  lemma {:induction false} FoldIsBlocks(lines: seq<string>)
    ensures Fold(lines).Some? <==> NoBadEntry(lines)
    ensures Fold(lines).Some? ==> StateIs(Fold(lines).value, Blocks(lines))
  {
    hide Classify, StateIs;
    if lines == [] {
      assert StateIs(State([], None), []) by { EmptyState(); }
    } else {
      var n := |lines| - 1;
      FoldIsBlocks(lines[..n]);
      assert NoBadEntry(lines) <==> NoBadEntry(lines[..n]) && Classify(lines[n]) != BadEntry;
      if Fold(lines[..n]).Some? {
        match Classify(lines[n]) {
          case Entry(k, v) => ApplyEntry(Fold(lines[..n]).value, Blocks(lines[..n]), k, v);
          case Field(k, v) => ApplyField(Fold(lines[..n]).value, Blocks(lines[..n]), k, v);
          case _ =>
        }
      }
    }
  }

  lemma {:induction false} EmptyState()
    ensures StateIs(State([], None), [])
  {
  }

  /**
   * The parser fails exactly when some entry line has no colon after its dash; otherwise it returns
   * one record per entry, in order, each holding the pairs written under that entry.
   */
  lemma {:induction false} ParseIsBlocks(lines: seq<string>)
    ensures Parse(lines).Some? <==> NoBadEntry(lines)
    ensures Parse(lines).Some? ==> Parse(lines).value == Records(Blocks(lines))
  {
    FoldIsBlocks(lines);
    if Fold(lines).Some? {
      FlushedIs(Fold(lines).value, Blocks(lines));
    }
  }

  lemma {:induction false} BlockPerEntry(lines: seq<string>)
    ensures |Blocks(lines)| == Entries(lines) && NoEmptyBlock(Blocks(lines))
  {
    hide Classify;
    if lines != [] {
      BlockPerEntry(lines[..|lines| - 1]);
    }
  }

  /** As many records as entry lines, and none of them empty. */
  lemma {:induction false} RecordPerEntry(lines: seq<string>)
    requires NoBadEntry(lines)
    ensures Parse(lines).Some? && |Parse(lines).value| == Entries(lines)
    ensures forall i :: 0 <= i < Entries(lines) ==> Parse(lines).value[i] != map[]
  {
    ParseIsBlocks(lines);
    BlockPerEntry(lines);
    forall i | 0 <= i < Entries(lines) ensures Parse(lines).value[i] != map[] {
      RecordNotEmpty(Blocks(lines)[i]);
    }
  }

  // ---- Layout does not matter ----

  /** Lines that differ only in surrounding white space parse alike. */
  lemma {:induction false} IndentationIgnored(lines: seq<string>, other: seq<string>)
    requires |lines| == |other| && forall i :: 0 <= i < |lines| ==> Strip(lines[i]) == Strip(other[i])
    ensures Parse(lines) == Parse(other)
  {
    hide Strip, Classify;
    forall i | 0 <= i < |lines| ensures Classify(lines[i]) == Classify(other[i]) {
      SameLine(lines[i], other[i]);
    }
    FoldSame(lines, other);
  }

  lemma {:induction false} SameLine(raw: string, other: string)
    requires Strip(raw) == Strip(other)
    ensures Classify(raw) == Classify(other)
  {
    hide Strip, SplitKV;
  }

  lemma {:induction false} FoldSame(lines: seq<string>, other: seq<string>)
    requires |lines| == |other| && forall i :: 0 <= i < |lines| ==> Classify(lines[i]) == Classify(other[i])
    ensures Fold(lines) == Fold(other)
  {
    hide Classify, Apply;
    if lines != [] {
      var n := |lines| - 1;
      FoldSame(lines[..n], other[..n]);
    }
  }

  /** A blank line, a comment, a header or a line without a colon can be inserted anywhere. */
  lemma {:induction false} IgnoredLineInserted(before: seq<string>, raw: string, after: seq<string>)
    requires Classify(raw) == Ignored
    ensures Parse(before + [raw] + after) == Parse(before + after)
  {
    FoldWithout(before, raw, after);
  }

  lemma {:induction false} FoldWithout(before: seq<string>, raw: string, after: seq<string>)
    requires Classify(raw) == Ignored
    ensures Fold(before + [raw] + after) == Fold(before + after)
  {
    hide Classify;
    var long, short := before + [raw] + after, before + after;
    if after == [] {
      assert long[..|before|] == before && short == before && long[|before|] == raw;
    } else {
      var n := |after| - 1;
      FoldWithout(before, raw, after[..n]);
      assert long[..|long| - 1] == before + [raw] + after[..n];
      assert short[..|short| - 1] == before + after[..n];
      assert long[|long| - 1] == after[n] == short[|short| - 1];
    }
  }

  // ---- Printing ----

  /** A pair and how its value is written. */
  datatype Written = Written(key: string, value: string, style: Style) {
    function Pair(): Pair {
      (key, value)
    }
  }

  function PairsOf(ws: seq<Written>): (pairs: seq<Pair>)
    ensures |pairs| == |ws|
  {
    seq(|ws|, i requires 0 <= i < |ws| => ws[i].Pair())
  }

  /** What is written, without the style. */
  function Plain(blocks: seq<seq<Written>>): (plain: seq<seq<Pair>>)
    ensures |plain| == |blocks|
  {
    seq(|blocks|, i requires 0 <= i < |blocks| => PairsOf(blocks[i]))
  }

  /** A space follows the colon unless nothing does. */
  function Gap(w: Written): string {
    if Dressed(w.value, w.style) == "" then "" else " "
  }

  function PrintPair(w: Written): string {
    w.key + [':'] + (Gap(w) + Dressed(w.value, w.style))
  }

  function PrintEntry(w: Written): string {
    [' ', ' '] + (['-', ' '] + PrintPair(w))
  }

  function PrintField(w: Written): string {
    [' ', ' ', ' ', ' '] + PrintPair(w)
  }

  function PrintFields(ws: seq<Written>): (lines: seq<string>)
    ensures |lines| == |ws|
  {
    seq(|ws|, i requires 0 <= i < |ws| => PrintField(ws[i]))
  }

  function PrintRecords(blocks: seq<seq<Written>>): seq<string>
    requires NoEmptyBlock(blocks)
  {
    if blocks == [] then []
    else
      var b := blocks[|blocks| - 1];
      PrintRecords(blocks[..|blocks| - 1]) + [PrintEntry(b[0])] + PrintFields(b[1..])
  }

  function Print(blocks: seq<seq<Written>>): seq<string>
    requires NoEmptyBlock(blocks)
  {
    ["version: 1", "exceptions:"] + PrintRecords(blocks)
  }

  predicate EntryKey(k: string) {
    Trimmed(k) && ':' !in k
  }

  /** A key that does not make its line look like a comment, an entry or one of the two headers. */
  predicate FieldKey(k: string) {
    EntryKey(k) && !StartsWith(k, "#") && !StartsWith(k, "- ") && k != "version" && k != "exceptions"
  }

  predicate PrintableField(w: Written) {
    FieldKey(w.key) && Fits(w.value, w.style)
  }

  predicate Printable(block: seq<Written>) {
    && block != [] && EntryKey(block[0].key) && Fits(block[0].value, block[0].style)
    && forall i :: 1 <= i < |block| ==> PrintableField(block[i])
  }

  ghost predicate AllPrintable(blocks: seq<seq<Written>>)
    ensures AllPrintable(blocks) ==> NoEmptyBlock(blocks)
  {
    forall i :: 0 <= i < |blocks| ==> Printable(blocks[i])
  }

  lemma {:induction false} DashedLine(body: string)
    requires Trimmed(body) && SplitKV(body).Some?
    ensures Classify([' ', ' '] + (['-', ' '] + body)) == Entry(SplitKV(body).value.0, SplitKV(body).value.1)
  {
    hide Strip, SplitKV;
    var line := ['-', ' '] + body;
    assert body != "" && line[|line| - 1] == body[|body| - 1];
    assert [' ', ' '] + line == [' ', ' '] + line + [];
    StripPadded([' ', ' '], line, []);
    assert line[2..] == body;
  }

  lemma {:induction false} EntryLine(w: Written)
    requires EntryKey(w.key) && Fits(w.value, w.style)
    ensures Classify(PrintEntry(w)) == Entry(w.key, w.value)
  {
    hide Strip, SplitKV, Classify, Dressed, Fits;
    SplitDressed(w.key, Gap(w), w.value, w.style);
    PairTrimmed(w);
    DashedLine(PrintPair(w));
  }

  lemma {:induction false} PairTrimmed(w: Written)
    requires Trimmed(w.key) && Trimmed(Dressed(w.value, w.style))
    ensures Trimmed(PrintPair(w)) && PrintPair(w) != ""
  {
    hide Dressed;
    var s, d := PrintPair(w), Dressed(w.value, w.style);
    assert s[|s| - 1] == if d == "" then ':' else d[|d| - 1];
    assert s[0] == if w.key == "" then ':' else w.key[0];
  }

  /** A printed pair starts with a header only if the header is its key. */
  lemma {:induction false} HeaderKey(w: Written, header: string)
    requires ':' !in w.key && ':' !in header && header + [':'] <= PrintPair(w)
    ensures w.key == header
  {
    hide Dressed, Gap;
    var line := PrintPair(w);
    FindAfter(w.key, ':', Gap(w) + Dressed(w.value, w.style));
    FindAfter(header, ':', line[|header| + 1..]);
    assert line == header + [':'] + line[|header| + 1..];
    assert line[..|w.key|] == w.key && line[..|header|] == header;
  }

  lemma {:induction false} FieldLine(w: Written)
    requires PrintableField(w)
    ensures Classify(PrintField(w)) == Field(w.key, w.value)
  {
    hide Strip, SplitKV, Dressed, Fits;
    var line := PrintPair(w);
    SplitDressed(w.key, Gap(w), w.value, w.style);
    PairTrimmed(w);
    assert PrintField(w) == [' ', ' ', ' ', ' '] + line + [];
    StripPadded([' ', ' ', ' ', ' '], line, []);
    FieldNotSkipped(w);
  }

  lemma {:induction false} FieldNotSkipped(w: Written)
    requires FieldKey(w.key)
    ensures !Skipped(PrintPair(w)) && !StartsEntry(PrintPair(w))
  {
    hide Dressed, Gap;
    var line := PrintPair(w);
    assert "version" + [':'] == "version:" && "exceptions" + [':'] == "exceptions:";
    assert !StartsWith(line, "version:") by {
      if StartsWith(line, "version:") {
        HeaderKey(w, "version");
      }
    }
    assert !StartsWith(line, "exceptions:") by {
      if StartsWith(line, "exceptions:") {
        HeaderKey(w, "exceptions");
      }
    }
    assert line[0] == if w.key == "" then ':' else w.key[0];
    assert |w.key| == 1 ==> line[1] == ':';
    assert |w.key| >= 2 ==> line[1] == w.key[1];
  }

  lemma {:induction false} PairsAppend(ws: seq<Written>)
    requires ws != []
    ensures PairsOf(ws) == PairsOf(ws[..|ws| - 1]) + [ws[|ws| - 1].Pair()]
  {
  }

  lemma {:induction false} BlocksAppendFields(lines: seq<string>, ws: seq<Written>)
    requires Blocks(lines) != [] && forall i :: 0 <= i < |ws| ==> PrintableField(ws[i])
    ensures var bs := Blocks(lines);
      Blocks(lines + PrintFields(ws)) == bs[|bs| - 1 := bs[|bs| - 1] + PairsOf(ws)]
  {
    hide Classify, PrintableField, PrintField;
    var last := Blocks(lines)[|Blocks(lines)| - 1];
    if ws == [] {
      assert lines + PrintFields(ws) == lines;
      assert last + PairsOf(ws) == last;
    } else {
      var n := |ws| - 1;
      var all := lines + PrintFields(ws);
      BlocksAppendFields(lines, ws[..n]);
      assert all[..|all| - 1] == lines + PrintFields(ws[..n]) && all[|all| - 1] == PrintField(ws[n]);
      FieldLine(ws[n]);
      PairsAppend(ws);
      assert (last + PairsOf(ws[..n])) + [ws[n].Pair()] == last + PairsOf(ws);
    }
  }

  lemma {:induction false} FieldsAreGood(ws: seq<Written>)
    requires forall i :: 0 <= i < |ws| ==> PrintableField(ws[i])
    ensures NoBadEntry(PrintFields(ws))
  {
    hide Classify, PrintableField, PrintField;
    forall i | 0 <= i < |ws| ensures Classify(PrintFields(ws)[i]) != BadEntry {
      FieldLine(ws[i]);
    }
  }

  /** One printed record adds its block. */
  lemma {:induction false} PrintedBlock(lines: seq<string>, b: seq<Written>)
    requires Printable(b)
    ensures var more := [PrintEntry(b[0])] + PrintFields(b[1..]);
      Blocks(lines + more) == Blocks(lines) + [PairsOf(b)] && NoBadEntry(more)
  {
    hide Classify, PrintEntry, PrintField, PrintableField, Fits;
    var entry := lines + [PrintEntry(b[0])];
    EntryLine(b[0]);
    assert entry[..|entry| - 1] == lines;
    BlocksAppendFields(entry, b[1..]);
    FieldsAreGood(b[1..]);
    assert lines + ([PrintEntry(b[0])] + PrintFields(b[1..])) == entry + PrintFields(b[1..]);
    assert [b[0].Pair()] + PairsOf(b[1..]) == PairsOf(b);
  }

  lemma {:induction false} NoBadEntryConcat(lines: seq<string>, more: seq<string>)
    requires NoBadEntry(lines) && NoBadEntry(more)
    ensures NoBadEntry(lines + more)
  {
    hide Classify;
  }

  lemma {:induction false} PrintedBlocks(header: seq<string>, blocks: seq<seq<Written>>)
    requires Blocks(header) == [] && NoBadEntry(header) && AllPrintable(blocks)
    ensures Blocks(header + PrintRecords(blocks)) == Plain(blocks) && NoBadEntry(header + PrintRecords(blocks))
  {
    hide Classify, Printable, Blocks, NoBadEntry, PrintFields, PrintEntry, PairsOf;
    if blocks == [] {
      assert header + PrintRecords(blocks) == header;
    } else {
      var n := |blocks| - 1;
      var b := blocks[n];
      var before, more := header + PrintRecords(blocks[..n]), [PrintEntry(b[0])] + PrintFields(b[1..]);
      PrintedBlocks(header, blocks[..n]);
      PrintedBlock(before, b);
      NoBadEntryConcat(before, more);
      assert header + PrintRecords(blocks) == before + more;
      assert Plain(blocks) == Plain(blocks[..n]) + [PairsOf(b)];
    }
  }

  /** Printing and then parsing gives the records back, whatever quoted values contain. */
  lemma {:induction false} RoundTrip(blocks: seq<seq<Written>>)
    requires AllPrintable(blocks)
    ensures Parse(Print(blocks)) == Some(Records(Plain(blocks)))
  {
    var header := ["version: 1", "exceptions:"];
    HeaderLines();
    PrintedBlocks(header, blocks);
    ParseIsBlocks(Print(blocks));
  }

  lemma {:induction false} HeaderLines()
    ensures Blocks(["version: 1", "exceptions:"]) == [] && NoBadEntry(["version: 1", "exceptions:"])
  {
    hide Strip;
    var v, e := "version: 1", "exceptions:";
    assert Classify(v) == Ignored && Classify(e) == Ignored by {
      assert Trimmed(v) && Trimmed(e);
      assert StartsWith(v, "version:");
    }
    var header := [v, e];
    assert header[..1] == [v] && [v][..0] == [];
  }
}
