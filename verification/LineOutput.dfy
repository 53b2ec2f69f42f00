/** Reading numbered log lines back from command output. */
module LineOutput {
  import opened Prelude
  import opened Models
  import opened Text
  import Collector
  import Sorting

  // ---- The parser ----

  /** Number and content of one output line: separated by the first tab, or else by white space after the first word. */
  function NumberPart(item: string): string {
    if '\t' in item then TrimSpace(item[..IndexOf(item, '\t')]) else FirstField(item)
  }

  function ContentPart(item: string): string {
    if '\t' in item && IndexOf(item, '\t') < |item| then item[IndexOf(item, '\t') + 1..]
    else TrimSpace(TrimPrefix(item, FirstField(item)))
  }

  /** Blank lines and lines without a number are skipped. */
  function ParseLine(raw: string): Option<Line> {
    var item := TrimRight(raw, IsReturn);
    if TrimSpace(item) == "" then None
    else
      match ParseInt64(NumberPart(item))
      case None => None
      case Some(n) => Some(Line(n, ContentPart(item)))
  }

  function Parsed(raws: seq<string>): seq<Option<Line>> {
    seq(|raws|, i requires 0 <= i < |raws| => ParseLine(raws[i]))
  }

  function ParseLines(raws: seq<string>): seq<Line> {
    Somes(Parsed(raws))
  }

  predicate NumberedBefore(a: Line, b: Line) {
    a.number < b.number
  }

  /** What the parser may return for an output: the parsed lines in ascending order. Lines that share a number may come
      in any order, because the library's sort is not stable. */
  ghost predicate ParsesTo(output: string, lines: seq<Line>) {
    multiset(lines) == multiset(ParseLines(SplitLines(ReplaceReturns(output)))) && Collector.SortedLines(lines)
  }

  method ParseOutputLine(raw: string) returns (line: Option<Line>)
    ensures line == ParseLine(raw)
  {
    var item := TrimRight(raw, IsReturn);
    if TrimSpace(item) == "" {
      return None;
    }
    var numberPart, content := "", "";
    var idx := IndexOf(item, '\t');
    assert (idx < |item|) == ('\t' in item) by {
      assert item[..idx] + item[idx..] == item;
    }
    if idx < |item| {
      numberPart := TrimSpace(item[..idx]);
      content := item[idx + 1..];
    } else {
      numberPart := FirstField(item);
      content := TrimSpace(TrimPrefix(item, numberPart));
    }
    var number := ParseInt64(numberPart);
    return if number.None? then None else Some(Line(number.value, content));
  }

  method ParseLineOutput(output: string) returns (lines: seq<Line>)
    ensures ParsesTo(output, lines)
  {
    lines := [];
    var raws := SplitLines(ReplaceReturns(output));
    for i := 0 to |raws|
      invariant lines == Somes(Parsed(raws)[..i])
    {
      assert Parsed(raws)[..i + 1][..i] == Parsed(raws)[..i];
      var line := ParseOutputLine(raws[i]);
      if line.Some? {
        lines := lines + [line.value];
      }
    }
    assert Parsed(raws)[..|raws|] == Parsed(raws);
    ghost var parsed := lines;
    NumberedBeforeOrders();
    Sorting.SortSorts(parsed, NumberedBefore);
    Sorting.SortKeepsElements(parsed, NumberedBefore);
    lines := Sorting.Sort(lines, NumberedBefore);
    forall i, j | 0 <= i < j < |lines| ensures lines[i].number <= lines[j].number {
      assert Sorting.InOrder(lines, NumberedBefore, i, j);
    }
  }

  lemma {:induction false} NumberedBeforeOrders()
    ensures Sorting.Orders(NumberedBefore)
  {
  }

  // ---- The printer ----

  /** What the remote command prints for one line. */
  function PrintLine(l: Line): string {
    FormatInt(l.number) + "\t" + l.content
  }

  function PrintLines(lines: seq<Line>): seq<string> {
    seq(|lines|, i requires 0 <= i < |lines| => PrintLine(lines[i]))
  }

  function Print(lines: seq<Line>): string {
    JoinLines(PrintLines(lines))
  }

  ghost predicate Printable(l: Line) {
    '\n' !in l.content && INT64_MIN <= l.number <= INT64_MAX
  }

  ghost predicate AllPrintable(lines: seq<Line>) {
    forall i :: 0 <= i < |lines| ==> Printable(lines[i])
  }

  ghost predicate StrictlyNumbered(lines: seq<Line>) {
    forall i, j :: 0 <= i < j < |lines| ==> lines[i].number < lines[j].number
  }

  // ---- Parsing one printed line ----

  lemma {:induction false} ReturnsInside(l: Line)
    ensures TrimRight(PrintLine(l), IsReturn) == PrintLine(l.(content := TrimRight(l.content, IsReturn)))
  {
    TrimRightAfter(FormatInt(l.number), '\t', l.content, IsReturn);
  }

  lemma {:induction false} NumberIsTrimmed(n: int)
    ensures TrimSpace(FormatInt(n)) == FormatInt(n)
  {
    FormatHasNoSpace(n);
  }

  lemma {:induction false} NotBlank(n: int, rest: string)
    ensures TrimSpace(FormatInt(n) + rest) != ""
  {
    var s := FormatInt(n) + rest;
    FormatHasNoSpace(n);
    assert s[0] == FormatInt(n)[0];
    TrimRightAfter("", s[0], s[1..], IsSpace);
    assert "" + [s[0]] + s[1..] == s;
  }

  lemma {:induction false} NoTabInNumber(n: int)
    ensures '\t' !in FormatInt(n) && '\n' !in FormatInt(n)
  {
    FormatHasNoSpace(n);
  }

  /** A printed line is read back with its trailing returns gone. */
  lemma {:induction false} ParsePrintedLine(l: Line)
    requires INT64_MIN <= l.number <= INT64_MAX
    ensures ParseLine(PrintLine(l)) == Some(l.(content := TrimRight(l.content, IsReturn)))
  {
    var content := TrimRight(l.content, IsReturn);
    var item := FormatInt(l.number) + "\t" + content;
    ReturnsInside(l);
    assert TrimSpace(item) != "" by {
      NotBlank(l.number, "\t" + content);
      assert item == FormatInt(l.number) + ("\t" + content);
    }
    assert IndexOf(item, '\t') == |FormatInt(l.number)| by {
      NoTabInNumber(l.number);
      IndexAfter(FormatInt(l.number), '\t', content);
    }
    assert item[|FormatInt(l.number)|] == '\t';
    assert item[..|FormatInt(l.number)|] == FormatInt(l.number) && item[|FormatInt(l.number)| + 1..] == content;
    NumberIsTrimmed(l.number);
    ParseUndoesFormat(l.number);
  }

  lemma {:induction false} NoTabWithoutTab(a: string, b: string)
    requires '\t' !in a && '\t' !in b
    ensures '\t' !in a + " " + TrimRight(b, IsReturn)
  {
    TrimRightIsPrefix(b, IsReturn);
  }

  /** Output without tabs, as other commands number their lines: the number is the first word, and the content is what
      follows without white space around it. */
  lemma {:induction false} ParseSpacedLine(n: int, rest: string)
    requires INT64_MIN <= n <= INT64_MAX && '\t' !in rest
    ensures ParseLine(FormatInt(n) + " " + rest) == Some(Line(n, TrimSpace(rest)))
  {
    var number, content := FormatInt(n), TrimRight(rest, IsReturn);
    var item := number + " " + content;
    assert TrimRight(number + " " + rest, IsReturn) == item by {
      TrimRightAfter(number, ' ', rest, IsReturn);
    }
    FormatHasNoSpace(n);
    assert '\t' !in item by {
      NoTabInNumber(n);
      NoTabWithoutTab(number, rest);
    }
    assert TrimSpace(item) != "" by {
      NotBlank(n, " " + content);
      assert item == number + (" " + content);
    }
    assert FirstField(item) == number by {
      assert item[0] == number[0] && TrimLeft(item, IsSpace) == item;
      FirstWordStops(number, ' ', content);
    }
    assert TrimPrefix(item, number) == " " + content;
    assert TrimSpace(" " + content) == TrimSpace(content) by {
      assert (" " + content)[1..] == content;
    }
    TrimmedReturns(rest);
    ParseUndoesFormat(n);
  }

  /** Such a line must not be indented: then its number is read, but stays in the content as well. */
  lemma {:induction false} IndentedLineKeepsNumber(n: int)
    requires INT64_MIN <= n <= INT64_MAX
    ensures ParseLine(" " + FormatInt(n) + " x") == Some(Line(n, FormatInt(n) + " x"))
  {
    var number := FormatInt(n);
    var item := " " + number + " x";
    assert TrimSpace(item) == number + " x" by {
      IndentIsTrimmed(n);
    }
    assert '\t' !in item by {
      NoTabInNumber(n);
    }
    assert FirstField(item) == number by {
      FormatHasNoSpace(n);
      assert item[1..] == number + " x" == number + [' '] + "x" && item[1..][0] == number[0];
      assert TrimLeft(item, IsSpace) == item[1..];
      FirstWordStops(number, ' ', "x");
    }
    assert TrimPrefix(item, number) == item by {
      FormatHasNoSpace(n);
      assert item[0] == ' ' && number[0] != ' ';
    }
    assert !IsReturn(item[|item| - 1]);
    ParseUndoesFormat(n);
  }

  lemma {:induction false} IndentIsTrimmed(n: int)
    ensures TrimSpace(" " + FormatInt(n) + " x") == FormatInt(n) + " x"
  {
    var item := " " + FormatInt(n) + " x";
    FormatHasNoSpace(n);
    assert item[1..] == FormatInt(n) + " x" && item[1..][0] == FormatInt(n)[0];
    assert TrimLeft(item, IsSpace) == FormatInt(n) + " x";
  }

  /** Lines without a number are skipped, and so are blank ones. */
  lemma {:induction false} SkippedIff(raw: string)
    ensures ParseLine(raw).None? <==>
              TrimSpace(raw) == "" || ParseInt64(NumberPart(TrimRight(raw, IsReturn))).None?
  {
    TrimmedReturns(raw);
  }

  // ---- Parsing whole outputs ----

  /** Only what is left after trailing returns are dropped matters to the parser. */
  lemma {:induction false} ParseIgnoresReturns(a: seq<string>, b: seq<string>)
    requires WithoutReturns(a) == WithoutReturns(b)
    ensures ParseLines(a) == ParseLines(b)
  {
    assert |a| == |WithoutReturns(a)| == |b|;
    forall i | 0 <= i < |a| ensures Parsed(a)[i] == Parsed(b)[i] {
      assert WithoutReturns(a)[i] == WithoutReturns(b)[i];
    }
    assert Parsed(a) == Parsed(b);
  }

  function Read(lines: seq<Line>): seq<Line> {
    seq(|lines|, i requires 0 <= i < |lines| => lines[i].(content := TrimRight(lines[i].content, IsReturn)))
  }

  lemma {:induction false} ParsePrintedLines(lines: seq<Line>)
    requires AllPrintable(lines)
    ensures ParseLines(PrintLines(lines)) == Read(lines)
  {
    forall i | 0 <= i < |lines| ensures Parsed(PrintLines(lines))[i] == Some(Read(lines)[i]) {
      assert Printable(lines[i]);
      ParsePrintedLine(lines[i]);
    }
    AllSome(Parsed(PrintLines(lines)), Read(lines));
  }

  /** The one ascending arrangement of strictly numbered lines. */
  lemma {:induction false} SortedIsUnique(lines: seq<Line>, other: seq<Line>)
    requires StrictlyNumbered(lines) && Collector.SortedLines(other) && multiset(other) == multiset(lines)
    ensures other == lines
  {
    assert |other| == |multiset(other)| == |multiset(lines)| == |lines|;
    if lines != [] {
      var n := |lines| - 1;
      assert lines[n] == other[n] by {
        LastIsGreatest(lines, other);
      }
      assert multiset(other[..n]) == multiset(lines[..n]) by {
        WithoutLast(lines);
        WithoutLast(other);
      }
      SortedIsUnique(lines[..n], other[..n]);
      assert lines == lines[..n] + [lines[n]] && other == other[..n] + [other[n]];
    }
  }

  lemma {:induction false} WithoutLast(s: seq<Line>)
    requires s != []
    ensures multiset(s[..|s| - 1]) == multiset(s) - multiset{s[|s| - 1]}
  {
    assert s == s[..|s| - 1] + [s[|s| - 1]];
  }

  lemma {:induction false} LastIsGreatest(lines: seq<Line>, other: seq<Line>)
    requires StrictlyNumbered(lines) && Collector.SortedLines(other) && multiset(other) == multiset(lines)
    requires |other| == |lines| > 0
    ensures other[|other| - 1] == lines[|lines| - 1]
  {
    var n := |lines| - 1;
    assert lines[n] in multiset(other);
    var i :| 0 <= i < |other| && other[i] == lines[n];
    assert lines[n].number <= other[n].number;
    forall k | 0 <= k < n ensures lines[k] != other[n] {
      assert lines[k].number < lines[n].number;
    }
    assert other[n] in multiset(lines);
  }

  lemma {:induction false} PrintedSplits(lines: seq<Line>)
    requires AllPrintable(lines) && lines != []
    ensures SplitLines(Print(lines)) == PrintLines(lines)
  {
    forall i | 0 <= i < |lines| ensures '\n' !in PrintLines(lines)[i] {
      assert Printable(lines[i]);
      HoldsNoNewline(lines[i]);
    }
    SplitUndoesJoin(PrintLines(lines));
  }

  lemma {:induction false} NothingIsRead()
    ensures ParseLines(SplitLines(ReplaceReturns(""))) == []
  {
    assert SplitLines("") == [""] && TrimRight("", IsReturn) == "" && TrimSpace("") == "";
    assert Parsed([""]) == [None];
  }

  /** Printing and reading give the same lines back, except that contents lose trailing returns. */
  lemma {:induction false} ReadUndoesPrint(lines: seq<Line>, parsed: seq<Line>)
    requires AllPrintable(lines) && StrictlyNumbered(lines) && ParsesTo(Print(lines), parsed)
    ensures parsed == Read(lines)
  {
    if lines == [] {
      NothingIsRead();
    } else {
      ReplacingReturnsKeepsLines(Print(lines));
      ParseIgnoresReturns(SplitLines(ReplaceReturns(Print(lines))), SplitLines(Print(lines)));
      PrintedSplits(lines);
      ParsePrintedLines(lines);
      SortedIsUnique(Read(lines), parsed);
    }
  }

  ghost predicate EndsInReturn(s: string) {
    s != "" && IsReturn(s[|s| - 1])
  }

  lemma {:induction false} TrimRightKeeps(s: string, cut: char -> bool)
    ensures TrimRight(s, cut) == s <==> s == "" || !cut(s[|s| - 1])
  {
    if s != "" && cut(s[|s| - 1]) {
      TrimRightIsPrefix(s[..|s| - 1], cut);
    }
  }

  /** The round trip is exact precisely when no content ends in a carriage return. */
  lemma {:induction false} RoundTripIff(lines: seq<Line>, parsed: seq<Line>)
    requires AllPrintable(lines) && StrictlyNumbered(lines) && ParsesTo(Print(lines), parsed)
    ensures parsed == lines <==> forall i :: 0 <= i < |lines| ==> !EndsInReturn(lines[i].content)
  {
    ReadUndoesPrint(lines, parsed);
    forall i | 0 <= i < |lines|
      ensures Read(lines)[i] == lines[i] <==> !EndsInReturn(lines[i].content)
    {
      TrimRightKeeps(lines[i].content, IsReturn);
    }
    if parsed == lines {
      forall i | 0 <= i < |lines| ensures !EndsInReturn(lines[i].content) {
        assert Read(lines)[i] == lines[i];
      }
    }
  }

  // ---- Through the SSH executor ----

  /** The executor trims the whole output, so the last content also loses trailing white space. */
  function ReadTrimmed(lines: seq<Line>): seq<Line>
    requires lines != []
  {
    var n := |lines| - 1;
    Read(lines[..n]) + [lines[n].(content := TrimRight(lines[n].content, IsSpace))]
  }

  /** What is left of the last printed line after trimming. */
  function TrimmedLast(l: Line): string {
    var content := TrimRight(l.content, IsSpace);
    if content == "" then FormatInt(l.number) else FormatInt(l.number) + "\t" + content
  }

  lemma {:induction false} JoinSnoc(lines: seq<string>, last: string)
    ensures JoinLines(lines + [last]) == if lines == [] then last else JoinLines(lines) + "\n" + last
  {
    if |lines| > 0 {
      assert (lines + [last])[1..] == lines[1..] + [last];
      JoinSnoc(lines[1..], last);
    }
  }

  lemma {:induction false} TrimAfterNumber(before: string, n: int)
    ensures TrimRight(before + FormatInt(n), IsSpace) == before + FormatInt(n)
  {
    FormatHasNoSpace(n);
    var s := before + FormatInt(n);
    assert s[|s| - 1] == FormatInt(n)[|FormatInt(n)| - 1];
  }

  lemma {:induction false} TrimAllSpace(before: string, blank: string)
    requires TrimRight(blank, IsSpace) == ""
    ensures TrimRight(before + blank, IsSpace) == TrimRight(before, IsSpace)
  {
    if blank == "" {
      assert before + blank == before;
    } else {
      var s := before + blank;
      assert s[..|s| - 1] == before + blank[..|blank| - 1];
      TrimAllSpace(before, blank[..|blank| - 1]);
    }
  }

  lemma {:induction false} TrimAfterContent(before: string, content: string)
    requires TrimRight(content, IsSpace) != ""
    ensures TrimRight(before + content, IsSpace) == before + TrimRight(content, IsSpace)
  {
    if IsSpace(content[|content| - 1]) {
      var s := before + content;
      assert s[..|s| - 1] == before + content[..|content| - 1];
      TrimAfterContent(before, content[..|content| - 1]);
    }
  }

  lemma {:induction false} TrimLastLine(before: string, l: Line)
    ensures TrimRight(before + PrintLine(l), IsSpace) == before + TrimmedLast(l)
  {
    var number, content := FormatInt(l.number), l.content;
    if TrimRight(content, IsSpace) == "" {
      TrimRightCons('\t', content, IsSpace);
      TrimAllSpace(before + number, "\t" + content);
      assert before + PrintLine(l) == (before + number) + ("\t" + content);
      TrimAfterNumber(before, l.number);
    } else {
      assert before + PrintLine(l) == (before + number + "\t") + content;
      TrimAfterContent(before + number + "\t", content);
      assert (before + number + "\t") + TrimRight(content, IsSpace) == before + TrimmedLast(l);
    }
  }

  lemma {:induction false} StartsWithNumber(lines: seq<Line>)
    requires lines != []
    ensures TrimLeft(Print(lines), IsSpace) == Print(lines)
  {
    FormatHasNoSpace(lines[0].number);
    assert PrintLines(lines)[0] == PrintLine(lines[0]);
  }

  lemma {:induction false} TrimmedPrint(lines: seq<Line>)
    requires lines != []
    ensures var n := |lines| - 1;
            TrimSpace(Print(lines)) == JoinLines(PrintLines(lines[..n]) + [TrimmedLast(lines[n])])
  {
    var front, last := lines[..|lines| - 1], lines[|lines| - 1];
    StartsWithNumber(lines);
    assert lines == front + [last];
    assert PrintLines(lines) == PrintLines(front) + [PrintLine(last)];
    JoinSnoc(PrintLines(front), PrintLine(last));
    JoinSnoc(PrintLines(front), TrimmedLast(last));
    if front == [] {
      assert "" + PrintLine(last) == PrintLine(last) && "" + TrimmedLast(last) == TrimmedLast(last);
      TrimLastLine("", last);
    } else {
      TrimLastLine(JoinLines(PrintLines(front)) + "\n", last);
    }
  }

  lemma {:induction false} ParseBareNumber(n: int)
    requires INT64_MIN <= n <= INT64_MAX
    ensures ParseLine(FormatInt(n)) == Some(Line(n, ""))
  {
    var s := FormatInt(n);
    FormatHasNoSpace(n);
    assert !IsReturn(s[|s| - 1]);
    NoTabInNumber(n);
    NumberIsTrimmed(n);
    WholeWord(s);
    ParseUndoesFormat(n);
  }

  lemma {:induction false} WholeWord(s: string)
    requires forall i :: 0 <= i < |s| ==> !IsSpace(s[i])
    ensures FirstWordOf(s) == s
  {
    if s != "" {
      WholeWord(s[1..]);
      assert [s[0]] + s[1..] == s;
    }
  }

  lemma {:induction false} ParseTrimmedLast(l: Line)
    requires INT64_MIN <= l.number <= INT64_MAX
    ensures ParseLine(TrimmedLast(l)) == Some(l.(content := TrimRight(l.content, IsSpace)))
  {
    var content := TrimRight(l.content, IsSpace);
    if content == "" {
      ParseBareNumber(l.number);
    } else {
      TrimRightIsPrefix(l.content, IsSpace);
      ParsePrintedLine(l.(content := content));
      assert TrimRight(content, IsReturn) == content;
    }
  }

  function TrimmedRaws(lines: seq<Line>): seq<string>
    requires lines != []
  {
    PrintLines(lines[..|lines| - 1]) + [TrimmedLast(lines[|lines| - 1])]
  }

  lemma {:induction false} HoldsNoNewline(l: Line)
    requires Printable(l)
    ensures '\n' !in PrintLine(l) && '\n' !in TrimmedLast(l)
  {
    NoTabInNumber(l.number);
    TrimRightIsPrefix(l.content, IsSpace);
  }

  lemma {:induction false} TrimmedPrintSplits(lines: seq<Line>)
    requires AllPrintable(lines) && lines != []
    ensures SplitLines(TrimSpace(Print(lines))) == TrimmedRaws(lines)
  {
    TrimmedRawsHoldNoNewline(lines);
    TrimmedPrint(lines);
    SplitUndoesJoin(TrimmedRaws(lines));
  }

  lemma {:induction false} TrimmedRawsHoldNoNewline(lines: seq<Line>)
    requires AllPrintable(lines) && lines != []
    ensures forall i :: 0 <= i < |TrimmedRaws(lines)| ==> '\n' !in TrimmedRaws(lines)[i]
  {
    forall i | 0 <= i < |lines| ensures '\n' !in PrintLine(lines[i]) && '\n' !in TrimmedLast(lines[i]) {
      assert Printable(lines[i]);
      HoldsNoNewline(lines[i]);
    }
  }

  lemma {:induction false} ParseTrimmedRaws(lines: seq<Line>)
    requires AllPrintable(lines) && lines != []
    ensures ParseLines(TrimmedRaws(lines)) == ReadTrimmed(lines)
  {
    var n, raws := |lines| - 1, TrimmedRaws(lines);
    forall i | 0 <= i <= n ensures Parsed(raws)[i] == Some(ReadTrimmed(lines)[i]) {
      assert Printable(lines[i]);
      if i < n {
        assert raws[i] == PrintLine(lines[i]);
        ParsePrintedLine(lines[i]);
      } else {
        ParseTrimmedLast(lines[n]);
      }
    }
    AllSome(Parsed(raws), ReadTrimmed(lines));
  }

  /** What reaches the collector through the executor: the printed lines, their contents without trailing returns, the
      last one without any trailing white space. */
  lemma {:induction false} ReadUndoesPrintThroughSsh(lines: seq<Line>, parsed: seq<Line>)
    requires AllPrintable(lines) && StrictlyNumbered(lines) && lines != []
    requires ParsesTo(TrimSpace(Print(lines)), parsed)
    ensures parsed == ReadTrimmed(lines)
  {
    var text := TrimSpace(Print(lines));
    TrimmedPrintSplits(lines);
    ReplacingReturnsKeepsLines(text);
    ParseIgnoresReturns(SplitLines(ReplaceReturns(text)), SplitLines(text));
    ParseTrimmedRaws(lines);
    SortedIsUnique(ReadTrimmed(lines), parsed);
  }

  ghost predicate EndsInSpace(s: string) {
    s != "" && IsSpace(s[|s| - 1])
  }

  /** Through the executor the round trip is exact precisely when no content ends in a carriage return and the last
      content does not end in white space. */
  lemma {:induction false} SshRoundTripIff(lines: seq<Line>, parsed: seq<Line>)
    requires AllPrintable(lines) && StrictlyNumbered(lines) && lines != []
    requires ParsesTo(TrimSpace(Print(lines)), parsed)
    ensures parsed == lines <==>
              (forall i :: 0 <= i < |lines| ==> !EndsInReturn(lines[i].content)) &&
              !EndsInSpace(lines[|lines| - 1].content)
  {
    var n := |lines| - 1;
    ReadUndoesPrintThroughSsh(lines, parsed);
    forall i | 0 <= i < n ensures ReadTrimmed(lines)[i] == lines[i] <==> !EndsInReturn(lines[i].content) {
      TrimRightKeeps(lines[i].content, IsReturn);
    }
    TrimRightKeeps(lines[n].content, IsSpace);
    assert ReadTrimmed(lines)[n] == lines[n] <==> !EndsInSpace(lines[n].content);
    assert EndsInReturn(lines[n].content) ==> EndsInSpace(lines[n].content);
    if parsed == lines {
      forall i | 0 <= i < |lines| ensures !EndsInReturn(lines[i].content) {
        assert ReadTrimmed(lines)[i] == lines[i];
      }
    }
  }
}
