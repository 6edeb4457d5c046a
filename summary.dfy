/**
 * `ProcessingState.formatSummary()`: a Java text block filled with the four
 * counters by `formatted`, and a reader for that text.
 */
module Summary {
  import opened Wrappers
  import Decimal
  import opened Processing

  /**
   * The text block's fixed opening: an empty line, the title and a separator
   * of sixteen '=' (the block's common indentation is stripped by Java).
   */
  const Header: string := "\nOperation Summary:\n================\n"

  const TotalLabel: string := "Total files found: "
  const CopiedLabel: string := "Files copied: "
  const SkippedLabel: string := "Files skipped: "
  const ErrorsLabel: string := "Files with errors: "

  /** One `caption %d` line of the block, with its line break. */
  function Field(caption: string, n: int): string {
    caption + Decimal.Render(n) + "\n"
  }

  /** The text block filled with four numbers: total, copied, skipped and errors, in that order. */
  function SummaryText(total: int, copied: int, skipped: int, errors: int): string {
    Header + (Field(TotalLabel, total) + (Field(CopiedLabel, copied)
      + (Field(SkippedLabel, skipped) + Field(ErrorsLabel, errors))))
  }

  /**
   * `formatSummary()`: the header, then one labelled line per counter.
   * Reading the text back yields the total, copied, skipped and error
   * counters, so each is printed under its own label and in this order.
   */
  function FormatSummary(s: ProcessingState): (r: string)
    ensures HasPrefix(r, Header)
    ensures ParseSummary(r) == Some(Counts(s.totalFiles, s.copiedFiles, s.skippedFiles, s.errorFiles))
  {
    ParseSummaryText(s.totalFiles, s.copiedFiles, s.skippedFiles, s.errorFiles);
    SummaryText(s.totalFiles, s.copiedFiles, s.skippedFiles, s.errorFiles)
  }

  /** The four numbers a summary reports, in the order they are printed. */
  datatype Counts = Counts(total: int, copied: int, skipped: int, errors: int)

  /** Splits off the text before the first line break, and the text after it. */
  function TakeLine(s: string): (r: Option<(string, string)>)
    ensures r.Some? ==> |r.value.1| < |s|
  {
    if s == [] then None
    else if s[0] == '\n' then Some(([], s[1..]))
    else
      match TakeLine(s[1..])
      case None => None
      case Some((line, rest)) => Some(([s[0]] + line, rest))
  }

  /** `s` is `prefix` followed by something. */
  predicate HasPrefix(s: string, prefix: string) {
    |prefix| <= |s| && s[..|prefix|] == prefix
  }

  /** Reads one line made of `caption` and a decimal number, and returns the rest. */
  function ReadField(caption: string, s: string): Option<(int, string)> {
    if !HasPrefix(s, caption) then None
    else
      match TakeLine(s[|caption|..])
      case None => None
      case Some((digits, rest)) =>
        match Decimal.Parse(digits)
        case None => None
        case Some(n) => Some((n, rest))
  }

  /** Reads a summary back into its four numbers; any other text is refused. */
  function ParseSummary(text: string): Option<Counts> {
    if !HasPrefix(text, Header) then None
    else
      match ReadField(TotalLabel, text[|Header|..])
      case None => None
      case Some((total, r1)) =>
        match ReadField(CopiedLabel, r1)
        case None => None
        case Some((copied, r2)) =>
          match ReadField(SkippedLabel, r2)
          case None => None
          case Some((skipped, r3)) =>
            match ReadField(ErrorsLabel, r3)
            case None => None
            case Some((errors, r4)) =>
              if r4 == [] then Some(Counts(total, copied, skipped, errors)) else None
  }

  lemma {:induction false} TakeLineOf(line: string, rest: string)
    requires '\n' !in line
    ensures TakeLine(line + "\n" + rest) == Some((line, rest))
  {
    var s := line + "\n" + rest;
    if line == [] {
      assert s[1..] == rest;
    } else {
      assert s[1..] == line[1..] + "\n" + rest;
      TakeLineOf(line[1..], rest);
      assert [line[0]] + line[1..] == line;
    }
  }

  lemma ReadFieldOf(caption: string, n: int, rest: string)
    ensures ReadField(caption, Field(caption, n) + rest) == Some((n, rest))
  {
    var digits := Decimal.Render(n);
    var s := Field(caption, n) + rest;
    assert s[..|caption|] == caption;
    assert s[|caption|..] == digits + "\n" + rest;
    assert '\n' !in digits by {
      forall i | 0 <= i < |digits| ensures digits[i] != '\n' { }
    }
    TakeLineOf(digits, rest);
    Decimal.ParseRender(n);
  }

  /** Reading back a filled text block gives the four numbers it was filled with. */
  lemma ParseSummaryText(total: int, copied: int, skipped: int, errors: int)
    ensures HasPrefix(SummaryText(total, copied, skipped, errors), Header)
    ensures ParseSummary(SummaryText(total, copied, skipped, errors)) == Some(Counts(total, copied, skipped, errors))
  {
    var f4 := Field(ErrorsLabel, errors);
    var f3 := Field(SkippedLabel, skipped) + f4;
    var f2 := Field(CopiedLabel, copied) + f3;
    var f1 := Field(TotalLabel, total) + f2;
    var text := SummaryText(total, copied, skipped, errors);
    assert text == Header + f1;
    assert text[..|Header|] == Header;
    assert text[|Header|..] == f1;
    ReadFieldOf(TotalLabel, total, f2);
    ReadFieldOf(CopiedLabel, copied, f3);
    ReadFieldOf(SkippedLabel, skipped, f4);
    ReadFieldOf(ErrorsLabel, errors, []);
    assert f4 + [] == f4;
  }

  /** Whatever `TakeLine` splits off is a line of `s`, and `s` is put back together from the parts. */
  lemma {:induction false} TakeLineInverse(s: string)
    requires TakeLine(s).Some?
    ensures '\n' !in TakeLine(s).value.0
    ensures s == TakeLine(s).value.0 + "\n" + TakeLine(s).value.1
  {
    if s[0] != '\n' {
      TakeLineInverse(s[1..]);
      var (line, rest) := TakeLine(s[1..]).value;
      assert s == [s[0]] + s[1..];
      assert [s[0]] + line + "\n" + rest == [s[0]] + (line + "\n" + rest);
    }
  }

  /** A line `ReadField` accepts is exactly the one `Field` writes for the number read. */
  lemma ReadFieldInverse(caption: string, s: string)
    requires ReadField(caption, s).Some?
    ensures s == Field(caption, ReadField(caption, s).value.0) + ReadField(caption, s).value.1
  {
    var tail := s[|caption|..];
    TakeLineInverse(tail);
    var (digits, rest) := TakeLine(tail).value;
    Decimal.RenderParse(digits);
    assert s == caption + tail;
  }

  /** A text the reader accepts is the text block filled with the numbers it reads. */
  lemma SummaryTextOfParse(text: string)
    requires ParseSummary(text).Some?
    ensures var c := ParseSummary(text).value; text == SummaryText(c.total, c.copied, c.skipped, c.errors)
  {
    var r0 := text[|Header|..];
    assert text == Header + r0;
    ReadFieldInverse(TotalLabel, r0);
    var (total, r1) := ReadField(TotalLabel, r0).value;
    ReadFieldInverse(CopiedLabel, r1);
    var (copied, r2) := ReadField(CopiedLabel, r1).value;
    ReadFieldInverse(SkippedLabel, r2);
    var (skipped, r3) := ReadField(SkippedLabel, r2).value;
    ReadFieldInverse(ErrorsLabel, r3);
    var (errors, r4) := ReadField(ErrorsLabel, r3).value;
    assert r4 == [];
    assert Field(ErrorsLabel, errors) + r4 == Field(ErrorsLabel, errors);
  }

  /**
   * `formatSummary()` is the ONLY text the reader maps to a state's four
   * counters: every counter is written exactly as `%d` writes it.
   */
  lemma ParseSummaryIffFormatSummary(s: ProcessingState, text: string)
    ensures ParseSummary(text) == Some(Counts(s.totalFiles, s.copiedFiles, s.skippedFiles, s.errorFiles))
            <==> text == FormatSummary(s)
  {
    if ParseSummary(text) == Some(Counts(s.totalFiles, s.copiedFiles, s.skippedFiles, s.errorFiles)) {
      SummaryTextOfParse(text);
    }
  }

  /** The summary depends on the four counters only, not on the recorded results. */
  lemma FormatSummaryIgnoresResults(s: ProcessingState, t: ProcessingState)
    requires s.totalFiles == t.totalFiles && s.copiedFiles == t.copiedFiles
    requires s.skippedFiles == t.skippedFiles && s.errorFiles == t.errorFiles
    ensures FormatSummary(s) == FormatSummary(t)
  {
  }

  /** Two states print the same summary only if their four counters agree. */
  lemma FormatSummaryInjective(s: ProcessingState, t: ProcessingState)
    ensures FormatSummary(s) == FormatSummary(t) ==>
      s.totalFiles == t.totalFiles && s.copiedFiles == t.copiedFiles
      && s.skippedFiles == t.skippedFiles && s.errorFiles == t.errorFiles
  {
  }
}
