/**
 The round trip of an issue body, whatever its summary is.

 A later field of a body overrides an earlier one of the same name, and the summary is printed last.  So what the
 parser makes of the five fields depends on what it finds from the summary on, and that is told here by the lines
 of the summary.
 */
module Summaries {
  import opened Base
  import opened IssueBody
  import opened BodyLines
  import opened LineFacts

  /** The body from the summary on. */
  function Section(f: Finding): string {
    FieldLine("Summary", SummaryLine(f.summary)) + ("\n" + Join(Tail(f.cve)))
  }

  /** The fields the parser finds there. */
  function Smuggled(f: Finding): seq<Field> { FieldsIn(Section(f)) }

  // ---------- a field line and what is below it ----------

  /** A field takes the first inked line behind its name, wherever that is. */
  lemma FieldReads(name: string, value: string, b: string)
    requires IsName(name) && b != "" && EndsInk(b)
    ensures var lines := InkLines(value) + InkLines(b);
            lines != [] && FieldsIn(FieldLine(name, value) + ("\n" + b)) ==
                           [Field(Key(name), lines[0])] + ReadLines(lines[1..])
  {
    var text := value + ("\n" + b);
    LinesConcat(value, b);
    HasLine(b);
    var w, v, tail, next := Split(text);
    ScanField(name, value, "\n" + b, w, v, tail, next);
    BehindEndsInk(value, b, w, v, tail + next);
    ScanPastSpace(tail + next);
    ScanReadsLines(tail + next);
    DropTail(tail, next);
    SameLines(tail + next, next);
  }

  lemma BehindEndsInk(value: string, b: string, w: string, v: string, after: string)
    requires b != "" && EndsInk(b) && value + ("\n" + b) == w + (v + after)
    ensures EndsInk(after)
  {
    BelowEndsInk(value, b);
    SuffixEndsInk(w, v + after);
    SuffixEndsInk(v, after);
  }

  /** A value that fits on a line is read stripped, and nothing below is lost. */
  lemma FittingReads(name: string, value: string, b: string)
    requires IsName(name) && Fieldable(value) && b != "" && EndsInk(b)
    ensures FieldsIn(FieldLine(name, value) + ("\n" + b)) ==
            [Field(Key(name), Strip(value))] + FieldsIn(b)
  {
    FieldReads(name, value, b);
    OneLineStrips(value);
    LineOf(value);
    ScanReadsLines(b);
    assert ([Strip(value)] + InkLines(b))[1..] == InkLines(b);
  }

  predicate Fits(f: Field) { IsName(f.name) && Fieldable(f.value) }

  lemma FieldOnTop(f: Field, b: string, found: seq<Field>)
    requires Fits(f) && b != "" && EndsInk(b) && FieldsIn(b) == found
    ensures var text := FieldLine(f.name, f.value) + ("\n" + b);
            text != "" && EndsInk(text) && FieldsIn(text) == [Entry(f)] + found
  {
    FittingReads(f.name, f.value, b);
    BelowEndsInk(FieldLine(f.name, f.value), b);
  }

  lemma {:induction false} FieldsRead(fields: seq<Field>, rest: string)
    requires (forall k :: 0 <= k < |fields| ==> Fits(fields[k])) && rest != "" && EndsInk(rest)
    ensures Lines(fields, rest) != "" && EndsInk(Lines(fields, rest))
    ensures FieldsIn(Lines(fields, rest)) == Read(fields) + FieldsIn(rest)
  {
    if fields == [] {
    } else {
      FieldsRead(fields[1..], rest);
      FieldOnTop(fields[0], Lines(fields[1..], rest), Read(fields[1..]) + FieldsIn(rest));
      FieldPrepends(Entry(fields[0]), Read(fields[1..]), FieldsIn(rest));
    }
  }

  lemma FieldPrepends(a: Field, b: seq<Field>, c: seq<Field>)
    ensures [a] + (b + c) == ([a] + b) + c
  {
  }

  lemma HeadingReads(b: string)
    requires b != "" && EndsInk(b)
    ensures FieldsIn("## Vulnerability" + ("\n" + b)) == FieldsIn(b)
  {
    BelowEndsInk("## Vulnerability", b);
    ScanReadsLines("## Vulnerability" + ("\n" + b));
    ScanReadsLines(b);
    LinesConcat("## Vulnerability", b);
    TitleIsTrimmed();
    TrimmedIsRead("## Vulnerability", InkLines(b));
  }

  lemma TitleIsTrimmed()
    ensures Trimmed("## Vulnerability") && "## Vulnerability"[0] != '-'
  {
    SpaceFacts();
  }

  /** The body is read as the five fields, followed by whatever the summary section holds. */
  lemma BodyReads(f: Finding)
    requires Filed(f)
    ensures FieldsIn(Body(f)) == Read(Fields(f)) + Smuggled(f)
  {
    BodyShape(f);
    SectionEndsInk(f);
    FieldNames();
    FieldsRead(Fields(f), Section(f));
    HeadingReads(Lines(Fields(f), Section(f)));
  }

  lemma {:induction false} JoinEndsInk(lines: seq<string>)
    requires lines != [] && lines[|lines| - 1] != "" && EndsInk(lines[|lines| - 1])
    ensures Join(lines) != "" && EndsInk(Join(lines))
  {
    if |lines| == 1 {
    } else {
      JoinEndsInk(lines[1..]);
      BelowEndsInk(lines[0], Join(lines[1..]));
    }
  }

  lemma TailEndsInk(cve: string)
    ensures Join(Tail(cve)) != "" && EndsInk(Join(Tail(cve)))
  {
    SpaceFacts();
    EndsInkBelow("*Filed automatically by the ", "nightly CVE scan workflow.*");
    JoinEndsInk(Tail(cve));
  }

  lemma SectionEndsInk(f: Finding)
    ensures Section(f) != "" && EndsInk(Section(f))
  {
    TailEndsInk(f.cve);
    BelowEndsInk(FieldLine("Summary", SummaryLine(f.summary)), Join(Tail(f.cve)));
  }

  lemma {:induction false} LookupBehind(a: seq<Field>, b: seq<Field>, name: string)
    ensures Lookup(a + b, name) == if Lookup(b, name).Some? then Lookup(b, name) else Lookup(a, name)
  {
    if b == [] {
      assert a + b == a;
    } else {
      assert (a + b)[..|a + b| - 1] == a + b[..|b| - 1];
      LookupBehind(a, b[..|b| - 1], name);
    }
  }

  lemma FiveEntries(f: Finding)
    ensures Read(Fields(f)) == [Field("cve", Strip(f.cve)), Field("package", Strip(f.package)),
                                Field("installed", Strip(f.installed)), Field("fix version", Strip(f.fix)),
                                Field("severity", Strip(f.severity))]
  {
    NamesLower();
    MoreNamesLower();
    EachOfFive(Entry, Field("CVE", f.cve), Field("Package", f.package), Field("Installed", f.installed),
               Field("Fix version", f.fix), Field("Severity", f.severity));
  }

  /** What is printed for a name, before the summary section has its say. */
  lemma LookupFive(f: Finding)
    ensures var r := Read(Fields(f));
            && Lookup(r, "cve") == Some(Strip(f.cve)) && Lookup(r, "package") == Some(Strip(f.package))
            && Lookup(r, "installed") == Some(Strip(f.installed)) && Lookup(r, "fix version") == Some(Strip(f.fix))
            && Lookup(r, "severity") == Some(Strip(f.severity))
  {
    FiveEntries(f);
    FirstFive(Read(Fields(f)), Strip(f.cve), Strip(f.package), Strip(f.installed), Strip(f.fix), Strip(f.severity));
  }

  lemma FirstFive(r: seq<Field>, cve: string, package: string, installed: string, fix: string, severity: string)
    requires r == [Field("cve", cve), Field("package", package), Field("installed", installed),
                   Field("fix version", fix), Field("severity", severity)]
    ensures Lookup(r, "cve") == Some(cve) && Lookup(r, "package") == Some(package)
    ensures Lookup(r, "installed") == Some(installed) && Lookup(r, "fix version") == Some(fix)
    ensures Lookup(r, "severity") == Some(severity)
  {
    LookupLast(r, 0);
    LookupLast(r, 1);
    LookupLast(r, 2);
    LookupLast(r, 3);
    LookupLast(r, 4);
  }

  /** The value read for a name: the section's if it has one, otherwise the finding's own. */
  function Reading(found: seq<Field>, name: string, own: string): string { Or(Lookup(found, name), own) }

  lemma FromBody(f: Finding, found: seq<Field>, url: string, number: int)
    requires FieldsIn(Body(f)) == Read(Fields(f)) + found
    ensures ParseIssue(Body(f), url, number) ==
            var cve, package := Reading(found, "cve", Strip(f.cve)), Reading(found, "package", Strip(f.package));
            if cve == "" || package == "" then None
            else Some(CveContext(cve, package, Reading(found, "installed", Strip(f.installed)),
                                 Reading(found, "fix version", Strip(f.fix)),
                                 Reading(found, "severity", Strip(f.severity)),
                                 Or(Lookup(Read(Fields(f)) + found, "summary"), ""), url, number))
  {
    LookupFive(f);
    LookupBehind(Read(Fields(f)), found, "cve");
    LookupBehind(Read(Fields(f)), found, "package");
    LookupBehind(Read(Fields(f)), found, "installed");
    LookupBehind(Read(Fields(f)), found, "fix version");
    LookupBehind(Read(Fields(f)), found, "severity");
  }

  // ---------- the lines of the summary ----------

  /** The lines below the summary: a heading first, and nothing behind it. */
  lemma TailLines(cve: string)
    requires OneLine(cve)
    ensures var lines := InkLines(Join(Tail(cve)));
            lines != [] && lines[0] == "## OSV link" && ReadLines(lines[1..]) == []
  {
    TailIsInert(cve);
    JoinedInert(Tail(cve));
    var below := Join(Tail(cve)[2..]);
    assert Tail(cve)[1..][1..] == Tail(cve)[2..];
    assert Join(Tail(cve)) == "" + ("\n" + ("## OSV link" + ("\n" + below)));
    LinesConcat("", "## OSV link" + ("\n" + below));
    LinesConcat("## OSV link", below);
    LinkHeadingLine();
    InertReadNothing(InkLines(Join(Tail(cve)))[1..]);
  }

  lemma HeadingTrimmed()
    ensures Trimmed("## OSV link") && Trimmed(NO_SUMMARY)
  {
    SpaceFacts();
  }

  lemma LinkHeadingLine()
    ensures InkLines("## OSV link") == ["## OSV link"]
  {
    HeadingTrimmed();
    TrimmedLine("## OSV link");
  }

  /** The inked lines from the summary on. */
  function Below(f: Finding): seq<string> { InkLines(SummaryLine(f.summary)) + InkLines(Join(Tail(f.cve))) }

  /** The summary section holds the summary, which is its first inked line, and the fields among the lines below. */
  lemma SmuggledLines(f: Finding)
    ensures Below(f) != [] && Smuggled(f) == [Field("summary", Below(f)[0])] + ReadLines(Below(f)[1..])
  {
    FieldNames();
    MoreNamesLower();
    TailEndsInk(f.cve);
    FieldReads("Summary", SummaryLine(f.summary), Join(Tail(f.cve)));
  }

  /** The lines of the first 300 characters of a summary below its first one, and the heading that follows. */
  function Further(summary: string): seq<string> {
    var lines := InkLines(Clipped(summary));
    (if lines == [] then [] else lines[1..]) + ["## OSV link"]
  }

  /** The first inked line from the summary on. */
  function FirstShown(summary: string): string {
    if summary == "" then NO_SUMMARY
    else if InkLines(Clipped(summary)) == [] then "## OSV link"
    else InkLines(Clipped(summary))[0]
  }

  lemma NoSummaryLine()
    ensures InkLines(NO_SUMMARY) == [NO_SUMMARY]
  {
    HeadingTrimmed();
    TrimmedLine(NO_SUMMARY);
  }

  lemma BelowSplits(lines: seq<string>, tail: seq<string>)
    requires tail != []
    ensures var below := lines + tail;
            if lines == [] then below[0] == tail[0] && below[1..] == tail[1..]
            else below[0] == lines[0] && below[1..] == (lines[1..] + [tail[0]]) + tail[1..]
  {
    assert tail == [tail[0]] + tail[1..];
    if lines == [] {
      assert lines + tail == tail;
    } else {
      assert (lines + tail)[1..] == lines[1..] + tail;
    }
  }

  lemma ReadBelow(lines: seq<string>, tail: seq<string>)
    requires tail != [] && tail[0] == "## OSV link" && ReadLines(tail[1..]) == []
    ensures ReadLines((lines + tail)[1..]) ==
            ReadLines((if lines == [] then [] else lines[1..]) + ["## OSV link"])
  {
    BelowSplits(lines, tail);
    assert "## OSV link"[0] == '#';
    if lines == [] {
      PlainReads("## OSV link", []);
      assert [] + ["## OSV link"] == ["## OSV link"];
    } else {
      NothingBelow(lines[1..] + [tail[0]], tail[1..]);
    }
  }

  /** The summary section, told by the lines of the summary alone. */
  lemma SmuggledFurther(f: Finding)
    requires OneLine(f.cve)
    ensures Smuggled(f) == [Field("summary", FirstShown(f.summary))] + ReadLines(Further(f.summary))
  {
    var lines, tail := InkLines(SummaryLine(f.summary)), InkLines(Join(Tail(f.cve)));
    SmuggledLines(f);
    TailLines(f.cve);
    BelowSplits(lines, tail);
    ReadBelow(lines, tail);
    SummaryLines(f.summary);
  }

  lemma SummaryLines(summary: string)
    ensures var lines := InkLines(SummaryLine(summary));
            && FirstShown(summary) == (if lines == [] then "## OSV link" else lines[0])
            && Further(summary) == (if lines == [] then [] else lines[1..]) + ["## OSV link"]
  {
    if Clipped(summary) == "" {
      NoSummaryLine();
      BlankHasNoLines("");
    }
  }

  lemma {:induction false} InertAboveHeading(lines: seq<string>)
    requires forall k :: 0 <= k < |lines| ==> Inert(lines[k])
    ensures ReadLines(lines + ["## OSV link"]) == []
  {
    assert "## OSV link"[0] == '#';
    if lines == [] {
      PlainReads("## OSV link", []);
      assert lines + ["## OSV link"] == ["## OSV link"];
    } else {
      var more := lines[1..] + ["## OSV link"];
      assert lines + ["## OSV link"] == [lines[0]] + more;
      InertIsNoItem(lines[0], more);
      ReadFirst(lines[0], more);
      InertAboveHeading(lines[1..]);
    }
  }

  predicate InertBelowFirst(lines: seq<string>) { forall k :: 1 <= k < |lines| ==> Inert(lines[k]) }

  lemma DropInert(lines: seq<string>)
    requires lines != [] && InertBelowFirst(lines)
    ensures forall k :: 0 <= k < |lines[1..]| ==> Inert(lines[1..][k])
  {
    forall k | 0 <= k < |lines[1..]| ensures Inert(lines[1..][k]) {
      assert Inert(lines[k + 1]);
    }
  }

  lemma FurtherReadsNothing(summary: string)
    requires InertBelowFirst(InkLines(Clipped(summary)))
    ensures ReadLines(Further(summary)) == []
  {
    if InkLines(Clipped(summary)) == [] {
      InertAboveHeading([]);
    } else {
      DropInert(InkLines(Clipped(summary)));
      InertAboveHeading(InkLines(Clipped(summary))[1..]);
    }
  }

  lemma FurtherIsTrimmed(summary: string)
    ensures TrimmedValues(ReadLines(Further(summary))) && Trimmed(FirstShown(summary))
  {
    HeadingTrimmed();
    InkIsAllTrimmed(Clipped(summary));
    ReadIsTrimmed(Further(summary));
  }

  // ---------- the round trip ----------

  /** What the parser makes of the body of a finding, whatever its summary. */
  function Parsed(f: Finding, found: seq<Field>, url: string, number: int): CveContext {
    CveContext(Reading(found, "cve", Strip(f.cve)), Reading(found, "package", Strip(f.package)),
               Reading(found, "installed", Strip(f.installed)), Reading(found, "fix version", Strip(f.fix)),
               Reading(found, "severity", Strip(f.severity)), Reading(found, "summary", FirstShown(f.summary)),
               url, number)
  }

  lemma OtherNames()
    ensures "cve" != "summary" && "package" != "summary" && "installed" != "summary"
    ensures "fix version" != "summary" && "severity" != "summary"
  {
    assert "package"[0] != "summary"[0];
  }

  lemma LookupPast(first: Field, rest: seq<Field>, name: string)
    requires first.name != name
    ensures Lookup([first] + rest, name) == Lookup(rest, name)
  {
    LookupBehind([first], rest, name);
    assert [first][..0] == [];
  }

  lemma ReadingPast(value: string, rest: seq<Field>, name: string, own: string)
    requires name != "summary"
    ensures Reading([Field("summary", value)] + rest, name, own) == Reading(rest, name, own)
  {
    LookupPast(Field("summary", value), rest, name);
  }

  lemma SummaryReading(five: seq<Field>, value: string, rest: seq<Field>)
    ensures Or(Lookup(five + ([Field("summary", value)] + rest), "summary"), "") == Reading(rest, "summary", value)
  {
    LookupBehind(five, [Field("summary", value)] + rest, "summary");
    LookupBehind([Field("summary", value)], rest, "summary");
    assert Lookup([Field("summary", value)], "summary") == Some(value);
  }

  lemma FromSection(f: Finding, value: string, rest: seq<Field>, url: string, number: int)
    requires FieldsIn(Body(f)) == Read(Fields(f)) + ([Field("summary", value)] + rest) && value == FirstShown(f.summary)
    requires Reading(rest, "cve", Strip(f.cve)) != "" && Reading(rest, "package", Strip(f.package)) != ""
    ensures ParseIssue(Body(f), url, number) == Some(Parsed(f, rest, url, number))
  {
    OtherNames();
    ReadingPast(value, rest, "cve", Strip(f.cve));
    ReadingPast(value, rest, "package", Strip(f.package));
    ReadingPast(value, rest, "installed", Strip(f.installed));
    ReadingPast(value, rest, "fix version", Strip(f.fix));
    ReadingPast(value, rest, "severity", Strip(f.severity));
    SummaryReading(Read(Fields(f)), value, rest);
    FromBody(f, [Field("summary", value)] + rest, url, number);
  }

  /** The body of any filed finding parses, and every field is told by the lines of the summary. */
  lemma ParsedByLines(f: Finding, url: string, number: int)
    requires Filed(f)
    ensures ParseIssue(Body(f), url, number) == Some(Parsed(f, ReadLines(Further(f.summary)), url, number))
  {
    var rest := ReadLines(Further(f.summary));
    BodyReads(f);
    SmuggledFurther(f);
    FurtherIsTrimmed(f.summary);
    LookupIsTrimmed(rest, "cve");
    LookupIsTrimmed(rest, "package");
    StripInk(f.cve);
    StripInk(f.package);
    FromSection(f, FirstShown(f.summary), rest, url, number);
  }

  // ---------- the five fields ----------

  /** The section says nothing about this name, or repeats the finding's own value last. */
  predicate Agrees(found: seq<Field>, name: string, own: string) {
    Lookup(found, name).None? || Lookup(found, name) == Some(own)
  }

  /** A reader of the summary's further lines finds nothing that overrides one of the five fields. */
  predicate Unforged(f: Finding) { SaysNothingElse(ReadLines(Further(f.summary)), f) }

  predicate SaysNothingElse(found: seq<Field>, f: Finding) {
    && Agrees(found, "cve", Strip(f.cve)) && Agrees(found, "package", Strip(f.package))
    && Agrees(found, "installed", Strip(f.installed)) && Agrees(found, "fix version", Strip(f.fix))
    && Agrees(found, "severity", Strip(f.severity))
  }

  predicate Survived(ctx: Option<CveContext>, f: Finding) {
    && ctx.Some? && ctx.value.cveId == Strip(f.cve) && ctx.value.package == Strip(f.package)
    && ctx.value.installed == Strip(f.installed) && ctx.value.fix == Strip(f.fix)
    && ctx.value.severity == Strip(f.severity)
  }

  lemma ReadingAgrees(found: seq<Field>, name: string, own: string)
    ensures Reading(found, name, own) == own <==> Agrees(found, name, own)
  {
  }

  lemma SurvivesIfAgrees(f: Finding, found: seq<Field>, url: string, number: int)
    ensures Survived(Some(Parsed(f, found, url, number)), f) <==> SaysNothingElse(found, f)
  {
    ReadingAgrees(found, "cve", Strip(f.cve));
    ReadingAgrees(found, "package", Strip(f.package));
    ReadingAgrees(found, "installed", Strip(f.installed));
    ReadingAgrees(found, "fix version", Strip(f.fix));
    ReadingAgrees(found, "severity", Strip(f.severity));
  }

  /** Whatever the summary is, the five fields survive the round trip exactly if no further line of it says something
      else about one of them. */
  lemma FieldsSurviveExactly(f: Finding, url: string, number: int)
    requires Filed(f)
    ensures Survived(ParseIssue(Body(f), url, number), f) <==> Unforged(f)
  {
    ParsedByLines(f, url, number);
    SurvivesIfAgrees(f, ReadLines(Further(f.summary)), url, number);
  }

  /** A filed finding with real versions is accepted by the handler's strict check. */
  lemma FiledIssueIsComplete(f: Finding, url: string, number: int)
    requires Filed(f) && Unforged(f) && url != ""
    ensures var ctx := ParseIssue(Body(f), url, number);
            ctx.Some? &&
            (Missing(ctx.value) == [] <==>
               !Placeholder(Strip(f.cve)) && !Placeholder(Strip(f.installed)) && !Placeholder(Strip(f.fix)))
  {
    FieldsSurviveExactly(f, url, number);
    StripInk(f.package);
  }

  /** A summary whose further lines are no list items forges nothing, and its first line is the summary. */
  lemma InertLinesAreUnforged(f: Finding, url: string, number: int)
    requires Filed(f) && InertBelowFirst(InkLines(Clipped(f.summary)))
    ensures Unforged(f) && ParseIssue(Body(f), url, number).Some?
    ensures ParseIssue(Body(f), url, number).value.summary == FirstShown(f.summary)
  {
    FurtherReadsNothing(f.summary);
    ParsedByLines(f, url, number);
  }

  lemma OneLineShown(summary: string)
    requires OneLine(Strip(Clipped(summary)))
    ensures FirstShown(summary) == SummaryBack(summary) && |InkLines(Clipped(summary))| <= 1
  {
    BlankOrLines(Clipped(summary));
    if !Blank(Clipped(summary)) {
      LineOf(Clipped(summary));
    }
  }

  lemma OneLineIsUnforged(f: Finding)
    requires OneLine(Strip(Clipped(f.summary)))
    ensures Unforged(f)
  {
    OneLineShown(f.summary);
    FurtherReadsNothing(f.summary);
  }

  // ---------- exactly when everything comes back ----------

  lemma ShownIsBack(summary: string)
    ensures OneLine(SummaryBack(summary)) ==> OneLine(Strip(Clipped(summary)))
  {
    if Blank(Clipped(summary)) {
      BlankStrips(Clipped(summary));
    }
  }

  lemma PrintedSplits(f: Finding)
    ensures Printed(f) == Read(Fields(f)) + [Field("summary", SummaryBack(f.summary))]
  {
    FiveEntries(f);
  }

  lemma SixExactly(five: seq<Field>, shown: string, rest: seq<Field>, back: string)
    ensures five + ([Field("summary", shown)] + rest) == five + [Field("summary", back)] <==>
            shown == back && rest == []
  {
    var a, b := [Field("summary", shown)] + rest, [Field("summary", back)];
    if five + a == five + b {
      assert a == (five + a)[|five|..] && b == (five + b)[|five|..];
      assert a[0] == b[0] && a[1..] == rest;
    }
  }

  /** Scanning a printed body finds the six fields, in order, and nothing else, exactly if the ink of the first 300
      characters of the summary is on one line. */
  lemma ScanBodyExactly(f: Finding)
    requires Filed(f)
    ensures FieldsIn(Body(f)) == Printed(f) <==> OneLine(Strip(Clipped(f.summary)))
  {
    BodyReads(f);
    SmuggledFurther(f);
    PrintedSplits(f);
    SixExactly(Read(Fields(f)), FirstShown(f.summary), ReadLines(Further(f.summary)), SummaryBack(f.summary));
    ShownExactly(f.summary);
  }

  lemma ShownExactly(summary: string)
    ensures FirstShown(summary) == SummaryBack(summary) && ReadLines(Further(summary)) == [] <==>
            OneLine(Strip(Clipped(summary)))
  {
    FurtherIsTrimmed(summary);
    ShownIsBack(summary);
    if OneLine(Strip(Clipped(summary))) {
      OneLineShown(summary);
      FurtherReadsNothing(summary);
    }
  }

  /** Parsing it gives back every field of the finding, stripped, under the same condition. */
  lemma RoundTripExactly(f: Finding, url: string, number: int)
    requires Filed(f)
    ensures ParseIssue(Body(f), url, number) ==
              Some(CveContext(Strip(f.cve), Strip(f.package), Strip(f.installed), Strip(f.fix), Strip(f.severity),
                              SummaryBack(f.summary), url, number))
            <==> OneLine(Strip(Clipped(f.summary)))
  {
    ParsedByLines(f, url, number);
    FurtherIsTrimmed(f.summary);
    LookupIsTrimmed(ReadLines(Further(f.summary)), "summary");
    ShownIsBack(f.summary);
    if OneLine(Strip(Clipped(f.summary))) {
      OneLineShown(f.summary);
      FurtherReadsNothing(f.summary);
    }
  }

  lemma ClippedIs(summary: string)
    ensures Clipped(summary) == summary[..if |summary| < 300 then |summary| else 300]
  {
    assert |summary| < 300 ==> summary[..|summary|] == summary;
  }

  /** A finding without a summary is printed and read back with the words for that. */
  lemma EmptySummaryReads(f: Finding, url: string, number: int)
    requires Filed(f) && f.summary == ""
    ensures var ctx := ParseIssue(Body(f), url, number);
            ctx.Some? && ctx.value.summary == "(no summary provided by OSV)"
  {
    ParsedByLines(f, url, number);
    assert InkLines(Clipped("")) == [];
    FurtherReadsNothing("");
  }

  /** The parser returns the stripped first 300 characters of the summary exactly if they hold ink, all of it on one
      line. */
  lemma SummarySurvivesExactly(f: Finding, url: string, number: int)
    requires Filed(f)
    ensures var ctx := ParseIssue(Body(f), url, number);
            var shown := f.summary[..if |f.summary| < 300 then |f.summary| else 300];
            ctx.Some? && (ctx.value.summary == Strip(shown) <==> !Blank(shown) && OneLine(Strip(shown)))
  {
    ClippedIs(f.summary);
    ParsedByLines(f, url, number);
    FurtherIsTrimmed(f.summary);
    LookupIsTrimmed(ReadLines(Further(f.summary)), "summary");
    if Blank(Clipped(f.summary)) {
      BlankStrips(Clipped(f.summary));
    } else if OneLine(Strip(Clipped(f.summary))) {
      OneLineShown(f.summary);
      FurtherReadsNothing(f.summary);
    }
  }

  // ---------- a summary that forges a version ----------

  lemma ForgedLines(summary: string, first: string, version: string)
    requires Fieldable(first) && Fieldable(version)
    requires summary == first + ("\n" + FieldLine("Fix version", version)) && |summary| <= 300
    ensures ReadLines(Further(summary)) == [Field("fix version", Strip(version))]
    ensures FirstShown(summary) == Strip(first)
  {
    var line := FieldLine("Fix version", version);
    LinesConcat(first, line);
    OneLineStrips(first);
    LineOf(first);
    assert ([Strip(first)] + InkLines(line))[1..] == InkLines(line);
    FieldNames();
    MoreNamesLower();
    HeadingEndsInk();
    HeadingHoldsNothing();
    LinkHeadingLine();
    ReadAbove("Fix version", version, "## OSV link");
  }

  lemma HeadingEndsInk()
    ensures EndsInk("## OSV link")
  {
    HeadingTrimmed();
  }

  lemma HeadingHoldsNothing()
    ensures FieldsIn("## OSV link") == []
  {
    HeadingEndsInk();
    ScanReadsLines("## OSV link");
    LinkHeadingLine();
    InertAboveHeading([]);
    assert [] + ["## OSV link"] == ["## OSV link"];
  }

  lemma ReadAbove(name: string, value: string, below: string)
    requires IsName(name) && Fieldable(value) && below != "" && EndsInk(below) && FieldsIn(below) == []
    ensures ReadLines(InkLines(FieldLine(name, value)) + InkLines(below)) == [Field(Key(name), Strip(value))]
  {
    var text := FieldLine(name, value) + ("\n" + below);
    LinesConcat(FieldLine(name, value), below);
    BelowEndsInk(FieldLine(name, value), below);
    ScanReadsLines(text);
    FittingReads(name, value, below);
  }

  lemma OneFound(version: string)
    ensures var found := [Field("fix version", version)];
            && Lookup(found, "fix version") == Some(version) && Lookup(found, "cve").None?
            && Lookup(found, "package").None? && Lookup(found, "installed").None? && Lookup(found, "severity").None?
  {
    var found := [Field("fix version", version)];
    assert found[..0] == [];
    assert "package"[0] != "fix version"[0] && "installed"[0] != "fix version"[0] && "severity"[0] != "fix version"[0];
  }

  lemma ForgedParse(f: Finding, version: string, url: string, number: int)
    ensures var ctx := Parsed(f, [Field("fix version", version)], url, number);
            && ctx.fix == version && ctx.cveId == Strip(f.cve) && ctx.package == Strip(f.package)
            && (Survived(Some(ctx), f) <==> version == Strip(f.fix))
  {
    OneFound(version);
  }

  /** A finding that names its fix version once more, on a second line of its summary, gets that version: it is
      what the handler reads, and what Devin is asked to install. */
  lemma SummaryForgesVersion(f: Finding, first: string, version: string, url: string, number: int)
    requires Filed(f) && Fieldable(first) && Fieldable(version)
    requires f.summary == first + ("\n" + FieldLine("Fix version", version)) && |f.summary| <= 300
    ensures var ctx := ParseIssue(Body(f), url, number);
            && ctx.Some? && ctx.value.fix == Strip(version)
            && ctx.value.cveId == Strip(f.cve) && ctx.value.package == Strip(f.package)
            && (Survived(ctx, f) <==> Strip(version) == Strip(f.fix))
  {
    ForgedLines(f.summary, first, version);
    ParsedByLines(f, url, number);
    ForgedParse(f, Strip(version), url, number);
  }
}
