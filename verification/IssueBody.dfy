/**
 The issue body: printed by file_issues.py, read back by app/prompts/cve.py.

 The parser is the multi-line pattern

     ^\s*-\s*\*\*([A-Za-z ]+):\*\*\s*(.+?)\s*$

 applied with finditer.  `FieldPattern` follows its matching step by step: every part but the
 value is forced, so the only choices left are the ones spelled out in `MatchValue`.
 */
module IssueBody {
  import opened Base

  // ---------- characters and trimming ----------

  predicate InRanges(c: int, ranges: seq<(int, int)>) {
    ranges != [] && (ranges[0].0 <= c <= ranges[0].1 || InRanges(c, ranges[1..]))
  }

  const SPACES := [(9, 13), (28, 32), (0x85, 0x85), (0xA0, 0xA0), (0x1680, 0x1680), (0x2000, 0x200A),
                   (0x2028, 0x2029), (0x202F, 0x202F), (0x205F, 0x205F), (0x3000, 0x3000)]

  /** Python's str.isspace, which both the pattern's whitespace class and strip() use. */
  predicate IsSpace(c: char) { InRanges(c as int, SPACES) }

  lemma {:induction false} InRangesHas(c: int, ranges: seq<(int, int)>, k: nat)
    requires k < |ranges| && ranges[k].0 <= c <= ranges[k].1
    ensures InRanges(c, ranges)
  {
    if k == 0 {
    } else {
      InRangesHas(c, ranges[1..], k - 1);
    }
  }

  lemma {:induction false} NotInRanges(c: int, ranges: seq<(int, int)>)
    requires forall k :: 0 <= k < |ranges| ==> !(ranges[k].0 <= c <= ranges[k].1)
    ensures !InRanges(c, ranges)
  {
    if ranges == [] {
    } else {
      NotInRanges(c, ranges[1..]);
    }
  }

  /** The whitespace characters, one by one. */
  lemma SpacesAre(c: char)
    ensures IsSpace(c) <==>
              var n := c as int;
              || 9 <= n <= 13 || 28 <= n <= 32 || n == 0x85 || n == 0xA0 || n == 0x1680 || 0x2000 <= n <= 0x200A
              || n == 0x2028 || n == 0x2029 || n == 0x202F || n == 0x205F || n == 0x3000
  {
    if k :| 0 <= k < |SPACES| && SPACES[k].0 <= c as int <= SPACES[k].1 {
      InRangesHas(c as int, SPACES, k);
    } else {
      NotInRanges(c as int, SPACES);
      assert SPACES[0] == (9, 13) && SPACES[1] == (28, 32) && SPACES[2] == (0x85, 0x85) && SPACES[3] == (0xA0, 0xA0);
      assert SPACES[4] == (0x1680, 0x1680) && SPACES[5] == (0x2000, 0x200A) && SPACES[6] == (0x2028, 0x2029);
      assert SPACES[7] == (0x202F, 0x202F) && SPACES[8] == (0x205F, 0x205F) && SPACES[9] == (0x3000, 0x3000);
    }
  }

  lemma SpaceFacts()
    ensures IsSpace(' ') && IsSpace('\n')
    ensures forall c: char :: 32 < c as int < 0x85 ==> !IsSpace(c)
  {
    InRangesHas(' ' as int, SPACES, 1);
    InRangesHas('\n' as int, SPACES, 0);
    forall c: char | 32 < c as int < 0x85 ensures !IsSpace(c) {
      NotInRanges(c as int, SPACES);
    }
  }

  predicate Blank(s: string) {
    forall i :: 0 <= i < |s| ==> IsSpace(s[i])
  }

  predicate OneLine(s: string) {
    forall i :: 0 <= i < |s| ==> s[i] != '\n'
  }

  predicate StartsInk(s: string) {
    s == "" || !IsSpace(s[0])
  }

  /** Length of the leading whitespace. */
  function Indent(s: string): (n: nat)
    ensures n <= |s| && Blank(s[..n])
    ensures n < |s| ==> !IsSpace(s[n])
  {
    if s == "" || !IsSpace(s[0]) then 0
    else
      var n := Indent(s[1..]);
      assert s[..n + 1] == [s[0]] + s[1..][..n];
      n + 1
  }

  function DropSpace(s: string): string { s[Indent(s)..] }

  /** Length without the trailing whitespace. */
  function Ink(s: string): (n: nat)
    ensures n <= |s| && Blank(s[n..])
    ensures n > 0 ==> !IsSpace(s[n - 1])
  {
    if s == "" then 0
    else if IsSpace(s[|s| - 1]) then
      var n := Ink(s[..|s| - 1]);
      assert s[n..] == s[..|s| - 1][n..] + [s[|s| - 1]];
      n
    else |s|
  }

  function Strip(s: string): string {
    var t := DropSpace(s);
    t[..Ink(t)]
  }

  /** Length of the first line. */
  function LineLen(s: string): (n: nat)
    ensures n <= |s| && OneLine(s[..n])
    ensures n < |s| ==> s[n] == '\n'
  {
    if s == "" || s[0] == '\n' then 0
    else
      var n := LineLen(s[1..]);
      assert s[..n + 1] == [s[0]] + s[1..][..n];
      n + 1
  }

  function LowerChar(c: char): char {
    if 'A' <= c <= 'Z' then (c as int + 32) as char
    else if c == '\U{212A}' then 'k'   // the Kelvin sign, the only other character that lowers to ASCII
    else c
  }

  function Lower(s: string): (t: string)
    ensures |t| == |s|
  {
    seq(|s|, i requires 0 <= i < |s| => LowerChar(s[i]))
  }

  // ---------- the pattern ----------

  predicate NameChar(c: char) {
    'A' <= c <= 'Z' || 'a' <= c <= 'z' || c == ' '
  }

  function NameLen(s: string): (n: nat)
    ensures n <= |s| && forall i :: 0 <= i < n ==> NameChar(s[i])
    ensures n < |s| ==> !NameChar(s[n])
  {
    if s == "" || !NameChar(s[0]) then 0 else 1 + NameLen(s[1..])
  }

  /** A match: the two groups, the text left to search, and whether that text starts a line. */
  datatype Found = NotFound | Found(name: string, value: string, atLineStart: bool, rest: string)

  /** Position of the last newline in the leading whitespace. */
  function LastBreak(s: string, n: nat): (k: nat)
    requires n <= |s|
    ensures k <= n
    ensures k < n ==> s[k] == '\n'
    ensures k == n ==> OneLine(s[..n])
  {
    if n == 0 then 0
    else if s[n - 1] == '\n' then n - 1
    else
      var k := LastBreak(s, n - 1);
      if k == n - 1 then (assert s[..n] == s[..n - 1] + [s[n - 1]]; n) else k
  }

  /** Where the closing `\s*$` stops after the value: at the end of the text if only whitespace is
      left, otherwise at the last line break before more ink. */
  function MatchEnd(name: string, value: string, after: string): (f: Found)
    ensures f.Found? && f.name == name && f.value == value && |f.rest| <= |after|
  {
    var n := Indent(after);
    if n == |after| then Found(name, value, false, "")
    else
      var k := LastBreak(after, n);
      Found(name, value, k > 0 && after[k - 1] == '\n', after[k..])
  }

  /** `\s*(.+?)\s*$` after the name.  Leading whitespace, line breaks included, is skipped; then the
      rest of that line is the value.  If nothing but whitespace is left, the first `\s*` gives back
      one character that is not a line break, and the value strips to nothing. */
  function MatchValue(name: string, s: string): (f: Found)
    ensures f.Found? ==> |f.rest| <= |s|
  {
    var t := DropSpace(s);
    if t != "" then
      var n := Ink(t[..LineLen(t)]);
      MatchEnd(name, t[..n], t[n..])
    else if exists i :: 0 <= i < |s| && s[i] != '\n' then Found(name, "", false, "")
    else NotFound
  }

  /** The pattern, part by part.  Each part but the value takes as much as it can, and giving any of
      it back never helps: what follows whitespace or a name cannot start with more of the same. */
  datatype Pattern = Spaces(then_: Pattern) | Text(text: string, then_: Pattern) | Name(then_: Pattern) | Value

  const FROM_NAME := Name(Text(":**", Value))
  const FROM_DASH := Text("-", Spaces(Text("**", FROM_NAME)))

  function Match(p: Pattern, name: string, s: string): (f: Found)
    ensures f.Found? ==> |f.rest| <= |s|
  {
    match p
    case Spaces(q) => Match(q, name, DropSpace(s))
    case Text(text, q) => if text <= s then Match(q, name, s[|text|..]) else NotFound
    case Name(q) => if NameLen(s) == 0 then NotFound else Match(q, s[..NameLen(s)], s[NameLen(s)..])
    case Value => MatchValue(name, s)
  }

  function FieldPattern(s: string): (f: Found)
    ensures f.Found? ==> |f.rest| < |s|
  {
    assert Match(FROM_DASH, "", DropSpace(s)).Found? ==> "-" <= DropSpace(s);
    Match(Spaces(FROM_DASH), "", s)
  }

  /** A pattern tried at one place of the text. */
  type Matcher = m: string -> Found | forall s :: m(s).Found? ==> |m(s).rest| < |s| witness s => NotFound

  function Key(name: string): string { Lower(Strip(name)) }

  datatype Field = Field(name: string, value: string)

  /** finditer, from a position that starts a line or not. */
  function Scan(m: Matcher, atLineStart: bool, s: string): seq<Field>
    decreases |s|
  {
    if s == "" then []
    else if atLineStart && m(s).Found? then
      [Field(Key(m(s).name), m(s).value)] + Scan(m, m(s).atLineStart, m(s).rest)
    else Scan(m, s[0] == '\n', s[1..])
  }

  /** A later line overrides an earlier one of the same name. */
  function Lookup(fields: seq<Field>, name: string): Option<string> {
    if fields == [] then None
    else if fields[|fields| - 1].name == name then Some(fields[|fields| - 1].value)
    else Lookup(fields[..|fields| - 1], name)
  }

  datatype CveContext = CveContext(
    cveId: string,
    package: string,
    installed: string,
    fix: string,
    severity: string,
    summary: string,
    issueUrl: string,
    issueNumber: int)

  function Or(o: Option<string>, otherwise: string): string {
    if o.Some? then o.value else otherwise
  }

  /** The fields of a text, in their order. */
  function FieldsIn(body: string): seq<Field> { Scan(FieldPattern, true, body) }

  function ParseIssue(body: string, url: string, number: int): Option<CveContext> {
    FromFields(FieldsIn(body), url, number)
  }

  function FromFields(fields: seq<Field>, url: string, number: int): Option<CveContext> {
    var cve, package := Or(Lookup(fields, "cve"), ""), Or(Lookup(fields, "package"), "");
    if cve == "" || package == "" then None
    else Some(CveContext(cve, package,
                         Or(Lookup(fields, "installed"), ""),
                         Or(Lookup(fields, "fix version"), ""),
                         Or(Lookup(fields, "severity"), "UNKNOWN"),
                         Or(Lookup(fields, "summary"), ""),
                         url, number))
  }

  /** The last field of this name holds this value; `otherwise` if there is no such field. */
  ghost predicate Gives(fields: seq<Field>, name: string, value: string, otherwise: string) {
    || (exists k :: LastNamed(fields, name, k) && fields[k].value == value)
    || ((forall k :: 0 <= k < |fields| ==> fields[k].name != name) && value == otherwise)
  }

  predicate LastNamed(fields: seq<Field>, name: string, k: int) {
    0 <= k < |fields| && fields[k].name == name && forall j :: k < j < |fields| ==> fields[j].name != name
  }

  lemma GivesStays(fields: seq<Field>, f: Field, name: string, value: string, otherwise: string)
    requires Gives(fields, name, value, otherwise) && f.name != name
    ensures Gives(fields + [f], name, value, otherwise)
  {
    if k :| LastNamed(fields, name, k) && fields[k].value == value {
      assert LastNamed(fields + [f], name, k);
    }
  }

  lemma {:induction false} LookupGives(fields: seq<Field>, name: string, otherwise: string)
    ensures Gives(fields, name, Or(Lookup(fields, name), otherwise), otherwise)
  {
    if fields == [] {
    } else if fields[|fields| - 1].name == name {
      assert LastNamed(fields, name, |fields| - 1);
    } else {
      var init := fields[..|fields| - 1];
      LookupGives(init, name, otherwise);
      GivesStays(init, fields[|fields| - 1], name, Or(Lookup(init, name), otherwise), otherwise);
      assert fields == init + [fields[|fields| - 1]];
    }
  }

  /** What is made of the fields of a body: of each name the last one counts, a missing severity is unknown, other
      missing fields are empty, and without an id or a package there is no finding. */
  lemma ParsesExactly(body: string, url: string, number: int)
    ensures var fields, ctx := FieldsIn(body), ParseIssue(body, url, number);
            if ctx.None? then Gives(fields, "cve", "", "") || Gives(fields, "package", "", "")
            else
              && Gives(fields, "cve", ctx.value.cveId, "") && ctx.value.cveId != ""
              && Gives(fields, "package", ctx.value.package, "") && ctx.value.package != ""
              && Gives(fields, "installed", ctx.value.installed, "") && Gives(fields, "fix version", ctx.value.fix, "")
              && Gives(fields, "severity", ctx.value.severity, "UNKNOWN")
              && Gives(fields, "summary", ctx.value.summary, "")
              && ctx.value.issueUrl == url && ctx.value.issueNumber == number
  {
    var fields := FieldsIn(body);
    LookupGives(fields, "cve", "");
    LookupGives(fields, "package", "");
    LookupGives(fields, "installed", "");
    LookupGives(fields, "fix version", "");
    LookupGives(fields, "severity", "UNKNOWN");
    LookupGives(fields, "summary", "");
  }

  // ---------- refusing placeholders ----------

  predicate Placeholder(s: string) {
    Lower(s) in {"latest", "unknown", "", "n/a", "tbd"}
  }

  function AddIf(names: seq<string>, failed: bool, name: string): seq<string> {
    if failed then names + [name] else names
  }

  /** The names reported, given which checks failed. */
  function Report(cve: bool, package: bool, installed: bool, fix: bool, url: bool): (names: seq<string>)
    ensures names == [] <==> !cve && !package && !installed && !fix && !url
  {
    AddIf(AddIf(AddIf(AddIf(AddIf([], cve, "cve_id"), package, "package"), installed, "installed_version"),
                fix, "fix_version"), url, "issue_url")
  }

  function Missing(ctx: CveContext): (names: seq<string>)
    ensures names == [] <==> !Placeholder(ctx.cveId) && ctx.package != "" && !Placeholder(ctx.installed)
                             && !Placeholder(ctx.fix) && ctx.issueUrl != ""
  {
    Report(Placeholder(ctx.cveId), ctx.package == "", Placeholder(ctx.installed), Placeholder(ctx.fix),
           ctx.issueUrl == "")
  }

  const REQUIRED := ["cve_id", "package", "installed_version", "fix_version", "issue_url"]

  /** The k-th required field is not usable. */
  predicate Lacks(ctx: CveContext, k: nat) {
    || (k == 0 && Placeholder(ctx.cveId)) || (k == 1 && ctx.package == "") || (k == 2 && Placeholder(ctx.installed))
    || (k == 3 && Placeholder(ctx.fix)) || (k == 4 && ctx.issueUrl == "")
  }

  /** These names are those of the unusable fields among the first n, in order; `at` gives their places. */
  ghost predicate Names(ctx: CveContext, names: seq<string>, at: seq<nat>, n: nat)
    requires n <= |REQUIRED|
  {
    && |at| == |names| && (forall a, b :: 0 <= a < b < |at| ==> at[a] < at[b])
    && (forall a :: 0 <= a < |at| ==> at[a] < n && Lacks(ctx, at[a]) && names[a] == REQUIRED[at[a]])
    && (forall k: nat :: k < n && Lacks(ctx, k) ==> k in at)
  }

  lemma NamesNext(ctx: CveContext, names: seq<string>, at: seq<nat>, n: nat) returns (more: seq<nat>)
    requires n < |REQUIRED| && Names(ctx, names, at, n)
    ensures Names(ctx, AddIf(names, Lacks(ctx, n), REQUIRED[n]), more, n + 1)
  {
    if Lacks(ctx, n) {
      more := at + [n];
      assert forall k: nat :: k < n && Lacks(ctx, k) ==> k in at;
      assert more[|at|] == n;
    } else {
      more := at;
    }
  }

  function Listed(ctx: CveContext, n: nat): seq<string>
    requires n <= |REQUIRED|
  {
    if n == 0 then [] else AddIf(Listed(ctx, n - 1), Lacks(ctx, n - 1), REQUIRED[n - 1])
  }

  lemma {:induction false} ListedNames(ctx: CveContext, n: nat) returns (at: seq<nat>)
    requires n <= |REQUIRED|
    ensures Names(ctx, Listed(ctx, n), at, n)
  {
    at := [];
    if n == 0 {
    } else {
      at := ListedNames(ctx, n - 1);
      at := NamesNext(ctx, Listed(ctx, n - 1), at, n - 1);
    }
  }

  lemma MissingIsListed(ctx: CveContext)
    ensures Missing(ctx) == Listed(ctx, 5)
  {
    assert Listed(ctx, 1) == AddIf([], Placeholder(ctx.cveId), "cve_id");
    assert Listed(ctx, 2) == AddIf(Listed(ctx, 1), ctx.package == "", "package");
    assert Listed(ctx, 3) == AddIf(Listed(ctx, 2), Placeholder(ctx.installed), "installed_version");
    assert Listed(ctx, 4) == AddIf(Listed(ctx, 3), Placeholder(ctx.fix), "fix_version");
  }

  /** What is reported missing is exactly the unusable fields, by name and in this order. */
  lemma MissingExactly(ctx: CveContext) returns (at: seq<nat>)
    ensures Names(ctx, Missing(ctx), at, 5)
  {
    at := ListedNames(ctx, 5);
    MissingIsListed(ctx);
  }

  /** c is this small letter, or its capital. */
  predicate SameLetter(c: char, small: char) {
    c == small || ('a' <= small <= 'z' && c as int == small as int - 32) || (small == 'k' && c == '\U{212A}')
  }

  predicate SameWord(s: string, word: string) {
    |s| == |word| && forall i :: 0 <= i < |s| ==> SameLetter(s[i], word[i])
  }

  lemma LowersTo(s: string, word: string)
    requires forall i :: 0 <= i < |word| ==> !('A' <= word[i] <= 'Z') && word[i] != '\U{212A}'
    ensures Lower(s) == word <==> SameWord(s, word)
  {
    if SameWord(s, word) {
      assert forall i :: 0 <= i < |s| ==> SameLetter(s[i], word[i]) && LowerChar(s[i]) == word[i];
    }
  }

  /** A field counts as unusable exactly if it is empty or one of four words, however capitalised. */
  lemma PlaceholdersAre(s: string)
    ensures Placeholder(s) <==>
              s == "" || SameWord(s, "latest") || SameWord(s, "unknown") || SameWord(s, "n/a") || SameWord(s, "tbd")
  {
    LowersTo(s, "latest");
    LowersTo(s, "unknown");
    LowersTo(s, "n/a");
    LowersTo(s, "tbd");
  }

  method MissingRequiredFields(ctx: CveContext) returns (missing: seq<string>)
    ensures missing == Missing(ctx)
    ensures exists at :: Names(ctx, missing, at, 5)
  {
    ghost var at := MissingExactly(ctx);
    missing := [];
    var cve, installed, fix := Unusable(ctx.cveId), Unusable(ctx.installed), Unusable(ctx.fix);
    if cve { missing := missing + ["cve_id"]; }
    if ctx.package == "" { missing := missing + ["package"]; }
    if installed { missing := missing + ["installed_version"]; }
    if fix { missing := missing + ["fix_version"]; }
    if ctx.issueUrl == "" { missing := missing + ["issue_url"]; }
  }

  /** The test as the code writes it; the emptiness half is already among the placeholders. */
  predicate Unusable(s: string)
    ensures Unusable(s) <==> Placeholder(s)
  {
    s == "" || Placeholder(s)
  }

  // ---------- the printer ----------

  datatype Finding = Finding(
    cve: string,
    package: string,
    installed: string,
    fix: string,
    severity: string,
    summary: string)

  function Join(lines: seq<string>): string {
    if lines == [] then ""
    else if |lines| == 1 then lines[0]
    else lines[0] + ("\n" + Join(lines[1..]))
  }

  function FieldLine(name: string, value: string): string {
    "- **" + (name + (":** " + value))
  }

  function Clipped(summary: string): string {
    if |summary| <= 300 then summary else summary[..300]
  }

  const NOTICE := "This issue will be auto-remediated by " + "Devin via the `devin-remediate` + " +
                  "`devin-security` labels. "

  const NO_SUMMARY := "(no summary provided by OSV)"

  function Tail(cve: string): seq<string> {
    ["",
     "## OSV link",
     "https://osv.dev/vulnerability/" + cve,
     "",
     "## Remediation",
     NOTICE,
     "Watch the orchestrator dashboard for status.",
     "",
     "---",
     "*Filed automatically by the " + "nightly CVE scan workflow.*"]
  }

  function SummaryLine(summary: string): string {
    if Clipped(summary) != "" then Clipped(summary) else NO_SUMMARY
  }

  function Fields(f: Finding): seq<Field> {
    [Field("CVE", f.cve), Field("Package", f.package), Field("Installed", f.installed),
     Field("Fix version", f.fix), Field("Severity", f.severity)]
  }

  function FieldLines(fields: seq<Field>): seq<string> {
    if fields == [] then [] else [FieldLine(fields[0].name, fields[0].value)] + FieldLines(fields[1..])
  }

  function Body(f: Finding): string {
    Join(["## Vulnerability"] +
         (FieldLines(Fields(f)) + ([FieldLine("Summary", SummaryLine(f.summary))] + Tail(f.cve))))
  }

  // ---------- lemmas about the scan ----------

  lemma {:induction false} IndentOf(w: string, t: string)
    requires Blank(w) && StartsInk(t)
    ensures Indent(w + t) == |w| && DropSpace(w + t) == t
  {
    var s := w + t;
    var n := Indent(s);
    assert forall i :: 0 <= i < |w| ==> s[i] == w[i];
    assert t != "" ==> s[|w|] == t[0];
    assert forall i :: 0 <= i < n ==> s[..n][i] == s[i];
  }

  lemma {:induction false} InkOf(t: string, w: string)
    requires Blank(w) && (t == "" || !IsSpace(t[|t| - 1]))
    ensures Ink(t + w) == |t|
    decreases |w|
  {
    var s := t + w;
    if w == "" {
      assert s == t;
    } else {
      var v := w[..|w| - 1];
      assert s[|s| - 1] == w[|w| - 1];
      assert s[..|s| - 1] == t + v;
      InkOf(t, v);
    }
  }

  lemma {:induction false} LineLenOf(l: string, r: string)
    requires OneLine(l) && (r == "" || r[0] == '\n')
    ensures LineLen(l + r) == |l|
  {
    var s := l + r;
    var n := LineLen(s);
    assert forall i :: 0 <= i < |l| ==> s[i] == l[i];
    assert forall i :: 0 <= i < n ==> s[..n][i] == s[i];
    assert r != "" ==> s[|l|] == '\n';
  }

  lemma SameAfterSpace(s: string)
    ensures FieldPattern(DropSpace(s)) == FieldPattern(s)
  {
    IndentOf("", DropSpace(s));
    assert "" + DropSpace(s) == DropSpace(s);
  }

  ghost predicate IgnoresIndent(m: Matcher) {
    forall s {:trigger m(DropSpace(s))} :: m(DropSpace(s)) == m(s)
  }

  lemma FieldPatternIgnoresIndent()
    ensures IgnoresIndent(FieldPattern)
  {
    forall s ensures FieldPattern(DropSpace(s)) == FieldPattern(s) {
      SameAfterSpace(s);
    }
  }

  lemma EmptyNoMatch(m: Matcher)
    ensures !m("").Found?
  {
  }

  /** Text that starts a line in any case, or sits behind a line break, scans like its first ink. */
  lemma {:induction false} ScanSpace(m: Matcher, b: bool, w: string, t: string)
    requires IgnoresIndent(m)
    requires Blank(w) && StartsInk(t) && (b || !OneLine(w))
    ensures Scan(m, b, w + t) == Scan(m, true, t)
    decreases |w|
  {
    var s := w + t;
    if w == "" {
      assert s == t;
    } else {
      IndentOf(w, t);
      assert m(DropSpace(s)) == m(s);
      if b && m(s).Found? {
        EmptyNoMatch(m);
      } else {
        assert s[1..] == w[1..] + t;
        if w[0] == '\n' || !OneLine(w[1..]) {
          ScanSpace(m, w[0] == '\n', w[1..], t);
        } else {
          ScanMidLine(m, w[1..], t);
          ScanNoMatch(m, t);
        }
      }
    }
  }

  lemma {:induction false} ScanMidLine(m: Matcher, l: string, t: string)
    requires OneLine(l)
    ensures Scan(m, false, l + t) == Scan(m, false, t)
    decreases |l|
  {
    if l == "" {
      assert l + t == t;
    } else {
      assert (l + t)[1..] == l[1..] + t;
      ScanMidLine(m, l[1..], t);
    }
  }

  lemma ScanNoMatch(m: Matcher, t: string)
    requires StartsInk(t) && !m(t).Found?
    ensures Scan(m, true, t) == Scan(m, false, t)
  {
  }

  lemma LastBreakParts(after: string) returns (w: string)
    requires Indent(after) < |after| && !OneLine(after[..Indent(after)])
    ensures var k := LastBreak(after, Indent(after)); after[k..] == w + DropSpace(after)
    ensures Blank(w) && !OneLine(w)
  {
    var n := Indent(after);
    var k := LastBreak(after, n);
    w := after[k..n];
    assert after[k..] == w + after[n..];
    assert k < n && after[k] == '\n' && w[0] == '\n';
    forall i | 0 <= i < |w| ensures IsSpace(w[i]) {
      assert w[i] == after[..n][k + i];
    }
  }

  lemma ScanBehind(m: Matcher, b: bool, rest: string, after: string)
    requires IgnoresIndent(m) && Indent(after) < |after| && !OneLine(after[..Indent(after)])
    requires rest == after[LastBreak(after, Indent(after))..]
    ensures Scan(m, b, rest) == Scan(m, true, DropSpace(after))
  {
    var w := LastBreakParts(after);
    var t := DropSpace(after);
    assert rest == w + t && StartsInk(t);
    ScanSpace(m, b, w, t);
  }

  lemma MatchEndRest(name: string, value: string, after: string)
    ensures MatchEnd(name, value, after).rest ==
            if Indent(after) == |after| then "" else after[LastBreak(after, Indent(after))..]
  {
  }

  /** Behind a match, scanning goes on as if from the first ink behind the value. */
  lemma ScanOn(m: Matcher, b: bool, rest: string, after: string)
    requires IgnoresIndent(m)
    requires Indent(after) == |after| || !OneLine(after[..Indent(after)])
    requires rest == if Indent(after) == |after| then "" else after[LastBreak(after, Indent(after))..]
    ensures Scan(m, b, rest) == Scan(m, true, DropSpace(after))
  {
    if Indent(after) < |after| {
      ScanBehind(m, b, rest, after);
    }
  }

  lemma BreakBehind(tail: string, next: string)
    requires Blank(tail) && OneLine(tail) && (next == "" || next[0] == '\n')
    ensures Indent(tail + next) == |tail + next| || !OneLine((tail + next)[..Indent(tail + next)])
  {
    SpaceFacts();
    var after := tail + next;
    var n := Indent(after);
    assert forall i :: 0 <= i < |tail| ==> after[i] == tail[i];
    if next != "" {
      assert after[|tail|] == '\n';
      if n < |after| {
        assert n > |tail|;
        assert after[..n][|tail|] == '\n';
      }
    }
  }

  /** The value group: the first inked line behind the name, stripped. */
  lemma MatchValueReads(name: string, w: string, v: string, tail: string, next: string)
    requires Blank(w) && Blank(tail) && OneLine(v) && OneLine(tail)
    requires v != "" && !IsSpace(v[0]) && !IsSpace(v[|v| - 1])
    requires next == "" || next[0] == '\n'
    ensures MatchValue(name, w + (v + (tail + next))) == MatchEnd(name, v, tail + next)
  {
    var after := tail + next;
    var t := v + after;
    IndentOf(w, t);
    assert t == (v + tail) + next;
    LineLenOf(v + tail, next);
    assert t[..LineLen(t)] == v + tail;
    InkOf(v, tail);
    assert t[..|v|] == v && t[|v|..] == after;
  }

  predicate IsName(name: string) {
    name != "" && forall i :: 0 <= i < |name| ==> NameChar(name[i])
  }

  lemma {:induction false} NameLenOf(name: string, r: string)
    requires IsName(name) && (r == "" || !NameChar(r[0]))
    ensures NameLen(name + r) == |name|
  {
    var n := NameLen(name + r);
    assert forall i :: 0 <= i < |name| ==> (name + r)[i] == name[i];
    assert r != "" ==> (name + r)[|name|] == r[0];
  }

  /** A field line is matched up to its value. */
  lemma FieldLineMatches(name: string, value: string, next: string)
    requires IsName(name)
    ensures FieldPattern(FieldLine(name, value) + next) == MatchValue(name, " " + (value + next))
  {
    SpaceFacts();
    var r := " " + (value + next);
    var b := "**" + (name + (":**" + r));
    var s := FieldLine(name, value) + next;
    LineParts(name, value, next);
    assert s == "" + ("-" + (" " + b));
    IndentOf("", "-" + (" " + b));
    DashThenStars(name, r);
  }

  lemma LineParts(name: string, value: string, next: string)
    ensures FieldLine(name, value) + next == "-" + (" " + ("**" + (name + (":**" + (" " + (value + next))))))
  {
    assert FieldLine(name, value) == "- **" + (name + (":** " + value));
    assert (name + (":** " + value)) + next == name + (":**" + (" " + (value + next)));
  }

  lemma TextMatches(text: string, q: Pattern, name: string, s: string)
    ensures Match(Text(text, q), name, text + s) == Match(q, name, s)
  {
    assert (text + s)[|text|..] == s;
  }

  lemma DashThenStars(name: string, r: string)
    requires IsName(name)
    ensures Match(FROM_DASH, "", "-" + (" " + ("**" + (name + (":**" + r))))) == MatchValue(name, r)
  {
    SpaceFacts();
    var c := name + (":**" + r);
    var b := "**" + c;
    TextMatches("-", Spaces(Text("**", FROM_NAME)), "", " " + b);
    IndentOf(" ", b);
    assert Match(Spaces(Text("**", FROM_NAME)), "", " " + b) == Match(Text("**", FROM_NAME), "", b);
    TextMatches("**", FROM_NAME, "", c);
    NameLenOf(name, ":**" + r);
    assert c[..|name|] == name && c[|name|..] == ":**" + r;
    assert Match(FROM_NAME, "", c) == Match(Text(":**", Value), name, ":**" + r);
    TextMatches(":**", Value, name, r);
  }

  // ---------- the pattern as it is written ----------

  /** The text starts with whitespace, a dash, whitespace, two stars, a name of letters and blanks, a colon and two
      stars, and what follows is not all line breaks. */
  predicate Shaped(s: string, w: string, v: string, name: string, rest: string) {
    && s == w + ("-" + (v + ("**" + (name + (":**" + rest))))) && Blank(w) && Blank(v)
    && name != "" && (forall i :: 0 <= i < |name| ==> 'A' <= name[i] <= 'Z' || 'a' <= name[i] <= 'z' || name[i] == ' ')
    && exists i :: 0 <= i < |rest| && rest[i] != '\n'
  }

  lemma ValueIsThere(name: string, rest: string)
    ensures MatchValue(name, rest).Found? <==> exists i :: 0 <= i < |rest| && rest[i] != '\n'
    ensures MatchValue(name, rest).Found? ==> MatchValue(name, rest).name == name
  {
    SpaceFacts();
    if DropSpace(rest) != "" {
      assert !IsSpace(rest[Indent(rest)]);
    }
  }

  /** A text of that shape matches, and its name and value are those parts'. */
  lemma ShapedMatches(s: string, w: string, v: string, name: string, rest: string)
    requires Shaped(s, w, v, name, rest)
    ensures FieldPattern(s) == MatchValue(name, rest) && FieldPattern(s).Found? && FieldPattern(s).name == name
  {
    SpaceFacts();
    IndentOf(w, "-" + (v + ("**" + (name + (":**" + rest)))));
    StarsBehind(v, name, rest);
    TextMatches("-", Spaces(Text("**", FROM_NAME)), "", v + ("**" + (name + (":**" + rest))));
    ValueIsThere(name, rest);
  }

  lemma StarsBehind(v: string, name: string, rest: string)
    requires Blank(v) && IsName(name)
    ensures Match(Spaces(Text("**", FROM_NAME)), "", v + ("**" + (name + (":**" + rest)))) == MatchValue(name, rest)
  {
    SpaceFacts();
    var c := name + (":**" + rest);
    IndentOf(v, "**" + c);
    assert Match(Spaces(Text("**", FROM_NAME)), "", v + ("**" + c)) == Match(Text("**", FROM_NAME), "", "**" + c);
    TextMatches("**", FROM_NAME, "", c);
    NameLenOf(name, ":**" + rest);
    assert c[..|name|] == name && c[|name|..] == ":**" + rest;
    assert Match(FROM_NAME, "", c) == Match(Text(":**", Value), name, ":**" + rest);
    TextMatches(":**", Value, name, rest);
  }

  lemma SpaceSplits(s: string)
    ensures s == s[..Indent(s)] + DropSpace(s)
  {
    var n := Indent(s);
    assert s == s[..n] + s[n..];
  }

  lemma SpacesFound(q: Pattern, name: string, s: string)
    requires Match(Spaces(q), name, s).Found?
    ensures s == s[..Indent(s)] + DropSpace(s) && Match(q, name, DropSpace(s)).Found?
  {
    SpaceSplits(s);
  }

  lemma TextFound(text: string, q: Pattern, name: string, s: string)
    requires Match(Text(text, q), name, s).Found?
    ensures text <= s && s == text + s[|text|..] && Match(q, name, s[|text|..]).Found?
  {
  }

  lemma NameFound(s: string) returns (name: string, rest: string)
    requires Match(FROM_NAME, "", s).Found?
    ensures s == name + (":**" + rest) && IsName(name) && exists i :: 0 <= i < |rest| && rest[i] != '\n'
  {
    name := s[..NameLen(s)];
    var t := s[NameLen(s)..];
    assert s == name + t;
    TextFound(":**", Value, name, t);
    rest := t[3..];
    ValueIsThere(name, rest);
  }

  /** And only such a text matches. */
  lemma MatchIsShaped(s: string) returns (w: string, v: string, name: string, rest: string)
    requires FieldPattern(s).Found?
    ensures Shaped(s, w, v, name, rest)
  {
    SpacesFound(FROM_DASH, "", s);
    var a := DropSpace(s);
    TextFound("-", Spaces(Text("**", FROM_NAME)), "", a);
    var b := a[1..];
    SpacesFound(Text("**", FROM_NAME), "", b);
    TextFound("**", FROM_NAME, "", DropSpace(b));
    w, v := s[..Indent(s)], b[..Indent(b)];
    name, rest := NameFound(DropSpace(b)[2..]);
  }

  lemma ScanFound(m: Matcher, s: string, f: Found)
    requires m(s) == f && f.Found?
    ensures Scan(m, true, s) == [Field(Key(f.name), f.value)] + Scan(m, f.atLineStart, f.rest)
  {
  }

  predicate Trimmed(v: string) {
    v != "" && OneLine(v) && !IsSpace(v[0]) && !IsSpace(v[|v| - 1])
  }

  lemma BlankMore(w: string, rest: string)
    requires Blank(w)
    ensures Blank(" " + w) && " " + (w + rest) == (" " + w) + rest
  {
    SpaceFacts();
  }

  /** A field line followed, after any whitespace, by an inked line: that line is the value. */
  lemma FieldMatch(name: string, value: string, rest: string, w: string, v: string, tail: string, next: string)
    requires IsName(name) && Trimmed(v) && Blank(w) && Blank(tail) && OneLine(tail)
    requires value + rest == w + (v + (tail + next))
    requires next == "" || next[0] == '\n'
    ensures FieldPattern(FieldLine(name, value) + rest) == MatchEnd(name, v, tail + next)
  {
    FieldLineMatches(name, value, rest);
    BlankMore(w, v + (tail + next));
    MatchValueReads(name, " " + w, v, tail, next);
  }

  lemma ScanField(name: string, value: string, rest: string, w: string, v: string, tail: string, next: string)
    requires IsName(name) && Trimmed(v) && Blank(w) && Blank(tail) && OneLine(tail)
    requires value + rest == w + (v + (tail + next))
    requires next == "" || next[0] == '\n'
    ensures Scan(FieldPattern, true, FieldLine(name, value) + rest) ==
            [Field(Key(name), v)] + Scan(FieldPattern, true, DropSpace(tail + next))
  {
    FieldMatch(name, value, rest, w, v, tail, next);
    BreakBehind(tail, next);
    ScanMatched(FieldLine(name, value) + rest, MatchEnd(name, v, tail + next), tail + next);
  }

  lemma ScanMatched(s: string, f: Found, after: string)
    requires FieldPattern(s) == f && f.Found? && f == MatchEnd(f.name, f.value, after)
    requires Indent(after) == |after| || !OneLine(after[..Indent(after)])
    ensures Scan(FieldPattern, true, s) == [Field(Key(f.name), f.value)] + Scan(FieldPattern, true, DropSpace(after))
  {
    FieldPatternIgnoresIndent();
    ScanVia(FieldPattern, s, f, after);
  }

  lemma ScanVia(m: Matcher, s: string, f: Found, after: string)
    requires IgnoresIndent(m) && m(s) == f && f.Found? && f == MatchEnd(f.name, f.value, after)
    requires Indent(after) == |after| || !OneLine(after[..Indent(after)])
    ensures Scan(m, true, s) == [Field(Key(f.name), f.value)] + Scan(m, true, DropSpace(after))
  {
    ScanFound(m, s, f);
    MatchEndRest(f.name, f.value, after);
    ScanOn(m, f.atLineStart, f.rest, after);
  }

  lemma DropTail(tail: string, next: string)
    requires Blank(tail)
    ensures DropSpace(tail + next) == DropSpace(next)
  {
    var w := next[..Indent(next)];
    assert next == w + DropSpace(next);
    assert tail + next == (tail + w) + DropSpace(next);
    IndentOf(tail + w, DropSpace(next));
  }

  predicate Fieldable(v: string) { OneLine(v) && !Blank(v) }

  lemma StripInk(value: string)
    requires !Blank(value)
    ensures Strip(value) != "" && !IsSpace(Strip(value)[0]) && !IsSpace(Strip(value)[|Strip(value)| - 1])
  {
    var n, t := Indent(value), DropSpace(value);
    assert value[..n] == value <==> n == |value|;
    assert t[0] == value[n];
    assert t[Ink(t)..] != t;
  }

  // ---------- lines that are no fields ----------

  predicate Inert(line: string) {
    OneLine(line) &&
    (line == "" || (!IsSpace(line[0]) && line[0] != '-') ||
     (|line| > 1 && line[0] == '-' && !IsSpace(line[1]) && line[1] != '*'))
  }

  lemma ScanInertLine(m: Matcher, l: string, r: string)
    requires OneLine(l) && l != "" && !m(l + r).Found? && (r == "" || r[0] == '\n')
    ensures Scan(m, true, l + r) == if r == "" then [] else Scan(m, true, r[1..])
  {
    var s := l + r;
    assert s[0] == l[0] && s[1..] == l[1..] + r;
    assert forall i :: 0 <= i < |l[1..]| ==> l[1..][i] == l[i + 1];
    ScanMidLine(m, l[1..], r);
    assert Scan(m, true, s) == Scan(m, false, s[1..]);
  }

  // ---------- the round trip ----------

  /** What the parser makes of a summary: the default text if there was none, its stripped first 300
      characters if they hold any ink, and otherwise the heading of the next section. */
  function SummaryBack(summary: string): string {
    if summary == "" then NO_SUMMARY
    else if Blank(Clipped(summary)) then "## OSV link"
    else Strip(Clipped(summary))
  }

  lemma InertLine(line: string)
    requires OneLine(line) && line != "" && 32 < line[0] as int < 0x85 && line[0] != '-'
    ensures Inert(line)
  {
    SpaceFacts();
  }

  lemma OneLineJoin(a: string, b: string)
    requires OneLine(a) && OneLine(b)
    ensures OneLine(a + b)
  {
  }

  lemma NoticeIsInert()
    ensures Inert(NOTICE)
  {
    var a, b := "This issue will be auto-remediated by ", "Devin via the `devin-remediate` + ";
    OneLineJoin(a, b);
    OneLineJoin(a + b, "`devin-security` labels. ");
    InertLine(NOTICE);
  }

  lemma SignatureIsInert()
    ensures Inert("*Filed automatically by the " + "nightly CVE scan workflow.*") && Inert("---") && Inert("")
  {
    OneLineJoin("*Filed automatically by the ", "nightly CVE scan workflow.*");
    InertLine("*Filed automatically by the " + "nightly CVE scan workflow.*");
    SpaceFacts();
  }

  lemma LinkIsInert(cve: string)
    requires OneLine(cve)
    ensures Inert("https://osv.dev/vulnerability/" + cve)
  {
    OneLineJoin("https://osv.dev/vulnerability/", cve);
    InertLine("https://osv.dev/vulnerability/" + cve);
  }

  lemma TailIsInert(cve: string)
    requires OneLine(cve)
    ensures forall l :: l in Tail(cve) ==> Inert(l)
  {
    LinkIsInert(cve);
    NoticeIsInert();
    SignatureIsInert();
    InertLine("## OSV link");
    InertLine("## Remediation");
    InertLine("Watch the orchestrator dashboard for status.");
  }

  lemma StripTrimmed(s: string)
    requires s != "" && !IsSpace(s[0]) && !IsSpace(s[|s| - 1])
    ensures Strip(s) == s
  {
    IndentOf("", s);
    assert "" + s == s;
    InkOf(s, "");
    assert s + "" == s;
  }

  // ---------- a block of fields ----------

  function Lines(fields: seq<Field>, rest: string): string {
    if fields == [] then rest
    else FieldLine(fields[0].name, fields[0].value) + ("\n" + Lines(fields[1..], rest))
  }

  function Entry(f: Field): Field { Field(Key(f.name), Strip(f.value)) }

  function Each(f: Field -> Field, fields: seq<Field>): (r: seq<Field>)
    ensures |r| == |fields| && forall i :: 0 <= i < |r| ==> r[i] == f(fields[i])
  {
    if fields == [] then [] else [f(fields[0])] + Each(f, fields[1..])
  }

  function Read(fields: seq<Field>): seq<Field> {
    Each(Entry, fields)
  }

  function Printed(f: Finding): seq<Field> {
    [Field("cve", Strip(f.cve)), Field("package", Strip(f.package)), Field("installed", Strip(f.installed)),
     Field("fix version", Strip(f.fix)), Field("severity", Strip(f.severity)),
     Field("summary", SummaryBack(f.summary))]
  }

  lemma JoinCons(a: string, rest: seq<string>)
    requires rest != []
    ensures Join([a] + rest) == a + ("\n" + Join(rest))
  {
    assert ([a] + rest)[1..] == rest;
  }

  lemma {:induction false} JoinFields(fields: seq<Field>, rest: seq<string>)
    requires rest != []
    ensures Join(FieldLines(fields) + rest) == Lines(fields, Join(rest))
  {
    if fields == [] {
      assert FieldLines(fields) + rest == rest;
    } else {
      var a, more := FieldLine(fields[0].name, fields[0].value), FieldLines(fields[1..]);
      JoinFields(fields[1..], rest);
      assert FieldLines(fields) + rest == [a] + (more + rest);
      JoinCons(a, more + rest);
    }
  }

  lemma BodyShape(f: Finding)
    ensures Body(f) == "## Vulnerability" + ("\n" + Lines(Fields(f),
                         FieldLine("Summary", SummaryLine(f.summary)) + ("\n" + Join(Tail(f.cve)))))
  {
    var rest := [FieldLine("Summary", SummaryLine(f.summary))] + Tail(f.cve);
    JoinCons("## Vulnerability", FieldLines(Fields(f)) + rest);
    JoinFields(Fields(f), rest);
    JoinCons(FieldLine("Summary", SummaryLine(f.summary)), Tail(f.cve));
  }

  lemma NameLower(upper: string, lower: string)
    requires upper != "" && 32 < upper[0] as int < 0x85 && 32 < upper[|upper| - 1] as int < 0x85
    requires |upper| == |lower| && forall i :: 0 <= i < |upper| ==> LowerChar(upper[i]) == lower[i]
    ensures Key(upper) == lower
  {
    SpaceFacts();
    StripTrimmed(upper);
  }

  lemma CveLower()
    ensures Key("CVE") == "cve"
  {
    NameLower("CVE", "cve");
  }

  lemma PackageLower()
    ensures Key("Package") == "package"
  {
    NameLower("Package", "package");
  }

  lemma InstalledLower()
    ensures Key("Installed") == "installed"
  {
    NameLower("Installed", "installed");
  }

  lemma FixVersionLower()
    ensures Key("Fix version") == "fix version"
  {
    NameLower("Fix version", "fix version");
  }

  lemma SeverityLower()
    ensures Key("Severity") == "severity"
  {
    NameLower("Severity", "severity");
  }

  lemma SummaryLower()
    ensures Key("Summary") == "summary"
  {
    NameLower("Summary", "summary");
  }

  lemma NamesLower()
    ensures Key("CVE") == "cve" && Key("Package") == "package" && Key("Installed") == "installed"
  {
    CveLower();
    PackageLower();
    InstalledLower();
  }

  lemma MoreNamesLower()
    ensures Key("Fix version") == "fix version" && Key("Severity") == "severity" && Key("Summary") == "summary"
  {
    FixVersionLower();
    SeverityLower();
    SummaryLower();
  }

  lemma EachOfFive(f: Field -> Field, a: Field, b: Field, c: Field, d: Field, e: Field)
    ensures Each(f, [a, b, c, d, e]) == [f(a), f(b), f(c), f(d), f(e)]
  {
  }


  /** A finding whose five fields each fit on a line and hold some ink.  Its summary may be any text. */
  predicate Filed(f: Finding) {
    && Fieldable(f.cve) && Fieldable(f.package) && Fieldable(f.installed)
    && Fieldable(f.fix) && Fieldable(f.severity)
  }

  lemma FieldNames()
    ensures IsName("CVE") && IsName("Package") && IsName("Installed") && IsName("Fix version")
    ensures IsName("Severity") && IsName("Summary")
  {
  }

  lemma LookupLast(fields: seq<Field>, k: nat)
    requires k < |fields| && forall j :: k < j < |fields| ==> fields[j].name != fields[k].name
    ensures Lookup(fields, fields[k].name) == Some(fields[k].value)
  {
    if k < |fields| - 1 {
      LookupLast(fields[..|fields| - 1], k);
    }
  }

  lemma BlankStrips(t: string)
    requires Blank(t)
    ensures Strip(t) == ""
  {
    IndentOf(t, "");
    assert t + "" == t;
  }}
