/**
 The field pattern told line by line.

 The pattern may cross line breaks, backtrack and start anywhere, but on a text that ends in ink it finds what a
 reader of the inked lines finds: a dash, then two stars, a name, a colon and two stars, then the value, where the
 stars may stand on the line below the dash and the value on the line below the name.
 */
module BodyLines {
  import opened IssueBody

  /** The lines that hold ink, stripped. */
  function InkLines(s: string): seq<string>
    decreases |s|
  {
    var t := DropSpace(s);
    if t == "" then []
    else
      SpaceFacts();
      [t[..Ink(t[..LineLen(t)])]] + InkLines(t[LineLen(t)..])
  }

  /** One field, and the lines behind it. */
  datatype Item = NoItem | Item(name: string, value: string, rest: seq<string>)

  /** The value under this name: the rest of the line, or else the next line. */
  function Valued(name: string, text: string, more: seq<string>): (r: Item)
    ensures r.Item? ==> |r.rest| <= |more|
  {
    if DropSpace(text) != "" then Item(name, DropSpace(text), more)
    else if more != [] then Item(name, more[0], more[1..])
    else NoItem
  }

  /** Behind the first two stars: a name, and what closes it. */
  function NamedBy(t: string, more: seq<string>): (r: Item)
    ensures r.Item? ==> |r.rest| <= |more|
  {
    if NameLen(t) == 0 || !(":**" <= t[NameLen(t)..]) then NoItem
    else Valued(t[..NameLen(t)], t[NameLen(t) + 3..], more)
  }

  function Named(line: string, more: seq<string>): (r: Item)
    ensures r.Item? ==> |r.rest| <= |more|
  {
    if "**" <= line then NamedBy(line[2..], more) else NoItem
  }

  /** Behind a dash: a name on the rest of the line, or else on the next line. */
  function Dashed(text: string, more: seq<string>): (r: Item)
    ensures r.Item? ==> |r.rest| <= |more|
  {
    if DropSpace(text) != "" then Named(DropSpace(text), more)
    else if more != [] then Named(more[0], more[1..])
    else NoItem
  }

  function ItemOf(line: string, more: seq<string>): (r: Item)
    ensures r.Item? ==> |r.rest| <= |more|
  {
    if "-" <= line then Dashed(line[1..], more) else NoItem
  }

  /** What an item is worth, and the lines left behind it, or behind a line that is none. */
  function TakenBy(it: Item): seq<Field> { if it.Item? then [Field(Key(it.name), it.value)] else [] }

  function LeftBy(it: Item, more: seq<string>): seq<string> { if it.Item? then it.rest else more }

  /** The fields among some lines. */
  function ReadLines(lines: seq<string>): seq<Field>
    decreases |lines|
  {
    if lines == [] then []
    else
      var it := ItemOf(lines[0], lines[1..]);
      TakenBy(it) + ReadLines(LeftBy(it, lines[1..]))
  }

  // ---------- the lines of a text ----------

  predicate EndsInk(s: string) { s == "" || !IsSpace(s[|s| - 1]) }

  predicate StartsBreak(s: string) { s == "" || s[0] == '\n' }

  lemma SuffixEndsInk(a: string, b: string)
    requires EndsInk(a + b)
    ensures EndsInk(b)
  {
    if b != "" {
      assert (a + b)[|a + b| - 1] == b[|b| - 1];
    }
  }

  lemma CutEndsInk(a: string, k: nat, b: string)
    requires k <= |a| && EndsInk(a + b)
    ensures EndsInk(a[k..] + b) && a + b == a[..k] + (a[k..] + b)
  {
    assert a + b == a[..k] + (a[k..] + b);
    SuffixEndsInk(a[..k], a[k..] + b);
  }

  lemma SameLines(s: string, t: string)
    requires DropSpace(s) == DropSpace(t)
    ensures InkLines(s) == InkLines(t)
  {
  }

  lemma FirstLine(w: string, v: string, tail: string, next: string)
    requires Blank(w) && Trimmed(v) && Blank(tail) && OneLine(tail) && StartsBreak(next)
    ensures DropSpace(w + (v + (tail + next))) == v + (tail + next)
    ensures InkLines(w + (v + (tail + next))) == [v] + InkLines(next)
  {
    var t := v + (tail + next);
    IndentOf(w, t);
    assert t == (v + tail) + next;
    LineLenOf(v + tail, next);
    assert t[..LineLen(t)] == v + tail && t[LineLen(t)..] == next;
    InkOf(v, tail);
    assert t[..|v|] == v;
  }

  lemma TwoCuts(t: string, n: nat, k: nat)
    requires k <= n <= |t|
    ensures t == t[..n][..k] + (t[..n][k..] + t[n..])
  {
  }

  /** A text with ink is whitespace, its first inked line, and the rest. */
  lemma Split(s: string) returns (w: string, v: string, tail: string, next: string)
    requires DropSpace(s) != ""
    ensures s == w + (v + (tail + next)) && Blank(w) && Trimmed(v) && Blank(tail) && OneLine(tail) && StartsBreak(next)
    ensures DropSpace(s) == v + (tail + next) && InkLines(s) == [v] + InkLines(next)
  {
    SpaceFacts();
    var t := DropSpace(s);
    var l := t[..LineLen(t)];
    w, next := s[..Indent(s)], t[LineLen(t)..];
    v, tail := l[..Ink(l)], l[Ink(l)..];
    InkIsTrimmed(l);
    TwoCuts(t, LineLen(t), Ink(l));
    FirstLine(w, v, tail, next);
  }

  lemma NoInkIsSpace(l: string)
    requires Ink(l) == 0 && l != ""
    ensures IsSpace(l[0])
  {
    assert l[0..] == l;
  }

  lemma InkIsTrimmed(l: string)
    requires OneLine(l) && l != "" && !IsSpace(l[0])
    ensures Trimmed(l[..Ink(l)]) && OneLine(l[Ink(l)..])
  {
    if Ink(l) == 0 {
      NoInkIsSpace(l);
      assert false;
    }
  }

  lemma BlankHasNoLines(s: string)
    requires Blank(s)
    ensures InkLines(s) == []
  {
    IndentOf(s, "");
    assert s + "" == s;
  }

  lemma Regrouped(w: string, v: string, tail: string, next: string, more: string)
    ensures (w + (v + (tail + next))) + more == w + (v + (tail + (next + more)))
  {
  }

  lemma BlankLineAbove(a: string, b: string)
    requires Blank(a)
    ensures InkLines(a + ("\n" + b)) == InkLines(b)
  {
    SpaceFacts();
    assert a + ("\n" + b) == (a + "\n") + b;
    DropTail(a + "\n", b);
    SameLines(a + ("\n" + b), b);
  }

  lemma LinesAbove(text: string, w: string, v: string, tail: string, more: string, x: seq<string>, y: seq<string>)
    requires text == w + (v + (tail + more)) && InkLines(more) == x + y
    requires Blank(w) && Trimmed(v) && Blank(tail) && OneLine(tail) && StartsBreak(more)
    ensures InkLines(text) == ([v] + x) + y
  {
    FirstLine(w, v, tail, more);
    assert [v] + (x + y) == ([v] + x) + y;
  }

  lemma BreakStays(next: string, b: string)
    requires StartsBreak(next)
    ensures StartsBreak(next + ("\n" + b))
  {
  }

  lemma {:induction false} LinesConcat(a: string, b: string)
    ensures InkLines(a + ("\n" + b)) == InkLines(a) + InkLines(b)
    decreases |a|
  {
    if DropSpace(a) == "" {
      assert a == a[..Indent(a)];
      BlankHasNoLines(a);
      BlankLineAbove(a, b);
    } else {
      var w, v, tail, next := Split(a);
      LinesConcat(next, b);
      BreakStays(next, b);
      Regrouped(w, v, tail, next, "\n" + b);
      LinesAbove(a + ("\n" + b), w, v, tail, next + ("\n" + b), InkLines(next), InkLines(b));
    }
  }

  // ---------- the pattern on a text, and the reader on its lines ----------

  /** Whitespace cannot complete a literal. */
  lemma PrefixInLine(p: string, line: string, rest: string)
    requires forall i :: 0 <= i < |p| ==> !IsSpace(p[i])
    requires rest == "" || IsSpace(rest[0])
    ensures p <= line + rest <==> p <= line
  {
    if |p| <= |line| {
      assert (line + rest)[..|p|] == line[..|p|];
    } else if p <= line + rest {
      ReachesRest(p, line, rest);
      assert false;
    }
  }

  lemma ReachesRest(p: string, line: string, rest: string)
    requires |p| > |line| && p <= line + rest
    ensures rest != "" && p[|line|] == rest[0]
  {
    assert p[|line|] == (line + rest)[|line|];
  }

  lemma NoInkBehind(tail: string, next: string)
    requires Blank(tail) && StartsBreak(next)
    ensures tail + next == "" || IsSpace((tail + next)[0])
  {
    SpaceFacts();
  }

  lemma {:induction false} NameGoesOn(t: string, u: string)
    requires forall i :: 0 <= i < |t| ==> NameChar(t[i])
    ensures NameLen(t + u) == |t| + NameLen(u)
  {
    if t == "" {
      assert t + u == u;
    } else {
      assert (t + u)[1..] == t[1..] + u;
      NameGoesOn(t[1..], u);
    }
  }

  lemma NoNameBehind(tail: string, next: string)
    requires Blank(tail) && StartsBreak(next)
    ensures var rest := tail + next; rest[NameLen(rest)..] == "" || IsSpace(rest[NameLen(rest)])
  {
    SpaceFacts();
    var rest := tail + next;
    assert next != "" ==> rest[|tail|] == '\n' && !NameChar('\n');
    assert NameLen(rest) <= |tail|;
    assert NameLen(rest) < |tail| ==> rest[NameLen(rest)] == tail[NameLen(rest)];
  }

  /** A name that fills its line is not closed by what follows. */
  lemma NameRunsOut(t: string, tail: string, next: string)
    requires NameLen(t) == |t| && Blank(tail) && StartsBreak(next)
    ensures var s := t + (tail + next); !(":**" <= s[NameLen(s)..])
  {
    SpaceFacts();
    var rest := tail + next;
    NameGoesOn(t, rest);
    NoNameBehind(tail, next);
    assert (t + rest)[|t| + NameLen(rest)..] == rest[NameLen(rest)..];
    NoLiteralHere(rest[NameLen(rest)..]);
  }

  lemma NoLiteralHere(s: string)
    requires s == "" || IsSpace(s[0])
    ensures !(":**" <= s)
  {
    SpaceFacts();
    assert ":**"[0] == ':';
  }

  // ---------- a stretch of a line, its trailing whitespace, and the rest of the text ----------

  predicate Placed(line: string, tail: string, next: string) {
    && OneLine(line) && EndsInk(line) && Blank(tail) && OneLine(tail) && StartsBreak(next)
    && EndsInk(line + (tail + next))
  }

  lemma CutPlaced(line: string, k: nat, tail: string, next: string)
    requires Placed(line, tail, next) && k <= |line|
    ensures Placed(line[k..], tail, next) && line + (tail + next) == line[..k] + (line[k..] + (tail + next))
  {
    CutEndsInk(line, k, tail + next);
    if line[k..] != "" {
      assert line[k..][|line[k..]| - 1] == line[|line| - 1];
    }
  }

  lemma EmptyPlaced(line: string, tail: string, next: string)
    requires Placed(line, tail, next) && DropSpace(line) == ""
    ensures line + (tail + next) == tail + next
  {
    assert line == line[..Indent(line)];
    assert line == "";
  }

  lemma LiteralHere(p: string, q: Pattern, name: string, line: string, tail: string, next: string)
    requires Placed(line, tail, next) && forall i :: 0 <= i < |p| ==> !IsSpace(p[i])
    ensures Match(Text(p, q), name, line + (tail + next)) ==
            if p <= line then Match(q, name, line[|p|..] + (tail + next)) else NotFound
  {
    NoInkBehind(tail, next);
    PrefixInLine(p, line, tail + next);
    if p <= line {
      CutPlaced(line, |p|, tail, next);
      TextMatches(p, q, name, line[|p|..] + (tail + next));
    }
  }

  lemma LiteralsAreInk()
    ensures forall p, i :: p in {"-", "**", ":**"} && 0 <= i < |p| ==> !IsSpace(p[i])
  {
    SpaceFacts();
  }

  // ---------- the value ----------

  /** The value group reads the value of the reader, and `after` is the text behind it. */
  predicate Reads(f: Found, name: string, value: string, after: string, rest: seq<string>) {
    && f == MatchEnd(name, value, after) && InkLines(after) == rest && EndsInk(after)
    && (Indent(after) == |after| || !OneLine(after[..Indent(after)]))
  }

  /** The pattern and the reader agree, and `after` is shorter than the text. */
  predicate Agree(f: Found, it: Item, after: string, size: nat) {
    if it.NoItem? then f.NotFound?
    else Reads(f, it.name, it.value, after, it.rest) && |after| < size
  }

  lemma ReadsValue(name: string, w: string, v: string, tail: string, next: string)
    requires Blank(w) && Trimmed(v) && Placed(v, tail, next)
    ensures Reads(MatchValue(name, w + (v + (tail + next))), name, v, tail + next, InkLines(next))
  {
    MatchValueReads(name, w, v, tail, next);
    BreakBehind(tail, next);
    DropTail(tail, next);
    SameLines(tail + next, next);
    SuffixEndsInk(v, tail + next);
  }

  lemma InkPlaced(line: string, tail: string, next: string)
    requires Placed(line, tail, next) && DropSpace(line) != ""
    ensures Trimmed(DropSpace(line)) && Placed(DropSpace(line), tail, next) && Blank(line[..Indent(line)])
    ensures line + (tail + next) == line[..Indent(line)] + (DropSpace(line) + (tail + next))
  {
    CutPlaced(line, Indent(line), tail, next);
  }

  lemma BlankHasNoValue(name: string, s: string)
    requires EndsInk(s) && DropSpace(s) == ""
    ensures MatchValue(name, s).NotFound?
  {
    assert s == s[..Indent(s)];
  }

  lemma ValueOnNext(name: string, tail: string, w: string, v: string, tail2: string, next2: string)
    requires Blank(tail) && Blank(w) && Trimmed(v) && Placed(v, tail2, next2)
    ensures Reads(MatchValue(name, tail + (w + (v + (tail2 + next2)))), name, v, tail2 + next2, InkLines(next2))
  {
    assert tail + (w + (v + (tail2 + next2))) == (tail + w) + (v + (tail2 + next2));
    ReadsValue(name, tail + w, v, tail2, next2);
  }

  /** The value on the next line. */
  lemma ValueBelow(name: string, tail: string, next: string) returns (after: string)
    requires Blank(tail) && StartsBreak(next) && EndsInk(tail + next)
    ensures Agree(MatchValue(name, tail + next), Valued(name, "", InkLines(next)), after, |tail + next| + 1)
  {
    after := "";
    if DropSpace(next) == "" {
      DropTail(tail, next);
      BlankHasNoValue(name, tail + next);
    } else {
      var w, v, tail2, next2 := Split(next);
      SuffixEndsInk(tail, next);
      SuffixEndsInk(w, v + (tail2 + next2));
      ValueOnNext(name, tail, w, v, tail2, next2);
      after := tail2 + next2;
    }
  }

  lemma ValueAgrees(name: string, q: string, tail: string, next: string) returns (after: string)
    requires Placed(q, tail, next)
    ensures Agree(MatchValue(name, q + (tail + next)), Valued(name, q, InkLines(next)), after, |q + (tail + next)| + 1)
  {
    if DropSpace(q) != "" {
      InkPlaced(q, tail, next);
      ReadsValue(name, q[..Indent(q)], DropSpace(q), tail, next);
      after := tail + next;
    } else {
      EmptyPlaced(q, tail, next);
      after := ValueBelow(name, tail, next);
    }
  }

  // ---------- the name ----------

  lemma Cut(a: string, b: string)
    ensures (a + b)[..|a|] == a && (a + b)[|a|..] == b
  {
  }

  predicate AllName(name: string) { forall i :: 0 <= i < |name| ==> NameChar(name[i]) }

  lemma AfterName(name: string, back: string)
    requires name != "" && AllName(name) && NameLen(back) == 0
    ensures Match(FROM_NAME, "", name + back) == Match(Text(":**", Value), name, back)
  {
    NameGoesOn(name, back);
    Cut(name, back);
  }

  lemma ColonAgrees(name: string, back: string, tail: string, next: string) returns (after: string)
    requires Placed(back, tail, next)
    ensures Agree(Match(Text(":**", Value), name, back + (tail + next)),
                  if ":**" <= back then Valued(name, back[3..], InkLines(next)) else NoItem, after,
                  |back + (tail + next)|)
  {
    after := "";
    LiteralsAreInk();
    LiteralHere(":**", Value, name, back, tail, next);
    if ":**" <= back {
      CutPlaced(back, 3, tail, next);
      after := ValueAgrees(name, back[3..], tail, next);
    }
  }

  lemma NoNameHere(back: string, rest: string)
    requires back != "" && !NameChar(back[0])
    ensures NameLen(back + rest) == 0 && Match(FROM_NAME, "", back + rest).NotFound?
  {
  }

  lemma NamedParts(name: string, back: string, more: seq<string>)
    requires AllName(name) && back != "" && !NameChar(back[0])
    ensures NamedBy(name + back, more) ==
            if name != "" && ":**" <= back then Valued(name, back[3..], more) else NoItem
  {
    NameGoesOn(name, back);
    Cut(name, back);
    if ":**" <= back {
      assert (name + back)[|name| + 3..] == back[3..];
    }
  }

  /** A name that ends on its line, with what is behind it. */
  lemma PartsAgree(name: string, back: string, tail: string, next: string) returns (after: string)
    requires AllName(name) && back != "" && !NameChar(back[0]) && Placed(back, tail, next)
    ensures Agree(Match(FROM_NAME, "", name + (back + (tail + next))), NamedBy(name + back, InkLines(next)), after,
                  |back + (tail + next)|)
  {
    after := "";
    NamedParts(name, back, InkLines(next));
    NoNameHere(back, tail + next);
    if name == "" {
      assert name + (back + (tail + next)) == back + (tail + next);
    } else {
      AfterName(name, back + (tail + next));
      after := ColonAgrees(name, back, tail, next);
    }
  }

  lemma NotClosed(s: string)
    requires !(":**" <= s[NameLen(s)..])
    ensures Match(FROM_NAME, "", s).NotFound?
  {
  }

  lemma NameAgrees(t: string, tail: string, next: string) returns (after: string)
    requires Placed(t, tail, next)
    ensures Agree(Match(FROM_NAME, "", t + (tail + next)), NamedBy(t, InkLines(next)), after, |t + (tail + next)| + 1)
  {
    after := "";
    if NameLen(t) == |t| {
      NameRunsOut(t, tail, next);
      NotClosed(t + (tail + next));
    } else {
      CutPlaced(t, NameLen(t), tail, next);
      assert t[..NameLen(t)] + t[NameLen(t)..] == t;
      after := PartsAgree(t[..NameLen(t)], t[NameLen(t)..], tail, next);
    }
  }

  // ---------- the stars and the dash ----------

  lemma NamedAgrees(line: string, tail: string, next: string) returns (after: string)
    requires Placed(line, tail, next)
    ensures Agree(Match(Text("**", FROM_NAME), "", line + (tail + next)), Named(line, InkLines(next)), after,
                  |line + (tail + next)| + 1)
  {
    after := "";
    LiteralsAreInk();
    LiteralHere("**", FROM_NAME, "", line, tail, next);
    if "**" <= line {
      CutPlaced(line, 2, tail, next);
      after := NameAgrees(line[2..], tail, next);
    }
  }

  lemma DashBehind(u: string, tail: string, next: string) returns (after: string)
    requires Placed(u, tail, next) && DropSpace(u) != ""
    ensures Agree(Match(Spaces(Text("**", FROM_NAME)), "", u + (tail + next)), Named(DropSpace(u), InkLines(next)),
                  after, |u + (tail + next)| + 1)
  {
    InkPlaced(u, tail, next);
    IndentOf(u[..Indent(u)], DropSpace(u) + (tail + next));
    after := NamedAgrees(DropSpace(u), tail, next);
  }

  lemma DashBelow(tail: string, next: string) returns (after: string)
    requires Placed("", tail, next)
    ensures Agree(Match(Spaces(Text("**", FROM_NAME)), "", tail + next), Dashed("", InkLines(next)), after,
                  |tail + next| + 1)
  {
    after := "";
    DropTail(tail, next);
    assert "" + (tail + next) == tail + next;
    if DropSpace(next) != "" {
      var w, v, tail2, next2 := Split(next);
      SuffixEndsInk(tail, next);
      SuffixEndsInk(w, v + (tail2 + next2));
      after := NamedAgrees(v, tail2, next2);
    }
  }

  /** The text behind a dash. */
  lemma DashAgrees(u: string, tail: string, next: string) returns (after: string)
    requires Placed(u, tail, next)
    ensures Agree(Match(Spaces(Text("**", FROM_NAME)), "", u + (tail + next)), Dashed(u, InkLines(next)), after,
                  |u + (tail + next)| + 1)
  {
    if DropSpace(u) != "" {
      after := DashBehind(u, tail, next);
    } else {
      EmptyPlaced(u, tail, next);
      CutPlaced(u, |u|, tail, next);
      after := DashBelow(tail, next);
    }
  }

  lemma FromFirstInk(line: string, rest: string)
    requires line != "" && !IsSpace(line[0])
    ensures FieldPattern(line + rest) == Match(FROM_DASH, "", line + rest)
  {
    IndentOf("", line + rest);
    assert "" + (line + rest) == line + rest;
  }

  /** The pattern at the first ink of a text, and the reader on its lines. */
  lemma ItemAgrees(line: string, tail: string, next: string) returns (after: string)
    requires Trimmed(line) && Placed(line, tail, next)
    ensures Agree(FieldPattern(line + (tail + next)), ItemOf(line, InkLines(next)), after, |line + (tail + next)|)
  {
    after := "";
    FromFirstInk(line, tail + next);
    LiteralsAreInk();
    LiteralHere("-", Spaces(Text("**", FROM_NAME)), "", line, tail, next);
    if "-" <= line {
      CutPlaced(line, 1, tail, next);
      after := DashAgrees(line[1..], tail, next);
    }
  }

  // ---------- the scan of a text ----------

  lemma ReadFirst(line: string, more: seq<string>)
    ensures ReadLines([line] + more) == TakenBy(ItemOf(line, more)) + ReadLines(LeftBy(ItemOf(line, more), more))
  {
    assert ([line] + more)[1..] == more;
  }

  lemma ScanSkipsLine(line: string, tail: string, next: string)
    requires Trimmed(line) && OneLine(tail) && StartsBreak(next) && FieldPattern(line + (tail + next)).NotFound?
    ensures FieldsIn(line + (tail + next)) ==
            if next == "" then [] else FieldsIn(next[1..])
  {
    assert line + (tail + next) == (line + tail) + next;
    ScanInertLine(FieldPattern, line + tail, next);
  }

  lemma LinesBehindBreak(next: string)
    requires next != "" && next[0] == '\n'
    ensures InkLines(next[1..]) == InkLines(next)
  {
    SpaceFacts();
    assert next == "\n" + next[1..];
    DropTail("\n", next[1..]);
    SameLines(next, next[1..]);
  }

  lemma ScanPastSpace(s: string)
    ensures FieldsIn(DropSpace(s)) == FieldsIn(s)
  {
    FieldPatternIgnoresIndent();
    assert s == s[..Indent(s)] + DropSpace(s);
    ScanSpace(FieldPattern, true, s[..Indent(s)], DropSpace(s));
  }

  lemma ScanBlank(s: string)
    requires DropSpace(s) == ""
    ensures FieldsIn(s) == []
  {
    ScanPastSpace(s);
  }

  lemma ScanTakesItem(s: string, after: string, it: Item)
    requires Agree(FieldPattern(s), it, after, |s|) && it.Item?
    ensures FieldsIn(s) == [Field(Key(it.name), it.value)] + FieldsIn(after)
  {
    ScanMatched(s, FieldPattern(s), after);
    ScanPastSpace(after);
  }

  lemma NextScanned(v: string, tail: string, next: string) returns (left: string)
    requires Trimmed(v) && OneLine(tail) && StartsBreak(next) && FieldPattern(v + (tail + next)).NotFound?
    requires EndsInk(v + (tail + next))
    ensures FieldsIn(v + (tail + next)) == FieldsIn(left)
    ensures InkLines(left) == InkLines(next) && EndsInk(left) && |left| < |v + (tail + next)|
  {
    ScanSkipsLine(v, tail, next);
    left := "";
    if next != "" {
      left := next[1..];
      LinesBehindBreak(next);
      SuffixEndsInk(v, tail + next);
      SuffixEndsInk(tail, next);
      SuffixEndsInk(next[..1], left);
    }
  }

  lemma LineScanned(v: string, tail: string, next: string) returns (left: string)
    requires Trimmed(v) && Placed(v, tail, next)
    ensures EndsInk(left) && |left| < |v + (tail + next)|
    ensures var it := ItemOf(v, InkLines(next));
            && InkLines(left) == LeftBy(it, InkLines(next))
            && FieldsIn(v + (tail + next)) == TakenBy(it) + FieldsIn(left)
  {
    left := ItemAgrees(v, tail, next);
    var it := ItemOf(v, InkLines(next));
    if it.Item? {
      ScanTakesItem(v + (tail + next), left, it);
    } else {
      left := NextScanned(v, tail, next);
    }
  }

  /** On a text that ends in ink, the scan finds the fields among its inked lines. */
  lemma {:induction false} ScanReadsLines(s: string)
    requires EndsInk(s)
    ensures FieldsIn(s) == ReadLines(InkLines(s))
    decreases |s|
  {
    if DropSpace(s) == "" {
      ScanBlank(s);
    } else {
      var w, v, tail, next := Split(s);
      SuffixEndsInk(w, v + (tail + next));
      ScanPastSpace(s);
      var left := LineScanned(v, tail, next);
      ScanReadsLines(left);
      ReadFirst(v, InkLines(next));
    }
  }
}
