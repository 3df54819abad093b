/**
 What the reader of BodyLines makes of some lines: of single ones, of lines that are no list items, of lines below
 others, and that every value it finds is a stripped line.
 */
module LineFacts {
  import opened IssueBody
  import opened BodyLines

  // ---------- single lines ----------

  lemma EndsInkBelow(a: string, b: string)
    requires b != "" && EndsInk(b)
    ensures EndsInk(a + b)
  {
    assert (a + b)[|a + b| - 1] == b[|b| - 1];
  }

  lemma BelowEndsInk(a: string, b: string)
    requires b != "" && EndsInk(b)
    ensures a + ("\n" + b) != "" && EndsInk(a + ("\n" + b))
  {
    EndsInkBelow("\n", b);
    EndsInkBelow(a, "\n" + b);
  }

  lemma BlankEndsSpace(b: string)
    requires DropSpace(b) == "" && b != ""
    ensures IsSpace(b[|b| - 1])
  {
    assert b == b[..Indent(b)];
  }

  lemma HasLine(b: string)
    requires b != "" && EndsInk(b)
    ensures InkLines(b) != []
  {
    if DropSpace(b) == "" {
      BlankEndsSpace(b);
      assert false;
    }
  }

  lemma OneLineStrips(s: string)
    requires OneLine(s)
    ensures OneLine(Strip(s))
  {
  }

  lemma StripParts(s: string) returns (w: string, tail: string)
    requires !Blank(s)
    ensures s == w + (Strip(s) + tail) && Blank(w) && Blank(tail)
    ensures Strip(s) != "" && !IsSpace(Strip(s)[0]) && !IsSpace(Strip(s)[|Strip(s)| - 1])
  {
    var t := DropSpace(s);
    w, tail := s[..Indent(s)], t[Ink(t)..];
    StripInk(s);
  }

  lemma OnlyLine(w: string, v: string, t: string)
    requires Blank(w) && Trimmed(v) && Blank(t)
    ensures InkLines(w + (v + t)) == [v]
  {
    var n := LineLen(t);
    CutBlank(t, n);
    OnlyFirstLine(w, v, t, t[..n], t[n..]);
  }

  lemma CutBlank(t: string, n: nat)
    requires Blank(t) && n <= |t|
    ensures Blank(t[..n]) && Blank(t[n..]) && t == t[..n] + t[n..]
  {
  }

  lemma OnlyFirstLine(w: string, v: string, t: string, tail: string, next: string)
    requires Blank(w) && Trimmed(v) && Blank(tail) && OneLine(tail) && Blank(next) && StartsBreak(next)
    requires t == tail + next
    ensures InkLines(w + (v + t)) == [v]
  {
    FirstLine(w, v, tail, next);
    BlankHasNoLines(next);
  }

  /** A text whose ink fits on a line is that line. */
  lemma LineOf(s: string)
    requires !Blank(s) && OneLine(Strip(s))
    ensures InkLines(s) == [Strip(s)]
  {
    var w, tail := StripParts(s);
    OnlyLine(w, Strip(s), tail);
  }

  lemma TrimmedLine(line: string)
    requires Trimmed(line)
    ensures InkLines(line) == [line]
  {
    StripTrimmed(line);
    LineOf(line);
  }

  lemma TrimmedIsRead(line: string, more: seq<string>)
    requires Trimmed(line) && line[0] != '-'
    ensures InkLines(line) == [line] && ReadLines([line] + more) == ReadLines(more)
  {
    TrimmedLine(line);
    ReadFirst(line, more);
  }

  lemma InkIsLeft(s: string)
    ensures DropSpace(s) == "" ==> Blank(s)
  {
    assert DropSpace(s) == "" ==> s[..Indent(s)] == s;
  }

  lemma BlankOrLines(s: string)
    ensures Blank(s) <==> InkLines(s) == []
  {
    if Blank(s) {
      BlankHasNoLines(s);
    } else {
      InkIsLeft(s);
    }
  }

  // ---------- inert lines ----------

  lemma SpaceBehindInk(line: string, k: nat)
    requires Ink(line) <= k < |line|
    ensures IsSpace(line[k])
  {
    assert line[Ink(line)..][k - Ink(line)] == line[k];
  }

  lemma DashedStrip(line: string)
    requires |line| > 1 && !IsSpace(line[0]) && !IsSpace(line[1])
    ensures |Strip(line)| > 1 && Strip(line)[0] == line[0] && Strip(line)[1] == line[1]
  {
    assert DropSpace(line) == line;
    if Ink(line) < 2 {
      SpaceBehindInk(line, 1);
      assert false;
    }
  }

  lemma StripInert(line: string)
    requires Inert(line) && !Blank(line)
    ensures Inert(Strip(line)) && OneLine(Strip(line))
  {
    StripInk(line);
    if line[0] == '-' {
      SpaceFacts();
      DashedStrip(line);
    } else {
      assert Indent(line) == 0;
    }
  }

  lemma InertInk(line: string)
    requires Inert(line)
    ensures forall l :: l in InkLines(line) ==> Inert(l)
  {
    BlankOrLines(line);
    if !Blank(line) {
      StripInert(line);
      LineOf(line);
    }
  }

  /** The lines of a text made of inert lines are inert. */
  lemma {:induction false} JoinedInert(lines: seq<string>)
    requires lines != [] && forall l :: l in lines ==> Inert(l)
    ensures forall l :: l in InkLines(Join(lines)) ==> Inert(l)
  {
    InertInk(lines[0]);
    if |lines| == 1 {
    } else {
      LinesConcat(lines[0], Join(lines[1..]));
      JoinedInert(lines[1..]);
    }
  }

  lemma InertIsNoItem(line: string, more: seq<string>)
    requires Inert(line)
    ensures ItemOf(line, more).NoItem?
  {
    if "-" <= line {
      assert line[0] == '-';
      IndentOf("", line[1..]);
      assert "" + line[1..] == line[1..];
      assert "**"[0] == '*';
    }
  }

  lemma {:induction false} InertReadNothing(lines: seq<string>)
    requires forall l :: l in lines ==> Inert(l)
    ensures ReadLines(lines) == []
  {
    if lines == [] {
    } else {
      InertIsNoItem(lines[0], lines[1..]);
      InertReadNothing(lines[1..]);
    }
  }

  // ---------- lines below a line that is neither an item nor a name ----------

  predicate Plain(line: string) { !("-" <= line) && !("**" <= line) }

  predicate EndsPlain(lines: seq<string>) { lines != [] && Plain(lines[|lines| - 1]) }

  function More(it: Item, below: seq<string>): Item {
    match it
    case NoItem => NoItem
    case Item(name, value, rest) => Item(name, value, rest + below)
  }

  lemma NamedWithMore(line: string, more: seq<string>, below: seq<string>)
    requires more != []
    ensures Named(line, more + below) == More(Named(line, more), below)
    ensures Named(line, more).Item? ==> Named(line, more).rest == more || Named(line, more).rest == more[1..]
  {
    assert (more + below)[1..] == more[1..] + below;
  }

  lemma ShorterEndsPlain(lines: seq<string>)
    requires EndsPlain(lines) && lines[1..] != []
    ensures EndsPlain(lines[1..])
  {
  }

  lemma DashedWithMore(text: string, more: seq<string>, below: seq<string>)
    requires EndsPlain(more)
    ensures Dashed(text, more + below) == More(Dashed(text, more), below)
    ensures Dashed(text, more).Item? && Dashed(text, more).rest != [] ==> EndsPlain(Dashed(text, more).rest)
  {
    assert (more + below)[1..] == more[1..] + below && (more + below)[0] == more[0];
    if DropSpace(text) != "" {
      NamedWithMore(DropSpace(text), more, below);
    } else if more[1..] != [] {
      ShorterEndsPlain(more);
      NamedWithMore(more[0], more[1..], below);
    }
  }

  /** Lines that come below do not matter to an item if there is a plain line above them. */
  lemma ItemWithMore(line: string, more: seq<string>, below: seq<string>)
    requires EndsPlain(more)
    ensures ItemOf(line, more + below) == More(ItemOf(line, more), below)
    ensures LeftBy(ItemOf(line, more), more) == [] || EndsPlain(LeftBy(ItemOf(line, more), more))
  {
    if "-" <= line {
      DashedWithMore(line[1..], more, below);
    }
  }

  lemma ReadWithMore(line: string, more: seq<string>, below: seq<string>, it: Item, left: seq<string>)
    requires EndsPlain(more) && it == ItemOf(line, more) && left == LeftBy(it, more)
    requires ReadLines(left + below) == ReadLines(left)
    ensures ReadLines([line] + (more + below)) == ReadLines([line] + more)
  {
    ReadFirst(line, more + below);
    ReadFirst(line, more);
    ItemWithMore(line, more, below);
  }

  lemma PlainReads(line: string, below: seq<string>)
    requires Plain(line) && ReadLines(below) == []
    ensures ReadLines([line] + below) == [] && ReadLines([line]) == []
  {
    ReadFirst(line, below);
    ReadFirst(line, []);
    assert [line] + [] == [line];
  }

  lemma FirstApart(lines: seq<string>, below: seq<string>)
    requires lines != []
    ensures lines + below == [lines[0]] + (lines[1..] + below) && lines == [lines[0]] + lines[1..]
  {
  }

  /** So lines that hold nothing by themselves can be left out below a plain line. */
  lemma {:induction false} NothingBelow(lines: seq<string>, below: seq<string>)
    requires EndsPlain(lines) && ReadLines(below) == []
    ensures ReadLines(lines + below) == ReadLines(lines)
    decreases |lines|
  {
    var line, more := lines[0], lines[1..];
    if more == [] {
      assert lines == [line];
      PlainReads(line, below);
    } else {
      ShorterEndsPlain(lines);
      var it := ItemOf(line, more);
      var left := LeftBy(it, more);
      ItemWithMore(line, more, below);
      if left == [] {
        assert left + below == below;
      } else {
        NothingBelow(left, below);
      }
      ReadWithMore(line, more, below, it, left);
      FirstApart(lines, below);
    }
  }

  // ---------- every value is a stripped line ----------

  predicate AllTrimmed(lines: seq<string>) { forall k :: 0 <= k < |lines| ==> Trimmed(lines[k]) }

  lemma {:induction false} InkIsAllTrimmed(s: string)
    ensures AllTrimmed(InkLines(s))
    decreases |s|
  {
    if DropSpace(s) == "" {
    } else {
      var w, v, tail, next := Split(s);
      InkIsAllTrimmed(next);
    }
  }

  lemma DroppedIsTrimmed(t: string)
    requires OneLine(t) && EndsInk(t) && DropSpace(t) != ""
    ensures Trimmed(DropSpace(t))
  {
    assert DropSpace(t)[|DropSpace(t)| - 1] == t[|t| - 1];
  }

  lemma SuffixFits(t: string, k: nat)
    requires OneLine(t) && EndsInk(t) && k <= |t|
    ensures OneLine(t[k..]) && EndsInk(t[k..])
  {
    assert t[k..] != "" ==> t[k..][|t[k..]| - 1] == t[|t| - 1];
  }

  lemma ValuedIsTrimmed(name: string, text: string, more: seq<string>)
    requires OneLine(text) && EndsInk(text) && AllTrimmed(more) && Valued(name, text, more).Item?
    ensures Trimmed(Valued(name, text, more).value) && AllTrimmed(Valued(name, text, more).rest)
  {
    if DropSpace(text) != "" {
      DroppedIsTrimmed(text);
    }
  }

  lemma NamedByIsTrimmed(t: string, more: seq<string>)
    requires OneLine(t) && EndsInk(t) && AllTrimmed(more) && NamedBy(t, more).Item?
    ensures Trimmed(NamedBy(t, more).value) && AllTrimmed(NamedBy(t, more).rest)
  {
    SuffixFits(t, NameLen(t) + 3);
    ValuedIsTrimmed(t[..NameLen(t)], t[NameLen(t) + 3..], more);
  }

  lemma NamedIsTrimmed(line: string, more: seq<string>)
    requires OneLine(line) && EndsInk(line) && AllTrimmed(more) && Named(line, more).Item?
    ensures Trimmed(Named(line, more).value) && AllTrimmed(Named(line, more).rest)
  {
    SuffixFits(line, 2);
    NamedByIsTrimmed(line[2..], more);
  }

  lemma ItemIsTrimmed(line: string, more: seq<string>)
    requires Trimmed(line) && AllTrimmed(more)
    ensures AllTrimmed(LeftBy(ItemOf(line, more), more))
    ensures ItemOf(line, more).Item? ==> Trimmed(ItemOf(line, more).value)
  {
    if ItemOf(line, more).Item? {
      if DropSpace(line[1..]) != "" {
        SuffixFits(line, 1);
        DroppedIsTrimmed(line[1..]);
        NamedIsTrimmed(DropSpace(line[1..]), more);
      } else {
        NamedIsTrimmed(more[0], more[1..]);
      }
    }
  }

  predicate TrimmedValues(found: seq<Field>) { forall k :: 0 <= k < |found| ==> Trimmed(found[k].value) }

  lemma {:induction false} ReadIsTrimmed(lines: seq<string>)
    requires AllTrimmed(lines)
    ensures TrimmedValues(ReadLines(lines))
    decreases |lines|
  {
    if lines == [] {
    } else {
      ItemIsTrimmed(lines[0], lines[1..]);
      ReadIsTrimmed(LeftBy(ItemOf(lines[0], lines[1..]), lines[1..]));
    }
  }

  lemma {:induction false} LookupIsTrimmed(found: seq<Field>, name: string)
    requires TrimmedValues(found)
    ensures Lookup(found, name).Some? ==> Trimmed(Lookup(found, name).value)
  {
    if found == [] {
    } else {
      LookupIsTrimmed(found[..|found| - 1], name);
    }
  }
}
