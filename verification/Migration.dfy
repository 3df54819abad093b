/**
 Backfilling missing work keys before the unique index is built
 (_backfill_missing_work_keys in app/db/connection.py).

 The table is given in ascending id order, which is the order of the loop; a missing key is
 the empty string.
 */
module Migration {
  import opened Base
  import opened WorkKeys

  datatype LegacyRow = LegacyRow(
    id: nat,
    key: string,
    triggerRef: string,
    issueNumber: Option<int>,
    labelName: Option<string>)
  {
    predicate Missing() { key == "" }
  }

  /** What a row tells about the issue it came from. */
  datatype Origin = Unknown | Issue(repo: string, number: int, labelName: string)

  function OriginOf(row: LegacyRow): (o: Origin)
    ensures o.Issue? ==> row.labelName == Some(o.labelName)
  {
    match SearchUrl(row.triggerRef)
    case NoMatch => Unknown
    case IssueRef(repo, n) =>
      if row.labelName.Some? && row.labelName.value != "" then
        Issue(repo, if row.issueNumber.Some? then row.issueNumber.value else n, row.labelName.value)
      else Unknown
  }

  function Spell(o: Origin, id: nat): (k: string)
    ensures k != ""
  {
    match o
    case Unknown => LegacyKey(id)
    case Issue(repo, number, l) => MakeWorkKey(repo, number, l)
  }

  /** The key a handler would use for this row, or one of its own when that cannot be told. */
  function CanonicalKey(row: LegacyRow): (k: string)
    ensures k != ""
  {
    Spell(OriginOf(row), row.id)
  }

  /** The canonical key, spelled out: the repository comes from the row's URL, the number from its own column if
      that is filled, and a row without a usable URL or label is named by its own id. */
  lemma CanonicalKeyIs(row: LegacyRow)
    ensures var found := SearchUrl(row.triggerRef);
            CanonicalKey(row) ==
            if found.IssueRef? && row.labelName.Some? && row.labelName.value != "" then
              "issue:" + found.repo + ":" +
              Numeral(if row.issueNumber.Some? then row.issueNumber.value else found.number) + ":" + row.labelName.value
            else "legacy:" + Dec(row.id)
  {
    if SearchUrl(row.triggerRef).IssueRef? && row.labelName.Some? {
      KeyShapes(SearchUrl(row.triggerRef).repo,
                if row.issueNumber.Some? then row.issueNumber.value else SearchUrl(row.triggerRef).number,
                row.labelName.value, 0);
    }
  }

  /** A way of naming rows.  What the loop does to the table does not depend on which. */
  type Rule = f: LegacyRow -> string | forall r :: f(r) != "" witness r => "x"

  const CANONICAL: Rule := CanonicalKey

  function Suffixed(key: string, id: nat): string { key + (":dup:" + Dec(id)) }

  lemma SuffixIs(key: string, id: nat)
    ensures Suffixed(key, id) == key + ":dup:" + Dec(id)
  {
    assert key + (":dup:" + Dec(id)) == key + ":dup:" + Dec(id);
  }

  function Choose(rule: Rule, row: LegacyRow, existing: set<string>): (k: string)
    ensures k != ""
  {
    if rule(row) in existing then Suffixed(rule(row), row.id) else rule(row)
  }

  function Keys(rows: seq<LegacyRow>): set<string> {
    set i | 0 <= i < |rows| && !rows[i].Missing() :: rows[i].key
  }

  /** The table once the loop has dealt with the first n rows: also what is left behind when the
      process stops there. */
  function FillTo(rule: Rule, rows: seq<LegacyRow>, n: nat): (r: seq<LegacyRow>)
    requires n <= |rows|
    ensures |r| == |rows|
    ensures forall j {:trigger r[j]} :: 0 <= j < |rows| ==> r[j] == rows[j].(key := r[j].key)
    ensures forall j {:trigger r[j]} :: 0 <= j < |rows| && (n <= j || !rows[j].Missing()) ==> r[j] == rows[j]
    ensures forall j {:trigger r[j]} :: 0 <= j < n ==> !r[j].Missing()
  {
    if n == 0 then rows else FillRow(rule, FillTo(rule, rows, n - 1), n - 1)
  }

  function FillRow(rule: Rule, rows: seq<LegacyRow>, i: nat): seq<LegacyRow>
    requires i < |rows|
  {
    if rows[i].Missing() then rows[i := rows[i].(key := Choose(rule, rows[i], Keys(rows)))] else rows
  }

  function Backfill(rule: Rule, rows: seq<LegacyRow>): seq<LegacyRow> {
    FillTo(rule, rows, |rows|)
  }

  method AssignKeys(table: array<LegacyRow>, rule: Rule)
    modifies table
    ensures table[..] == Backfill(rule, old(table[..]))
  {
    ghost var before := table[..];
    var existing := Keys(table[..]);
    for i := 0 to table.Length
      invariant table[..] == FillTo(rule, before, i)
      invariant existing == Keys(table[..])
    {
      if table[i].key == "" {
        ghost var was := table[..];
        var wk := Choose(rule, table[i], existing);
        existing := existing + {wk};
        table[i] := table[i].(key := wk);
        assert table[..] == was[i := was[i].(key := wk)];
        KeysGrow(was, i, wk);
      }
    }
  }

  method BackfillMissingWorkKeys(table: array<LegacyRow>)
    modifies table
    ensures table[..] == Backfill(CANONICAL, old(table[..]))
  {
    AssignKeys(table, CANONICAL);
  }

  lemma KeysGrow(rows: seq<LegacyRow>, i: nat, wk: string)
    requires i < |rows| && rows[i].Missing() && wk != ""
    ensures Keys(rows[i := rows[i].(key := wk)]) == Keys(rows) + {wk}
  {
    var next := rows[i := rows[i].(key := wk)];
    assert next[i].key in Keys(next);
    forall k | k in Keys(rows) ensures k in Keys(next) {
      var j :| 0 <= j < |rows| && !rows[j].Missing() && rows[j].key == k;
      assert next[j].key == k;
    }
  }

  // ---------- interrupted and run again ----------

  lemma {:induction false} FilledIsSkipped(rule: Rule, rows: seq<LegacyRow>, n: nat)
    requires n <= |rows| && forall j :: 0 <= j < n ==> !rows[j].Missing()
    ensures FillTo(rule, rows, n) == rows
  {
    if n == 0 {
    } else {
      FilledIsSkipped(rule, rows, n - 1);
    }
  }

  /** Stopping after any row and starting over ends in the same table. */
  lemma {:induction false} Resume(rule: Rule, rows: seq<LegacyRow>, stop: nat, n: nat)
    requires stop <= n <= |rows|
    ensures FillTo(rule, FillTo(rule, rows, stop), n) == FillTo(rule, rows, n)
  {
    if n == stop {
      FilledIsSkipped(rule, FillTo(rule, rows, stop), n);
    } else {
      Resume(rule, rows, stop, n - 1);
    }
  }

  lemma RestartSafe(rule: Rule, rows: seq<LegacyRow>, stop: nat)
    requires stop <= |rows|
    ensures Backfill(rule, FillTo(rule, rows, stop)) == Backfill(rule, rows)
    ensures Backfill(rule, Backfill(rule, rows)) == Backfill(rule, rows)
  {
    Resume(rule, rows, stop, |rows|);
    Resume(rule, rows, |rows|, |rows|);
  }

  // ---------- which key each row gets ----------

  /** The keys in use when the loop reaches row n, told from the original table alone. */
  function Taken(rule: Rule, rows: seq<LegacyRow>, n: nat): set<string>
    requires n <= |rows|
  {
    if n == 0 then Keys(rows)
    else if !rows[n - 1].Missing() then Taken(rule, rows, n - 1)
    else Taken(rule, rows, n - 1) + {Choose(rule, rows[n - 1], Taken(rule, rows, n - 1))}
  }

  predicate Collides(rule: Rule, rows: seq<LegacyRow>, i: nat)
    requires i < |rows|
  {
    rows[i].Missing() && rule(rows[i]) in Taken(rule, rows, i)
  }

  lemma FillRowKeys(rule: Rule, rows: seq<LegacyRow>, i: nat)
    requires i < |rows|
    ensures Keys(FillRow(rule, rows, i)) ==
            if rows[i].Missing() then Keys(rows) + {Choose(rule, rows[i], Keys(rows))} else Keys(rows)
  {
    if rows[i].Missing() {
      KeysGrow(rows, i, Choose(rule, rows[i], Keys(rows)));
    }
  }

  lemma {:induction false} TakenIsWhatIsStored(rule: Rule, rows: seq<LegacyRow>, n: nat)
    requires n <= |rows|
    ensures Keys(FillTo(rule, rows, n)) == Taken(rule, rows, n)
  {
    if n == 0 {
    } else {
      TakenIsWhatIsStored(rule, rows, n - 1);
      FillRowKeys(rule, FillTo(rule, rows, n - 1), n - 1);
      assert FillTo(rule, rows, n - 1)[n - 1] == rows[n - 1];
    }
  }

  lemma {:induction false} KeyIsFinal(rule: Rule, rows: seq<LegacyRow>, i: nat, n: nat)
    requires i < n <= |rows|
    ensures FillTo(rule, rows, n)[i] == FillTo(rule, rows, i + 1)[i]
  {
    if n <= i + 1 {
    } else {
      KeyIsFinal(rule, rows, i, n - 1);
    }
  }

  /** Every row keeps the key it had; a row without one gets its canonical key unless that key is
      taken by its turn, and then its own suffixed form. */
  lemma BackfillAssigns(rule: Rule, rows: seq<LegacyRow>, i: nat)
    requires i < |rows|
    ensures Backfill(rule, rows)[i].key ==
            if !rows[i].Missing() then rows[i].key
            else if Collides(rule, rows, i) then rule(rows[i]) + ":dup:" + Dec(rows[i].id)
            else rule(rows[i])
  {
    SuffixIs(rule(rows[i]), rows[i].id);
    KeyIsFinal(rule, rows, i, |rows|);
    TakenIsWhatIsStored(rule, rows, i);
  }

  // ---------- uniqueness ----------

  ghost predicate AllPresent(rows: seq<LegacyRow>) {
    forall i :: 0 <= i < |rows| ==> rows[i].key != ""
  }

  ghost predicate Unique(rows: seq<LegacyRow>) {
    forall i, j :: 0 <= i < j < |rows| && !rows[i].Missing() && !rows[j].Missing() ==> rows[i].key != rows[j].key
  }

  ghost predicate DistinctIds(rows: seq<LegacyRow>) {
    forall i, j :: 0 <= i < j < |rows| ==> rows[i].id != rows[j].id
  }

  /** Row i has to fall back on its suffixed key, but that very string is an original key or the
      canonical key of an earlier row. */
  ghost predicate Squatted(rule: Rule, rows: seq<LegacyRow>, i: nat)
    requires i < |rows|
  {
    Collides(rule, rows, i) &&
    (Suffixed(rule(rows[i]), rows[i].id) in Keys(rows) ||
     exists j :: 0 <= j < i && rows[j].Missing() && rule(rows[j]) == Suffixed(rule(rows[i]), rows[i].id))
  }

  lemma SuffixShape(a: string, d: string)
    ensures a + (":dup:" + d) == (a + ":dup") + [':'] + d
  {
  }

  lemma SuffixSplit(a: string, d: string, b: string, e: string)
    requires Free(':', d) && Free(':', e) && a + (":dup:" + d) == b + (":dup:" + e)
    ensures d == e
  {
    SuffixShape(a, d);
    SuffixShape(b, e);
    LastSplit(':', a + ":dup", d, b + ":dup", e);
  }

  lemma SuffixedDiffer(a: string, i: nat, b: string, j: nat)
    requires i != j
    ensures Suffixed(a, i) != Suffixed(b, j)
  {
    if Suffixed(a, i) == Suffixed(b, j) {
      SuffixSplit(a, Dec(i), b, Dec(j));
      ValueOfDec(i);
      ValueOfDec(j);
    }
  }

  lemma {:induction false} TakenMembers(rule: Rule, rows: seq<LegacyRow>, n: nat, k: string)
    requires n <= |rows| && k in Taken(rule, rows, n)
    ensures k in Keys(rows) ||
            exists j :: 0 <= j < n && rows[j].Missing() &&
                        (k == rule(rows[j]) || k == Suffixed(rule(rows[j]), rows[j].id))
  {
    if n > 0 && k in Taken(rule, rows, n - 1) {
      TakenMembers(rule, rows, n - 1, k);
    }
  }

  lemma {:induction false} TakenCovers(rule: Rule, rows: seq<LegacyRow>, n: nat, j: nat)
    requires n <= |rows|
    ensures Keys(rows) <= Taken(rule, rows, n)
    ensures j < n && rows[j].Missing() ==> rule(rows[j]) in Taken(rule, rows, n)
  {
    if n == 0 {
    } else {
      TakenCovers(rule, rows, n - 1, j);
    }
  }

  /** A row that is not squatted is given a key nobody has. */
  lemma ChosenIsNew(rule: Rule, rows: seq<LegacyRow>, i: nat)
    requires i < |rows| && rows[i].Missing() && DistinctIds(rows) && !Squatted(rule, rows, i)
    ensures Choose(rule, rows[i], Taken(rule, rows, i)) !in Taken(rule, rows, i)
  {
    var wk := Choose(rule, rows[i], Taken(rule, rows, i));
    if wk in Taken(rule, rows, i) {
      TakenMembers(rule, rows, i, wk);
      forall j | 0 <= j < i ensures wk != Suffixed(rule(rows[j]), rows[j].id) {
        SuffixedDiffer(rule(rows[i]), rows[i].id, rule(rows[j]), rows[j].id);
      }
    }
  }

  lemma {:induction false} UniqueUpTo(rule: Rule, rows: seq<LegacyRow>, n: nat)
    requires n <= |rows| && DistinctIds(rows) && Unique(rows)
    requires forall i :: 0 <= i < n ==> !Squatted(rule, rows, i)
    ensures Unique(FillTo(rule, rows, n))
  {
    if n == 0 {
    } else {
      UniqueUpTo(rule, rows, n - 1);
      UniqueNext(rule, rows, n - 1);
    }
  }

  lemma UniqueNext(rule: Rule, rows: seq<LegacyRow>, i: nat)
    requires i < |rows| && DistinctIds(rows) && !Squatted(rule, rows, i) && Unique(FillTo(rule, rows, i))
    ensures Unique(FillTo(rule, rows, i + 1))
  {
    if rows[i].Missing() {
      TakenIsWhatIsStored(rule, rows, i);
      ChosenIsNew(rule, rows, i);
      AddUnique(FillTo(rule, rows, i), i, Choose(rule, rows[i], Taken(rule, rows, i)));
    }
  }

  lemma AddUnique(r: seq<LegacyRow>, i: nat, wk: string)
    requires i < |r| && r[i].Missing() && Unique(r) && wk !in Keys(r)
    ensures Unique(r[i := r[i].(key := wk)])
  {
    assert forall j :: 0 <= j < |r| && !r[j].Missing() ==> r[j].key in Keys(r);
  }

  lemma SquattedBreaks(rule: Rule, rows: seq<LegacyRow>, i: nat)
    requires i < |rows| && Squatted(rule, rows, i)
    ensures !Unique(Backfill(rule, rows))
  {
    var k := Suffixed(rule(rows[i]), rows[i].id);
    TakenCovers(rule, rows, i, 0);
    if k !in Keys(rows) {
      var j :| 0 <= j < i && rows[j].Missing() && rule(rows[j]) == k;
      TakenCovers(rule, rows, i, j);
    }
    TakenIsWhatIsStored(rule, rows, i);
    var j :| 0 <= j < |rows| && !FillTo(rule, rows, i)[j].Missing() && FillTo(rule, rows, i)[j].key == k;
    BackfillAssigns(rule, rows, i);
    StaysSettled(rule, rows, i, j);
    assert Backfill(rule, rows)[j].key == k && Backfill(rule, rows)[i].key == k && i != j;
    assert !Backfill(rule, rows)[i].Missing();
  }

  lemma {:induction false} StaysSettled(rule: Rule, rows: seq<LegacyRow>, n: nat, j: nat)
    requires n <= |rows| && j < |rows| && !FillTo(rule, rows, n)[j].Missing()
    ensures Backfill(rule, rows)[j] == FillTo(rule, rows, n)[j]
    decreases |rows| - n
  {
    if n == |rows| {
    } else {
      StaysSettled(rule, rows, n + 1, j);
    }
  }

  /** The unique index can be built if and only if no row's suffixed key is squatted. */
  lemma BackfillUniqueExactly(rule: Rule, rows: seq<LegacyRow>)
    requires DistinctIds(rows) && Unique(rows)
    ensures AllPresent(Backfill(rule, rows))
    ensures Unique(Backfill(rule, rows)) <==> forall i :: 0 <= i < |rows| ==> !Squatted(rule, rows, i)
  {
    if forall i :: 0 <= i < |rows| ==> !Squatted(rule, rows, i) {
      UniqueUpTo(rule, rows, |rows|);
    } else {
      var i :| 0 <= i < |rows| && Squatted(rule, rows, i);
      SquattedBreaks(rule, rows, i);
    }
  }

  // ---------- a condition on labels and old keys that rules squatting out ----------

  ghost predicate EndsAsDup(k: string, id: nat) {
    exists p: string :: k == p + (":dup:" + Dec(id))
  }

  /** No label ends as a suffix for the id of a row without a key, and an old key may end so only
      on the row with that id. */
  ghost predicate NoDupLookalikes(rows: seq<LegacyRow>) {
    forall i, j :: 0 <= i < |rows| && rows[i].Missing() && 0 <= j < |rows| ==>
      && (!rows[j].Missing() ==> !EndsAsDup(rows[j].key, rows[i].id))
      && (rows[j].labelName.Some? ==> !EndsAsDup(":" + rows[j].labelName.value, rows[i].id))
  }

  /** A canonical key can end in :dup:id only through its label. */
  lemma CanonicalDupComesFromLabel(row: LegacyRow, id: nat)
    requires EndsAsDup(CanonicalKey(row), id)
    ensures row.labelName.Some? && EndsAsDup(":" + row.labelName.value, id)
  {
    SpellingDupComesFromLabel(OriginOf(row), row.id, id);
  }

  lemma KeyFront(repo: string, d: string, l: string)
    ensures "issue:" + (repo + ":" + (d + ":" + l)) == "issue:" + (repo + ":") + d + (":" + l)
  {
  }

  lemma IssueDupComesFromLabel(repo: string, n: int, l: string, p: string, id: nat)
    requires MakeWorkKey(repo, n, l) == p + (":dup:" + Dec(id))
    ensures EndsAsDup(":" + l, id)
  {
    KeyFront(repo, Numeral(n), l);
    SuffixReachesLabel("issue:" + (repo + ":"), n, ":" + l, p, id);
  }

  lemma SpellingDupComesFromLabel(o: Origin, rowId: nat, id: nat)
    requires EndsAsDup(Spell(o, rowId), id)
    ensures o.Issue? && EndsAsDup(":" + o.labelName, id)
  {
    var p: string :| Spell(o, rowId) == p + (":dup:" + Dec(id));
    match o {
      case Unknown => LegacyIsNoDup(rowId, p, id);
      case Issue(repo, n, l) => IssueDupComesFromLabel(repo, n, l, p, id);
    }
  }

  lemma LegacyIsNoDup(rowId: nat, p: string, id: nat)
    ensures LegacyKey(rowId) != p + (":dup:" + Dec(id))
  {
    var w, x := "legacy", p + ":dup";
    assert w[|w| - 1] == 'y' && x[|x| - 1] == 'p';
    assert LegacyKey(rowId) == w + [':'] + Dec(rowId);
    assert p + (":dup:" + Dec(id)) == x + [':'] + Dec(id);
    if w + [':'] + Dec(rowId) == x + [':'] + Dec(id) {
      LastSplit(':', w, Dec(rowId), x, Dec(id));
    }
  }

  lemma SuffixReachesLabel(front: string, n: int, c: string, p: string, id: nat)
    requires c != "" && c[0] == ':'
    requires front + Numeral(n) + c == p + (":dup:" + Dec(id))
    ensures EndsAsDup(c, id)
  {
    var tail, a := ":dup:" + Dec(id), front + Numeral(n);
    assert tail[0] == ':' && tail[1] == 'd' && tail[2] == 'u' && tail[3] == 'p' && tail[4] == ':';
    assert forall i :: 5 <= i < |tail| ==> tail[i] == Dec(id)[i - 5];
    assert a[|a| - 1] == Numeral(n)[|Numeral(n)| - 1];
    TailFits(a, c, p, tail);
  }

  /** If the suffix began before the label, the character in front of the label's colon would be a
      letter of ":dup" and not a digit. */
  lemma TailFits(a: string, c: string, p: string, tail: string)
    requires a != "" && '0' <= a[|a| - 1] <= '9' && c != "" && c[0] == ':'
    requires |tail| > 5 && tail[1] == 'd' && tail[2] == 'u' && tail[3] == 'p'
    requires forall i :: 5 <= i < |tail| ==> '0' <= tail[i] <= '9'
    requires a + c == p + tail
    ensures |p| >= |a| && c == p[|a|..] + tail
  {
    var s := a + c;
    assert s[|a|] == ':' && s[|a| - 1] == a[|a| - 1];
    assert forall i :: |p| <= i < |s| ==> s[i] == tail[i - |p|];
    assert c == s[|a|..];
  }

  lemma NoLookalikeNoSquatter(rows: seq<LegacyRow>, i: nat)
    requires i < |rows| && NoDupLookalikes(rows)
    ensures !Squatted(CANONICAL, rows, i)
  {
    if Squatted(CANONICAL, rows, i) {
      var k := Suffixed(CanonicalKey(rows[i]), rows[i].id);
      assert EndsAsDup(k, rows[i].id);
      assert k !in Keys(rows);
      var j :| 0 <= j < i && rows[j].Missing() && CanonicalKey(rows[j]) == k;
      CanonicalDupComesFromLabel(rows[j], rows[i].id);
    }
  }

  lemma BackfillUnique(rows: seq<LegacyRow>)
    requires DistinctIds(rows) && Unique(rows) && NoDupLookalikes(rows)
    ensures AllPresent(Backfill(CANONICAL, rows)) && Unique(Backfill(CANONICAL, rows))
  {
    forall i | 0 <= i < |rows| ensures !Squatted(CANONICAL, rows, i) {
      NoLookalikeNoSquatter(rows, i);
    }
    BackfillUniqueExactly(CANONICAL, rows);
  }

  /** A canonical key nobody holds goes to the oldest row that computes it, unless the row's own label spells
      the suffix of an earlier row. */
  lemma OldestWins(rows: seq<LegacyRow>, i: nat)
    requires i < |rows| && rows[i].Missing() && CanonicalKey(rows[i]) !in Keys(rows)
    requires forall j :: 0 <= j < i && rows[j].Missing() ==> CanonicalKey(rows[j]) != CanonicalKey(rows[i])
    requires rows[i].labelName.Some? ==>
               forall j :: 0 <= j < i && rows[j].Missing() ==> !EndsAsDup(":" + rows[i].labelName.value, rows[j].id)
    ensures Backfill(CANONICAL, rows)[i].key == CanonicalKey(rows[i])
  {
    BackfillAssigns(CANONICAL, rows, i);
    if Collides(CANONICAL, rows, i) {
      var k := CanonicalKey(rows[i]);
      TakenMembers(CANONICAL, rows, i, k);
      var j :| 0 <= j < i && rows[j].Missing() && k == Suffixed(CanonicalKey(rows[j]), rows[j].id);
      assert EndsAsDup(k, rows[j].id);
      CanonicalDupComesFromLabel(rows[i], rows[j].id);
    }
  }

  // ---------- tables the backfill leaves with two equal keys ----------

  /** Three rows without a key: the first computes what the third has to fall back on. */
  lemma KeylessSquat(rule: Rule, a: LegacyRow, b: LegacyRow, c: LegacyRow)
    requires a.Missing() && b.Missing() && c.Missing()
    requires rule(a) == Suffixed(rule(c), c.id) && rule(b) == rule(c)
    ensures !Unique(Backfill(rule, [a, b, c]))
  {
    var rows := [a, b, c];
    TakenCovers(rule, rows, 2, 1);
    assert rows[1].Missing() && rule(rows[1]) in Taken(rule, rows, 2);
    assert rows[0].Missing() && rule(rows[0]) == Suffixed(rule(rows[2]), rows[2].id);
    SquattedBreaks(rule, rows, 2);
  }

  ghost predicate Breaks(rule: Rule, rows: seq<LegacyRow>) {
    DistinctIds(rows) && Unique(rows) && !Unique(Backfill(rule, rows))
  }

  lemma KeylessBreaks(rule: Rule, a: LegacyRow, b: LegacyRow, c: LegacyRow)
    requires a.Missing() && b.Missing() && c.Missing() && a.id < b.id < c.id
    requires rule(a) == Suffixed(rule(c), c.id) && rule(b) == rule(c)
    ensures Breaks(rule, [a, b, c])
  {
    KeylessSquat(rule, a, b, c);
  }

  function IssueRow(id: nat, owner: string, name: string, number: nat, labelName: string): LegacyRow {
    LegacyRow(id, "", IssueUrl(owner, name, number), None, Some(labelName))
  }

  lemma IssueRowKey(id: nat, owner: string, name: string, number: nat, labelName: string)
    requires owner != "" && name != "" && Free('/', owner) && Free('/', name) && labelName != ""
    ensures CANONICAL(IssueRow(id, owner, name, number, labelName)) ==
            MakeWorkKey(owner + "/" + name, number, labelName)
  {
    SearchFindsIssue(owner, name, number);
  }

  lemma KeyWithSuffix(repo: string, number: int, labelName: string, id: nat)
    ensures Suffixed(MakeWorkKey(repo, number, labelName), id) ==
            MakeWorkKey(repo, number, labelName + (":dup:" + Dec(id)))
  {
  }

  /** One issue, three rows without a key: a label that ends as the suffix of the last row takes that row's
      suffixed key before its turn.  This holds of any issue, any label and any ids. */
  lemma LabelSquats(a: LegacyRow, b: LegacyRow, c: LegacyRow, owner: string, name: string, number: nat, l: string)
    requires a.id < b.id < c.id && owner != "" && name != "" && Free('/', owner) && Free('/', name) && l != ""
    requires a == IssueRow(a.id, owner, name, number, l + (":dup:" + Dec(c.id)))
    requires b == IssueRow(b.id, owner, name, number, l) && c == IssueRow(c.id, owner, name, number, l)
    ensures Breaks(CANONICAL, [a, b, c])
  {
    KeyWithSuffix(owner + "/" + name, number, l, c.id);
    KeysBreak(a, b, c, owner, name, number, l + (":dup:" + Dec(c.id)), name, number, l);
  }

  ghost predicate NoKeys(rows: seq<LegacyRow>) { forall i :: 0 <= i < |rows| ==> rows[i].Missing() }

  lemma KeylessTable(a: LegacyRow, b: LegacyRow, c: LegacyRow, owner: string, name: string, number: nat, l: string)
    requires a.id < b.id < c.id && owner != "" && name != "" && Free('/', owner) && Free('/', name) && l != ""
    requires a == IssueRow(a.id, owner, name, number, l + (":dup:" + Dec(c.id)))
    requires b == IssueRow(b.id, owner, name, number, l) && c == IssueRow(c.id, owner, name, number, l)
    ensures exists rows :: NoKeys(rows) && Breaks(CANONICAL, rows)
  {
    LabelSquats(a, b, c, owner, name, number, l);
    assert NoKeys([a, b, c]);
  }

  /** So the unique index can fail to build, on a table without a single old key. */
  lemma SquattingHappens()
    ensures exists rows :: NoKeys(rows) && Breaks(CANONICAL, rows)
  {
    KeylessTable(IssueRow(1, "o", "r", 1, "l" + (":dup:" + Dec(7))), IssueRow(2, "o", "r", 1, "l"),
                 IssueRow(7, "o", "r", 1, "l"), "o", "r", 1, "l");
  }

  lemma KeyShape(repo: string, d: string, l: string)
    ensures "issue:" + (repo + ":" + (d + ":" + l)) == "issue:" + repo + (":" + (d + (":" + l)))
  {
  }

  lemma ColonShape(repo: string, d: string, e: string, f: string)
    ensures "issue:" + (repo + (":" + d)) + (":" + (e + (":" + ("dup:" + f)))) ==
            ("issue:" + repo + (":" + (d + (":" + e)))) + (":dup:" + f)
  {
    assert ":" + ("dup:" + f) == ":dup:" + f;
  }

  lemma SpelledOut(repo: string, n: nat, l: string)
    ensures MakeWorkKey(repo, n, l) == "issue:" + repo + (":" + (Dec(n) + (":" + l)))
  {
    KeyShape(repo, Dec(n), l);
  }

  lemma KeyAcrossColon(repo: string, m: nat, n: nat, id: nat, e: string)
    requires e == Dec(n)
    ensures MakeWorkKey(repo + (":" + Dec(m)), n, "dup:" + Dec(id)) == Suffixed(MakeWorkKey(repo, m, e), id)
  {
    SpelledOut(repo + (":" + Dec(m)), n, "dup:" + Dec(id));
    SpelledOut(repo, m, e);
    ColonShape(repo, Dec(m), e, Dec(id));
  }

  lemma RepoWithColon(owner: string, name: string, d: string)
    ensures owner + "/" + (name + (":" + d)) == owner + "/" + name + (":" + d)
  {
  }

  lemma ColonName(name: string, m: nat)
    requires Free('/', name)
    ensures name + (":" + Dec(m)) != "" && Free('/', name + (":" + Dec(m)))
  {
  }

  lemma ShortKeys(owner: string, name: string, m: nat, n: nat, id: nat)
    ensures MakeWorkKey(owner + "/" + (name + (":" + Dec(m))), n, "dup:" + Dec(id)) ==
            Suffixed(MakeWorkKey(owner + "/" + name, m, Dec(n)), id)
  {
    RepoWithColon(owner, name, Dec(m));
    KeyAcrossColon(owner + "/" + name, m, n, id, Dec(n));
  }

  /** The label need not hold the whole suffix: behind a repository name with a colon, "dup:" and the id are
      enough, and neither a label nor a repository contains ":dup:". */
  lemma ShortLabelSquats(a: LegacyRow, b: LegacyRow, c: LegacyRow, owner: string, name: string, m: nat, n: nat)
    requires a.id < b.id < c.id && owner != "" && name != "" && Free('/', owner) && Free('/', name)
    requires a == IssueRow(a.id, owner, name + (":" + Dec(m)), n, "dup:" + Dec(c.id))
    requires b == IssueRow(b.id, owner, name, m, Dec(n)) && c == IssueRow(c.id, owner, name, m, Dec(n))
    ensures Breaks(CANONICAL, [a, b, c])
  {
    ColonName(name, m);
    ShortKeys(owner, name, m, n, c.id);
    KeysBreak(a, b, c, owner, name + (":" + Dec(m)), n, "dup:" + Dec(c.id), name, m, Dec(n));
  }

  lemma KeysBreak(a: LegacyRow, b: LegacyRow, c: LegacyRow, owner: string, name: string, n: nat, l: string,
                  name2: string, n2: nat, l2: string)
    requires a.id < b.id < c.id && owner != "" && name != "" && name2 != "" && l != "" && l2 != ""
    requires Free('/', owner) && Free('/', name) && Free('/', name2)
    requires a == IssueRow(a.id, owner, name, n, l)
    requires b == IssueRow(b.id, owner, name2, n2, l2) && c == IssueRow(c.id, owner, name2, n2, l2)
    requires MakeWorkKey(owner + "/" + name, n, l) == Suffixed(MakeWorkKey(owner + "/" + name2, n2, l2), c.id)
    ensures Breaks(CANONICAL, [a, b, c])
  {
    IssueRowKey(a.id, owner, name, n, l);
    IssueRowKey(b.id, owner, name2, n2, l2);
    IssueRowKey(c.id, owner, name2, n2, l2);
    KeylessBreaks(CANONICAL, a, b, c);
  }

  // ---------- agreement with the handlers ----------

  /** A migrated issue row that did not collide carries exactly the key a new webhook for the same
      issue computes. */
  lemma BackfillAgreesWithHandler(rows: seq<LegacyRow>, i: nat, owner: string, name: string, number: nat, l: string)
    requires i < |rows| && rows[i].Missing() && !Collides(CANONICAL, rows, i)
    requires owner != "" && name != "" && Free('/', owner) && Free('/', name) && l != ""
    requires rows[i].triggerRef == IssueUrl(owner, name, number) && rows[i].labelName == Some(l)
    requires rows[i].issueNumber.None? || rows[i].issueNumber == Some(number)
    ensures Backfill(CANONICAL, rows)[i].key == MakeWorkKey(owner + "/" + name, number, l)
  {
    BackfillAssigns(CANONICAL, rows, i);
    SearchFindsIssue(owner, name, number);
  }
}
