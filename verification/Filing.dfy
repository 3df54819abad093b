/**
 Filing issues for a scan (superset-fork-scripts/file_issues.py): aliases of one CVE are collapsed, CVEs
 that already have an issue are skipped, the others are filed.
 */
module Filing {
  import opened Base
  import opened IssueBody

  datatype Scanned = Scanned(finding: Finding, fixable: bool)

  datatype Hit = Hit(url: Option<string>, title: string)

  /** The answer to an issue search, and to an issue creation (the URL printed, if it worked). */
  datatype Search = Broken | Hits(hits: seq<Hit>)

  datatype Tracker = Tracker(search: string -> Search, create: Finding -> Option<string>)

  function Heading(f: Finding): string {
    "[CVE] " + f.package + " " + f.installed + " \U{2192} " + f.fix + " ("
  }

  function Title(f: Finding): string { Heading(f) + (f.cve + ")") }

  lemma TitleIs(f: Finding)
    ensures Title(f) == "[CVE] " + f.package + " " + f.installed + " \U{2192} " + f.fix + " (" + f.cve + ")"
  {
    assert Heading(f) + (f.cve + ")") == Heading(f) + f.cve + ")";
  }

  predicate Contains(title: string, cve: string) {
    cve <= title || (title != "" && Contains(title[1..], cve))
  }

  /** Containing is being a part of the title. */
  lemma {:induction false} ContainsExactly(title: string, cve: string)
    ensures Contains(title, cve) <==> exists a: string, b: string :: title == a + cve + b
  {
    if Contains(title, cve) {
      var a, b := PartsOf(title, cve);
    }
    if a: string, b: string :| title == a + cve + b {
      assert a + cve + b == a + (cve + b);
      ContainsMiddle(a, cve, b);
    }
  }

  lemma {:induction false} PartsOf(title: string, cve: string) returns (a: string, b: string)
    requires Contains(title, cve)
    ensures title == a + cve + b
  {
    if cve <= title {
      a, b := "", title[|cve|..];
    } else {
      a, b := PartsOf(title[1..], cve);
      a := [title[0]] + a;
    }
  }

  /** The first hit whose title really contains the CVE. */
  function Existing(hits: seq<Hit>, cve: string): Option<string> {
    if hits == [] then None
    else if Contains(hits[0].title, cve) then hits[0].url
    else Existing(hits[1..], cve)
  }

  predicate Truthy(o: Option<string>) { o.Some? && o.value != "" }

  predicate Tracked(t: Tracker, cve: string) {
    t.search(cve).Hits? && Truthy(Existing(t.search(cve).hits, cve))
  }

  predicate Works(t: Tracker, f: Finding) { Truthy(t.create(f)) }

  function Fixable(scan: seq<Scanned>): seq<Finding> {
    if scan == [] then []
    else Fixable(scan[..|scan| - 1]) + if scan[|scan| - 1].fixable then [scan[|scan| - 1].finding] else []
  }

  function Cves(fs: seq<Finding>): set<string> { set f | f in fs :: f.cve }

  /** The first finding of each CVE, in order. */
  function Collapsed(fs: seq<Finding>): (r: seq<Finding>)
    ensures Cves(r) == Cves(fs)
    ensures forall a, b :: 0 <= a < b < |r| ==> r[a].cve != r[b].cve
    ensures forall a :: 0 <= a < |r| ==> r[a] in fs
  {
    if fs == [] then []
    else
      var n := |fs| - 1;
      assert fs == fs[..n] + [fs[n]];
      var r := Collapsed(fs[..n]);
      if fs[n].cve in Cves(fs[..n]) then r
      else
        assert forall a :: 0 <= a < |r| ==> r[a].cve in Cves(fs[..n]);
        assert Cves(r + [fs[n]]) == Cves(r) + {fs[n].cve};
        r + [fs[n]]
  }

  /** No earlier finding has this CVE. */
  predicate FirstOfItsCve(fs: seq<Finding>, i: int) {
    0 <= i < |fs| && forall j :: 0 <= j < i ==> fs[j].cve != fs[i].cve
  }

  /** `r` lists the first finding of each CVE in the order of the list; `at` gives their places. */
  ghost predicate FirstsInOrder(fs: seq<Finding>, r: seq<Finding>, at: seq<nat>) {
    && |at| == |r| && (forall a, b :: 0 <= a < b < |at| ==> at[a] < at[b])
    && (forall a :: 0 <= a < |at| ==> FirstOfItsCve(fs, at[a]) && r[a] == fs[at[a]])
    && (forall i :: FirstOfItsCve(fs, i) ==> i in at)
  }

  lemma FirstsGrow(fs: seq<Finding>, f: Finding, r: seq<Finding>, at: seq<nat>)
    requires FirstsInOrder(fs, r, at)
    ensures if FirstOfItsCve(fs + [f], |fs|) then FirstsInOrder(fs + [f], r + [f], at + [|fs|])
            else FirstsInOrder(fs + [f], r, at)
  {
    var more, n := fs + [f], |fs|;
    assert forall j :: 0 <= j < n ==> more[j] == fs[j];
    assert forall i :: 0 <= i < n ==> (FirstOfItsCve(more, i) <==> FirstOfItsCve(fs, i));
    assert forall i :: FirstOfItsCve(more, i) ==> i < n || i == n;
  }

  lemma NewCveIsFirst(fs: seq<Finding>, f: Finding)
    ensures f.cve !in Cves(fs) <==> FirstOfItsCve(fs + [f], |fs|)
  {
    var more := fs + [f];
    assert forall j :: 0 <= j < |fs| ==> more[j] == fs[j] && fs[j].cve in Cves(fs);
    if f.cve in Cves(fs) {
      var g :| g in fs && g.cve == f.cve;
    }
  }

  /** What is kept is the first finding of each CVE, in the order of the list. */
  lemma {:induction false} CollapsedKeepsFirsts(fs: seq<Finding>) returns (at: seq<nat>)
    ensures FirstsInOrder(fs, Collapsed(fs), at)
  {
    at := [];
    if fs == [] {
    } else {
      var init, f := fs[..|fs| - 1], fs[|fs| - 1];
      assert fs == init + [f];
      at := CollapsedKeepsFirsts(init);
      NewCveIsFirst(init, f);
      FirstsGrow(init, f, Collapsed(init), at);
      if FirstOfItsCve(fs, |init|) {
        at := at + [|init|];
      }
    }
  }

  method CollapseAliases(fs: seq<Finding>) returns (unique: seq<Finding>)
    ensures unique == Collapsed(fs)
  {
    var seenInRun: set<string> := {};
    unique := [];
    for n := 0 to |fs|
      invariant unique == Collapsed(fs[..n]) && seenInRun == Cves(fs[..n])
    {
      assert fs[..n + 1][..n] == fs[..n] && fs[..n + 1] == fs[..n] + [fs[n]];
      assert Cves(fs[..n + 1]) == Cves(fs[..n]) + {fs[n].cve};
      if fs[n].cve !in seenInRun {
        seenInRun := seenInRun + {fs[n].cve};
        unique := unique + [fs[n]];
      }
    }
    assert fs[..|fs|] == fs;
  }

  /** A finding is sent to GitHub unless its CVE is tracked. */
  function ToFile(t: Tracker, fs: seq<Finding>): (r: seq<Finding>)
    ensures forall f :: f in r <==> f in fs && !Tracked(t, f.cve)
    ensures |r| <= |fs|
  {
    if fs == [] then []
    else
      var n := |fs| - 1;
      assert fs == fs[..n] + [fs[n]];
      ToFile(t, fs[..n]) + if Tracked(t, fs[n].cve) then [] else [fs[n]]
  }

  /** What a run sends to GitHub. */
  function Sent(scan: seq<Scanned>, t: Tracker): seq<Finding> { ToFile(t, Collapsed(Fixable(scan))) }

  function Working(t: Tracker): Finding -> bool { (f: Finding) => Works(t, f) }

  /** What a run has done so far: the findings sent to GitHub, and its three counters. */
  datatype Totals = Totals(sent: seq<Finding>, filed: nat, skipped: nat, failed: nat)

  function Handle(t: Tracker, done: Totals, f: Finding): Totals {
    if Tracked(t, f.cve) then done.(skipped := done.skipped + 1)
    else if Works(t, f) then done.(sent := done.sent + [f], filed := done.filed + 1)
    else done.(sent := done.sent + [f], failed := done.failed + 1)
  }

  function Handled(t: Tracker, fs: seq<Finding>): Totals {
    if fs == [] then Totals([], 0, 0, 0) else Handle(t, Handled(t, fs[..|fs| - 1]), fs[|fs| - 1])
  }

  lemma HandledNext(t: Tracker, fs: seq<Finding>, n: nat)
    requires n < |fs|
    ensures Handled(t, fs[..n + 1]) == Handle(t, Handled(t, fs[..n]), fs[n])
  {
    assert fs[..n + 1][..n] == fs[..n];
  }

  lemma {:induction false} HandledAddsUp(t: Tracker, fs: seq<Finding>)
    ensures var r := Handled(t, fs);
            && r.sent == ToFile(t, fs) && r.filed == Count(r.sent, Working(t))
            && r.filed + r.failed == |r.sent| && r.skipped + |r.sent| == |fs|
  {
    if fs == [] {
    } else {
      var init, f := fs[..|fs| - 1], fs[|fs| - 1];
      HandledAddsUp(t, init);
      CountAppend(Handled(t, init).sent, f, Working(t));
    }
  }

  /** The whole run: every CVE is skipped, filed or failed, and the counters say how many of each. */
  method FileAll(scan: seq<Scanned>, t: Tracker) returns (done: Totals)
    ensures done.sent == Sent(scan, t)
    ensures exists at :: SentInOrder(scan, t, done.sent, at)
    ensures done.filed == |Created(t, done.sent)| && done.filed + done.failed == |done.sent|
    ensures done.skipped + |done.sent| == |Collapsed(Fixable(scan))|
  {
    var unique := CollapseAliases(Fixable(scan));
    var sent: seq<Finding>, filed: nat, skipped: nat, failed: nat := [], 0, 0, 0;
    for n := 0 to |unique|
      invariant Totals(sent, filed, skipped, failed) == Handled(t, unique[..n])
    {
      var f := unique[n];
      HandledNext(t, unique, n);
      if Tracked(t, f.cve) {
        skipped := skipped + 1;
      } else {
        sent := sent + [f];
        if Works(t, f) {
          filed := filed + 1;
        } else {
          failed := failed + 1;
        }
      }
    }
    assert unique[..|unique|] == unique;
    HandledAddsUp(t, unique);
    FiledAreCreated(t, sent);
    ghost var at := SentExactly(scan, t);
    done := Totals(sent, filed, skipped, failed);
  }

  // ---------- what is sent, told from the scan alone ----------

  /** Entry i of the scan is to be filed: it can be fixed, no earlier entry that can be fixed has its CVE, and the
      CVE is not tracked. */
  predicate Due(scan: seq<Scanned>, t: Tracker, i: int) {
    && 0 <= i < |scan| && scan[i].fixable && !Tracked(t, scan[i].finding.cve)
    && forall j :: 0 <= j < i && scan[j].fixable ==> scan[j].finding.cve != scan[i].finding.cve
  }

  /** These findings are those of the entries due, each once and in their order; `at` gives their places. */
  ghost predicate SentInOrder(scan: seq<Scanned>, t: Tracker, sent: seq<Finding>, at: seq<nat>) {
    && |at| == |sent| && (forall a, b :: 0 <= a < b < |at| ==> at[a] < at[b])
    && (forall a :: 0 <= a < |at| ==> Due(scan, t, at[a]) && sent[a] == scan[at[a]].finding)
    && (forall i :: Due(scan, t, i) ==> i in at)
  }

  lemma DueStays(scan: seq<Scanned>, t: Tracker, s: Scanned, i: int)
    requires i < |scan|
    ensures Due(scan + [s], t, i) <==> Due(scan, t, i)
  {
    if 0 <= i {
      assert (scan + [s])[i] == scan[i];
      assert forall j :: 0 <= j < i ==> (scan + [s])[j] == scan[j];
    }
  }

  lemma SentGrows(scan: seq<Scanned>, t: Tracker, s: Scanned, sent: seq<Finding>, at: seq<nat>)
    requires SentInOrder(scan, t, sent, at)
    ensures if Due(scan + [s], t, |scan|) then SentInOrder(scan + [s], t, sent + [s.finding], at + [|scan|])
            else SentInOrder(scan + [s], t, sent, at)
  {
    var more, n := scan + [s], |scan|;
    forall i | i < n ensures Due(more, t, i) <==> Due(scan, t, i) {
      DueStays(scan, t, s, i);
    }
    assert forall i :: Due(more, t, i) ==> i < n || i == n;
    assert forall a :: 0 <= a < |at| ==> at[a] < n;
    assert forall i :: i < n && Due(more, t, i) ==> i in at;
  }

  lemma {:induction false} FixableHas(scan: seq<Scanned>, f: Finding)
    ensures f in Fixable(scan) <==> exists i :: 0 <= i < |scan| && scan[i].fixable && scan[i].finding == f
  {
    if scan == [] {
    } else {
      var init := scan[..|scan| - 1];
      FixableHas(init, f);
      if i :| 0 <= i < |scan| && scan[i].fixable && scan[i].finding == f {
        assert i < |init| ==> init[i] == scan[i];
      }
    }
  }

  lemma NewCveIsDue(scan: seq<Scanned>, t: Tracker, s: Scanned)
    requires s.fixable
    ensures Due(scan + [s], t, |scan|) <==> s.finding.cve !in Cves(Fixable(scan)) && !Tracked(t, s.finding.cve)
  {
    var more := scan + [s];
    forall j | 0 <= j < |scan| && scan[j].fixable
      ensures more[j] == scan[j] && scan[j].finding.cve in Cves(Fixable(scan)) {
      FixableHas(scan, scan[j].finding);
    }
    if s.finding.cve in Cves(Fixable(scan)) {
      var f :| f in Fixable(scan) && f.cve == s.finding.cve;
      FixableHas(scan, f);
      var j :| 0 <= j < |scan| && scan[j].fixable && scan[j].finding == f;
      assert more[j].finding.cve == s.finding.cve;
    }
  }

  lemma ToFileNext(t: Tracker, fs: seq<Finding>, f: Finding)
    ensures ToFile(t, fs + [f]) == ToFile(t, fs) + if Tracked(t, f.cve) then [] else [f]
  {
    assert (fs + [f])[..|fs|] == fs;
  }

  lemma CollapsedNext(fs: seq<Finding>, f: Finding)
    ensures Collapsed(fs + [f]) == if f.cve in Cves(fs) then Collapsed(fs) else Collapsed(fs) + [f]
  {
    assert (fs + [f])[..|fs|] == fs;
  }

  lemma SentNext(scan: seq<Scanned>, t: Tracker, s: Scanned)
    ensures Sent(scan + [s], t) == if Due(scan + [s], t, |scan|) then Sent(scan, t) + [s.finding] else Sent(scan, t)
  {
    assert (scan + [s])[..|scan|] == scan;
    if s.fixable {
      NewCveIsDue(scan, t, s);
      CollapsedNext(Fixable(scan), s.finding);
      ToFileNext(t, Collapsed(Fixable(scan)), s.finding);
    } else {
      assert Fixable(scan + [s]) == Fixable(scan);
    }
  }

  /** What is sent is exactly the entries due, each once and in the order of the scan. */
  lemma {:induction false} SentExactly(scan: seq<Scanned>, t: Tracker) returns (at: seq<nat>)
    ensures SentInOrder(scan, t, Sent(scan, t), at)
  {
    at := [];
    if scan == [] {
    } else {
      var init, s := scan[..|scan| - 1], scan[|scan| - 1];
      assert scan == init + [s];
      at := SentExactly(init, t);
      SentNext(init, t, s);
      SentGrows(init, t, s, Sent(init, t), at);
      if Due(scan, t, |init|) {
        at := at + [|init|];
      }
    }
  }

  /** The findings whose issue was created, by place. */
  function Created(t: Tracker, sent: seq<Finding>): set<nat> {
    set k: nat | k < |sent| && t.create(sent[k]).Some? && t.create(sent[k]).value != ""
  }

  lemma FiledAreCreated(t: Tracker, sent: seq<Finding>)
    ensures Count(sent, Working(t)) == |Created(t, sent)|
  {
    CountIsSize(sent, Working(t));
    assert Places(sent, Working(t)) == Created(t, sent);
  }

  ghost predicate HasFixable(scan: seq<Scanned>, cve: string) {
    exists i :: 0 <= i < |scan| && scan[i].fixable && scan[i].finding.cve == cve
  }

  lemma FixableCves(scan: seq<Scanned>, cve: string)
    ensures cve in Cves(Fixable(scan)) <==> HasFixable(scan, cve)
  {
    if f :| f in Fixable(scan) && f.cve == cve {
      FixableHas(scan, f);
    }
    if i :| 0 <= i < |scan| && scan[i].fixable && scan[i].finding.cve == cve {
      FixableHas(scan, scan[i].finding);
    }
  }

  /** One issue per CVE and run: a CVE is sent exactly if it has a fixable finding and no issue yet, and no
      CVE is sent twice, however many aliases the scan lists. */
  lemma OneIssuePerCve(scan: seq<Scanned>, t: Tracker)
    ensures var sent := Sent(scan, t);
            && (forall a, b :: 0 <= a < b < |sent| ==> sent[a].cve != sent[b].cve)
            && (forall cve :: cve in Cves(sent) <==> HasFixable(scan, cve) && !Tracked(t, cve))
  {
    var unique, sent := Collapsed(Fixable(scan)), Sent(scan, t);
    var at := SentExactly(scan, t);
    forall a, b | 0 <= a < b < |sent| ensures sent[a].cve != sent[b].cve {
      assert Due(scan, t, at[a]) && Due(scan, t, at[b]) && at[a] < at[b];
    }
    forall cve ensures cve in Cves(sent) <==> HasFixable(scan, cve) && !Tracked(t, cve) {
      FixableCves(scan, cve);
      if cve in Cves(unique) && !Tracked(t, cve) {
        var f :| f in unique && f.cve == cve;
        assert f in sent;
      }
    }
  }

  // ---------- running again ----------

  lemma {:induction false} ContainsMiddle(a: string, cve: string, b: string)
    ensures Contains(a + (cve + b), cve)
  {
    if a == "" {
      assert a + (cve + b) == cve + b;
    } else {
      assert (a + (cve + b))[1..] == a[1..] + (cve + b);
      ContainsMiddle(a[1..], cve, b);
    }
  }

  lemma {:induction false} ContainsStart(title: string, cve: string, tail: string)
    requires Contains(title, cve + tail)
    ensures Contains(title, cve)
  {
    if cve + tail <= title {
      assert cve <= cve + tail;
    } else {
      ContainsStart(title[1..], cve, tail);
    }
  }

  lemma TitleHasCve(f: Finding)
    ensures Contains(Title(f), f.cve)
  {
    ContainsMiddle(Heading(f), f.cve, ")");
  }

  lemma {:induction false} HitIsFound(hits: seq<Hit>, cve: string, k: nat)
    requires k < |hits| && Contains(hits[k].title, cve) && forall h :: h in hits ==> Truthy(h.url)
    ensures Truthy(Existing(hits, cve))
  {
    if !Contains(hits[0].title, cve) {
      HitIsFound(hits[1..], cve, k - 1);
    }
  }

  /** Once an issue has been filed, any later run whose search returns it files nothing for that CVE. */
  lemma FiledOnce(f: Finding, later: Tracker, scan: seq<Scanned>, k: nat)
    requires later.search(f.cve).Hits? && k < |later.search(f.cve).hits|
    requires later.search(f.cve).hits[k].title == Title(f)
    requires forall h :: h in later.search(f.cve).hits ==> Truthy(h.url)
    ensures f.cve !in Cves(Sent(scan, later))
  {
    TitleHasCve(f);
    HitIsFound(later.search(f.cve).hits, f.cve, k);
  }

  /** Hit k is the first whose title contains the CVE. */
  predicate FirstHit(hits: seq<Hit>, cve: string, k: int) {
    0 <= k < |hits| && Contains(hits[k].title, cve) && forall j :: 0 <= j < k ==> !Contains(hits[j].title, cve)
  }

  lemma {:induction false} ExistingIsFirstHit(hits: seq<Hit>, cve: string, k: int)
    requires FirstHit(hits, cve, k)
    ensures Existing(hits, cve) == hits[k].url
  {
    if k == 0 {
    } else {
      assert !Contains(hits[0].title, cve);
      assert forall j :: 0 <= j < k - 1 ==> hits[1..][j] == hits[j + 1];
      ExistingIsFirstHit(hits[1..], cve, k - 1);
    }
  }

  lemma {:induction false} NoHitNoIssue(hits: seq<Hit>, cve: string) returns (k: int)
    requires Truthy(Existing(hits, cve))
    ensures FirstHit(hits, cve, k)
  {
    if Contains(hits[0].title, cve) {
      k := 0;
    } else {
      k := NoHitNoIssue(hits[1..], cve);
      k := k + 1;
    }
  }

  /** A CVE counts as tracked exactly if the search worked and the first hit whose title contains it has a URL. */
  lemma TrackedExactly(t: Tracker, cve: string)
    ensures Tracked(t, cve) <==>
              t.search(cve).Hits? &&
              exists k :: FirstHit(t.search(cve).hits, cve, k) && t.search(cve).hits[k].url.Some?
                          && t.search(cve).hits[k].url.value != ""
  {
    if t.search(cve).Hits? {
      var hits := t.search(cve).hits;
      if Tracked(t, cve) {
        var k := NoHitNoIssue(hits, cve);
        ExistingIsFirstHit(hits, cve, k);
      } else if k :| FirstHit(hits, cve, k) && hits[k].url.Some? && hits[k].url.value != "" {
        ExistingIsFirstHit(hits, cve, k);
      }
    }
  }

  /** The test is for containment, so the issue of a longer id counts for every id that begins it: if it is the
      first hit that does, the shorter id is tracked exactly if that issue has a URL, and is never filed then. */
  lemma LongerIdMasks(f: Finding, g: Finding, tail: string, t: Tracker, k: nat, scan: seq<Scanned>)
    requires g.cve == f.cve + tail && t.search(f.cve).Hits? && k < |t.search(f.cve).hits|
    requires t.search(f.cve).hits[k].title == Title(g)
    requires forall j :: 0 <= j < k ==> !Contains(t.search(f.cve).hits[j].title, f.cve)
    ensures Tracked(t, f.cve) <==> Truthy(t.search(f.cve).hits[k].url)
    ensures Truthy(t.search(f.cve).hits[k].url) ==> f.cve !in Cves(Sent(scan, t))
  {
    TitleHasCve(g);
    ContainsStart(Title(g), f.cve, tail);
    ExistingIsFirstHit(t.search(f.cve).hits, f.cve, k);
  }
}
