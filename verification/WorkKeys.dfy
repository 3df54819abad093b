/**
 Work keys (app/db/sessions.py) as strings, and why two of them are never confused.
 */
module WorkKeys {
  import opened Base

  function Digit(d: nat): (c: char)
    requires d < 10
    ensures '0' <= c <= '9'
  {
    ('0' as int + d) as char
  }

  /** Decimal numerals, as Python prints an int. */
  function Dec(n: nat): (s: string)
    ensures s != [] && forall i :: 0 <= i < |s| ==> '0' <= s[i] <= '9'
  {
    if n < 10 then [Digit(n)] else Dec(n / 10) + [Digit(n % 10)]
  }

  function Numeral(n: int): string {
    if n < 0 then "-" + Dec(-n) else Dec(n)
  }

  /** Python's int() on a string of digits. */
  function Value(s: string): nat
    requires forall i :: 0 <= i < |s| ==> '0' <= s[i] <= '9'
  {
    if s == [] then 0 else Value(s[..|s| - 1]) * 10 + (s[|s| - 1] as int - '0' as int)
  }

  lemma {:induction false} ValueOfDec(n: nat)
    ensures Value(Dec(n)) == n
  {
    if n >= 10 {
      ValueOfDec(n / 10);
      assert Dec(n)[..|Dec(n)| - 1] == Dec(n / 10);
    }
  }

  /** No numeral but zero's starts with a zero. */
  lemma {:induction false} NoLeadingZero(n: nat)
    ensures Dec(n)[0] == '0' <==> n == 0
    ensures n == 0 ==> Dec(n) == "0"
  {
    if n >= 10 {
      NoLeadingZero(n / 10);
      assert Dec(n)[0] == Dec(n / 10)[0];
    }
  }

  lemma NumeralInjective(m: int, n: int)
    requires Numeral(m) == Numeral(n)
    ensures m == n
  {
    if m < 0 && n < 0 {
      assert Numeral(m)[1..] == Dec(-m) && Numeral(n)[1..] == Dec(-n);
    }
    assert Numeral(m)[0] == '-' <==> m < 0;
    assert Numeral(n)[0] == '-' <==> n < 0;
    ValueOfDec(if m < 0 then -m else m);
    ValueOfDec(if n < 0 then -n else n);
  }

  predicate Free(c: char, s: string) {
    forall i :: 0 <= i < |s| ==> s[i] != c
  }

  lemma DropPrefix(p: string, t: string)
    ensures p <= p + t && (p + t)[|p|..] == t
  {
  }

  /** What follows `p`, if the text starts with it. */
  function AfterPrefix(p: string, s: string): Option<string> {
    if p <= s then Some(s[|p|..]) else None
  }

  /** The text before the first separator is determined by the whole. */
  lemma FirstSplit(c: char, a: string, x: string, b: string, y: string)
    requires Free(c, a) && Free(c, b)
    requires a + [c] + x == b + [c] + y
    ensures a == b && x == y
  {
    var s := a + [c] + x;
    assert s[|a|] == c && s[|b|] == c;
    assert forall i :: 0 <= i < |a| ==> s[i] == a[i];
    assert forall i :: 0 <= i < |b| ==> s[i] == b[i];
    assert s[..|a|] == a && s[..|b|] == b;
    assert s[|a| + 1..] == x && s[|b| + 1..] == y;
  }

  /** The text after the last separator is determined by the whole. */
  lemma LastSplit(c: char, a: string, x: string, b: string, y: string)
    requires Free(c, x) && Free(c, y)
    requires a + [c] + x == b + [c] + y
    ensures a == b && x == y
  {
    var s := a + [c] + x;
    assert s[|a|] == c && s[|b|] == c;
    assert forall i :: |a| < i < |s| ==> s[i] == x[i - |a| - 1];
    assert forall i :: |b| < i < |s| ==> s[i] == y[i - |b| - 1];
    assert s[..|a|] == a && s[..|b|] == b;
    assert s[|a| + 1..] == x && s[|b| + 1..] == y;
  }

  lemma NumeralIsColonFree(n: int)
    ensures Free(':', Numeral(n))
  {
  }

  function MakeWorkKey(repo: string, number: int, labelName: string): string {
    "issue:" + (repo + ":" + (Numeral(number) + ":" + labelName))
  }

  function MakeCiFixWorkKey(repo: string, runId: int): string {
    "ci_fix:" + (repo + ":" + Numeral(runId))
  }

  function LegacyKey(id: nat): string {
    "legacy:" + Dec(id)
  }

  /** The keys, spelled out. */
  lemma KeyShapes(repo: string, number: int, labelName: string, run: int)
    ensures MakeWorkKey(repo, number, labelName) == "issue:" + repo + ":" + Numeral(number) + ":" + labelName
    ensures MakeCiFixWorkKey(repo, run) == "ci_fix:" + repo + ":" + Numeral(run)
  {
    Flatten("issue:", repo, ":", Numeral(number), labelName);
    Flatten("ci_fix:", repo, ":", Numeral(run), "");
  }

  lemma Flatten(p: string, a: string, sep: string, b: string, c: string)
    ensures p + (a + sep + (b + sep + c)) == p + a + sep + b + sep + c
    ensures p + (a + sep + b) == p + a + sep + b
  {
  }

  /** Two issues share a key only if they are the same issue under the same label. */
  lemma WorkKeyInjective(r1: string, n1: int, l1: string, r2: string, n2: int, l2: string)
    requires Free(':', r1) && Free(':', r2)
    requires MakeWorkKey(r1, n1, l1) == MakeWorkKey(r2, n2, l2)
    ensures r1 == r2 && n1 == n2 && l1 == l2
  {
    var t1, t2 := Numeral(n1) + ":" + l1, Numeral(n2) + ":" + l2;
    DropPrefix("issue:", r1 + ":" + t1);
    DropPrefix("issue:", r2 + ":" + t2);
    FirstSplit(':', r1, t1, r2, t2);
    NumeralIsColonFree(n1);
    NumeralIsColonFree(n2);
    FirstSplit(':', Numeral(n1), l1, Numeral(n2), l2);
    NumeralInjective(n1, n2);
  }

  /** A re-run of a workflow is a new unit of work; a redelivery is not. */
  lemma CiFixKeyInjective(r1: string, n1: int, r2: string, n2: int)
    requires MakeCiFixWorkKey(r1, n1) == MakeCiFixWorkKey(r2, n2)
    ensures r1 == r2 && n1 == n2
  {
    NumeralIsColonFree(n1);
    NumeralIsColonFree(n2);
    DropPrefix("ci_fix:", r1 + ":" + Numeral(n1));
    DropPrefix("ci_fix:", r2 + ":" + Numeral(n2));
    LastSplit(':', r1, Numeral(n1), r2, Numeral(n2));
    NumeralInjective(n1, n2);
  }

  /** The three families of keys never meet. */
  lemma KeyFamiliesDisjoint(r1: string, n1: int, l1: string, r2: string, run: int, id: nat)
    ensures MakeWorkKey(r1, n1, l1) != MakeCiFixWorkKey(r2, run)
    ensures MakeWorkKey(r1, n1, l1) != LegacyKey(id)
    ensures MakeCiFixWorkKey(r2, run) != LegacyKey(id)
  {
    assert MakeWorkKey(r1, n1, l1)[0] == 'i';
    assert MakeCiFixWorkKey(r2, run)[0] == 'c';
    assert LegacyKey(id)[0] == 'l';
  }

  // ---------- the issue URL ----------

  /** Length of the longest run of characters other than '/' at the front. */
  function Segment(s: string): (n: nat)
    ensures n <= |s| && Free('/', s[..n])
    ensures n < |s| ==> s[n] == '/'
  {
    if s == [] || s[0] == '/' then 0
    else
      var n := Segment(s[1..]);
      assert s[..n + 1] == [s[0]] + s[1..][..n];
      n + 1
  }

  function Digits(s: string): (n: nat)
    ensures n <= |s| && forall i :: 0 <= i < n ==> '0' <= s[i] <= '9'
    ensures n < |s| ==> !('0' <= s[n] <= '9')
  {
    if s == [] || !('0' <= s[0] <= '9') then 0 else 1 + Digits(s[1..])
  }

  datatype IssueRef = NoMatch | IssueRef(repo: string, number: nat)

  /** The pattern github.com/<owner>/<name>/issues/<digits>, tried at the front of `s`.  Owner and
      name each stop at the first '/', so there is only one way to match. */
  function MatchHere(s: string): IssueRef {
    match AfterPrefix("github.com/", s)
    case None => NoMatch
    case Some(t) =>
      var a := Segment(t);
      if a == 0 || a == |t| then NoMatch
      else MatchName(t[..a], t[a + 1..])
  }

  function MatchName(owner: string, u: string): IssueRef {
    var b := Segment(u);
    match AfterPrefix("/issues/", u[b..])
    case None => NoMatch
    case Some(v) =>
      var d := Digits(v);
      if b == 0 || d == 0 then NoMatch else IssueRef(owner + "/" + u[..b], Value(v[..d]))
  }

  /** Leftmost match, as re.search finds it. */
  function SearchUrl(s: string): IssueRef {
    if MatchHere(s).IssueRef? then MatchHere(s)
    else if s == [] then NoMatch
    else SearchUrl(s[1..])
  }

  /** One way this text can start with the pattern: owner, name and the whole run of digits. */
  predicate Spells(s: string, owner: string, name: string, digits: string, rest: string) {
    && s == "github.com/" + (owner + "/" + (name + ("/issues/" + (digits + rest))))
    && owner != "" && Free('/', owner) && name != "" && Free('/', name)
    && digits != "" && (forall i :: 0 <= i < |digits| ==> '0' <= digits[i] <= '9')
    && (rest != "" ==> !('0' <= rest[0] <= '9'))
  }

  function IssueUrl(owner: string, name: string, number: nat): string {
    "https://" + ("github.com/" + (owner + "/" + (name + ("/issues/" + Dec(number)))))
  }

  lemma {:induction false} SegmentOf(a: string, rest: string)
    requires Free('/', a) && (rest == [] || rest[0] == '/')
    ensures Segment(a + rest) == |a|
  {
    var n := Segment(a + rest);
    assert forall i :: 0 <= i < |a| ==> (a + rest)[i] == a[i];
    assert forall i :: 0 <= i < n ==> (a + rest)[..n][i] == (a + rest)[i];
    assert rest != [] ==> (a + rest)[|a|] == '/';
  }

  lemma {:induction false} DigitsOf(digits: string, rest: string)
    requires forall i :: 0 <= i < |digits| ==> '0' <= digits[i] <= '9'
    requires rest != "" ==> !('0' <= rest[0] <= '9')
    ensures Digits(digits + rest) == |digits|
  {
    if digits == "" {
      assert digits + rest == rest;
    } else {
      assert (digits + rest)[1..] == digits[1..] + rest;
      DigitsOf(digits[1..], rest);
    }
  }

  lemma NameMatches(owner: string, name: string, digits: string, rest: string)
    requires name != "" && Free('/', name)
    requires digits != "" && forall i :: 0 <= i < |digits| ==> '0' <= digits[i] <= '9'
    requires rest != "" ==> !('0' <= rest[0] <= '9')
    ensures MatchName(owner, name + ("/issues/" + (digits + rest))) == IssueRef(owner + "/" + name, Value(digits))
  {
    var v := digits + rest;
    var w := "/issues/" + v;
    assert w[0] == '/';
    SegmentOf(name, w);
    assert (name + w)[..|name|] == name && (name + w)[|name|..] == w;
    DropPrefix("/issues/", v);
    DigitsOf(digits, rest);
    assert v[..|digits|] == digits;
  }

  lemma AroundSlash(a: string, u: string)
    ensures a + "/" + u == a + ("/" + u) && (a + "/" + u)[..|a|] == a && (a + "/" + u)[|a| + 1..] == u
  {
  }

  lemma OwnerMatches(owner: string, u: string)
    requires owner != "" && Free('/', owner)
    ensures MatchHere("github.com/" + (owner + "/" + u)) == MatchName(owner, u)
  {
    DropPrefix("github.com/", owner + "/" + u);
    AroundSlash(owner, u);
    SegmentOf(owner, "/" + u);
  }

  /** However the text spells an issue at its front, that is what is matched. */
  lemma MatchesSpelling(s: string, owner: string, name: string, digits: string, rest: string)
    requires Spells(s, owner, name, digits, rest)
    ensures MatchHere(s) == IssueRef(owner + "/" + name, Value(digits))
  {
    OwnerMatches(owner, name + ("/issues/" + (digits + rest)));
    NameMatches(owner, name, digits, rest);
  }

  lemma NameIsSpelled(owner: string, u: string) returns (name: string, digits: string, rest: string)
    requires MatchName(owner, u).IssueRef?
    ensures u == name + ("/issues/" + (digits + rest)) && name != "" && Free('/', name)
    ensures digits != "" && forall i :: 0 <= i < |digits| ==> '0' <= digits[i] <= '9'
    ensures rest != "" ==> !('0' <= rest[0] <= '9')
  {
    var b := Segment(u);
    var v := u[b..][|"/issues/"|..];
    var d := Digits(v);
    name, digits, rest := u[..b], v[..d], v[d..];
    assert v == digits + rest && u[b..] == "/issues/" + v && u == name + u[b..];
  }

  lemma Rejoin(p: string, s: string)
    requires p <= s
    ensures s == p + s[|p|..]
  {
  }

  lemma SplitAt(t: string, a: nat)
    requires a < |t| && t[a] == '/'
    ensures t == t[..a] + "/" + t[a + 1..]
  {
  }

  /** And only a text that spells an issue is matched. */
  lemma MatchIsSpelled(s: string) returns (owner: string, name: string, digits: string, rest: string)
    requires MatchHere(s).IssueRef?
    ensures Spells(s, owner, name, digits, rest)
  {
    var t := s[|"github.com/"|..];
    var a := Segment(t);
    owner := t[..a];
    name, digits, rest := NameIsSpelled(owner, t[a + 1..]);
    Rejoin("github.com/", s);
    SplitAt(t, a);
  }

  /** The pattern starts to match at position k of the text, and nowhere before. */
  ghost predicate FirstMatch(s: string, k: nat) {
    && k <= |s| && MatchHere(s[k..]).IssueRef?
    && forall j :: 0 <= j < k ==> MatchHere(s[j..]).NoMatch?
  }

  /** The search finds the leftmost match if there is one. */
  lemma {:induction false} SearchIsLeftmost(s: string) returns (k: nat)
    ensures if SearchUrl(s).NoMatch? then forall j :: 0 <= j <= |s| ==> MatchHere(s[j..]).NoMatch?
            else FirstMatch(s, k) && SearchUrl(s) == MatchHere(s[k..])
  {
    k := 0;
    assert s[0..] == s;
    if MatchHere(s).NoMatch? && s != [] {
      k := SearchIsLeftmost(s[1..]);
      assert forall j :: 1 <= j <= |s| ==> s[1..][j - 1..] == s[j..];
      if SearchUrl(s).IssueRef? {
        forall j | 0 <= j < k + 1 ensures MatchHere(s[j..]).NoMatch? {
          assert j > 0 ==> s[1..][j - 1..] == s[j..];
        }
      } else {
        forall j | 0 <= j <= |s| ensures MatchHere(s[j..]).NoMatch? {
          assert j > 0 ==> s[1..][j - 1..] == s[j..];
        }
      }
      k := k + 1;
    }
  }

  lemma MatchStartsWithG(s: string)
    requires s == "" || s[0] != 'g'
    ensures MatchHere(s).NoMatch?
  {
    assert "github.com/"[0] == 'g';
  }

  lemma {:induction false} SearchSkips(s: string, k: nat)
    requires k <= |s|
    requires forall j :: 0 <= j < k ==> s[j] != 'g'
    ensures SearchUrl(s) == SearchUrl(s[k..])
  {
    if k == 0 {
    } else {
      MatchStartsWithG(s);
      SearchSkips(s[1..], k - 1);
      assert s[1..][k - 1..] == s[k..];
    }
  }

  /** Searching an issue's own URL gives back its repository and its number. */
  lemma SearchFindsIssue(owner: string, name: string, number: nat)
    requires owner != "" && name != "" && Free('/', owner) && Free('/', name)
    ensures SearchUrl(IssueUrl(owner, name, number)) == IssueRef(owner + "/" + name, number)
  {
    var s := IssueUrl(owner, name, number);
    DropPrefix("https://", s[8..]);
    assert s[8..] == "github.com/" + (owner + "/" + (name + ("/issues/" + Dec(number))));
    assert forall j :: 0 <= j < 8 ==> s[j] == "https://"[j];
    SearchSkips(s, 8);
    assert Dec(number) + "" == Dec(number);
    MatchesSpelling(s[8..], owner, name, Dec(number), "");
    ValueOfDec(number);
  }
}
