/**
 What Devin reports about a session, and how it is translated (app/devin/types.py).
 */
module Devin {
  import opened Base

  /** Our own session status. */
  datatype Status =
    | Reserving | Pending | Running | Blocked | NeedsAttention   // active
    | Completed | Failed | Cancelled | TimedOut                  // terminal

  predicate Active(s: Status) {
    s.Reserving? || s.Pending? || s.Running? || s.Blocked? || s.NeedsAttention?
  }

  predicate Terminal(s: Status) {
    s.Completed? || s.Failed? || s.Cancelled? || s.TimedOut?
  }

  /** Devin's status vocabulary; `Other` is any word the map does not know. */
  datatype Raw = New | Claimed | RawRunning | Exit | RawError | Suspended | Resuming | Other(text: string)

  function ParseRaw(word: string): Raw {
    if word == "new" then New
    else if word == "claimed" then Claimed
    else if word == "running" then RawRunning
    else if word == "exit" then Exit
    else if word == "error" then RawError
    else if word == "suspended" then Suspended
    else if word == "resuming" then Resuming
    else Other(word)
  }

  /** Unknown words stay active, so the poller keeps watching the session. */
  function MapStatus(raw: Raw): (s: Status)
    ensures Terminal(s) <==> raw.Exit? || raw.RawError? || raw.Suspended?
    ensures Active(s) <==> !Terminal(s)
    ensures s.NeedsAttention? <==> raw.Other?
    ensures !s.Reserving? && !s.Blocked? && !s.TimedOut?
  {
    match raw
    case New => Pending
    case Claimed => Pending
    case RawRunning => Running
    case Exit => Completed
    case RawError => Failed
    case Suspended => Cancelled
    case Resuming => Running
    case Other(_) => NeedsAttention
  }

  /** The translation as it is written down. */
  const STATUS_MAP: map<string, Status> := map[
    "new" := Pending, "claimed" := Pending, "running" := Running, "exit" := Completed, "error" := Failed,
    "suspended" := Cancelled, "resuming" := Running]

  /** A word of Devin's is translated by the map; one the map does not know needs attention. */
  lemma MapsWords(word: string)
    ensures MapStatus(ParseRaw(word)) == if word in STATUS_MAP then STATUS_MAP[word] else NeedsAttention
  {
  }

  /** No two words are stored as the same raw status. */
  lemma RawKeepsWord(a: string, b: string)
    requires ParseRaw(a) == ParseRaw(b)
    ensures a == b
  {
  }

  /** Every status is active or terminal, and none is both. */
  lemma ActiveOrTerminal(s: Status)
    ensures Active(s) <==> s in {Reserving, Pending, Running, Blocked, NeedsAttention}
    ensures Terminal(s) <==> s in {Completed, Failed, Cancelled, TimedOut}
    ensures Active(s) <==> !Terminal(s)
  {
  }

  /** A pull request as Devin lists it. */
  datatype PrRef = PrRef(url: string, state: Option<string>)

  /** One successful answer to get_session. */
  datatype Remote = Remote(
    raw: Raw,
    acus: real,
    prs: seq<PrRef>,
    updatedAt: Option<int>,
    output: Option<string>)
  {
    function Status(): Status { MapStatus(raw) }

    function FirstPr(): Option<string> {
      if prs == [] then None else Some(prs[0].url)
    }

    function FirstState(): Option<string> {
      if prs == [] then None else prs[0].state
    }

    /** Devin's own activity clock, when it gives one (zero counts as absent). */
    function Clock(): Option<int> {
      if updatedAt == Some(0) then None else updatedAt
    }
  }

  /** A pull-request entry of the raw response; the URL may be missing. */
  datatype ApiPr = ApiPr(url: Option<string>, state: Option<string>)

  predicate Linked(a: ApiPr) { a.url.Some? && a.url.value != "" }

  function Kept(a: ApiPr): seq<PrRef> { if Linked(a) then [PrRef(a.url.value, a.state)] else [] }

  function KeepLinked(prs: seq<ApiPr>): (r: seq<PrRef>)
    ensures forall p :: p in r ==> p.url != "" && ApiPr(Some(p.url), p.state) in prs
    ensures forall a :: a in prs && Linked(a) ==> PrRef(a.url.value, a.state) in r
    ensures |r| <= |prs|
  {
    if prs == [] then [] else Kept(prs[0]) + KeepLinked(prs[1..])
  }

  /** `r` lists the linked entries, each once and in their order; `at` gives their places. */
  ghost predicate InOrder(prs: seq<ApiPr>, r: seq<PrRef>, at: seq<nat>) {
    && |at| == |r| && (forall a, b :: 0 <= a < b < |at| ==> at[a] < at[b])
    && (forall a :: 0 <= a < |at| ==> IsEntry(prs, at[a], r[a]))
    && (forall i :: 0 <= i < |prs| && Linked(prs[i]) ==> i in at)
  }

  predicate IsEntry(prs: seq<ApiPr>, i: nat, r: PrRef) {
    i < |prs| && Linked(prs[i]) && r == PrRef(prs[i].url.value, prs[i].state)
  }

  lemma {:induction false} KeepLinkedAppend(prs: seq<ApiPr>, a: ApiPr)
    ensures KeepLinked(prs + [a]) == KeepLinked(prs) + Kept(a)
  {
    if prs == [] {
      assert (prs + [a])[1..] == [] && KeepLinked([]) == [];
    } else {
      assert (prs + [a])[1..] == prs[1..] + [a];
      KeepLinkedAppend(prs[1..], a);
    }
  }

  lemma OrderSkips(prs: seq<ApiPr>, a: ApiPr, r: seq<PrRef>, at: seq<nat>)
    requires InOrder(prs, r, at) && !Linked(a)
    ensures InOrder(prs + [a], r, at)
  {
    var more := prs + [a];
    forall k | 0 <= k < |at| ensures IsEntry(more, at[k], r[k]) {
      assert IsEntry(prs, at[k], r[k]);
    }
    forall i | 0 <= i < |more| && Linked(more[i]) ensures i in at {
      assert more[i] == prs[i];
    }
  }

  lemma OrderKeeps(prs: seq<ApiPr>, a: ApiPr, r: seq<PrRef>, at: seq<nat>, x: PrRef)
    requires InOrder(prs, r, at) && Linked(a) && x == PrRef(a.url.value, a.state)
    ensures InOrder(prs + [a], r + [x], at + [|prs|])
  {
    var more, rs, ats := prs + [a], r + [x], at + [|prs|];
    forall k | 0 <= k < |ats| ensures IsEntry(more, ats[k], rs[k]) && (k < |at| ==> ats[k] < |prs|) {
      if k < |at| {
        assert IsEntry(prs, at[k], r[k]);
      }
    }
    forall i | 0 <= i < |more| && Linked(more[i]) ensures i in ats {
      if i < |prs| {
        assert more[i] == prs[i] && i in at;
      } else {
        assert ats[|at|] == i;
      }
    }
  }

  /** The entries kept are exactly the linked ones, each once and in their order. */
  lemma {:induction false} KeepsLinkedInOrder(prs: seq<ApiPr>) returns (at: seq<nat>)
    ensures InOrder(prs, KeepLinked(prs), at)
  {
    at := [];
    if prs == [] {
    } else {
      var init, a := prs[..|prs| - 1], prs[|prs| - 1];
      assert prs == init + [a];
      at := KeepsLinkedInOrder(init);
      KeepLinkedAppend(init, a);
      if Linked(a) {
        OrderKeeps(init, a, KeepLinked(init), at, PrRef(a.url.value, a.state));
        at := at + [|init|];
      } else {
        OrderSkips(init, a, KeepLinked(init), at);
      }
    }
  }

  function FromApiResponse(status: Option<string>, acus: Option<real>, prs: seq<ApiPr>,
                           updatedAt: Option<int>, output: Option<string>): Remote {
    Remote(ParseRaw(if status.Some? && status.value != "" then status.value else "unknown"),
           if acus.Some? then acus.value else 0.0,
           KeepLinked(prs), updatedAt, output)
  }

  /** What is read off a response: an absent or empty status needs attention, absent costs are none, and an absent
      or zero clock is no clock. */
  lemma ReadsResponse(status: Option<string>, acus: Option<real>, prs: seq<ApiPr>, updatedAt: Option<int>,
                      output: Option<string>)
    ensures var m := FromApiResponse(status, acus, prs, updatedAt, output);
            && m.Status() == (if status.Some? && status.value in STATUS_MAP then STATUS_MAP[status.value]
                              else NeedsAttention)
            && m.raw == ParseRaw(if status.None? || status.value == "" then "unknown" else status.value)
            && m.acus == (if acus.Some? then acus.value else 0.0)
            && m.Clock() == (if updatedAt.None? || updatedAt.value == 0 then None else updatedAt)
            && m.output == output
  {
    MapsWords(if status.None? || status.value == "" then "unknown" else status.value);
  }

  /** The first pull request the poller looks at is the first entry that has a URL. */
  lemma {:induction false} FirstPrSkipsUnlinked(status: Option<string>, acus: Option<real>, before: seq<ApiPr>,
                                                 pr: ApiPr, after: seq<ApiPr>, updatedAt: Option<int>,
                                                 output: Option<string>)
    requires (forall a :: a in before ==> !Linked(a)) && Linked(pr)
    ensures FromApiResponse(status, acus, before + [pr] + after, updatedAt, output).FirstPr() == pr.url
    ensures FromApiResponse(status, acus, before + [pr] + after, updatedAt, output).FirstState() == pr.state
    decreases before
  {
    var prs := before + [pr] + after;
    if before == [] {
      assert prs[0] == pr;
    } else {
      assert prs[1..] == before[1..] + [pr] + after;
      FirstPrSkipsUnlinked(status, acus, before[1..], pr, after, updatedAt, output);
    }
  }
}
