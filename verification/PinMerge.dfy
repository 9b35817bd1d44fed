/** Merging transcript pages into a read-only pin (frontend/local/view-only-thread.js and
    frontend/local/pin-page.js), and what those merges mean against the thread's log. */
module PinMerge {
  import opened Options

  /** A transcript entry. The empty id and a missing `seqNo` stand for absent fields. */
  datatype Entry = Entry(id: string, seqNo: Option<int>, body: string)

  datatype Page = Page(threadId: string, entries: seq<Entry>, prevCursor: Option<nat>)

  /** What the endpoint may answer: an object with entries, one without, a bare array, or anything
      else. */
  datatype Response =
    | PageObject(page: Page)
    | Entryless(threadId: string, prevCursor: Option<nat>)
    | BareArray(entries: seq<Entry>)
    | OtherShape

  /** The part of a pin that merging reads and writes. */
  datatype View = View(threadId: string, entries: seq<Entry>, olderCursor: Option<nat>,
                       historyExtended: bool)

  datatype Merged = Merged(entries: seq<Entry>, historyExtended: bool, olderCursor: Option<nat>)

  // ---------------------------------------------------------------- pin-page.js

  /** `normalizeTranscriptPage`; `None` is the thrown thread mismatch. */
  function NormalizePage(response: Response, threadId: string): (page: Option<Page>)
    ensures page.Some? ==> page.value.threadId == threadId
    ensures page == None <==> response.PageObject? && response.page.threadId != threadId
  {
    var normalized :=
      if response.PageObject? then response.page
      else Page(threadId, if response.BareArray? then response.entries else [], None);
    if normalized.threadId != threadId then None else Some(normalized)
  }

  // ---------------------------------------------------------------- merging

  function FreshIds(entries: seq<Entry>): set<string> {
    set e | e in entries && e.id != "" :: e.id
  }

  predicate Overlaps(e: Entry, ids: set<string>) { e.id != "" && e.id in ids }

  /** Entries that no fresh entry replaces. */
  function NotIn(entries: seq<Entry>, ids: set<string>): seq<Entry> {
    if |entries| == 0 then []
    else (if Overlaps(entries[0], ids) then [] else [entries[0]]) + NotIn(entries[1..], ids)
  }

  function SeqBelow(entries: seq<Entry>, bound: int): seq<Entry> {
    if |entries| == 0 then []
    else (if entries[0].seqNo.Some? && entries[0].seqNo.value < bound then [entries[0]] else [])
         + SeqBelow(entries[1..], bound)
  }

  function SeqAbove(entries: seq<Entry>, bound: int): seq<Entry> {
    if |entries| == 0 then []
    else (if entries[0].seqNo.Some? && entries[0].seqNo.value > bound then [entries[0]] else [])
         + SeqAbove(entries[1..], bound)
  }

  /** The least of the sequence numbers present, if any is. */
  function MinSeq(entries: seq<Entry>): (m: Option<int>)
    ensures m == None <==> forall i :: 0 <= i < |entries| ==> entries[i].seqNo == None
    ensures m.Some? ==> exists i :: 0 <= i < |entries| && entries[i].seqNo == m
    ensures m.Some? ==>
      forall i :: 0 <= i < |entries| && entries[i].seqNo.Some? ==> m.value <= entries[i].seqNo.value
  {
    if |entries| == 0 then None
    else
      var rest := MinSeq(entries[1..]);
      if entries[0].seqNo.None? then rest
      else if rest.Some? && rest.value <= entries[0].seqNo.value then rest
      else entries[0].seqNo
  }

  /** The greatest of the sequence numbers present, if any is. */
  function MaxSeq(entries: seq<Entry>): (m: Option<int>)
    ensures m == None <==> forall i :: 0 <= i < |entries| ==> entries[i].seqNo == None
    ensures m.Some? ==> exists i :: 0 <= i < |entries| && entries[i].seqNo == m
    ensures m.Some? ==>
      forall i :: 0 <= i < |entries| && entries[i].seqNo.Some? ==> m.value >= entries[i].seqNo.value
  {
    if |entries| == 0 then None
    else
      var rest := MaxSeq(entries[1..]);
      if entries[0].seqNo.None? then rest
      else if rest.Some? && rest.value >= entries[0].seqNo.value then rest
      else entries[0].seqNo
  }

  /** Index of the first entry the page replaces, or -1. */
  function FirstOverlap(entries: seq<Entry>, ids: set<string>): (k: int)
    ensures -1 <= k < |entries|
    ensures k >= 0 ==> Overlaps(entries[k], ids)
    ensures forall i :: 0 <= i < (if k >= 0 then k else |entries|) ==> !Overlaps(entries[i], ids)
  {
    if |entries| == 0 then -1
    else if Overlaps(entries[0], ids) then 0
    else
      var k := FirstOverlap(entries[1..], ids);
      if k == -1 then -1 else k + 1
  }

  /** Index of the last entry the page replaces, or -1. */
  function LastOverlap(entries: seq<Entry>, ids: set<string>): (k: int)
    ensures -1 <= k < |entries|
    ensures k >= 0 ==> Overlaps(entries[k], ids)
    ensures forall i :: k < i < |entries| ==> !Overlaps(entries[i], ids)
  {
    if |entries| == 0 then -1
    else if Overlaps(entries[|entries| - 1], ids) then |entries| - 1
    else LastOverlap(entries[..|entries| - 1], ids)
  }

  /** The source's single pass over the held entries. */
  method ScanOverlap(entries: seq<Entry>, ids: set<string>) returns (first: int, last: int)
    ensures first == FirstOverlap(entries, ids) && last == LastOverlap(entries, ids)
  {
    first, last := -1, -1;
    for index := 0 to |entries|
      invariant -1 <= first <= last < index
      invariant first == -1 <==> last == -1
      invariant first >= 0 ==> Overlaps(entries[first], ids) && Overlaps(entries[last], ids)
      invariant forall i :: 0 <= i < (if first >= 0 then first else index) ==> !Overlaps(entries[i], ids)
      invariant forall i :: last < i < index ==> !Overlaps(entries[i], ids)
    {
      if Overlaps(entries[index], ids) {
        if first == -1 { first := index; }
        last := index;
      }
    }
  }

  /** `mergeRefreshedViewOnlyPage` for a page of the pin's own thread or another's. */
  function MergeRefreshed(pin: Option<View>, page: Page): Merged {
    if pin.Some? && page.threadId != pin.value.threadId then
      Merged(pin.value.entries, pin.value.historyExtended, pin.value.olderCursor)
    else
      var arrived := page.entries;
      var prior := if pin.Some? then pin.value.entries else [];
      var extended := pin.Some? && pin.value.historyExtended;
      var pinCursor := if pin.Some? then pin.value.olderCursor else None;
      if |arrived| == 0 then
        Merged(prior, extended, if pinCursor.Some? then pinCursor else page.prevCursor)
      else if |prior| == 0 then
        Merged(arrived, false, page.prevCursor)
      else
        if LastOverlap(prior, FreshIds(arrived)) == -1 && MaxSeq(arrived).None? then
          Merged(arrived, false, page.prevCursor)
        else
          var prefix, tail := KeptBefore(prior, arrived), KeptAfter(prior, arrived);
          Merged((if extended then prefix else []) + arrived + tail,
                 extended && |prefix| > 0,
                 if extended then pinCursor else page.prevCursor)
  }

  /** The held entries on either side of the page: located by shared ids if there are any, by
      sequence numbers otherwise. */
  function KeptBefore(prior: seq<Entry>, arrived: seq<Entry>): seq<Entry> {
    var ids := FreshIds(arrived);
    if LastOverlap(prior, ids) == -1 then SeqBelow(prior, SeqOr(MinSeq(arrived)))
    else NotIn(prior[..Max0(FirstOverlap(prior, ids))], ids)
  }

  function KeptAfter(prior: seq<Entry>, arrived: seq<Entry>): seq<Entry> {
    var ids := FreshIds(arrived);
    if LastOverlap(prior, ids) == -1 then SeqAbove(prior, SeqOr(MaxSeq(arrived)))
    else NotIn(prior[LastOverlap(prior, ids) + 1..], ids)
  }

  function SeqOr(m: Option<int>): int { if m.Some? then m.value else 0 }
  function Max0(k: int): nat { if k < 0 then 0 else k }

  /** The merge as a splice around the page, or as the page alone when nothing locates it. */
  lemma MergeIsSplice(pin: View, page: Page, before: seq<Entry>, after: seq<Entry>)
    requires page.threadId == pin.threadId && |page.entries| > 0 && |pin.entries| > 0
    requires before == KeptBefore(pin.entries, page.entries) && after == KeptAfter(pin.entries, page.entries)
    ensures MergeRefreshed(Some(pin), page)
      == if LastOverlap(pin.entries, FreshIds(page.entries)) == -1 && MaxSeq(page.entries).None?
         then Merged(page.entries, false, page.prevCursor)
         else Merged((if pin.historyExtended then before else []) + page.entries + after,
                     pin.historyExtended && |before| > 0,
                     if pin.historyExtended then pin.olderCursor else page.prevCursor)
  {
  }

  /** The refreshed page as the source computes it, with the scan in place. */
  method RefreshPin(pin: Option<View>, page: Page) returns (merged: Merged)
    ensures merged == MergeRefreshed(pin, page)
  {
    if pin.Some? && page.threadId != pin.value.threadId {
      return Merged(pin.value.entries, pin.value.historyExtended, pin.value.olderCursor);
    }
    var arrived := page.entries;
    var prior := if pin.Some? then pin.value.entries else [];
    var extended := pin.Some? && pin.value.historyExtended;
    var pinCursor := if pin.Some? then pin.value.olderCursor else None;
    if |arrived| == 0 {
      return Merged(prior, extended, if pinCursor.Some? then pinCursor else page.prevCursor);
    }
    if |prior| == 0 {
      return Merged(arrived, false, page.prevCursor);
    }
    var located, prefix, tail := SplitAround(prior, arrived);
    if !located {
      return Merged(arrived, false, page.prevCursor);
    }
    return Merged((if extended then prefix else []) + arrived + tail,
                  extended && |prefix| > 0,
                  if extended then pinCursor else page.prevCursor);
  }

  /** Split what the pin holds around the window the page covers, if that can be told. */
  method SplitAround(prior: seq<Entry>, arrived: seq<Entry>)
    returns (located: bool, prefix: seq<Entry>, tail: seq<Entry>)
    ensures located <==> LastOverlap(prior, FreshIds(arrived)) != -1 || MaxSeq(arrived).Some?
    ensures located ==> prefix == KeptBefore(prior, arrived) && tail == KeptAfter(prior, arrived)
  {
    var ids := FreshIds(arrived);
    var firstOverlap, lastOverlap := ScanOverlap(prior, ids);
    if lastOverlap == -1 {
      var maxSeq, minSeq := MaxSeq(arrived), MinSeq(arrived);
      if maxSeq == None {
        return false, [], [];
      }
      return true, SeqBelow(prior, minSeq.value), SeqAbove(prior, maxSeq.value);
    }
    return true, NotIn(prior[..firstOverlap], ids), NotIn(prior[lastOverlap + 1..], ids);
  }

  /** `mergeOlderViewOnlyPage` */
  function MergeOlder(pin: View, page: Page): View {
    if page.threadId != pin.threadId then pin
    else
      var older := NotIn(page.entries, FreshIds(pin.entries));
      pin.(entries := older + pin.entries, historyExtended := true, olderCursor := page.prevCursor)
  }

  // ---------------------------------------------------------------- the log

  datatype Key = Key(id: string, seqNo: int)

  /** The entry is the one at that log position. It need not carry its number: the relay's pages
      have none, streamed entries do. */
  predicate Matches(e: Entry, key: Key) {
    e.id == key.id && (e.seqNo.Some? ==> e.seqNo.value == key.seqNo)
  }

  /** A thread's log: every position has an id of its own, and the sequence numbers increase.
      Bodies are not part of it: an entry's text may still change. */
  ghost predicate ValidLog(log: seq<Key>) {
    && (forall i :: 0 <= i < |log| ==> log[i].id != "")
    && (forall i, j :: 0 <= i < j < |log| ==> log[i].id != log[j].id)
    && (forall i, j :: 0 <= i < j < |log| ==> log[i].seqNo < log[j].seqNo)
  }

  ghost predicate Increasing(pos: seq<nat>) {
    forall i, j :: 0 <= i < j < |pos| ==> pos[i] < pos[j]
  }

  /** The entries are those at the log positions `pos`, in log order. */
  ghost predicate Places(log: seq<Key>, entries: seq<Entry>, pos: seq<nat>) {
    && |entries| == |pos| && Increasing(pos)
    && forall i :: 0 <= i < |pos| ==> pos[i] < |log| && Matches(entries[i], log[pos[i]])
  }

  /** The entries are exactly the log from `a` up to `b`. */
  ghost predicate Window(log: seq<Key>, entries: seq<Entry>, a: nat, b: nat) {
    && a <= b <= |log| && |entries| == b - a
    && forall i :: 0 <= i < |entries| ==> Matches(entries[i], log[a + i])
  }

  /** How many of the positions lie below `x`. */
  function Below(pos: seq<nat>, x: nat): (k: nat)
    ensures k <= |pos|
    ensures forall i :: 0 <= i < k ==> pos[i] < x
    ensures k < |pos| ==> pos[k] >= x
  {
    if |pos| == 0 || pos[0] >= x then 0 else 1 + Below(pos[1..], x)
  }

  lemma BelowSplits(pos: seq<nat>, x: nat)
    requires Increasing(pos)
    ensures forall i :: 0 <= i < |pos| ==> (pos[i] < x <==> i < Below(pos, x))
  {
  }

  lemma BelowMonotone(pos: seq<nat>, x: nat, y: nat)
    requires Increasing(pos) && x <= y
    ensures Below(pos, x) <= Below(pos, y)
  {
    BelowSplits(pos, x);
    BelowSplits(pos, y);
  }

  function Range(a: nat, b: nat): (r: seq<nat>)
    requires a <= b
    ensures |r| == b - a
    ensures forall i :: 0 <= i < |r| ==> r[i] == a + i
  {
    seq(b - a, i requires 0 <= i < b - a => a + i)
  }

  /** The specification: the page, everything held that is newer than the page, and, once history
      was paged in, everything held that is older. */
  function SpecEntries(pin: View, pos: seq<nat>, page: Page, a: nat, b: nat): seq<Entry>
    requires |pos| == |pin.entries|
  {
    (if pin.historyExtended then pin.entries[..Below(pos, a)] else [])
    + page.entries
    + pin.entries[Below(pos, b)..]
  }

  function SpecPositions(pin: View, pos: seq<nat>, a: nat, b: nat): seq<nat>
    requires a <= b
  {
    (if pin.historyExtended then pos[..Below(pos, a)] else []) + Range(a, b) + pos[Below(pos, b)..]
  }

  lemma PlacesConcat(log: seq<Key>, e1: seq<Entry>, p1: seq<nat>, e2: seq<Entry>, p2: seq<nat>, x: nat)
    requires Places(log, e1, p1) && Places(log, e2, p2)
    requires forall i :: 0 <= i < |p1| ==> p1[i] < x
    requires forall i :: 0 <= i < |p2| ==> p2[i] >= x
    ensures Places(log, e1 + e2, p1 + p2)
  {
    var e, p := e1 + e2, p1 + p2;
    forall i | 0 <= i < |p| ensures p[i] < |log| && Matches(e[i], log[p[i]]) {
      if i >= |p1| { assert p[i] == p2[i - |p1|] && e[i] == e2[i - |p1|]; }
    }
    forall i, j | 0 <= i < j < |p| ensures p[i] < p[j] {
      if i >= |p1| { assert p[i] == p2[i - |p1|] && p[j] == p2[j - |p1|]; }
    }
  }

  lemma PlacesSlice(log: seq<Key>, e: seq<Entry>, p: seq<nat>, i: nat, j: nat)
    requires Places(log, e, p) && i <= j <= |p|
    ensures Places(log, e[i..j], p[i..j])
  {
    forall k | 0 <= k < j - i ensures p[i..j][k] < |log| && Matches(e[i..j][k], log[p[i..j][k]]) {
      assert e[i..j][k] == e[i + k] && p[i..j][k] == p[i + k];
    }
  }

  lemma WindowPlaces(log: seq<Key>, e: seq<Entry>, a: nat, b: nat)
    requires Window(log, e, a, b)
    ensures Places(log, e, Range(a, b))
  {
  }

  /** What the specification keeps in front of the page, and what behind it. */
  function Front(pin: View, pos: seq<nat>, a: nat): nat {
    if pin.historyExtended then Below(pos, a) else 0
  }

  lemma FrontPlaces(log: seq<Key>, pin: View, pos: seq<nat>, page: Page, a: nat, b: nat)
    requires Places(log, pin.entries, pos) && Window(log, page.entries, a, b)
    ensures var k := Front(pin, pos, a);
      && k <= |pos|
      && Places(log, pin.entries[..k] + page.entries, pos[..k] + Range(a, b))
      && forall i :: 0 <= i < k + (b - a) ==> (pos[..k] + Range(a, b))[i] < b
  {
    var k := Front(pin, pos, a);
    PlacesSlice(log, pin.entries, pos, 0, k);
    assert pin.entries[0..k] == pin.entries[..k] && pos[0..k] == pos[..k];
    WindowPlaces(log, page.entries, a, b);
    PlacesConcat(log, pin.entries[..k], pos[..k], page.entries, Range(a, b), a);
  }

  lemma BackPlaces(log: seq<Key>, entries: seq<Entry>, pos: seq<nat>, b: nat)
    requires Places(log, entries, pos)
    ensures var l := Below(pos, b);
      && Places(log, entries[l..], pos[l..])
      && forall i :: 0 <= i < |pos| - l ==> pos[l..][i] >= b
  {
    var l := Below(pos, b);
    BelowSplits(pos, b);
    PlacesSlice(log, entries, pos, l, |pos|);
    assert entries[l..|pos|] == entries[l..] && pos[l..|pos|] == pos[l..];
    forall i | 0 <= i < |pos| - l ensures pos[l..][i] >= b {
      assert pos[l..][i] == pos[l + i];
    }
  }

  /** The specified entries are in log order, each position at most once. */
  lemma SpecPlaces(log: seq<Key>, pin: View, pos: seq<nat>, page: Page, a: nat, b: nat)
    requires Places(log, pin.entries, pos) && Window(log, page.entries, a, b)
    ensures Places(log, SpecEntries(pin, pos, page, a, b), SpecPositions(pin, pos, a, b))
  {
    var k, l := Front(pin, pos, a), Below(pos, b);
    FrontPlaces(log, pin, pos, page, a, b);
    BackPlaces(log, pin.entries, pos, b);
    var e, p := pin.entries[..k] + page.entries, pos[..k] + Range(a, b);
    PlacesConcat(log, e, p, pin.entries[l..], pos[l..], b);
    assert SpecPositions(pin, pos, a, b) == p + pos[l..];
    assert SpecEntries(pin, pos, page, a, b) == e + pin.entries[l..];
  }

  /** Log order and distinctness, said of the entries themselves. */
  ghost predicate OrderedAndDistinct(entries: seq<Entry>) {
    && (forall i, j :: 0 <= i < j < |entries| ==> entries[i].id != entries[j].id)
    && (forall i, j :: 0 <= i < j < |entries| && entries[i].seqNo.Some? && entries[j].seqNo.Some? ==>
          entries[i].seqNo.value < entries[j].seqNo.value)
  }

  lemma PlacedAreOrdered(log: seq<Key>, entries: seq<Entry>, pos: seq<nat>)
    requires ValidLog(log) && Places(log, entries, pos)
    ensures OrderedAndDistinct(entries)
  {
    forall i, j | 0 <= i < j < |entries|
      ensures entries[i].id != entries[j].id
      ensures entries[i].seqNo.Some? && entries[j].seqNo.Some? ==>
        entries[i].seqNo.value < entries[j].seqNo.value
    {
      assert Matches(entries[i], log[pos[i]]) && Matches(entries[j], log[pos[j]]);
      assert pos[i] < pos[j];
    }
  }

  // ---------------------------------------------------------------- refinement

  /** A held entry shares an id with the page exactly when it lies inside the page's window. */
  lemma OverlapIsInside(log: seq<Key>, e: Entry, p: nat, arrived: seq<Entry>, a: nat, b: nat)
    requires ValidLog(log) && p < |log| && Matches(e, log[p]) && Window(log, arrived, a, b)
    ensures Overlaps(e, FreshIds(arrived)) <==> a <= p < b
  {
    if a <= p < b {
      assert Matches(arrived[p - a], log[p]);
      assert arrived[p - a] in arrived;
    }
    if Overlaps(e, FreshIds(arrived)) {
      var f :| f in arrived && f.id != "" && f.id == e.id;
      var i :| 0 <= i < |arrived| && arrived[i] == f;
      assert Matches(arrived[i], log[a + i]);
      assert log[a + i].id == log[p].id;
    }
  }

  lemma OverlapsInside(log: seq<Key>, entries: seq<Entry>, pos: seq<nat>, arrived: seq<Entry>, a: nat, b: nat)
    requires ValidLog(log) && Places(log, entries, pos) && Window(log, arrived, a, b)
    ensures forall i :: 0 <= i < |entries| ==>
      (Overlaps(entries[i], FreshIds(arrived)) <==> Below(pos, a) <= i < Below(pos, b))
  {
    BelowSplits(pos, a);
    BelowSplits(pos, b);
    forall i | 0 <= i < |entries|
      ensures Overlaps(entries[i], FreshIds(arrived)) <==> Below(pos, a) <= i < Below(pos, b)
    {
      OverlapIsInside(log, entries[i], pos[i], arrived, a, b);
    }
  }

  lemma {:induction false} NotInKeepsAll(entries: seq<Entry>, ids: set<string>)
    requires forall i :: 0 <= i < |entries| ==> !Overlaps(entries[i], ids)
    ensures NotIn(entries, ids) == entries
  {
    if |entries| > 0 { NotInKeepsAll(entries[1..], ids); }
  }

  predicate AllNumbered(entries: seq<Entry>) {
    forall i :: 0 <= i < |entries| ==> entries[i].seqNo.Some?
  }

  lemma {:induction false} SeqBelowOf(entries: seq<Entry>, k: nat, bound: int)
    requires k <= |entries|
    requires forall i :: 0 <= i < |entries| && entries[i].seqNo.Some? ==>
      (entries[i].seqNo.value < bound <==> i < k)
    ensures |SeqBelow(entries, bound)| <= k
    ensures SeqBelow(entries, bound) == entries[..k] <==> AllNumbered(entries[..k])
    ensures |SeqBelow(entries, bound)| == k <==> AllNumbered(entries[..k])
  {
    if |entries| > 0 {
      var rest := entries[1..];
      var k' := if k == 0 then 0 else k - 1;
      forall i | 0 <= i < |rest| && rest[i].seqNo.Some? ensures rest[i].seqNo.value < bound <==> i < k' {
        assert rest[i] == entries[i + 1];
      }
      SeqBelowOf(rest, k', bound);
      if k > 0 {
        assert entries[..k] == [entries[0]] + rest[..k'];
        assert forall i :: 0 <= i < k' ==> rest[..k'][i] == entries[..k][i + 1];
        assert AllNumbered(entries[..k]) <==> entries[0].seqNo.Some? && AllNumbered(rest[..k']);
      }
    }
  }

  lemma {:induction false} SeqAboveOf(entries: seq<Entry>, k: nat, bound: int)
    requires k <= |entries|
    requires forall i :: 0 <= i < |entries| && entries[i].seqNo.Some? ==>
      (entries[i].seqNo.value > bound <==> i >= k)
    ensures |SeqAbove(entries, bound)| <= |entries| - k
    ensures SeqAbove(entries, bound) == entries[k..] <==> AllNumbered(entries[k..])
    ensures |SeqAbove(entries, bound)| == |entries| - k <==> AllNumbered(entries[k..])
  {
    if |entries| > 0 {
      var rest := entries[1..];
      var k' := if k == 0 then 0 else k - 1;
      forall i | 0 <= i < |rest| && rest[i].seqNo.Some? ensures rest[i].seqNo.value > bound <==> i >= k' {
        assert rest[i] == entries[i + 1];
      }
      SeqAboveOf(rest, k', bound);
      if k > 0 {
        assert entries[k..] == rest[k'..];
      } else {
        assert entries[k..] == [entries[0]] + rest[k'..];
        assert forall i :: 0 <= i < |rest| ==> rest[k'..][i] == entries[k..][i + 1];
        assert AllNumbered(entries[k..]) <==> entries[0].seqNo.Some? && AllNumbered(rest[k'..]);
      }
    }
  }

  /** The page can be located against what the pin holds: they share an entry, or the sequence
      numbers say on which side of the page every entry that must survive lies. An empty page
      replaces nothing, so it drops no older entry either. */
  predicate Localizable(pin: View, pos: seq<nat>, page: Page, a: nat, b: nat)
    requires |pos| == |pin.entries|
  {
    var k := Below(pos, a);
    if a >= b then pin.historyExtended || k == 0
    else
      || k < Below(pos, b)
      || (if MaxSeq(page.entries).Some?
          then (pin.historyExtended ==> AllNumbered(pin.entries[..k])) && AllNumbered(pin.entries[k..])
          else (pin.historyExtended ==> k == 0) && k == |pin.entries|)
  }

  /** Refinement: on a log window, the merge is the specification exactly when the page can be
      located. */
  lemma MergeRefines(log: seq<Key>, pin: View, pos: seq<nat>, page: Page, a: nat, b: nat)
    requires ValidLog(log) && page.threadId == pin.threadId
    requires Places(log, pin.entries, pos) && Window(log, page.entries, a, b)
    ensures MergeRefreshed(Some(pin), page).entries == SpecEntries(pin, pos, page, a, b)
            <==> Localizable(pin, pos, page, a, b)
    ensures Localizable(pin, pos, page, a, b) && |pin.entries| > 0 && a < b ==>
      var m := MergeRefreshed(Some(pin), page);
      && m.historyExtended == (pin.historyExtended && Below(pos, a) > 0)
      && ((pin.historyExtended ==> MaxSeq(page.entries).Some? || Below(pos, a) < Below(pos, b)) ==>
           m.olderCursor == if pin.historyExtended then pin.olderCursor else page.prevCursor)
  {
    BelowMonotone(pos, a, b);
    if a == b {
      EmptyPage(pin, pos, page, a);
    } else if |pin.entries| > 0 {
      if Below(pos, a) < Below(pos, b) {
        MergeByIds(log, pin, pos, page, a, b);
      } else {
        MergeBySeq(log, pin, pos, page, a, b);
      }
    } else {
      assert SpecEntries(pin, pos, page, a, b) == page.entries;
    }
  }

  lemma EmptyPage(pin: View, pos: seq<nat>, page: Page, a: nat)
    requires page.threadId == pin.threadId && |page.entries| == 0 && |pos| == |pin.entries|
    ensures MergeRefreshed(Some(pin), page).entries == SpecEntries(pin, pos, page, a, a)
            <==> pin.historyExtended || Below(pos, a) == 0
  {
    var k := Below(pos, a);
    assert pin.entries[..k] + [] + pin.entries[k..] == pin.entries;
    assert |SpecEntries(pin, pos, page, a, a)| == |pin.entries| - if pin.historyExtended then 0 else k;
  }

  lemma KeptByIds(log: seq<Key>, prior: seq<Entry>, pos: seq<nat>, arrived: seq<Entry>, a: nat, b: nat)
    requires ValidLog(log) && Places(log, prior, pos) && Window(log, arrived, a, b)
    requires Below(pos, a) < Below(pos, b)
    ensures LastOverlap(prior, FreshIds(arrived)) != -1
    ensures KeptBefore(prior, arrived) == prior[..Below(pos, a)]
    ensures KeptAfter(prior, arrived) == prior[Below(pos, b)..]
  {
    OverlapsInside(log, prior, pos, arrived, a, b);
    KeptAround(prior, arrived, Below(pos, a), Below(pos, b));
  }

  lemma KeptAround(prior: seq<Entry>, arrived: seq<Entry>, lo: nat, hi: nat)
    requires lo < hi <= |prior|
    requires forall i :: 0 <= i < |prior| ==> (Overlaps(prior[i], FreshIds(arrived)) <==> lo <= i < hi)
    ensures LastOverlap(prior, FreshIds(arrived)) != -1
    ensures KeptBefore(prior, arrived) == prior[..lo] && KeptAfter(prior, arrived) == prior[hi..]
  {
    var ids := FreshIds(arrived);
    OverlapBounds(prior, ids, lo, hi);
    NotInKeepsAll(prior[..lo], ids);
    NotInKeepsAll(prior[hi..], ids);
  }

  /** The id-overlap path. */
  lemma MergeByIds(log: seq<Key>, pin: View, pos: seq<nat>, page: Page, a: nat, b: nat)
    requires ValidLog(log) && page.threadId == pin.threadId
    requires Places(log, pin.entries, pos) && Window(log, page.entries, a, b) && a < b
    requires Below(pos, a) < Below(pos, b)
    ensures MergeRefreshed(Some(pin), page)
         == Merged(SpecEntries(pin, pos, page, a, b),
                   pin.historyExtended && Below(pos, a) > 0,
                   if pin.historyExtended then pin.olderCursor else page.prevCursor)
  {
    KeptByIds(log, pin.entries, pos, page.entries, a, b);
    MergeIsSplice(pin, page, pin.entries[..Below(pos, a)], pin.entries[Below(pos, b)..]);
  }

  lemma OverlapBounds(entries: seq<Entry>, ids: set<string>, lo: nat, hi: nat)
    requires lo < hi <= |entries|
    requires forall i :: 0 <= i < |entries| ==> (Overlaps(entries[i], ids) <==> lo <= i < hi)
    ensures FirstOverlap(entries, ids) == lo && LastOverlap(entries, ids) == hi - 1
  {
    assert Overlaps(entries[lo], ids) && Overlaps(entries[hi - 1], ids);
  }

  /** The entry_seq path: no shared entry, so nothing held lies inside the window. */
  lemma MergeBySeq(log: seq<Key>, pin: View, pos: seq<nat>, page: Page, a: nat, b: nat)
    requires ValidLog(log) && page.threadId == pin.threadId && |pin.entries| > 0
    requires Places(log, pin.entries, pos) && Window(log, page.entries, a, b) && a < b
    requires Below(pos, a) == Below(pos, b)
    ensures MergeRefreshed(Some(pin), page).entries == SpecEntries(pin, pos, page, a, b)
            <==> Localizable(pin, pos, page, a, b)
    ensures Localizable(pin, pos, page, a, b) ==>
      var m := MergeRefreshed(Some(pin), page);
      && m.historyExtended == (pin.historyExtended && Below(pos, a) > 0)
      && ((pin.historyExtended ==> MaxSeq(page.entries).Some?) ==>
           m.olderCursor == if pin.historyExtended then pin.olderCursor else page.prevCursor)
  {
    var prior, arrived := pin.entries, page.entries;
    var k := Below(pos, a);
    NoOverlap(log, prior, pos, arrived, a, b);
    var before, after := KeptBefore(prior, arrived), KeptAfter(prior, arrived);
    MergeIsSplice(pin, page, before, after);
    if MaxSeq(arrived).None? {
      BlindSplice(if pin.historyExtended then prior[..k] else [], arrived, prior[k..]);
    } else {
      KeptBySeq(log, prior, pos, arrived, a, b);
      NumberedSplice(prior, k, before, after, arrived, pin.historyExtended);
    }
  }

  lemma NoOverlap(log: seq<Key>, prior: seq<Entry>, pos: seq<nat>, arrived: seq<Entry>, a: nat, b: nat)
    requires ValidLog(log) && Places(log, prior, pos) && Window(log, arrived, a, b)
    requires Below(pos, a) == Below(pos, b)
    ensures LastOverlap(prior, FreshIds(arrived)) == -1
  {
    OverlapsInside(log, prior, pos, arrived, a, b);
  }

  lemma KeptBySeq(log: seq<Key>, prior: seq<Entry>, pos: seq<nat>, arrived: seq<Entry>, a: nat, b: nat)
    requires ValidLog(log) && Places(log, prior, pos) && Window(log, arrived, a, b)
    requires Below(pos, a) == Below(pos, b) && MaxSeq(arrived).Some?
    ensures var k, before, after := Below(pos, a), KeptBefore(prior, arrived), KeptAfter(prior, arrived);
      && |before| <= k && |after| <= |prior| - k
      && (before == prior[..k] <==> AllNumbered(prior[..k])) && (|before| == k <==> AllNumbered(prior[..k]))
      && (after == prior[k..] <==> AllNumbered(prior[k..])) && (|after| == |prior| - k <==> AllNumbered(prior[k..]))
  {
    NoOverlap(log, prior, pos, arrived, a, b);
    SidesBySeq(log, prior, pos, arrived, a, b);
    SeqBelowOf(prior, Below(pos, a), MinSeq(arrived).value);
    SeqAboveOf(prior, Below(pos, a), MaxSeq(arrived).value);
  }

  lemma BlindSplice(front: seq<Entry>, arrived: seq<Entry>, back: seq<Entry>)
    ensures arrived == front + arrived + back <==> |front| == 0 && |back| == 0
  {
    assert |front + arrived + back| == |front| + |arrived| + |back|;
  }

  /** Splicing shortened sides around the page gives the same entries only if neither was shortened. */
  lemma NumberedSplice(prior: seq<Entry>, k: nat, prefix: seq<Entry>, tail: seq<Entry>, arrived: seq<Entry>,
                       extended: bool)
    requires k <= |prior| && |prefix| <= k && |tail| <= |prior| - k
    requires prefix == prior[..k] <==> AllNumbered(prior[..k])
    requires |prefix| == k <==> AllNumbered(prior[..k])
    requires tail == prior[k..] <==> AllNumbered(prior[k..])
    requires |tail| == |prior| - k <==> AllNumbered(prior[k..])
    ensures (if extended then prefix else []) + arrived + tail
            == (if extended then prior[..k] else []) + arrived + prior[k..]
            <==> (extended ==> AllNumbered(prior[..k])) && AllNumbered(prior[k..])
  {
    var got := (if extended then prefix else []) + arrived + tail;
    var want := (if extended then prior[..k] else []) + arrived + prior[k..];
    assert |got| == |want| <==> (extended ==> |prefix| == k) && |tail| == |prior| - k;
  }

  lemma SidesBySeq(log: seq<Key>, prior: seq<Entry>, pos: seq<nat>, arrived: seq<Entry>, a: nat, b: nat)
    requires ValidLog(log) && Places(log, prior, pos) && Window(log, arrived, a, b)
    requires Below(pos, a) == Below(pos, b) && MaxSeq(arrived).Some?
    ensures MinSeq(arrived).Some?
    ensures forall i :: 0 <= i < |prior| && prior[i].seqNo.Some? ==>
      && (prior[i].seqNo.value < MinSeq(arrived).value <==> i < Below(pos, a))
      && (prior[i].seqNo.value > MaxSeq(arrived).value <==> i >= Below(pos, a))
  {
    BelowSplits(pos, a);
    BelowSplits(pos, b);
    assert MinSeq(arrived).Some?;
    var lo :| 0 <= lo < |arrived| && arrived[lo].seqNo == MinSeq(arrived);
    var hi :| 0 <= hi < |arrived| && arrived[hi].seqNo == MaxSeq(arrived);
    assert Matches(arrived[lo], log[a + lo]) && Matches(arrived[hi], log[a + hi]);
    forall i | 0 <= i < |prior| && prior[i].seqNo.Some?
      ensures prior[i].seqNo.value < MinSeq(arrived).value <==> i < Below(pos, a)
      ensures prior[i].seqNo.value > MaxSeq(arrived).value <==> i >= Below(pos, a)
    {
      assert Matches(prior[i], log[pos[i]]);
      assert pos[i] < a || pos[i] >= b;
    }
  }

  /** Whatever the numbering, a refreshed pin holds the page and nothing that is in neither. */
  lemma MergeMembers(pin: View, page: Page)
    requires page.threadId == pin.threadId
    ensures var m := MergeRefreshed(Some(pin), page).entries;
      && (forall e :: e in m ==> e in page.entries || e in pin.entries)
      && (forall e :: e in page.entries ==> e in m)
  {
    if |page.entries| > 0 && |pin.entries| > 0 {
      MergeIsSplice(pin, page, KeptBefore(pin.entries, page.entries), KeptAfter(pin.entries, page.entries));
      KeptAreHeld(pin.entries, page.entries);
    }
  }

  lemma KeptAreHeld(prior: seq<Entry>, arrived: seq<Entry>)
    ensures forall e :: e in KeptBefore(prior, arrived) ==> e in prior
    ensures forall e :: e in KeptAfter(prior, arrived) ==> e in prior
  {
    KeptBeforeHeld(prior, arrived);
    KeptAfterHeld(prior, arrived);
  }

  lemma KeptBeforeHeld(prior: seq<Entry>, arrived: seq<Entry>)
    ensures forall e :: e in KeptBefore(prior, arrived) ==> e in prior
  {
    var ids := FreshIds(arrived);
    if LastOverlap(prior, ids) == -1 {
      SeqBelowSubset(prior, SeqOr(MinSeq(arrived)));
    } else {
      var k := Max0(FirstOverlap(prior, ids));
      NotInSubset(prior[..k], ids);
      SliceSubset(prior, k, k);
    }
  }

  lemma KeptAfterHeld(prior: seq<Entry>, arrived: seq<Entry>)
    ensures forall e :: e in KeptAfter(prior, arrived) ==> e in prior
  {
    var ids := FreshIds(arrived);
    if LastOverlap(prior, ids) == -1 {
      SeqAboveSubset(prior, SeqOr(MaxSeq(arrived)));
    } else {
      var k := LastOverlap(prior, ids) + 1;
      NotInSubset(prior[k..], ids);
      SliceSubset(prior, k, k);
    }
  }

  lemma SliceSubset(entries: seq<Entry>, i: nat, j: nat)
    requires i <= |entries| && j <= |entries|
    ensures forall e :: e in entries[..i] ==> e in entries
    ensures forall e :: e in entries[j..] ==> e in entries
  {
  }

  lemma {:induction false} NotInSubset(entries: seq<Entry>, ids: set<string>)
    ensures forall e :: e in NotIn(entries, ids) ==> e in entries
  {
    if |entries| > 0 { NotInSubset(entries[1..], ids); }
  }

  lemma {:induction false} SeqBelowSubset(entries: seq<Entry>, bound: int)
    ensures forall e :: e in SeqBelow(entries, bound) ==> e in entries
  {
    if |entries| > 0 { SeqBelowSubset(entries[1..], bound); }
  }

  lemma {:induction false} SeqAboveSubset(entries: seq<Entry>, bound: int)
    ensures forall e :: e in SeqAbove(entries, bound) ==> e in entries
  {
    if |entries| > 0 { SeqAboveSubset(entries[1..], bound); }
  }

  // ---------------------------------------------------------------- older pages

  /** Every log position from the first held entry up to `y` is held. */
  ghost predicate HeldUpTo(pos: seq<nat>, y: nat) {
    |pos| > 0 ==> forall p :: pos[0] <= p < y ==> p in pos
  }

  /** The positions an older page adds. */
  function NewBelow(pos: seq<nat>, x: nat, y: nat): (r: seq<nat>)
    requires x <= y
  {
    if |pos| == 0 || y <= pos[0] then Range(x, y)
    else if pos[0] <= x then []
    else Range(x, pos[0])
  }

  lemma {:induction false} NotInPrefix(entries: seq<Entry>, ids: set<string>, k: nat)
    requires k <= |entries|
    requires forall i :: 0 <= i < |entries| ==> (Overlaps(entries[i], ids) <==> i >= k)
    ensures NotIn(entries, ids) == entries[..k]
  {
    if |entries| > 0 {
      var rest := entries[1..];
      assert forall i :: 0 <= i < |rest| ==> rest[i] == entries[i + 1];
      NotInPrefix(rest, ids, if k == 0 then 0 else k - 1);
      if k > 0 {
        assert entries[..k] == [entries[0]] + rest[..k - 1];
      }
    }
  }

  lemma PinOverlap(log: seq<Key>, pin: seq<Entry>, pos: seq<nat>, e: Entry, p: nat)
    requires ValidLog(log) && Places(log, pin, pos) && p < |log| && Matches(e, log[p])
    ensures Overlaps(e, FreshIds(pin)) <==> p in pos
  {
    if p in pos {
      var i :| 0 <= i < |pos| && pos[i] == p;
      assert Matches(pin[i], log[p]);
      assert pin[i] in pin;
    }
    if Overlaps(e, FreshIds(pin)) {
      var f :| f in pin && f.id != "" && f.id == e.id;
      var i :| 0 <= i < |pin| && pin[i] == f;
      assert Matches(pin[i], log[pos[i]]);
      assert log[pos[i]].id == log[p].id;
    }
  }

  /** Paging up never splices out of order: when the log is held from the first entry up to the
      end of the older page, the merge adds exactly the missing positions below it. */
  lemma OlderPlaces(log: seq<Key>, pin: View, pos: seq<nat>, page: Page, x: nat, y: nat)
    requires ValidLog(log) && page.threadId == pin.threadId
    requires Places(log, pin.entries, pos) && Window(log, page.entries, x, y) && HeldUpTo(pos, y)
    ensures Places(log, MergeOlder(pin, page).entries, NewBelow(pos, x, y) + pos)
    ensures HeldUpTo(NewBelow(pos, x, y) + pos, x)
  {
    OlderCoveredPlaces(log, pin, pos, page, x, y);
    var added := NewBelow(pos, x, y);
    var all := added + pos;
    if |added| == 0 && |pos| > 0 {
      assert all == pos;
    } else if |all| > 0 {
      assert all[0] == x;
    }
  }

  /** Exactly when paging up keeps log order: the positions between the first held entry and the
      end of the older page that the page covers are all held. */
  lemma OlderOrderExactly(log: seq<Key>, pin: View, pos: seq<nat>, page: Page, x: nat, y: nat)
    requires ValidLog(log) && page.threadId == pin.threadId && |pos| > 0
    requires Places(log, pin.entries, pos) && Window(log, page.entries, x, y)
    ensures (exists q :: Places(log, MergeOlder(pin, page).entries, q))
            <==> (forall p :: x <= p < y && pos[0] <= p ==> p in pos)
  {
    if forall p :: x <= p < y && pos[0] <= p ==> p in pos {
      OlderCoveredPlaces(log, pin, pos, page, x, y);
    } else {
      var p :| x <= p < y && pos[0] <= p && p !in pos;
      forall q ensures !Places(log, MergeOlder(pin, page).entries, q) {
        OlderMisplaced(log, pin, pos, page, x, y, p, q);
      }
    }
  }

  lemma OlderOverlaps(log: seq<Key>, pin: seq<Entry>, pos: seq<nat>, arrived: seq<Entry>, x: nat, y: nat)
    requires ValidLog(log) && Places(log, pin, pos) && Window(log, arrived, x, y)
    requires |pos| > 0 ==> forall p :: x <= p < y && pos[0] <= p ==> p in pos
    ensures forall i :: 0 <= i < |arrived| ==>
      (Overlaps(arrived[i], FreshIds(pin)) <==> i >= |NewBelow(pos, x, y)|)
  {
    forall i | 0 <= i < |arrived|
      ensures Overlaps(arrived[i], FreshIds(pin)) <==> i >= |NewBelow(pos, x, y)|
    {
      PinOverlap(log, pin, pos, arrived[i], x + i);
      HeldAbove(pos, x, y, x + i);
    }
  }

  lemma HeldAbove(pos: seq<nat>, x: nat, y: nat, p: nat)
    requires Increasing(pos) && x <= p < y
    requires |pos| > 0 ==> (pos[0] <= p ==> p in pos)
    ensures p in pos <==> p - x >= |NewBelow(pos, x, y)|
  {
    if p in pos {
      var j :| 0 <= j < |pos| && pos[j] == p;
      assert pos[0] <= p;
    }
  }

  lemma OlderMerged(log: seq<Key>, pin: View, pos: seq<nat>, page: Page, x: nat, y: nat)
    requires ValidLog(log) && page.threadId == pin.threadId
    requires Places(log, pin.entries, pos) && Window(log, page.entries, x, y)
    requires |pos| > 0 ==> forall p :: x <= p < y && pos[0] <= p ==> p in pos
    ensures |NewBelow(pos, x, y)| <= y - x
    ensures MergeOlder(pin, page).entries == page.entries[..|NewBelow(pos, x, y)|] + pin.entries
  {
    OlderOverlaps(log, pin.entries, pos, page.entries, x, y);
    NotInPrefix(page.entries, FreshIds(pin.entries), |NewBelow(pos, x, y)|);
  }

  lemma AddedPlaces(log: seq<Key>, arrived: seq<Entry>, pos: seq<nat>, x: nat, y: nat)
    requires Window(log, arrived, x, y)
    ensures var k := |NewBelow(pos, x, y)|; k <= |arrived| && Places(log, arrived[..k], NewBelow(pos, x, y))
  {
    var added := NewBelow(pos, x, y);
    assert forall i :: 0 <= i < |added| ==> added[i] == x + i;
    assert |added| <= y - x;
    forall i | 0 <= i < |added| ensures added[i] < |log| && Matches(arrived[..|added|][i], log[added[i]]) {
      assert arrived[..|added|][i] == arrived[i];
    }
  }

  lemma OlderCoveredPlaces(log: seq<Key>, pin: View, pos: seq<nat>, page: Page, x: nat, y: nat)
    requires ValidLog(log) && page.threadId == pin.threadId
    requires Places(log, pin.entries, pos) && Window(log, page.entries, x, y)
    requires |pos| > 0 ==> forall p :: x <= p < y && pos[0] <= p ==> p in pos
    ensures Places(log, MergeOlder(pin, page).entries, NewBelow(pos, x, y) + pos)
  {
    var added := NewBelow(pos, x, y);
    var k := |added|;
    OlderMerged(log, pin, pos, page, x, y);
    AddedPlaces(log, page.entries, pos, x, y);
    if k > 0 {
      AddedBelow(pos, x, y);
      PlacesConcat(log, page.entries[..k], added, pin.entries, pos, x + k);
    } else {
      assert added + pos == pos && page.entries[..k] + pin.entries == pin.entries;
    }
  }

  lemma AddedBelow(pos: seq<nat>, x: nat, y: nat)
    requires Increasing(pos) && x <= y && |NewBelow(pos, x, y)| > 0
    ensures forall j :: 0 <= j < |pos| ==> pos[j] >= x + |NewBelow(pos, x, y)|
  {
    forall j | 0 <= j < |pos| ensures pos[j] >= x + |NewBelow(pos, x, y)| {
      assert pos[0] <= pos[j];
    }
  }

  lemma {:induction false} NotInKeeps(entries: seq<Entry>, ids: set<string>, e: Entry)
    requires e in entries && !Overlaps(e, ids)
    ensures e in NotIn(entries, ids)
  {
    if entries[0] != e { NotInKeeps(entries[1..], ids, e); }
  }

  /** A missing position above the first held one is spliced in front of it. */
  lemma OlderMisplaced(log: seq<Key>, pin: View, pos: seq<nat>, page: Page, x: nat, y: nat,
                       p: nat, q: seq<nat>)
    requires ValidLog(log) && page.threadId == pin.threadId && |pos| > 0
    requires Places(log, pin.entries, pos) && Window(log, page.entries, x, y)
    requires x <= p < y && pos[0] <= p && p !in pos
    ensures !Places(log, MergeOlder(pin, page).entries, q)
  {
    var e := page.entries[p - x];
    PinOverlap(log, pin.entries, pos, e, p);
    assert e in page.entries;
    var older := NotIn(page.entries, FreshIds(pin.entries));
    NotInKeeps(page.entries, FreshIds(pin.entries), e);
    var i :| 0 <= i < |older| && older[i] == e;
    var entries := MergeOlder(pin, page).entries;
    assert entries == older + pin.entries;
    assert entries[i] == e && entries[|older|] == pin.entries[0];
    OutOfPlace(log, entries, i, |older|, p, pos[0], q);
  }

  lemma OutOfPlace(log: seq<Key>, entries: seq<Entry>, i: nat, j: nat, p: nat, r: nat, q: seq<nat>)
    requires ValidLog(log) && i < j < |entries| && r <= p < |log|
    requires Matches(entries[i], log[p]) && Matches(entries[j], log[r])
    ensures !Places(log, entries, q)
  {
  }

  // ---------------------------------------------------------------- one step of a pin

  /** What a pin keeps over a whole run: it holds log positions in order; everything from its
      first entry up to its older cursor is held; and the cursor lies below `limit`. */
  ghost predicate PinAt(log: seq<Key>, pin: View, pos: seq<nat>, limit: nat) {
    && Places(log, pin.entries, pos)
    && (pin.olderCursor.Some? ==> pin.olderCursor.value < limit && HeldUpTo(pos, pin.olderCursor.value))
    && (pin.historyExtended || pin.olderCursor.Some? ==> |pos| > 0)
  }

  /** A tail page as the relay builds it: it ends at the log's length of the moment, is empty only
      for an empty log, and its cursor is its own first position. */
  ghost predicate TailPage(log: seq<Key>, page: Page, a: nat, b: nat) {
    && Window(log, page.entries, a, b)
    && (page.prevCursor.Some? ==> page.prevCursor.value == a && a < b)
    && (a == b ==> page.prevCursor == None)
  }

  function Refreshed(threadId: string, m: Merged): View {
    View(threadId, m.entries, m.olderCursor, m.historyExtended)
  }

  /** The page carries no numbers, or everything held is numbered. */
  predicate EvenlyNumbered(pin: seq<Entry>, page: seq<Entry>) {
    MaxSeq(page).None? || AllNumbered(pin)
  }

  /** The page shares an entry with the pin, or sequence numbers place it. */
  predicate Placeable(pos: seq<nat>, page: seq<Entry>, a: nat, b: nat) {
    Below(pos, a) < Below(pos, b) || MaxSeq(page).Some?
  }

  /** A refresh keeps the pin's invariant, provided the page does not end before the cursor; and it
      keeps everything newer than the page, if the page can be placed. */
  lemma RefreshKeeps(log: seq<Key>, pin: View, pos: seq<nat>, limit: nat, page: Page, a: nat, b: nat)
      returns (pos': seq<nat>)
    requires ValidLog(log) && page.threadId == pin.threadId && EvenlyNumbered(pin.entries, page.entries)
    requires PinAt(log, pin, pos, limit) && TailPage(log, page, a, b) && limit <= b
    ensures PinAt(log, Refreshed(pin.threadId, MergeRefreshed(Some(pin), page)), pos', b)
    ensures a < b && Placeable(pos, page.entries, a, b) ==> forall p :: p in pos && p >= b ==> p in pos'
    ensures forall p :: a <= p < b ==> p in pos'
  {
    if a == b {
      pos' := pos;
    } else if |pin.entries| == 0 || !Placeable(pos, page.entries, a, b) {
      pos' := Range(a, b);
      InRange(a, b);
      WindowPlaces(log, page.entries, a, b);
      if |pin.entries| > 0 { PageAlone(log, pin, pos, page, a, b); }
    } else {
      pos' := SpecPositions(pin, pos, a, b);
      RefreshIsSpec(log, pin, pos, page, a, b);
      SpecPlaces(log, pin, pos, page, a, b);
      SpecHolds(pin, pos, a, b);
      SpecMembers(pin, pos, a, b);
    }
  }

  /** A page that can be placed among evenly numbered entries is merged as specified. */
  lemma RefreshIsSpec(log: seq<Key>, pin: View, pos: seq<nat>, page: Page, a: nat, b: nat)
    requires ValidLog(log) && page.threadId == pin.threadId && EvenlyNumbered(pin.entries, page.entries)
    requires Places(log, pin.entries, pos) && |pos| > 0
    requires Window(log, page.entries, a, b) && a < b && Placeable(pos, page.entries, a, b)
    ensures MergeRefreshed(Some(pin), page)
         == Merged(SpecEntries(pin, pos, page, a, b),
                   pin.historyExtended && Below(pos, a) > 0,
                   if pin.historyExtended then pin.olderCursor else page.prevCursor)
  {
    BelowMonotone(pos, a, b);
    if Below(pos, a) < Below(pos, b) {
      MergeByIds(log, pin, pos, page, a, b);
    } else {
      NumberedLocates(pin, pos, page, a, b);
      MergeBySeq(log, pin, pos, page, a, b);
    }
  }

  lemma NumberedLocates(pin: View, pos: seq<nat>, page: Page, a: nat, b: nat)
    requires |pos| == |pin.entries| && a < b && AllNumbered(pin.entries) && MaxSeq(page.entries).Some?
    ensures Localizable(pin, pos, page, a, b)
  {
    var k := Below(pos, a);
    assert AllNumbered(pin.entries[..k]) && AllNumbered(pin.entries[k..]);
  }

  /** A page without numbers that shares nothing with the pin replaces all of it. */
  lemma PageAlone(log: seq<Key>, pin: View, pos: seq<nat>, page: Page, a: nat, b: nat)
    requires ValidLog(log) && page.threadId == pin.threadId && |pin.entries| > 0
    requires Places(log, pin.entries, pos) && Window(log, page.entries, a, b) && a < b
    requires !Placeable(pos, page.entries, a, b)
    ensures MergeRefreshed(Some(pin), page) == Merged(page.entries, false, page.prevCursor)
  {
    BelowMonotone(pos, a, b);
    NoOverlap(log, pin.entries, pos, page.entries, a, b);
    MergeIsSplice(pin, page, KeptBefore(pin.entries, page.entries), KeptAfter(pin.entries, page.entries));
  }

  /** Exactly when an entry newer than a page without numbers, as the relay sends it, survives that
      page: the page shares an entry with the pin. */
  lemma NewerKeptExactly(log: seq<Key>, pin: View, pos: seq<nat>, page: Page, a: nat, b: nat, i: nat)
    requires ValidLog(log) && page.threadId == pin.threadId && MaxSeq(page.entries).None?
    requires Places(log, pin.entries, pos) && Window(log, page.entries, a, b) && a < b
    requires i < |pos| && pos[i] >= b
    ensures HoldsId(MergeRefreshed(Some(pin), page).entries, pin.entries[i].id) <==> Below(pos, a) < Below(pos, b)
  {
    BelowMonotone(pos, a, b);
    if Below(pos, a) < Below(pos, b) {
      PlaceableKeepsNewer(log, pin, pos, page, a, b, i);
    } else {
      PageAlone(log, pin, pos, page, a, b);
      WindowPlaces(log, page.entries, a, b);
      HeldExactly(log, page.entries, Range(a, b), pos[i], pin.entries[i].id);
    }
  }

  /** With numbers on both sides every newer entry survives. */
  lemma PlaceableKeepsNewer(log: seq<Key>, pin: View, pos: seq<nat>, page: Page, a: nat, b: nat, i: nat)
    requires ValidLog(log) && page.threadId == pin.threadId && EvenlyNumbered(pin.entries, page.entries)
    requires Places(log, pin.entries, pos) && Window(log, page.entries, a, b) && a < b
    requires Placeable(pos, page.entries, a, b) && i < |pos| && pos[i] >= b
    ensures HoldsId(MergeRefreshed(Some(pin), page).entries, pin.entries[i].id)
  {
    RefreshIsSpec(log, pin, pos, page, a, b);
    SpecPlaces(log, pin, pos, page, a, b);
    SpecMembers(pin, pos, a, b);
    assert Matches(pin.entries[i], log[pos[i]]);
    HeldExactly(log, SpecEntries(pin, pos, page, a, b), SpecPositions(pin, pos, a, b), pos[i], pin.entries[i].id);
  }

  ghost predicate HoldsId(entries: seq<Entry>, id: string) {
    exists i :: 0 <= i < |entries| && entries[i].id == id
  }

  /** An id is among placed entries exactly when its log position is. */
  lemma HeldExactly(log: seq<Key>, entries: seq<Entry>, at: seq<nat>, p: nat, id: string)
    requires ValidLog(log) && Places(log, entries, at) && p < |log| && log[p].id == id
    ensures HoldsId(entries, id) <==> p in at
  {
    if i :| 0 <= i < |entries| && entries[i].id == id {
      assert Matches(entries[i], log[at[i]]);
    }
    if p in at {
      var i :| 0 <= i < |at| && at[i] == p;
      assert Matches(entries[i], log[p]);
    }
  }

  lemma InRange(a: nat, b: nat)
    requires a <= b
    ensures forall p :: a <= p < b ==> p in Range(a, b)
  {
    forall p | a <= p < b ensures p in Range(a, b) {
      assert Range(a, b)[p - a] == p;
    }
  }

  lemma InTail(pos: seq<nat>, b: nat, p: nat)
    requires Increasing(pos) && p in pos && p >= b
    ensures p in pos[Below(pos, b)..]
  {
    var i :| 0 <= i < |pos| && pos[i] == p;
    assert pos[Below(pos, b)..][i - Below(pos, b)] == p;
  }

  lemma InHead(pos: seq<nat>, a: nat, p: nat)
    requires Increasing(pos) && p in pos && p < a
    ensures p in pos[..Below(pos, a)]
  {
    var i :| 0 <= i < |pos| && pos[i] == p;
    BelowSplits(pos, a);
    assert pos[..Below(pos, a)][i] == p;
  }

  /** Which positions the specified refresh holds. */
  lemma SpecMembers(pin: View, pos: seq<nat>, a: nat, b: nat)
    requires Increasing(pos) && a < b
    ensures forall p :: a <= p < b ==> p in SpecPositions(pin, pos, a, b)
    ensures forall p :: p in pos && p >= b ==> p in SpecPositions(pin, pos, a, b)
    ensures pin.historyExtended ==> forall p :: p in pos && p < a ==> p in SpecPositions(pin, pos, a, b)
  {
    InRange(a, b);
    forall p | p in pos && p >= b ensures p in SpecPositions(pin, pos, a, b) {
      InTail(pos, b, p);
    }
    forall p | p in pos && p < a ensures p in pos[..Below(pos, a)] {
      InHead(pos, a, p);
    }
  }

  lemma SpecHolds(pin: View, pos: seq<nat>, a: nat, b: nat)
    requires Increasing(pos) && a < b && |pos| > 0
    requires pin.olderCursor.Some? ==> pin.olderCursor.value < b && HeldUpTo(pos, pin.olderCursor.value)
    ensures var pos' := SpecPositions(pin, pos, a, b);
      && |pos'| > 0
      && (pin.historyExtended && pin.olderCursor.Some? ==> HeldUpTo(pos', pin.olderCursor.value))
      && (!pin.historyExtended ==> HeldUpTo(pos', a))
  {
    SpecMembers(pin, pos, a, b);
    BelowSplits(pos, a);
    var pos' := SpecPositions(pin, pos, a, b);
    if pin.historyExtended && Below(pos, a) > 0 {
      assert pos'[0] == pos[0];
    } else {
      assert pos'[0] == a;
    }
  }

  /** An older page requested at the cursor keeps the invariant and never moves the cursor up. */
  lemma OlderKeeps(log: seq<Key>, pin: View, pos: seq<nat>, limit: nat, page: Page, x: nat, y: nat)
    requires ValidLog(log) && page.threadId == pin.threadId
    requires PinAt(log, pin, pos, limit) && pin.olderCursor == Some(y)
    requires Window(log, page.entries, x, y) && x < y
    requires page.prevCursor.Some? ==> x <= page.prevCursor.value <= y
    ensures PinAt(log, MergeOlder(pin, page), NewBelow(pos, x, y) + pos, limit)
    ensures MergeOlder(pin, page).olderCursor.Some? ==> MergeOlder(pin, page).olderCursor.value <= y
  {
    OlderPlaces(log, pin, pos, page, x, y);
    OlderHeld(pos, x, y);
  }

  lemma OlderHeld(pos: seq<nat>, x: nat, y: nat)
    requires HeldUpTo(pos, y) && Increasing(pos) && x < y
    ensures forall z :: x <= z <= y ==> HeldUpTo(NewBelow(pos, x, y) + pos, z)
  {
    var added := NewBelow(pos, x, y);
    var all := added + pos;
    forall p | all[0] <= p < y ensures p in all {
      if |added| > 0 && (|pos| == 0 || p < pos[0]) {
        InRange(x, if |pos| == 0 || y <= pos[0] then y else pos[0]);
      }
    }
  }

  /** An older page of the pin's thread goes in front of what is held, without the entries held
      already. */
  predicate PagedUp(before: View, after: View, page: Page) {
    && after.threadId == before.threadId && after.historyExtended && after.olderCursor == page.prevCursor
    && |after.entries| >= |before.entries|
    && after.entries[|after.entries| - |before.entries|..] == before.entries
    && (forall e :: e in page.entries ==> e in after.entries || Overlaps(e, FreshIds(before.entries)))
    && (forall e :: e in after.entries[..|after.entries| - |before.entries|] ==>
          e in page.entries && !Overlaps(e, FreshIds(before.entries)))
  }

  lemma MergePagesUp(pin: View, page: Page)
    requires page.threadId == pin.threadId
    ensures PagedUp(pin, MergeOlder(pin, page), page)
  {
    var ids := FreshIds(pin.entries);
    var older := NotIn(page.entries, ids);
    NotInExactly(page.entries, ids);
    var m := MergeOlder(pin, page).entries;
    assert m == older + pin.entries && m[..|older|] == older && m[|older|..] == pin.entries;
  }

  lemma {:induction false} NotInExactly(entries: seq<Entry>, ids: set<string>)
    ensures forall e :: e in NotIn(entries, ids) <==> e in entries && !Overlaps(e, ids)
  {
    if |entries| > 0 { NotInExactly(entries[1..], ids); }
  }

  /** Paging up holds what was held and the page, and nothing else. */
  lemma OlderPositions(pos: seq<nat>, x: nat, y: nat)
    requires HeldUpTo(pos, y) && Increasing(pos) && x < y
    ensures forall p :: p in NewBelow(pos, x, y) + pos <==> p in pos || x <= p < y
  {
    var all := NewBelow(pos, x, y) + pos;
    OlderHeld(pos, x, y);
    forall p | x <= p < y ensures p in all {
      assert HeldUpTo(all, y) && all[0] <= x;
    }
  }

  /** The cursor the client reads off the page [x, y) of a log of length n: the relay's prev_cursor,
      and where that is missing its next_cursor. */
  function ReadCursor(x: nat, y: nat, n: nat): Option<nat> {
    if x > 0 then Some(x) else if y < n then Some(y) else None
  }

  /** Exactly when an older page takes the cursor down, and when it ends the paging: the page starts
      above the first entry, or it is the whole log; and only the whole log ends it. */
  lemma OlderCursorExactly(pin: View, page: Page, x: nat, y: nat, n: nat)
    requires page.threadId == pin.threadId && pin.olderCursor == Some(y)
    requires x < y <= n && page.prevCursor == ReadCursor(x, y, n)
    ensures var cursor := MergeOlder(pin, page).olderCursor;
      && (cursor == None <==> x == 0 && y == n)
      && (cursor == None || cursor.value < y <==> x > 0 || y == n)
  {
  }

  /** So the first page of a history does not end the paging up: its cursor is its own end, and
      asking there again changes nothing. */
  lemma OldestPageRepeats(log: seq<Key>, pin: View, pos: seq<nat>, page: Page, y: nat, n: nat)
    requires ValidLog(log) && page.threadId == pin.threadId && 0 < y < n
    requires Places(log, pin.entries, pos) && HeldUpTo(pos, y)
    requires Window(log, page.entries, 0, y) && page.prevCursor == ReadCursor(0, y, n)
    ensures var once := MergeOlder(pin, page);
      once.olderCursor == Some(y) && MergeOlder(once, page) == once
  {
    var once := MergeOlder(pin, page);
    var all := NewBelow(pos, 0, y) + pos;
    OlderPlaces(log, pin, pos, page, 0, y);
    OlderHeld(pos, 0, y);
    assert HeldUpTo(all, y) && all[0] == 0;
    OlderMerged(log, once, all, page, 0, y);
    assert MergeOlder(once, page).entries == once.entries;
  }

  /** A pin that holds one stretch of the log is still one stretch after a refresh exactly when
      history was never paged in, the page reaches back to it, or the page carries no numbers (and
      replaces everything). Otherwise what lies between is never fetched: it is above the older
      cursor and below every later tail page. */
  lemma RefreshHoleExactly(log: seq<Key>, pin: View, f: nat, e: nat, page: Page, a: nat, b: nat)
    requires ValidLog(log) && page.threadId == pin.threadId && EvenlyNumbered(pin.entries, page.entries)
    requires f < e <= b && f <= a < b
    requires Window(log, pin.entries, f, e) && Window(log, page.entries, a, b)
    ensures (exists lo: nat :: Window(log, MergeRefreshed(Some(pin), page).entries, lo, b))
            <==> !pin.historyExtended || a <= e || MaxSeq(page.entries).None?
  {
    WindowPlaces(log, pin.entries, f, e);
    BelowInRange(f, e, a);
    BelowInRange(f, e, b);
    if Placeable(Range(f, e), page.entries, a, b) {
      StretchMerged(log, pin, f, e, page, a, b);
      StretchExactly(log, pin.historyExtended, pin.entries, f, e, page.entries, a, b);
    } else {
      PageAlone(log, pin, Range(f, e), page, a, b);
      assert Window(log, page.entries, a, b);
    }
  }

  /** What the merge of a page into one stretch consists of. */
  function StretchUnion(extended: bool, held: seq<Entry>, f: nat, e: nat, arrived: seq<Entry>, a: nat): seq<Entry>
    requires f <= a && |held| == e - f
  {
    if !extended then arrived else if a <= e then held[..a - f] + arrived else held + arrived
  }

  lemma StretchMerged(log: seq<Key>, pin: View, f: nat, e: nat, page: Page, a: nat, b: nat)
    requires ValidLog(log) && page.threadId == pin.threadId && EvenlyNumbered(pin.entries, page.entries)
    requires f < e <= b && f <= a < b && Placeable(Range(f, e), page.entries, a, b)
    requires Window(log, pin.entries, f, e) && Window(log, page.entries, a, b)
    ensures MergeRefreshed(Some(pin), page).entries
         == StretchUnion(pin.historyExtended, pin.entries, f, e, page.entries, a)
  {
    WindowPlaces(log, pin.entries, f, e);
    RefreshIsSpec(log, pin, Range(f, e), page, a, b);
    StretchSpec(pin, f, e, page, a, b);
  }

  lemma BelowInRange(f: nat, e: nat, x: nat)
    requires f <= e && f <= x
    ensures Below(Range(f, e), x) == if x <= e then x - f else e - f
  {
    var k := Below(Range(f, e), x);
    if k < e - f { assert Range(f, e)[k] == f + k; }
    if k > 0 { assert Range(f, e)[k - 1] == f + k - 1; }
  }

  lemma StretchSpec(pin: View, f: nat, e: nat, page: Page, a: nat, b: nat)
    requires f < e <= b && f <= a < b && |pin.entries| == e - f
    ensures SpecEntries(pin, Range(f, e), page, a, b)
         == StretchUnion(pin.historyExtended, pin.entries, f, e, page.entries, a)
  {
    BelowInRange(f, e, a);
    BelowInRange(f, e, b);
    assert pin.entries[..e - f] == pin.entries && pin.entries[e - f..] == [];
  }

  lemma StretchExactly(log: seq<Key>, extended: bool, held: seq<Entry>, f: nat, e: nat,
                       arrived: seq<Entry>, a: nat, b: nat)
    requires ValidLog(log) && f < e <= b && f <= a < b
    requires Window(log, held, f, e) && Window(log, arrived, a, b)
    ensures (exists lo: nat :: Window(log, StretchUnion(extended, held, f, e, arrived, a), lo, b))
            <==> !extended || a <= e
  {
    var merged := StretchUnion(extended, held, f, e, arrived, a);
    if !extended {
      assert Window(log, merged, a, b);
    } else if a <= e {
      StretchTouches(log, held, f, e, arrived, a, b);
      assert Window(log, merged, f, b);
    } else {
      forall lo: nat ensures !Window(log, held + arrived, lo, b) {
        StretchBroken(log, held, f, e, arrived, a, b, lo);
      }
    }
  }

  lemma StretchTouches(log: seq<Key>, held: seq<Entry>, f: nat, e: nat, arrived: seq<Entry>, a: nat, b: nat)
    requires Window(log, held, f, e) && Window(log, arrived, a, b) && f <= a <= e
    ensures Window(log, held[..a - f] + arrived, f, b)
  {
    var merged := held[..a - f] + arrived;
    forall i | 0 <= i < |merged| ensures Matches(merged[i], log[f + i]) {
      if i >= a - f { assert merged[i] == arrived[i - (a - f)]; }
    }
  }

  lemma StretchBroken(log: seq<Key>, held: seq<Entry>, f: nat, e: nat, arrived: seq<Entry>, a: nat, b: nat, lo: nat)
    requires ValidLog(log) && Window(log, held, f, e) && Window(log, arrived, a, b) && f < e < a < b
    ensures !Window(log, held + arrived, lo, b)
  {
    var merged := held + arrived;
    assert |merged| == (e - f) + (b - a);
    assert merged[0] == held[0] && Matches(held[0], log[f]);
  }
}
