/** Declaring the threads a surface draws (frontend/local/watched-threads.js): the canonical id
    list, the key it is compared by, and the single-flight loop that posts it. */
module WatchedThreads {
  import opened Options
  import opened Text

  type Ids = seq<string>

  // ---------------------------------------------------------------- the canonical list

  predicate StrLe(a: string, b: string) {
    |a| == 0 || (|b| > 0 && (a[0] < b[0] || (a[0] == b[0] && StrLe(a[1..], b[1..]))))
  }

  predicate StrLt(a: string, b: string) { StrLe(a, b) && a != b }

  lemma {:induction false} LeTotal(a: string, b: string)
    ensures StrLe(a, b) || StrLe(b, a)
  {
    if |a| > 0 && |b| > 0 && a[0] == b[0] { LeTotal(a[1..], b[1..]); }
  }

  lemma {:induction false} LeAntisymmetric(a: string, b: string)
    requires StrLe(a, b) && StrLe(b, a)
    ensures a == b
  {
    if |a| > 0 && |b| > 0 {
      LeAntisymmetric(a[1..], b[1..]);
      assert a == [a[0]] + a[1..] && b == [b[0]] + b[1..];
    }
  }

  lemma {:induction false} LeTransitive(a: string, b: string, c: string)
    requires StrLe(a, b) && StrLe(b, c)
    ensures StrLe(a, c)
  {
    if |a| > 0 && a[0] == b[0] == c[0] { LeTransitive(a[1..], b[1..], c[1..]); }
  }

  lemma LtTransitive(a: string, b: string, c: string)
    requires StrLt(a, b) && StrLe(b, c)
    ensures StrLt(a, c)
  {
    LeTransitive(a, b, c);
    if a == c { LeAntisymmetric(a, b); }
  }

  ghost predicate Canonical(ids: Ids) {
    forall i, j :: 0 <= i < j < |ids| ==> StrLt(ids[i], ids[j])
  }

  ghost function Elements(ids: Ids): set<string> { set x | x in ids }

  /** Insertion into a sorted list; a member already there is left alone, as a `Set` would. */
  function Insert(x: string, ids: Ids): Ids {
    if |ids| == 0 then [x]
    else if x == ids[0] then ids
    else if StrLe(x, ids[0]) then [x] + ids
    else [ids[0]] + Insert(x, ids[1..])
  }

  lemma {:induction false} InsertCanonical(x: string, ids: Ids)
    requires Canonical(ids)
    ensures Canonical(Insert(x, ids))
    ensures Elements(Insert(x, ids)) == Elements(ids) + {x}
  {
    if |ids| == 0 || x == ids[0] {
    } else if StrLe(x, ids[0]) {
      var r := [x] + ids;
      assert r[1..] == ids;
      forall j | 0 < j < |r| ensures StrLt(x, r[j]) {
        if j > 1 { LtTransitive(x, ids[0], ids[j - 1]); }
      }
    } else {
      var rest := Insert(x, ids[1..]);
      InsertCanonical(x, ids[1..]);
      LeTotal(x, ids[0]);
      var r := [ids[0]] + rest;
      forall j | 0 < j < |r| ensures StrLt(ids[0], r[j]) {
        assert r[j] in Elements(rest);
        assert r[j] == x || r[j] in ids[1..];
      }
      assert Elements(ids) == {ids[0]} + Elements(ids[1..]);
      assert Elements(r) == {ids[0]} + Elements(rest);
    }
  }

  /** What a surface wants declared: the viewed thread, or else the active one, and every thread
      drawn beside it. The empty string stands for a missing id. */
  ghost function Wanted(active: string, view: string, alsoWatch: Ids): set<string> {
    (if view != "" then {view} else if active != "" then {active} else {})
    + (set x | x in alsoWatch && x != "")
  }

  /** `watchedThreadIds`: the loop that collects the ids, kept sorted. */
  method WatchedThreadIds(active: string, view: string, alsoWatch: Ids) returns (ids: Ids)
    ensures Canonical(ids) && Elements(ids) == Wanted(active, view, alsoWatch)
    ensures "" !in ids
  {
    ids := [];
    if view != "" {
      ids := [view];
    } else if active != "" {
      ids := [active];
    }
    assert Elements(ids) == Wanted(active, view, alsoWatch[..0]);
    var i := 0;
    while i < |alsoWatch|
      invariant 0 <= i <= |alsoWatch|
      invariant Canonical(ids) && Elements(ids) == Wanted(active, view, alsoWatch[..i])
    {
      if alsoWatch[i] != "" {
        InsertCanonical(alsoWatch[i], ids);
        ids := Insert(alsoWatch[i], ids);
      }
      assert alsoWatch[..i + 1] == alsoWatch[..i] + [alsoWatch[i]];
      i := i + 1;
    }
    assert alsoWatch[..i] == alsoWatch;
    assert "" !in Elements(ids);
  }

  /** A canonical list is determined by its set, whatever order the ids were added in. */
  lemma {:induction false} CanonicalUnique(a: Ids, b: Ids)
    requires Canonical(a) && Canonical(b) && Elements(a) == Elements(b)
    ensures a == b
  {
    NoElements(a);
    NoElements(b);
    if |a| > 0 {
      assert a[0] in Elements(a);
      assert b[0] in Elements(b);
      HeadIsLeast(a, b[0]);
      HeadIsLeast(b, a[0]);
      LeAntisymmetric(a[0], b[0]);
      TailElements(a);
      TailElements(b);
      CanonicalUnique(a[1..], b[1..]);
      assert a == [a[0]] + a[1..] && b == [b[0]] + b[1..];
    }
  }

  lemma NoElements(ids: Ids)
    ensures Elements(ids) == {} <==> |ids| == 0
  {
    if |ids| > 0 { assert ids[0] in Elements(ids); }
  }

  lemma HeadIsLeast(ids: Ids, x: string)
    requires Canonical(ids) && x in Elements(ids)
    ensures |ids| > 0 && StrLe(ids[0], x)
  {
    LeTotal(x, x);
  }

  lemma TailElements(ids: Ids)
    requires Canonical(ids) && |ids| > 0
    ensures Canonical(ids[1..]) && Elements(ids[1..]) == Elements(ids) - {ids[0]}
  {
    forall i | 1 <= i < |ids| ensures ids[i] != ids[0] {
      assert StrLt(ids[0], ids[i]);
    }
  }

  // ---------------------------------------------------------------- the key

  function Key(ids: Ids): string { Join(ids, ' ') }

  /** Ids as the relay mints them: not empty, no space. */
  predicate PlainIds(ids: Ids) {
    forall i :: 0 <= i < |ids| ==> |ids[i]| > 0 && Free(ids[i], ' ')
  }

  lemma KeyOfSome(ids: Ids)
    requires PlainIds(ids) && |ids| > 0
    ensures |Key(ids)| > 0
  {
  }

  /** Two declarations have the same key exactly when they name the same set. */
  lemma KeyNamesSet(a: Ids, b: Ids)
    requires Canonical(a) && Canonical(b) && PlainIds(a) && PlainIds(b)
    ensures Key(a) == Key(b) <==> Elements(a) == Elements(b)
    ensures Key(a) == Key(b) <==> a == b
  {
    if Elements(a) == Elements(b) {
      CanonicalUnique(a, b);
    }
    if Key(a) == Key(b) {
      if |a| == 0 {
        if |b| > 0 { KeyOfSome(b); }
      } else if |b| == 0 {
        KeyOfSome(a);
      } else {
        JoinInjective(a, b, ' ');
      }
    }
  }

  /** A space inside an id breaks the agreement: one id then reads as two. */
  lemma SpacedIdCollides(x: string, y: string)
    requires |x| > 0 && |y| > 0 && StrLt(x, y)
    ensures var one, two := [x + " " + y], [x, y];
      Canonical(one) && Canonical(two) && Key(one) == Key(two) && Elements(one) != Elements(two)
  {
    var one, two := [x + " " + y], [x, y];
    assert two[1..] == [y] && Join([y], ' ') == y;
    assert x in Elements(two) && |x| != |one[0]| && x !in Elements(one);
  }

  // ---------------------------------------------------------------- the declarer

  /** `posting` holds the POSTs without an answer yet; `acked` and `posts` are history: the set
      the relay last acknowledged, and how many POSTs were ever sent. */
  datatype Sync = Sync(lastKey: Option<string>, inFlight: bool, pending: Option<Ids>,
                       posting: seq<Ids>, acked: Option<Ids>, posts: nat)

  datatype Event = Render(ids: Ids, hasDevice: bool) | PostOk | PostFailed | Reset

  const Start := Sync(None, false, None, [], None, 0)

  function Step(s: Sync, e: Event): Sync {
    match e
    case Render(ids, hasDevice) =>
      if !hasDevice || s.lastKey == Some(Key(ids)) then s
      else if s.inFlight then s.(pending := Some(ids))
      else s.(inFlight := true, pending := None, posting := s.posting + [ids], posts := s.posts + 1)
    case PostOk =>
      if |s.posting| == 0 then s
      else
        var target := s.posting[0];
        var t := s.(lastKey := Some(Key(target)), acked := Some(target), posting := s.posting[1..]);
        if s.pending == None then t.(inFlight := false)
        else t.(pending := None, posting := t.posting + [s.pending.value], posts := s.posts + 1)
    case PostFailed =>
      if |s.posting| == 0 then s
      else s.(lastKey := None, inFlight := false, pending := None, posting := s.posting[1..])
    case Reset => s.(lastKey := None)
  }

  function Run(s: Sync, run: seq<Event>): Sync
    decreases |run|
  {
    if |run| == 0 then s else Run(Step(s, run[0]), run[1..])
  }

  ghost predicate GoodIds(ids: Ids) { Canonical(ids) && PlainIds(ids) }

  ghost predicate GoodRun(run: seq<Event>) {
    forall i :: 0 <= i < |run| && run[i].Render? ==> GoodIds(run[i].ids)
  }

  /** At most one POST is in flight, and a cached key names the last acknowledged set. */
  ghost predicate Inv(s: Sync) {
    && |s.posting| == (if s.inFlight then 1 else 0)
    && (s.pending.Some? ==> s.inFlight && GoodIds(s.pending.value))
    && (forall i :: 0 <= i < |s.posting| ==> GoodIds(s.posting[i]))
    && (s.acked.Some? ==> GoodIds(s.acked.value))
    && (s.lastKey.Some? ==> s.acked.Some? && s.lastKey.value == Key(s.acked.value))
  }

  lemma StepKeepsInv(s: Sync, e: Event)
    requires Inv(s) && (e.Render? ==> GoodIds(e.ids))
    ensures Inv(Step(s, e))
  {
  }

  /** Over every run of renders, answers, failures and resets. */
  lemma {:induction false} RunKeepsInv(s: Sync, run: seq<Event>)
    requires Inv(s) && GoodRun(run)
    ensures Inv(Run(s, run))
    decreases |run|
  {
    if |run| > 0 {
      StepKeepsInv(s, run[0]);
      RunKeepsInv(Step(s, run[0]), run[1..]);
    }
  }

  /** In every reachable state a render whose key is cached wants exactly what the relay
      acknowledged last, so suppressing its POST is sound; any other wanted set is different. */
  lemma CachedKeyIsAcknowledged(run: seq<Event>, ids: Ids)
    requires GoodRun(run) && GoodIds(ids)
    ensures var s := Run(Start, run);
      && |s.posting| <= 1
      && (s.lastKey.Some? ==> s.acked.Some?)
      && (s.lastKey.Some? ==> (s.lastKey == Some(Key(ids)) <==> Elements(s.acked.value) == Elements(ids)))
  {
    RunKeepsInv(Start, run);
    var s := Run(Start, run);
    if s.lastKey.Some? {
      KeyNamesSet(s.acked.value, ids);
    }
  }

  // ---------------------------------------------------------------- convergence

  /** Only renders of `want` and successful answers. */
  predicate Settling(run: seq<Event>, want: Ids) {
    forall i :: 0 <= i < |run| ==> run[i] == Render(want, true) || run[i] == PostOk
  }

  function Answers(run: seq<Event>): nat {
    if |run| == 0 then 0 else (if run[0].PostOk? then 1 else 0) + Answers(run[1..])
  }

  function Renders(run: seq<Event>): nat {
    if |run| == 0 then 0 else (if run[0].Render? then 1 else 0) + Renders(run[1..])
  }

  predicate Declared(s: Sync, want: Ids) {
    !s.inFlight && s.posting == [] && s.lastKey == Some(Key(want)) && s.acked == Some(want)
  }

  /** The first POST of `want` is out; a render meanwhile has queued `want` once more. */
  predicate FirstPost(s: Sync, want: Ids) {
    && s.inFlight && s.posting == [want] && s.lastKey != Some(Key(want))
    && (s.pending == None || s.pending == Some(want))
  }

  /** The redundant second POST of `want` is out. */
  predicate SecondPost(s: Sync, want: Ids) {
    && s.inFlight && s.posting == [want] && s.lastKey == Some(Key(want))
    && s.acked == Some(want) && s.pending == None
  }

  lemma {:induction false} SettlesFrom(s: Sync, want: Ids, run: seq<Event>)
    requires Declared(s, want) || FirstPost(s, want) || SecondPost(s, want)
    requires Settling(run, want)
    ensures var t := Run(s, run);
      && (Declared(t, want) || FirstPost(t, want) || SecondPost(t, want))
      && t.posts <= s.posts + (if FirstPost(s, want) then 1 else 0)
      && (FirstPost(s, want) && s.pending == None && Renders(run) == 0 ==> t.posts <= s.posts)
      && (Answers(run) >= (if Declared(s, want) then 0 else if SecondPost(s, want) then 1 else 2)
          ==> Declared(t, want))
      && (Answers(run) >= 1 && s.pending == None && Renders(run) == 0 ==> Declared(t, want))
    decreases |run|
  {
    if |run| > 0 {
      assert run[0] == Render(want, true) || run[0] == PostOk;
      SettlesFrom(Step(s, run[0]), want, run[1..]);
    }
  }

  /** Once targets stop changing and posts succeed, one render after the flight settled is
      enough: at most two POSTs follow (one if nothing renders while it is out), two answers
      suffice, and from then on the relay has acknowledged exactly the wanted set. */
  lemma Converges(s: Sync, want: Ids, run: seq<Event>)
    requires Inv(s) && !s.inFlight && GoodIds(want) && Settling(run, want)
    ensures var t := Run(Step(s, Render(want, true)), run);
      && t.posts <= s.posts + 2
      && (Renders(run) == 0 ==> t.posts <= s.posts + 1)
      && (!t.inFlight ==> Declared(t, want))
      && (Answers(run) >= 2 || (Answers(run) >= 1 && Renders(run) == 0) ==> Declared(t, want))
  {
    var u := Step(s, Render(want, true));
    if s.lastKey == Some(Key(want)) {
      KeyNamesSet(s.acked.value, want);
      assert Declared(u, want);
    } else {
      assert u.posting == [want];
      assert FirstPost(u, want);
    }
    SettlesFrom(u, want, run);
  }

  /** No further POST once declared, however often the same set renders. */
  lemma {:induction false} DeclaredIsQuiet(s: Sync, want: Ids, run: seq<Event>)
    requires Declared(s, want) && Settling(run, want)
    ensures Run(s, run) == s
    decreases |run|
  {
    if |run| > 0 {
      assert run[0] == Render(want, true) || run[0] == PostOk;
      DeclaredIsQuiet(s, want, run[1..]);
    }
  }

  /** The extra render is needed: switching A, B and back to A while B is out leaves the relay
      on B, because A's key is still the cached one when A renders again. */
  lemma SwitchBackStrandsUntilRender(a: Ids, b: Ids)
    requires GoodIds(a) && GoodIds(b) && a != b
    ensures var run := [Render(a, true), PostOk, Render(b, true), Render(a, true), PostOk];
      Run(Start, run).acked == Some(b) && !Run(Start, run).inFlight
  {
    KeyNamesSet(a, b);
    var run := [Render(a, true), PostOk, Render(b, true), Render(a, true), PostOk];
    var s1 := Step(Start, run[0]);
    var s2 := Step(s1, run[1]);
    var s3 := Step(s2, run[2]);
    var s4 := Step(s3, run[3]);
    var s5 := Step(s4, run[4]);
    assert s1.posting == [a] && s2.posting == [] && s3.posting == [b] && s4 == s3;
    assert run[1..][1..][1..][1..][1..] == [];
    assert Run(s3, [Render(a, true), PostOk]) == Run(s4, [PostOk]) == s5;
    assert Run(Start, run) == Run(s1, run[1..]) == Run(s2, run[2..]) == Run(s3, run[3..]);
  }

  /** The bound of two is reached: a second render of the same set, while its POST is out, makes
      the loop post it again. */
  lemma RenderMidFlightPostsTwice(a: Ids)
    requires GoodIds(a)
    ensures var run := [Render(a, true), Render(a, true), PostOk];
      Run(Start, run).posts == 2 && SecondPost(Run(Start, run), a)
  {
    var run := [Render(a, true), Render(a, true), PostOk];
    var s1 := Step(Start, run[0]);
    var s2 := Step(s1, run[1]);
    var s3 := Step(s2, run[2]);
    assert s1.posting == [a] && s2.pending == Some(a) && s3.posting == [a];
    assert run[1..][1..][1..] == [];
    assert Run(Start, run) == Run(s1, run[1..]) == Run(s2, run[2..]) == Run(s3, []);
  }

  /** A failed POST forgets everything queued and cached, so the very next render of any set posts it,
      and the relay still holds what it acknowledged before. Without a device nothing is posted. */
  lemma FailureRetries(s: Sync, ids: Ids)
    requires Inv(s) && s.inFlight
    ensures var t := Step(s, PostFailed);
      && t.lastKey == None && !t.inFlight && t.pending == None && t.posting == [] && t.acked == s.acked
      && Step(t, Render(ids, true)).posting == [ids] && Step(t, Render(ids, true)).posts == t.posts + 1
    ensures Step(s, Render(ids, false)) == s
  {
  }

  // ---------------------------------------------------------------- what a flight leaves behind

  /** The set the flight ends on if nothing else is queued. */
  function Queued(s: Sync): Ids
    requires |s.posting| > 0
  {
    if s.pending.Some? then s.pending.value else s.posting[0]
  }

  /** Only successful answers. */
  predicate AllAnswers(run: seq<Event>) { forall i :: 0 <= i < |run| ==> run[i] == PostOk }

  /** Once the answers have ended the flight, what was queued last is acknowledged and cached. */
  lemma {:induction false} FlightEnds(s: Sync, run: seq<Event>)
    requires Inv(s) && s.inFlight && AllAnswers(run) && !Run(s, run).inFlight
    ensures var t := Run(s, run);
      t.acked == Some(Queued(s)) && t.lastKey == Some(Key(Queued(s))) && t.posting == [] && t.pending == None
    decreases |run|
  {
    var u := Step(s, run[0]);
    StepKeepsInv(s, run[0]);
    assert AllAnswers(run[1..]);
    if u.inFlight {
      FlightEnds(u, run[1..]);
    } else {
      AnsweredStays(u, run[1..]);
    }
  }

  lemma {:induction false} AnsweredStays(s: Sync, run: seq<Event>)
    requires s.posting == [] && AllAnswers(run)
    ensures Run(s, run) == s
    decreases |run|
  {
    if |run| > 0 {
      assert AllAnswers(run[1..]);
      AnsweredStays(s, run[1..]);
    }
  }

  /** Exactly when a render made while a POST is out is honoured by the time the flight ends: its
      set is not the cached one, or it is what the flight ends on anyway. So switching from A to B
      and back to A while B is out leaves the relay on B until one more render. */
  lemma MidFlightRenderExactly(s: Sync, want: Ids, run: seq<Event>)
    requires Inv(s) && s.inFlight && GoodIds(want)
    requires AllAnswers(run) && !Run(Step(s, Render(want, true)), run).inFlight
    ensures Run(Step(s, Render(want, true)), run).acked == Some(want)
            <==> s.lastKey != Some(Key(want)) || Queued(s) == want
  {
    StepKeepsInv(s, Render(want, true));
    FlightEnds(Step(s, Render(want, true)), run);
  }

  /** Exactly when the set of a POST just answered is posted again: once it was posted, a render of
      it that the cache did not suppress was the last to be queued. */
  lemma RepeatedPostExactly(s: Sync, want: Ids, renders: seq<Ids>)
    requires Inv(s) && s.inFlight && s.posting == [want] && s.pending == None
    requires GoodIds(want) && forall i :: 0 <= i < |renders| ==> GoodIds(renders[i])
    ensures var t := Run(s, RendersOf(renders));
      && Step(t, PostOk).posts == s.posts + (if Unsuppressed(s, renders) == None then 0 else 1)
      && (Step(t, PostOk).posting == [want] <==> Unsuppressed(s, renders) == Some(want))
  {
    RendersQueue(s, renders);
  }

  function RendersOf(renders: seq<Ids>): seq<Event> {
    seq(|renders|, i requires 0 <= i < |renders| => Render(renders[i], true))
  }

  /** The last rendered set whose key is not the cached one. */
  function Unsuppressed(s: Sync, renders: seq<Ids>): Option<Ids> {
    if |renders| == 0 then None
    else
      var last := renders[|renders| - 1];
      if s.lastKey != Some(Key(last)) then Some(last) else Unsuppressed(s, renders[..|renders| - 1])
  }

  lemma {:induction false} RendersQueue(s: Sync, renders: seq<Ids>)
    requires s.inFlight && s.pending == None
    ensures Run(s, RendersOf(renders)) == s.(pending := Unsuppressed(s, renders))
    decreases |renders|
  {
    if |renders| > 0 {
      var front, last := renders[..|renders| - 1], renders[|renders| - 1];
      RendersQueue(s, front);
      assert RendersOf(renders) == RendersOf(front) + [Render(last, true)];
      RunSnoc(s, RendersOf(front), Render(last, true));
    }
  }

  lemma {:induction false} RunSnoc(s: Sync, run: seq<Event>, e: Event)
    ensures Run(s, run + [e]) == Step(Run(s, run), e)
    decreases |run|
  {
    if |run| == 0 {
      assert (run + [e])[1..] == [];
    } else {
      assert (run + [e])[1..] == run[1..] + [e];
      RunSnoc(Step(s, run[0]), run[1..], e);
    }
  }

  /** A settling run posts the wanted set twice if and only if it renders again before its first
      answer. */
  lemma PostsTwiceExactly(s: Sync, want: Ids, run: seq<Event>)
    requires Inv(s) && !s.inFlight && GoodIds(want) && s.lastKey != Some(Key(want))
    requires Settling(run, want) && Answers(run) >= 1
    ensures Run(Step(s, Render(want, true)), run).posts == s.posts + 2 <==> run[0].Render?
  {
    var u := Step(s, Render(want, true));
    assert u.posting == [want];
    assert run[0] == Render(want, true) || run[0] == PostOk;
    var v := Step(u, run[0]);
    if run[0].PostOk? {
      SettlesFrom(v, want, run[1..]);
    } else {
      QueuedPostsAgain(v, want, run[1..]);
    }
  }

  lemma {:induction false} QueuedPostsAgain(s: Sync, want: Ids, run: seq<Event>)
    requires FirstPost(s, want) && s.pending == Some(want) && Settling(run, want) && Answers(run) >= 1
    ensures Run(s, run).posts == s.posts + 1
    decreases |run|
  {
    assert run[0] == Render(want, true) || run[0] == PostOk;
    if run[0].PostOk? {
      var v := Step(s, PostOk);
      SettlesFrom(v, want, run[1..]);
      PostsNeverFall(v, run[1..]);
    } else {
      QueuedPostsAgain(s, want, run[1..]);
    }
  }

  lemma {:induction false} PostsNeverFall(s: Sync, run: seq<Event>)
    ensures Run(s, run).posts >= s.posts
    decreases |run|
  {
    if |run| > 0 { PostsNeverFall(Step(s, run[0]), run[1..]); }
  }

  /** Exactly when a reset makes the next render declare anew, once the POSTs that were out have
      been acknowledged: none was out, or the render wants another set than the last of them. An
      acknowledgement that arrives after the reset caches its key again. */
  lemma ResetRedeclaresExactly(s: Sync, want: Ids, run: seq<Event>)
    requires Inv(s) && GoodIds(want)
    requires AllAnswers(run) && !Run(Step(s, Reset), run).inFlight
    ensures var t := Run(Step(s, Reset), run);
      Step(t, Render(want, true)).posts == t.posts + 1 <==> !s.inFlight || Queued(s) != want
  {
    var r := Step(s, Reset);
    StepKeepsInv(s, Reset);
    if s.inFlight {
      FlightEnds(r, run);
      KeyNamesSet(Queued(s), want);
    } else {
      AnsweredStays(r, run);
    }
  }

  /** The closure variables of `createWatchedThreadsSync`; the suspended `post(target)` is kept in
      `posting`. */
  class Declarer {
    var lastKey: Option<string>
    var inFlight: bool
    var pending: Option<Ids>
    var posting: seq<Ids>
    ghost var acked: Option<Ids>
    ghost var posts: nat

    ghost function View(): Sync
      reads this
    {
      Sync(lastKey, inFlight, pending, posting, acked, posts)
    }

    constructor ()
      ensures View() == Start
    {
      lastKey, inFlight, pending, posting := None, false, None, [];
      acked, posts := None, 0;
    }

    /** The call made on every render, up to its first await. */
    method SyncWatchedThreads(ids: Ids, hasDevice: bool)
      requires Inv(View()) && GoodIds(ids)
      modifies this
      ensures View() == Step(old(View()), Render(ids, hasDevice)) && Inv(View())
    {
      if !hasDevice { return; }
      var key := Key(ids);
      if Some(key) == lastKey { return; }
      if inFlight {
        pending := Some(ids);
        return;
      }
      inFlight := true;
      Post(ids);
    }

    /** The head of the loop: forget the pending target and send this one. */
    method Post(target: Ids)
      modifies this`pending, this`posting, this`posts
      ensures pending == None && posting == old(posting) + [target] && posts == old(posts) + 1
    {
      pending := None;
      posting := posting + [target];
      posts := posts + 1;
    }

    /** The answered POST: cache its key, then deliver what arrived meanwhile or finish. */
    method PostAnswered()
      requires Inv(View()) && |posting| > 0
      modifies this
      ensures View() == Step(old(View()), PostOk) && Inv(View())
    {
      var target := posting[0];
      posting := posting[1..];
      lastKey := Some(Key(target));
      acked := Some(target);
      if pending == None {
        inFlight := false;
        return;
      }
      Post(pending.value);
    }

    /** A failed POST forgets the key, so the next render tries again. */
    method PostRefused()
      requires Inv(View()) && |posting| > 0
      modifies this
      ensures View() == Step(old(View()), PostFailed) && Inv(View())
      ensures lastKey == None && !inFlight && pending == None && acked == old(acked)
    {
      posting := posting[1..];
      lastKey := None;
      inFlight := false;
      pending := None;
    }

    method ResetDeclaration()
      requires Inv(View())
      modifies this
      ensures View() == Step(old(View()), Reset) && Inv(View())
    {
      lastKey := None;
    }
  }
}
