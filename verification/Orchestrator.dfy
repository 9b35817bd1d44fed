/** The Tasks screen's Orchestrator pane (frontend/local/orchestrator-transcript-refresh.js and
    the loader in frontend/local/render-session.js): load generations, the repair latch, the
    settlement of tail gaps, and what a settled load puts on screen. */
module Orchestrator {
  import opened Options
  import opened PinMerge

  /** The flags a load owns; `out` holds the generations whose fetch has not settled. */
  datatype Flags = Flags(entriesLoading: bool, tailGapRepairing: bool, generation: nat,
                         deltaDuringFetch: bool, tailGap: bool, wasWorking: bool, out: set<nat>)

  const Start := Flags(false, false, 0, false, false, false, {})

  /** A load that fetches or one that is answered at once, a fetch that settles however it ends,
      and a delta that reaches the pane, applied or refused. */
  datatype Event =
    | Load(fetches: bool, repair: bool, terminal: bool, working: bool)
    | Settle(generation: nat, terminal: bool, working: bool)
    | Delta(refused: bool)

  /** `applyOrchestratorLoadFinally` */
  function Finally(s: Flags, generation: nat, terminal: bool, working: bool): Flags {
    if generation != s.generation then s
    else
      s.(entriesLoading := false, tailGapRepairing := false, deltaDuringFetch := false,
         tailGap := s.tailGap && s.deltaDuringFetch,
         wasWorking := if terminal && !s.deltaDuringFetch then working else working || s.wasWorking)
  }

  /** `beginOrchestratorLoad` */
  function Begin(s: Flags, repair: bool): Flags {
    s.(entriesLoading := true, tailGapRepairing := s.tailGapRepairing || repair,
       generation := s.generation + 1)
  }

  function Step(s: Flags, e: Event): Flags {
    match e
    case Load(fetches, repair, terminal, working) =>
      var t := Begin(s, repair);
      if fetches then t.(out := t.out + {t.generation})
      else Finally(t, t.generation, terminal, working)
    case Settle(g, terminal, working) =>
      if g !in s.out then s else Finally(s.(out := s.out - {g}), g, terminal, working)
    case Delta(refused) =>
      s.(tailGap := s.tailGap || refused, wasWorking := s.wasWorking || !refused,
         deltaDuringFetch := s.deltaDuringFetch || s.entriesLoading)
  }

  function Run(s: Flags, run: seq<Event>): Flags
    decreases |run|
  {
    if |run| == 0 then s else Run(Step(s, run[0]), run[1..])
  }

  // ---------------------------------------------------------------- the latch

  /** Loading, repairing and the delta flag are only ever set while the current generation's
      fetch is out. */
  predicate Inv(s: Flags) {
    && (s.entriesLoading <==> s.generation in s.out)
    && (s.tailGapRepairing ==> s.entriesLoading)
    && (s.deltaDuringFetch ==> s.entriesLoading)
    && (forall g :: g in s.out ==> g <= s.generation)
  }

  lemma StepInv(s: Flags, e: Event)
    requires Inv(s)
    ensures Inv(Step(s, e))
  {
  }

  lemma {:induction false} RunInv(s: Flags, run: seq<Event>)
    requires Inv(s)
    ensures Inv(Run(s, run))
    decreases |run|
  {
    if |run| > 0 {
      StepInv(s, run[0]);
      RunInv(Step(s, run[0]), run[1..]);
    }
  }

  /** A load of the current generation settles with this event. */
  predicate Wins(s: Flags, e: Event) {
    || (e.Settle? && e.generation in s.out && e.generation == s.generation)
    || (e.Load? && !e.fetches)
  }

  /** In every reachable state a latch that is set has the newest load's fetch behind it, and the
      settling of the newest load, on every exit path, releases both; a superseded load that
      settles changes nothing but its own disappearance. */
  lemma LatchNeverStranded(run: seq<Event>, e: Event)
    ensures var s := Run(Start, run);
      && (s.entriesLoading || s.tailGapRepairing ==> s.generation in s.out)
      && (Wins(s, e) ==> !Step(s, e).entriesLoading && !Step(s, e).tailGapRepairing)
      && (e.Settle? && !Wins(s, e) ==> Step(s, e) == s.(out := s.out - {e.generation}))
  {
    RunInv(Start, run);
  }

  // ---------------------------------------------------------------- tail gaps

  /** Some load begun after generation `since` wins during the run. */
  predicate WonSince(s: Flags, run: seq<Event>, since: nat)
    decreases |run|
  {
    |run| > 0 &&
    ((Wins(s, run[0]) && (run[0].Settle? ==> run[0].generation > since))
     || WonSince(Step(s, run[0]), run[1..], since))
  }

  /** However loads, replies and deltas interleave after a refusal, the gap stays raised until a load
      begun after it wins. (The page that load brings may have been asked for earlier, by whoever
      sent the request it joined.) */
  lemma GapNotForgotten(s: Flags, run: seq<Event>)
    requires Inv(s) && !WonSince(Step(s, Delta(true)), run, s.generation)
    ensures Run(Step(s, Delta(true)), run).tailGap
  {
    StepInv(s, Delta(true));
    GapHeld(Step(s, Delta(true)), run, s.generation);
  }

  lemma {:induction false} GapHeld(s: Flags, run: seq<Event>, since: nat)
    requires Inv(s) && s.tailGap && s.generation >= since && !WonSince(s, run, since)
    requires s.generation == since && s.entriesLoading ==> s.deltaDuringFetch
    ensures Run(s, run).tailGap
    decreases |run|
  {
    if |run| > 0 {
      StepInv(s, run[0]);
      GapHeld(Step(s, run[0]), run[1..], since);
    }
  }

  predicate HasDelta(run: seq<Event>) {
    exists i :: 0 <= i < |run| && run[i].Delta?
  }

  predicate NoWin(s: Flags, run: seq<Event>)
    decreases |run|
  {
    |run| == 0 || (!Wins(s, run[0]) && NoWin(Step(s, run[0]), run[1..]))
  }

  lemma HasDeltaUnfold(run: seq<Event>)
    requires |run| > 0
    ensures HasDelta(run) <==> run[0].Delta? || HasDelta(run[1..])
  {
    if HasDelta(run[1..]) {
      var i :| 0 <= i < |run[1..]| && run[1..][i].Delta?;
      assert run[i + 1].Delta?;
    }
    if HasDelta(run) && !run[0].Delta? {
      var i :| 0 <= i < |run| && run[i].Delta?;
      assert run[1..][i - 1].Delta?;
    }
  }

  lemma {:induction false} FlagIsDelta(s: Flags, run: seq<Event>)
    requires Inv(s) && s.entriesLoading && NoWin(s, run)
    ensures Run(s, run).entriesLoading
    ensures Run(s, run).deltaDuringFetch <==> s.deltaDuringFetch || HasDelta(run)
    ensures s.tailGap ==> Run(s, run).tailGap
    decreases |run|
  {
    if |run| > 0 {
      StepInv(s, run[0]);
      HasDeltaUnfold(run);
      FlagIsDelta(Step(s, run[0]), run[1..]);
    }
  }

  /** Exactly when a repair clears the gap: a load, begun on an idle pane or over another one and
      superseded any number of times, clears it if and only if no delta of either kind reached the
      pane since it last began loading. */
  lemma RepairClearsExactly(s: Flags, begin: Event, run: seq<Event>, win: Event)
    requires Inv(s) && s.tailGap
    requires begin.Load? && begin.fetches
    requires NoWin(Step(s, begin), run) && Wins(Run(Step(s, begin), run), win)
    ensures !Step(Run(Step(s, begin), run), win).tailGap <==> !s.deltaDuringFetch && !HasDelta(run)
  {
    StepInv(s, begin);
    FlagIsDelta(Step(s, begin), run);
  }

  function WinCount(s: Flags, run: seq<Event>): nat
    decreases |run|
  {
    if |run| == 0 then 0
    else (if Wins(s, run[0]) then 1 else 0) + WinCount(Step(s, run[0]), run[1..])
  }

  /** A gap is not repaired forever: once no delta of either kind arrives, the second winning load
      to settle has cleared it, and the first already does if no delta reached one in flight. */
  lemma {:induction false} GapCleared(s: Flags, run: seq<Event>)
    requires Inv(s) && !HasDelta(run)
    requires WinCount(s, run) >= (if s.deltaDuringFetch then 2 else 1)
    ensures !Run(s, run).tailGap
    decreases |run|
  {
    var t := Step(s, run[0]);
    StepInv(s, run[0]);
    HasDeltaUnfold(run);
    if Wins(s, run[0]) && !s.deltaDuringFetch {
      ClearStaysClear(t, run[1..]);
    } else {
      GapCleared(t, run[1..]);
    }
  }

  lemma {:induction false} ClearStaysClear(s: Flags, run: seq<Event>)
    requires !s.tailGap && !HasDelta(run)
    ensures !Run(s, run).tailGap
    decreases |run|
  {
    if |run| > 0 {
      HasDeltaUnfold(run);
      ClearStaysClear(Step(s, run[0]), run[1..]);
    }
  }

  /** One round of a repair during which the stream delivers text that applies cleanly. */
  function BusyRound(generation: nat): seq<Event> {
    [Load(true, true, false, true), Delta(false), Settle(generation, false, true)]
  }

  function BusyRounds(generation: nat, n: nat): seq<Event>
    decreases n
  {
    if n == 0 then [] else BusyRound(generation) + BusyRounds(generation + 1, n - 1)
  }

  /** The condition on applied deltas is needed: with one clean delta per load, any number of
      winning loads leaves the gap raised, although no further delta was refused. */
  lemma {:induction false} BusyStreamKeepsGap(s: Flags, n: nat)
    requires Inv(s) && !s.entriesLoading && s.tailGap
    ensures var run := BusyRounds(s.generation + 1, n);
      Run(s, run).tailGap && WinCount(s, run) == n
    decreases n
  {
    if n > 0 {
      var round := BusyRound(s.generation + 1);
      var rest := BusyRounds(s.generation + 2, n - 1);
      var s1 := Step(s, round[0]);
      var s2 := Step(s1, round[1]);
      var s3 := Step(s2, round[2]);
      StepInv(s, round[0]);
      StepInv(s1, round[1]);
      StepInv(s2, round[2]);
      assert s2.deltaDuringFetch && s2.tailGap && Wins(s2, round[2]);
      assert s3.generation == s.generation + 1 && s3.tailGap && !s3.entriesLoading;
      BusyStreamKeepsGap(s3, n - 1);
      var run := round + rest;
      assert run[0] == round[0] && run[1..] == round[1..] + rest;
      UnfoldRun(s, run);
      assert run[1..][0] == round[1] && run[1..][1..] == round[2..] + rest;
      UnfoldRun(s1, run[1..]);
      assert run[1..][1..][0] == round[2] && run[1..][1..][1..] == rest;
      UnfoldRun(s2, run[1..][1..]);
    }
  }

  lemma UnfoldRun(s: Flags, run: seq<Event>)
    requires |run| > 0
    ensures Run(s, run) == Run(Step(s, run[0]), run[1..])
    ensures WinCount(s, run) == (if Wins(s, run[0]) then 1 else 0) + WinCount(Step(s, run[0]), run[1..])
  {
  }

  // ---------------------------------------------------------------- the refresh decision

  datatype Decision = Decision(refresh: bool, defer: bool, terminal: bool, repair: bool)

  /** `shouldRefreshViewedThread` */
  predicate ShouldRefresh(loading: bool, needsRepair: bool, wasWorking: bool, working: bool) {
    !loading && (needsRepair || (wasWorking && !working))
  }

  /** `orchestratorTranscriptRefreshDecision` */
  function Decide(s: Flags, orchId: string, isActive: bool, working: bool, lastActivityWorking: bool,
                  deltaRaisedWorking: bool, olderLoading: bool): Decision
  {
    if orchId == "" || isActive then Decision(false, false, false, false)
    else
      var activityIdleEdge := lastActivityWorking && !working;
      var suppressDeltaTerminal := deltaRaisedWorking && !lastActivityWorking && !working;
      var needsTailGapRepair := s.tailGap && !s.tailGapRepairing;
      var terminalRefresh :=
        !suppressDeltaTerminal
        && ShouldRefresh(s.entriesLoading, false, activityIdleEdge || s.wasWorking, working);
      var wanted := needsTailGapRepair || terminalRefresh;
      var defer := wanted && olderLoading;
      var refresh := wanted && !defer;
      Decision(refresh, defer, refresh && terminalRefresh && !needsTailGapRepair,
               refresh && needsTailGapRepair)
  }

  /** In every reachable state a raised gap is acted on by the next render of an inactive
      Orchestrator: a repair starts, or waits for the history request, or one is already out; and
      two repairs are never started over one another. */
  lemma GapIsActedOn(run: seq<Event>, orchId: string, working: bool, lastActivityWorking: bool,
                     deltaRaisedWorking: bool, olderLoading: bool)
    requires orchId != ""
    ensures var s := Run(Start, run);
      var d := Decide(s, orchId, false, working, lastActivityWorking, deltaRaisedWorking, olderLoading);
      && (s.tailGap ==> d.repair || d.defer || (s.tailGapRepairing && s.generation in s.out))
      && (d.repair ==> s.tailGap && !s.tailGapRepairing && !olderLoading && !d.terminal)
      && !(d.refresh && d.defer)
  {
    RunInv(Start, run);
  }

  /** The two reasons to fetch: a gap nobody is repairing, and a turn that is over on an idle pane.
      A turn counts as over when its activity was last seen running, or when the pane's own mark says
      so and was not raised by a delta alone. */
  predicate GapTrigger(s: Flags) { s.tailGap && !s.tailGapRepairing }

  predicate TurnTrigger(s: Flags, working: bool, lastActivityWorking: bool, deltaRaisedWorking: bool) {
    !working && !s.entriesLoading && (lastActivityWorking || (s.wasWorking && !deltaRaisedWorking))
  }

  /** The decision, exactly. An active or absent Orchestrator is left alone; otherwise something is
      done if and only if one of the two reasons holds, it waits exactly while history is loading,
      a gap makes it a repair and nothing else makes it terminal. */
  lemma DecisionExactly(s: Flags, orchId: string, isActive: bool, working: bool, lastActivityWorking: bool,
                        deltaRaisedWorking: bool, olderLoading: bool)
    ensures var d := Decide(s, orchId, isActive, working, lastActivityWorking, deltaRaisedWorking, olderLoading);
      var gap, turn := GapTrigger(s), TurnTrigger(s, working, lastActivityWorking, deltaRaisedWorking);
      if orchId == "" || isActive then !d.refresh && !d.defer && !d.terminal && !d.repair
      else
        && (d.refresh || d.defer <==> gap || turn)
        && (d.defer <==> (gap || turn) && olderLoading)
        && (d.repair <==> gap && !olderLoading)
        && (d.terminal <==> turn && !gap && !olderLoading)
  {
  }

  /** In every reachable state: the observed end of a turn on an idle pane is refetched at once, or
      after the history request; a pane that is working or loading and has no gap is left alone. */
  lemma TurnEndIsRefetched(run: seq<Event>, orchId: string, working: bool, lastActivityWorking: bool,
                           deltaRaisedWorking: bool, olderLoading: bool)
    requires orchId != ""
    ensures var s := Run(Start, run);
      var d := Decide(s, orchId, false, working, lastActivityWorking, deltaRaisedWorking, olderLoading);
      && (lastActivityWorking && !working && s.generation !in s.out && !s.tailGap ==>
            d == if olderLoading then Decision(false, true, false, false) else Decision(true, false, true, false))
      && ((working || s.generation in s.out) && !s.tailGap ==> d == Decision(false, false, false, false))
  {
    RunInv(Start, run);
  }

  /** What a render leaves for the next one to compare with. */
  datatype Seen = Seen(lastActivityWorking: bool, deltaRaisedWorking: bool)

  /** `nextOrchestratorRefreshObservations` and `nextOrchestratorWasWorking` */
  function AfterRender(s: Flags, working: bool): (Flags, Seen) {
    (s.(wasWorking := working || s.wasWorking), Seen(working, false))
  }

  /** A mark raised by a delta alone is not taken for the end of a turn on the first idle render, and
      is on the second. */
  lemma DeltaMarkWaitsOneRender(s: Flags, orchId: string)
    requires orchId != "" && !s.entriesLoading && !s.tailGap && s.wasWorking
    ensures Decide(s, orchId, false, false, false, true, false) == Decision(false, false, false, false)
    ensures var (t, seen) := AfterRender(s, false);
      Decide(t, orchId, false, false, seen.lastActivityWorking, seen.deltaRaisedWorking, false)
      == Decision(true, false, true, false)
  {
  }

  /** Repairs never overlap: from the moment a repair begins until a load wins, whatever is loaded,
      superseded or streamed, no render starts another. */
  lemma {:induction false} RepairsNeverOverlap(s: Flags, run: seq<Event>, orchId: string, isActive: bool, working: bool,
                                               lastActivityWorking: bool, deltaRaisedWorking: bool, olderLoading: bool)
    requires s.tailGapRepairing && NoWin(s, run)
    ensures var t := Run(s, run);
      !Decide(t, orchId, isActive, working, lastActivityWorking, deltaRaisedWorking, olderLoading).repair
    decreases |run|
  {
    if |run| > 0 {
      assert Step(s, run[0]).tailGapRepairing;
      RepairsNeverOverlap(Step(s, run[0]), run[1..], orchId, isActive, working, lastActivityWorking,
                          deltaRaisedWorking, olderLoading);
    }
  }

  /** What a load and a delta mark: a fetching load is out under a new generation, and a repair says so;
      an applied delta marks the thread as working, a refused one raises the gap, and either is
      remembered against a load that is out. */
  lemma EventsMark(s: Flags, repair: bool, terminal: bool, working: bool)
    ensures var t := Step(s, Load(true, repair, terminal, working));
      && t.entriesLoading && t.generation == s.generation + 1 && t.generation in t.out
      && (t.tailGapRepairing <==> repair || s.tailGapRepairing)
      && t.tailGap == s.tailGap && t.deltaDuringFetch == s.deltaDuringFetch
    ensures var t := Step(s, Delta(false));
      t.wasWorking && t.tailGap == s.tailGap && (t.deltaDuringFetch <==> s.deltaDuringFetch || s.entriesLoading)
    ensures var t := Step(s, Delta(true));
      t.tailGap && t.wasWorking == s.wasWorking && (t.deltaDuringFetch <==> s.deltaDuringFetch || s.entriesLoading)
  {
  }

  /** How the newest load leaves the working mark: a thread at work keeps it, an idle one loses it
      exactly if the load was the turn's last and no delta came since loading began. */
  lemma WorkingMarkSettles(s: Flags, terminal: bool, working: bool)
    requires s.generation in s.out
    ensures var t := Step(s, Settle(s.generation, terminal, working));
      && (working ==> t.wasWorking)
      && (!working && s.wasWorking ==> (!t.wasWorking <==> terminal && !s.deltaDuringFetch))
      && (!working && !s.wasWorking ==> !t.wasWorking)
  {
  }

  // ---------------------------------------------------------------- what a load puts on screen

  /** The entry fields of the page state; the empty thread id stands for null. */
  datatype Shown = Shown(threadId: string, entries: Option<seq<Entry>>, olderCursor: Option<nat>,
                         historyExtended: bool)

  /** `orchestratorRefreshPin` */
  function RefreshPrior(s: Shown, threadId: string): Option<View> {
    if s.threadId != threadId then None
    else Some(View(threadId, if s.entries.Some? then s.entries.value else [], s.olderCursor, s.historyExtended))
  }

  /** The entries after a fetch of the current generation settles. `prior` was captured before
      the fetch; `now` is what is on screen at the reply. */
  function Answered(prior: Option<View>, threadId: string, response: Option<Response>, now: Shown): Shown {
    var page := if response.Some? then NormalizePage(response.value, threadId) else None;
    if page.None? then now.(threadId := "")
    else
      var m := MergeRefreshed(prior, page.value);
      Shown(threadId, Some(m.entries), m.olderCursor, m.historyExtended)
  }

  /** The loader merges into the entries it captured before its fetch. An entry the stream
      appended meanwhile, at log position `p`, is on screen afterwards exactly when the page
      covers it, whatever else the pane held and however entries are numbered. */
  lemma StreamedEntryKeptExactly(log: seq<Key>, prior: View, pos: seq<nat>, appended: Entry, p: nat,
                                 page: Page, a: nat, b: nat, now: Shown)
    requires ValidLog(log) && Places(log, prior.entries, pos)
    requires p < |log| && Matches(appended, log[p]) && p !in pos
    requires page.threadId == prior.threadId && Window(log, page.entries, a, b)
    requires now.entries == Some(prior.entries + [appended])
    ensures var after := Answered(Some(prior), prior.threadId, Some(PageObject(page)), now);
      after.entries.Some? && (HoldsId(after.entries.value, appended.id) <==> a <= p < b)
  {
    var m := MergeRefreshed(Some(prior), page).entries;
    MergeMembers(prior, page);
    WindowPlaces(log, page.entries, a, b);
    HeldExactly(log, page.entries, Range(a, b), p, appended.id);
    HeldExactly(log, prior.entries, pos, p, appended.id);
    if a <= p < b {
      assert Range(a, b)[p - a] == p;
      var i :| 0 <= i < |page.entries| && page.entries[i].id == appended.id;
      assert page.entries[i] in m;
    } else {
      assert p !in Range(a, b);
      NotHeld(m, page.entries, prior.entries, appended.id);
    }
  }

  /** What the winning answer puts on screen. A page that can be placed shows the specified entries of
      the log, with the cursor and the history mark that go with them; a failed or mismatched one
      gives the thread up and leaves the entries. */
  lemma AnswerIsShown(log: seq<Key>, prior: View, pos: seq<nat>, page: Page, a: nat, b: nat, now: Shown)
    requires ValidLog(log) && page.threadId == prior.threadId && EvenlyNumbered(prior.entries, page.entries)
    requires Places(log, prior.entries, pos) && |pos| > 0
    requires Window(log, page.entries, a, b) && a < b && Placeable(pos, page.entries, a, b)
    ensures var t := Answered(Some(prior), prior.threadId, Some(PageObject(page)), now);
      && t.threadId == prior.threadId && t.entries == Some(SpecEntries(prior, pos, page, a, b))
      && t.olderCursor == (if prior.historyExtended then prior.olderCursor else page.prevCursor)
      && t.historyExtended == (prior.historyExtended && Below(pos, a) > 0)
    ensures Answered(Some(prior), prior.threadId, None, now) == now.(threadId := "")
    ensures page.threadId != now.threadId ==>
      Answered(Some(prior), now.threadId, Some(PageObject(page)), now) == now.(threadId := "")
  {
    RefreshIsSpec(log, prior, pos, page, a, b);
  }

  lemma NotHeld(m: seq<Entry>, page: seq<Entry>, prior: seq<Entry>, id: string)
    requires forall e :: e in m ==> e in page || e in prior
    requires !HoldsId(page, id) && !HoldsId(prior, id)
    ensures !HoldsId(m, id)
  {
    forall i | 0 <= i < |m| ensures m[i].id != id {
      assert m[i] in m;
    }
  }

  /** `applyOlderOrchestratorPage` */
  function OlderShown(s: Shown, page: Page): Shown {
    var held := View(s.threadId, if s.entries.Some? then s.entries.value else [], s.olderCursor, s.historyExtended);
    var m := MergeOlder(held, page);
    s.(entries := Some(m.entries), olderCursor := m.olderCursor, historyExtended := m.historyExtended)
  }

  /** An answer from the live session replaces the entries and keeps the older cursor. */
  function LiveShown(s: Shown, threadId: string, transcript: seq<Entry>): Shown {
    s.(threadId := threadId, entries := Some(transcript), historyExtended := false)
  }

  /** So the next older page, asked for at the cursor `c` left over from before, leaves one stretch
      of the log exactly when the live transcript reaches back to that cursor. */
  lemma LiveAnswerHoleExactly(log: seq<Key>, s: Shown, threadId: string, transcript: seq<Entry>, a: nat, b: nat,
                              page: Page, x: nat, c: nat)
    requires ValidLog(log) && Window(log, transcript, a, b) && a < b
    requires page.threadId == threadId && Window(log, page.entries, x, c) && x < c <= b && x <= a
    ensures var shown := OlderShown(LiveShown(s, threadId, transcript), page);
      (exists lo: nat :: Window(log, shown.entries.value, lo, b)) <==> a <= c
  {
    var held := View(threadId, transcript, s.olderCursor, false);
    WindowPlaces(log, transcript, a, b);
    var merged := MergeOlder(held, page).entries;
    assert OlderShown(LiveShown(s, threadId, transcript), page).entries == Some(merged);
    if a <= c {
      InRange(a, b);
      OlderMerged(log, held, Range(a, b), page, x, c);
      assert merged == page.entries[..a - x] + transcript;
      StretchTouches(log, page.entries, x, c, transcript, a, b);
      assert Window(log, merged, x, b);
    } else {
      DisjointPage(log, held, page, a, b, x, c);
      forall lo: nat ensures !Window(log, merged, lo, b) {
        StretchBroken(log, page.entries, x, c, transcript, a, b, lo);
      }
    }
  }

  lemma DisjointPage(log: seq<Key>, held: View, page: Page, a: nat, b: nat, x: nat, c: nat)
    requires ValidLog(log) && Window(log, held.entries, a, b) && page.threadId == held.threadId
    requires Window(log, page.entries, x, c) && x < c < a < b
    ensures MergeOlder(held, page).entries == page.entries + held.entries
  {
    WindowPlaces(log, held.entries, a, b);
    forall i | 0 <= i < |page.entries| ensures !Overlaps(page.entries[i], FreshIds(held.entries)) {
      PinOverlap(log, held.entries, Range(a, b), page.entries[i], x + i);
    }
    NotInKeepsAll(page.entries, FreshIds(held.entries));
  }

  // ---------------------------------------------------------------- the page state

  datatype Flight = Flight(threadId: string, prior: Option<View>, terminal: bool)

  /** How a load is answered: with nothing to fetch from, from the live session, or by a fetch. */
  datatype Source = NoThread | LiveSession(transcript: seq<Entry>) | Fetch

  /** The fields of the page state and the functions that assign them; `loads` keeps the locals of
      the loads suspended at their fetch. */
  class PaneState {
    var orchestratorEntriesLoading: bool
    var orchestratorTailGapRepairing: bool
    var orchestratorLoadGeneration: nat
    var orchestratorDeltaDuringFetch: bool
    var orchestratorTailGap: bool
    var orchestratorWasWorking: bool
    var shown: Shown
    var loads: map<nat, Flight>

    ghost function Latch(): Flags
      reads this
    {
      Flags(orchestratorEntriesLoading, orchestratorTailGapRepairing, orchestratorLoadGeneration,
            orchestratorDeltaDuringFetch, orchestratorTailGap, orchestratorWasWorking, loads.Keys)
    }

    constructor ()
      ensures Latch() == Start
    {
      orchestratorEntriesLoading, orchestratorTailGapRepairing := false, false;
      orchestratorLoadGeneration := 0;
      orchestratorDeltaDuringFetch, orchestratorTailGap, orchestratorWasWorking := false, false, false;
      shown, loads := Shown("", None, None, false), map[];
    }

    /** The returned token is newer than every load still out. */
    method BeginOrchestratorLoad(repair: bool) returns (generation: nat)
      modifies this`orchestratorEntriesLoading, this`orchestratorTailGapRepairing,
               this`orchestratorLoadGeneration
      ensures Latch() == Begin(old(Latch()), repair)
      ensures generation == orchestratorLoadGeneration
      ensures Inv(old(Latch())) ==> forall g :: g in loads ==> g < generation
    {
      orchestratorEntriesLoading := true;
      if repair {
        orchestratorTailGapRepairing := true;
      }
      orchestratorLoadGeneration := orchestratorLoadGeneration + 1;
      generation := orchestratorLoadGeneration;
    }

    /** The one release point: a superseded load changes nothing, and the newest one, once its fetch
        is no longer out, leaves no latch set without a fetch behind it. */
    method ApplyLoadFinally(generation: nat, terminal: bool, working: bool)
      modifies this`orchestratorEntriesLoading, this`orchestratorTailGapRepairing,
               this`orchestratorDeltaDuringFetch, this`orchestratorTailGap, this`orchestratorWasWorking
      ensures Latch() == Finally(old(Latch()), generation, terminal, working)
      ensures generation != orchestratorLoadGeneration ==> Latch() == old(Latch())
      ensures generation == orchestratorLoadGeneration && (forall g :: g in loads ==> g < generation) ==> Inv(Latch())
    {
      if generation != orchestratorLoadGeneration {
        return;
      }
      var wasWorking := if terminal && !orchestratorDeltaDuringFetch then working
                        else working || orchestratorWasWorking;
      var tailGap := orchestratorTailGap && orchestratorDeltaDuringFetch;
      orchestratorEntriesLoading := false;
      orchestratorTailGapRepairing := false;
      orchestratorDeltaDuringFetch := false;
      orchestratorTailGap := tailGap;
      orchestratorWasWorking := wasWorking;
    }

    /** `loadOrchestratorTranscript` up to its await, or to its end when it needs no fetch. */
    method LoadOrchestratorTranscript(threadId: string, source: Source, repair: bool, terminal: bool,
                                      working: bool)
      requires Inv(Latch())
      modifies this
      ensures Latch() == Step(old(Latch()), Load(source.Fetch?, repair, terminal, working))
      ensures Inv(Latch())
      ensures source.Fetch? ==>
        && shown == old(shown)
        && loads == old(loads)[orchestratorLoadGeneration :=
                               Flight(threadId, RefreshPrior(shown, threadId), terminal)]
      ensures !source.Fetch? ==>
        && loads == old(loads)
        && shown == LiveShown(old(shown), threadId, if source.LiveSession? then source.transcript else [])
    {
      StepInv(Latch(), Load(source.Fetch?, repair, terminal, working));
      var generation := BeginOrchestratorLoad(repair);
      if source.Fetch? {
        loads := loads[generation := Flight(threadId, RefreshPrior(shown, threadId), terminal)];
        return;
      }
      var transcript := if source.LiveSession? then source.transcript else [];
      shown := shown.(entries := Some(transcript), threadId := threadId, historyExtended := false);
      ApplyLoadFinally(generation, terminal, working);
    }

    /** The winning answer: merge the page, or give the thread up on a failure or a mismatch. */
    method ShowAnswer(flight: Flight, response: Option<Response>)
      modifies this`shown
      ensures shown == Answered(flight.prior, flight.threadId, response, old(shown))
    {
      var page := None;
      if response.Some? {
        page := NormalizePage(response.value, flight.threadId);
      }
      if page.None? {
        shown := shown.(threadId := "");
        return;
      }
      var merged := RefreshPin(flight.prior, page.value);
      shown := Shown(flight.threadId, Some(merged.entries), merged.olderCursor, merged.historyExtended);
    }

    /** The code after `await fetchTranscriptPage`: try, catch and finally. */
    method LoadSettled(generation: nat, response: Option<Response>, working: bool)
      requires Inv(Latch()) && generation in loads
      modifies this
      ensures Latch() == Step(old(Latch()), Settle(generation, old(loads)[generation].terminal, working))
      ensures Inv(Latch()) && loads == old(loads) - {generation}
      ensures shown == if generation != old(orchestratorLoadGeneration) then old(shown)
                       else Answered(old(loads)[generation].prior, old(loads)[generation].threadId,
                                     response, old(shown))
    {
      StepInv(Latch(), Settle(generation, loads[generation].terminal, working));
      var flight := loads[generation];
      loads := loads - {generation};
      if generation == orchestratorLoadGeneration {
        ShowAnswer(flight, response);
      }
      ApplyLoadFinally(generation, flight.terminal, working);
    }

    /** `applyDeltaToOrchestratorEntries`; `next` is the reducer's answer, `None` a refusal. */
    method ApplyDelta(next: Option<seq<Entry>>)
      requires Inv(Latch())
      modifies this
      ensures shown.threadId == old(shown).threadId && Inv(Latch())
      ensures var taken := old(shown).threadId != "" && old(shown).entries.Some?;
        && Latch() == (if taken then Step(old(Latch()), Delta(next.None?)) else old(Latch()))
        && shown == (if taken && next.Some? then old(shown).(entries := next) else old(shown))
    {
      StepInv(Latch(), Delta(next.None?));
      if shown.threadId == "" || shown.entries.None? {
        return;
      }
      if next.Some? {
        shown := shown.(entries := next);
        orchestratorWasWorking := true;
      } else {
        orchestratorTailGap := true;
      }
      if orchestratorEntriesLoading {
        orchestratorDeltaDuringFetch := true;
      }
    }
  }
}
