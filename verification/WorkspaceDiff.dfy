/** The workspace-diff store (frontend/local/workspace-diff.js): numbered refreshes, measurements
    that race them for one answer, a count cache keyed by path, pins, and replies in any order. */
module WorkspaceDiff {
  import opened Options

  // ---------------------------------------------------------------- data

  datatype Count = Count(files: nat, capped: bool)

  datatype Root = Root(path: string, count: Option<Count>)

  /** A resolved workspace; `roots` may be missing from a response. */
  datatype Workspace = Workspace(cwd: string, roots: Option<seq<Root>>)

  /** A cached count and (history) the number of the measurement that brought it. */
  datatype Known = Known(count: Count, askedAt: nat)

  type Cache = map<string, Known>

  datatype Status = Idle | Loading | Loaded | Failed

  datatype ErrorKind = NoError | ReadError | MutationError

  datatype Reply<T> = Ok(value: T) | Err(message: string)

  /** Identity of the viewed workspace: the caller's key and the previewed root. */
  datatype DiffKey = DiffKey(context: string, viewRoot: Option<string>)

  /** What surrounds the store: the viewed thread ("" for none), its workspace key, previewed
      roots per thread, who asked for measuring, and whether workspaces can be fetched at all. */
  datatype Env = Env(thread: string, context: string, viewRoots: map<string, string>,
                     measuring: set<string>, canFetch: bool)

  // ---------------------------------------------------------------- the count cache

  function RememberOne(cache: Cache, root: Root, at: nat): Cache {
    if root.path == "" then cache
    else if root.count.Some? then cache[root.path := Known(root.count.value, at)]
    else cache - {root.path}
  }

  /** `rememberRootCounts`, once its number has been accepted. */
  function Remember(cache: Cache, roots: seq<Root>, at: nat): Cache
    decreases |roots|
  {
    if |roots| == 0 then cache else Remember(RememberOne(cache, roots[0], at), roots[1..], at)
  }

  function Paths(roots: seq<Root>): set<string> { set r | r in roots :: r.path }

  /** `forgetRootsMissingFrom` */
  function Forget(cache: Cache, previous: seq<Root>, measured: seq<Root>): Cache {
    cache - (Paths(previous) - Paths(measured) - {""})
  }

  function RootShown(root: Root, cache: Cache): Root {
    root.(count := if root.path in cache then Some(cache[root.path].count) else None)
  }

  /** `withRememberedCounts`: the cache is the only source of counts. */
  function WithRemembered(w: Workspace, cache: Cache): Workspace {
    if w.roots.None? || |w.roots.value| == 0 then w
    else w.(roots := Some(seq(|w.roots.value|,
              i requires 0 <= i < |w.roots.value| => RootShown(w.roots.value[i], cache))))
  }

  function RootsOf(w: Option<Workspace>): seq<Root> {
    if w.Some? && w.value.roots.Some? then w.value.roots.value else []
  }

  /** Every count on the workspace is the cached count of its path. */
  predicate Agrees(w: Option<Workspace>, cache: Cache) {
    forall i :: 0 <= i < |RootsOf(w)| && RootsOf(w)[i].count.Some? ==>
      RootsOf(w)[i].path in cache && cache[RootsOf(w)[i].path].count == RootsOf(w)[i].count.value
  }

  predicate CountFree(w: Option<Workspace>) {
    forall i :: 0 <= i < |RootsOf(w)| ==> RootsOf(w)[i].count == None
  }

  lemma WithRememberedAgrees(w: Workspace, cache: Cache)
    ensures Agrees(Some(WithRemembered(w, cache)), cache)
  {
  }

  /** Remembering touches an entry only to stamp it with the accepted number. */
  lemma {:induction false} RememberStamps(cache: Cache, roots: seq<Root>, at: nat)
    ensures forall p :: p in Remember(cache, roots, at) ==>
      Remember(cache, roots, at)[p].askedAt == at || (p in cache && Remember(cache, roots, at)[p] == cache[p])
    decreases |roots|
  {
    if |roots| > 0 { RememberStamps(RememberOne(cache, roots[0], at), roots[1..], at); }
  }

  /** After remembering, the cache says of every measured path what its last root said. */
  lemma {:induction false} RememberLast(cache: Cache, roots: seq<Root>, at: nat, i: nat)
    requires i < |roots| && roots[i].path != ""
    requires forall j :: i < j < |roots| ==> roots[j].path != roots[i].path
    ensures var c := Remember(cache, roots, at);
      if roots[i].count.Some? then roots[i].path in c && c[roots[i].path] == Known(roots[i].count.value, at)
      else roots[i].path !in c
    decreases |roots|
  {
    var next := RememberOne(cache, roots[0], at);
    if i > 0 {
      forall j | i - 1 < j < |roots[1..]| ensures roots[1..][j].path != roots[1..][i - 1].path {
        assert roots[j + 1].path != roots[i].path;
      }
      RememberLast(next, roots[1..], at, i - 1);
    } else {
      forall j | 0 <= j < |roots[1..]| ensures roots[1..][j].path != roots[0].path {
        assert roots[j + 1].path != roots[0].path;
      }
      RememberOthers(next, roots[1..], at, roots[0].path);
    }
  }

  lemma {:induction false} RememberOthers(cache: Cache, roots: seq<Root>, at: nat, path: string)
    requires forall j :: 0 <= j < |roots| ==> roots[j].path != path
    ensures path in Remember(cache, roots, at) <==> path in cache
    ensures path in cache ==> Remember(cache, roots, at)[path] == cache[path]
    decreases |roots|
  {
    if |roots| > 0 {
      assert roots[0].path != path;
      RememberOthers(RememberOne(cache, roots[0], at), roots[1..], at, path);
    }
  }

  // ---------------------------------------------------------------- the diff half

  /** `flights` holds the diff fetches still out, by refresh number; the last three fields are
      history: which refresh and key the data came from, and which refresh failed. */
  datatype Diff = Diff(status: Status, data: Option<string>, error: Option<string>,
                       requestSeq: nat, lastKey: Option<DiffKey>, flights: map<nat, DiffKey>,
                       dataFrom: nat, dataKey: Option<DiffKey>, errorFrom: nat)

  function DiffIssue(d: Diff, key: DiffKey): Diff {
    var seqNo := d.requestSeq + 1;
    var kept := if d.lastKey != Some(key) then d.(data := None) else d;
    kept.(requestSeq := seqNo, lastKey := Some(key), status := Loading, error := None,
          flights := d.flights[seqNo := key])
  }

  function DiffReply(d: Diff, seqNo: nat, reply: Reply<Option<string>>): Diff {
    if seqNo !in d.flights then d
    else
      var t := d.(flights := d.flights - {seqNo});
      if seqNo != d.requestSeq then t
      else match reply
        case Ok(data) => t.(status := Loaded, data := data, error := None,
                            dataFrom := seqNo, dataKey := Some(d.flights[seqNo]))
        case Err(message) => t.(status := Failed, error := Some(message), errorFrom := seqNo)
  }

  predicate DiffInv(d: Diff) {
    && (forall n :: n in d.flights ==> 0 < n <= d.requestSeq)
    && (d.requestSeq in d.flights ==> d.lastKey == Some(d.flights[d.requestSeq]))
    && (d.data.Some? ==> d.dataKey.Some? && d.dataKey == d.lastKey)
    && (d.requestSeq > 0 && d.requestSeq in d.flights ==> d.status == Loading && d.error == None)
    && (d.requestSeq > 0 && d.requestSeq !in d.flights ==>
          || (d.status == Loaded && d.dataFrom == d.requestSeq && d.error == None)
          || (d.status == Failed && d.errorFrom == d.requestSeq && d.error.Some?))
  }

  lemma DiffIssueInv(d: Diff, key: DiffKey)
    requires DiffInv(d)
    ensures DiffInv(DiffIssue(d, key))
  {
  }

  lemma DiffReplyInv(d: Diff, seqNo: nat, reply: Reply<Option<string>>)
    requires DiffInv(d)
    ensures DiffInv(DiffReply(d, seqNo, reply))
  {
  }

  // ---------------------------------------------------------------- the workspace half

  /** A workspace fetch still out: a refresh's, or a measurement's for a thread. `counts` is the
      count number it claimed, if it measures. */
  datatype Fetch = RefreshFetch(request: nat, counts: Option<nat>) | MeasureFetch(forThread: string, claim: nat)

  function Claim(f: Fetch): Option<nat> {
    match f
    case RefreshFetch(_, counts) => counts
    case MeasureFetch(_, claim) => Some(claim)
  }

  /** History: `from` ranks the answer on screen by the request that brought it, `readErrorFrom`
      the failure, `current` is the newest refresh's own fetch, `clearedAt` the count number of
      the last `clearRootCounts`. */
  datatype Work = Work(workspace: Option<Workspace>, status: Status, error: Option<string>, kind: ErrorKind,
                       lastThread: Option<string>, workspaceSeq: nat, answeredSeq: nat,
                       countsSeq: nat, cache: Cache, flights: map<nat, Fetch>,
                       from: nat, readErrorFrom: nat, current: nat, clearedAt: nat)

  /** `keepingRefusal` */
  function KeepingRefusal(w: Work): Work {
    if w.kind == MutationError then w else w.(error := None, kind := NoError)
  }

  function Max(a: nat, b: nat): nat { if a >= b then a else b }

  /** The synchronous half of `refreshWorkspace`. */
  function WorkIssue(w: Work, env: Env, request: nat): Work {
    if env.thread == "" || !env.canFetch then
      w.(lastThread := Some(env.thread), workspace := None, status := Idle, error := None,
         kind := NoError, current := 0)
    else
      var switched := Some(env.thread) != w.lastThread;
      var shown := if switched then w.(workspace := None, error := None, kind := NoError) else w;
      var measured := env.measuring != {};
      var n := w.workspaceSeq + 1;
      shown.(lastThread := Some(env.thread), status := Loading, workspaceSeq := n, current := n,
             countsSeq := if measured then w.countsSeq + 1 else w.countsSeq,
             flights := w.flights[n := RefreshFetch(request, if measured then Some(w.countsSeq + 1) else None)])
  }

  /** The refresh's answer, when it is the newest request for the workspace. */
  function WorkAnswer(w: Work, n: nat, counts: Option<nat>, resolved: Option<Workspace>): Work {
    var cache :=
      if counts.Some? && counts.value == w.countsSeq
      then Remember(w.cache, RootsOf(resolved), counts.value) else w.cache;
    KeepingRefusal(w.(cache := cache, answeredSeq := Max(w.answeredSeq, n), from := n, status := Loaded,
      workspace := if resolved.Some? then Some(WithRemembered(resolved.value, cache)) else None))
  }

  /** The refresh's answer, when a measurement was issued after it: it may only fill a blank. */
  function WorkOvertaken(w: Work, n: nat, resolved: Option<Workspace>): Work {
    var filled :=
      if w.workspace.Some? then w
      else w.(workspace := if resolved.Some? then Some(WithRemembered(resolved.value, w.cache)) else None,
              from := n);
    KeepingRefusal(filled.(answeredSeq := Max(w.answeredSeq, n), status := Loaded))
  }

  function WorkFailure(w: Work, n: nat, message: string): Work {
    if w.answeredSeq > n then w
    else w.(status := Failed, error := Some(message), kind := ReadError, readErrorFrom := n)
  }

  /** A measurement's answer that every guard let through. */
  function WorkMeasured(w: Work, n: nat, claim: nat, resolved: Workspace): Work
    requires resolved.roots.Some?
  {
    var counted := resolved.roots.value;
    var cache := Forget(Remember(w.cache, counted, claim), RootsOf(w.workspace), counted);
    KeepingRefusal(w.(cache := cache, answeredSeq := Max(w.answeredSeq, n), from := n, status := Loaded,
                      workspace := Some(WithRemembered(resolved, cache))))
  }

  function WorkReply(w: Work, env: Env, request: nat, n: nat, reply: Reply<Option<Workspace>>): Work {
    if n !in w.flights then w
    else
      var t := w.(flights := w.flights - {n});
      match w.flights[n]
      case RefreshFetch(issued, counts) =>
        if issued != request then t
        else if reply.Err? then WorkFailure(t, n, reply.message)
        else if n != w.workspaceSeq then WorkOvertaken(t, n, reply.value)
        else WorkAnswer(t, n, counts, reply.value)
      case MeasureFetch(forThread, claim) =>
        if reply.Err? || env.thread != forThread then t
        else if reply.value.None? || reply.value.value.roots.None? then t
        else if n != w.workspaceSeq || claim != w.countsSeq then t
        else WorkMeasured(t, n, claim, reply.value.value)
  }

  /** The synchronous half of `measureRoots`. */
  function WorkMeasure(w: Work, env: Env): Work {
    if env.thread == "" || !env.canFetch then w
    else
      var n := w.workspaceSeq + 1;
      w.(workspaceSeq := n, countsSeq := w.countsSeq + 1,
         flights := w.flights[n := MeasureFetch(env.thread, w.countsSeq + 1)])
  }

  function WorkClear(w: Work): Work {
    var t := w.(cache := map[], countsSeq := w.countsSeq + 1, clearedAt := w.countsSeq + 1);
    if |RootsOf(w.workspace)| > 0
    then t.(workspace := Some(WithRemembered(w.workspace.value, map[]))) else t
  }

  /** The pin's answer replaces the workspace outright; a refresh follows in the same turn. */
  function WorkPinned(w: Work, resolved: Option<Workspace>): Work {
    w.(workspace := resolved, status := Loaded, error := None, kind := NoError, from := w.workspaceSeq)
  }

  predicate ClaimUpTo(f: Fetch, counts: nat) { Claim(f).Some? ==> Claim(f).value <= counts }

  /** Answers keep issue order: the numbers claimed so far, the rank of what is shown, and a
      loading status only while the newest refresh's fetch is out. */
  predicate OrderInv(w: Work, request: nat) {
    && (forall n :: n in w.flights ==> 0 < n <= w.workspaceSeq && ClaimUpTo(w.flights[n], w.countsSeq))
    && w.answeredSeq <= w.workspaceSeq && w.from <= w.workspaceSeq && w.current <= w.workspaceSeq
    && (forall n :: n in w.flights && w.flights[n].RefreshFetch? ==>
          w.flights[n].request <= request && (w.flights[n].request == request ==> n == w.current))
    && (w.status == Loading ==>
          && w.current in w.flights && w.flights[w.current].RefreshFetch?
          && w.flights[w.current].request == request && w.answeredSeq < w.current)
    && (w.current in w.flights ==> w.from <= Max(w.answeredSeq, w.current))
    && (w.kind == ReadError ==>
          w.answeredSeq <= w.readErrorFrom <= w.workspaceSeq && (w.workspace.Some? ==> w.from <= w.readErrorFrom))
  }

  /** The cache holds only counts asked for since the last clear, and what is shown agrees with it. */
  predicate CountInv(w: Work) {
    && Agrees(w.workspace, w.cache)
    && w.clearedAt <= w.countsSeq
    && (forall n :: n in w.flights && Claim(w.flights[n]).Some? ==>
          Claim(w.flights[n]).value <= w.countsSeq && Claim(w.flights[n]).value != w.clearedAt)
    && (forall p :: p in w.cache ==> w.clearedAt < w.cache[p].askedAt <= w.countsSeq)
  }

  lemma WorkIssueInv(w: Work, env: Env, request: nat)
    requires OrderInv(w, request)
    ensures OrderInv(WorkIssue(w, env, request + 1), request + 1)
    ensures CountInv(w) ==> CountInv(WorkIssue(w, env, request + 1))
  {
  }

  lemma WorkAnswerInv(w: Work, n: nat, resolved: Option<Workspace>, request: nat)
    requires OrderInv(w, request) && n == w.workspaceSeq
    requires n in w.flights && w.flights[n].RefreshFetch? && w.flights[n].request == request
    ensures var t := WorkAnswer(w.(flights := w.flights - {n}), n, w.flights[n].counts, resolved);
      OrderInv(t, request) && (CountInv(w) ==> CountInv(t))
  {
    var t := WorkAnswer(w.(flights := w.flights - {n}), n, w.flights[n].counts, resolved);
    var counts := w.flights[n].counts;
    assert Claim(w.flights[n]) == counts;
    if counts.Some? { RememberStamps(w.cache, RootsOf(resolved), counts.value); }
    if resolved.Some? { WithRememberedAgrees(resolved.value, t.cache); }
  }

  lemma WorkMeasuredInv(w: Work, n: nat, resolved: Workspace, request: nat)
    requires OrderInv(w, request) && n == w.workspaceSeq && resolved.roots.Some?
    requires n in w.flights && w.flights[n].MeasureFetch? && w.flights[n].claim == w.countsSeq
    ensures var t := WorkMeasured(w.(flights := w.flights - {n}), n, w.flights[n].claim, resolved);
      OrderInv(t, request) && (CountInv(w) ==> CountInv(t))
  {
    var t := WorkMeasured(w.(flights := w.flights - {n}), n, w.flights[n].claim, resolved);
    assert Claim(w.flights[n]) == Some(w.flights[n].claim);
    RememberStamps(w.cache, resolved.roots.value, w.flights[n].claim);
    WithRememberedAgrees(resolved, t.cache);
  }

  lemma OvertakenCounts(w: Work, n: nat, resolved: Option<Workspace>)
    requires CountInv(w) && n in w.flights
    ensures CountInv(WorkOvertaken(w.(flights := w.flights - {n}), n, resolved))
  {
    if resolved.Some? { WithRememberedAgrees(resolved.value, w.cache); }
  }

  lemma WorkOvertakenInv(w: Work, n: nat, resolved: Option<Workspace>, request: nat)
    requires OrderInv(w, request)
    requires n in w.flights && w.flights[n].RefreshFetch? && w.flights[n].request == request
    ensures var t := WorkOvertaken(w.(flights := w.flights - {n}), n, resolved);
      OrderInv(t, request) && (CountInv(w) ==> CountInv(t))
  {
    if CountInv(w) { OvertakenCounts(w, n, resolved); }
  }

  lemma WorkFailureInv(w: Work, n: nat, message: string, request: nat)
    requires OrderInv(w, request)
    requires n in w.flights && w.flights[n].RefreshFetch? && w.flights[n].request == request
    ensures var t := WorkFailure(w.(flights := w.flights - {n}), n, message);
      OrderInv(t, request) && (CountInv(w) ==> CountInv(t))
  {
  }

  lemma SettledInv(w: Work, n: nat, request: nat)
    requires OrderInv(w, request) && n in w.flights
    requires w.flights[n].RefreshFetch? ==> w.flights[n].request != request
    ensures OrderInv(w.(flights := w.flights - {n}), request)
    ensures CountInv(w) ==> CountInv(w.(flights := w.flights - {n}))
  {
  }

  lemma RefreshReplyInv(w: Work, env: Env, request: nat, n: nat, reply: Reply<Option<Workspace>>)
    requires OrderInv(w, request) && n in w.flights && w.flights[n].RefreshFetch?
    ensures var t := WorkReply(w, env, request, n, reply); OrderInv(t, request) && (CountInv(w) ==> CountInv(t))
  {
    if w.flights[n].request != request {
      SettledInv(w, n, request);
    } else if reply.Err? {
      WorkFailureInv(w, n, reply.message, request);
    } else if n != w.workspaceSeq {
      WorkOvertakenInv(w, n, reply.value, request);
    } else {
      WorkAnswerInv(w, n, reply.value, request);
    }
  }

  lemma MeasureReplyInv(w: Work, env: Env, request: nat, n: nat, reply: Reply<Option<Workspace>>)
    requires OrderInv(w, request) && n in w.flights && w.flights[n].MeasureFetch?
    ensures var t := WorkReply(w, env, request, n, reply); OrderInv(t, request) && (CountInv(w) ==> CountInv(t))
  {
    if reply.Ok? && env.thread == w.flights[n].forThread
       && reply.value.Some? && reply.value.value.roots.Some?
       && n == w.workspaceSeq && w.flights[n].claim == w.countsSeq {
      WorkMeasuredInv(w, n, reply.value.value, request);
    } else {
      SettledInv(w, n, request);
    }
  }

  lemma WorkReplyInv(w: Work, env: Env, request: nat, n: nat, reply: Reply<Option<Workspace>>)
    requires OrderInv(w, request)
    ensures var t := WorkReply(w, env, request, n, reply); OrderInv(t, request) && (CountInv(w) ==> CountInv(t))
  {
    if n in w.flights {
      if w.flights[n].RefreshFetch? {
        RefreshReplyInv(w, env, request, n, reply);
      } else {
        MeasureReplyInv(w, env, request, n, reply);
      }
    }
  }

  lemma WorkClearInv(w: Work, request: nat)
    requires OrderInv(w, request)
    ensures OrderInv(WorkClear(w), request) && (CountInv(w) ==> CountInv(WorkClear(w)))
  {
    if |RootsOf(w.workspace)| > 0 { WithRememberedAgrees(w.workspace.value, map[]); }
  }

  // ---------------------------------------------------------------- the store

  datatype Store = Store(env: Env, diff: Diff, work: Work)

  datatype Event =
    | Switch(thread: string, context: string)
    | Refresh
    | DiffAnswer(request: nat, data: Reply<Option<string>>)
    | WorkspaceAnswer(n: nat, resolved: Reply<Option<Workspace>>)
    | SetViewRoot(path: string)
    | PinSent
    | TrustSent
    | PinAnswer(pinned: string, pin: Reply<Option<Workspace>>)
    | TrustAnswer(grant: Reply<bool>)
    | Measure(owner: string)
    | StopMeasuring(owner: string)
    | ClearCounts

  function ViewRoot(env: Env): Option<string> {
    if env.thread != "" && env.thread in env.viewRoots then Some(env.viewRoots[env.thread]) else None
  }

  /** `refresh()` up to its awaits. */
  function DoRefresh(s: Store): Store {
    var diff := DiffIssue(s.diff, DiffKey(s.env.context, ViewRoot(s.env)));
    s.(diff := diff, work := WorkIssue(s.work, s.env, diff.requestSeq))
  }

  function ClearError(s: Store): Store { s.(work := s.work.(error := None, kind := NoError)) }

  function RefuseMutation(s: Store, message: string): Store {
    s.(work := s.work.(error := Some(message), kind := MutationError))
  }

  function Step(s: Store, e: Event): Store {
    match e
    case Switch(thread, context) => s.(env := s.env.(thread := thread, context := context))
    case Refresh => DoRefresh(s)
    case DiffAnswer(request, data) => s.(diff := DiffReply(s.diff, request, data))
    case WorkspaceAnswer(n, resolved) =>
      s.(work := WorkReply(s.work, s.env, s.diff.requestSeq, n, resolved))
    case SetViewRoot(path) =>
      if s.env.thread == "" then s
      else
        var roots := if path != "" then s.env.viewRoots[s.env.thread := path]
                     else s.env.viewRoots - {s.env.thread};
        DoRefresh(ClearError(s.(env := s.env.(viewRoots := roots))))
    case PinSent => if s.env.thread == "" then s else ClearError(s)
    case TrustSent => ClearError(s)
    case PinAnswer(pinned, Err(message)) =>
      if s.env.thread != pinned then s else RefuseMutation(s, message)
    case PinAnswer(pinned, Ok(resolved)) =>
      if s.env.thread != pinned then s
      else DoRefresh(s.(env := s.env.(viewRoots := s.env.viewRoots - {pinned}),
                        work := WorkPinned(s.work, resolved)))
    case TrustAnswer(Err(message)) => RefuseMutation(s, message)
    case TrustAnswer(Ok(_)) => DoRefresh(s)
    case Measure(owner) =>
      var env := s.env.(measuring := s.env.measuring + {owner});
      s.(env := env, work := WorkMeasure(s.work, env))
    case StopMeasuring(owner) => s.(env := s.env.(measuring := s.env.measuring - {owner}))
    case ClearCounts => s.(work := WorkClear(s.work))
  }

  function Run(s: Store, run: seq<Event>): Store
    decreases |run|
  {
    if |run| == 0 then s else Run(Step(s, run[0]), run[1..])
  }

  function Fresh(env: Env): Store {
    Store(env,
          Diff(Idle, None, None, 0, None, map[], 0, None, 0),
          Work(None, Idle, None, NoError, None, 0, 0, 0, map[], map[], 0, 0, 0, 0))
  }

  /** What every run keeps, whatever the replies carry. */
  predicate Inv(s: Store) {
    DiffInv(s.diff) && OrderInv(s.work, s.diff.requestSeq)
  }

  /** The relay does not count changed files when it answers a pin. */
  predicate PinsCountFree(run: seq<Event>) {
    forall i :: 0 <= i < |run| ==> PinCountFree(run[i])
  }

  predicate PinCountFree(e: Event) { e.PinAnswer? && e.pin.Ok? ==> CountFree(e.pin.value) }

  lemma RefreshInv(s: Store)
    requires Inv(s)
    ensures Inv(DoRefresh(s)) && (CountInv(s.work) ==> CountInv(DoRefresh(s).work))
  {
    DiffIssueInv(s.diff, DiffKey(s.env.context, ViewRoot(s.env)));
    WorkIssueInv(s.work, s.env, s.diff.requestSeq);
  }

  lemma PinInv(s: Store, pinned: string, resolved: Option<Workspace>)
    requires Inv(s)
    ensures var t := Step(s, PinAnswer(pinned, Ok(resolved)));
      Inv(t) && (CountInv(s.work) && CountFree(resolved) ==> CountInv(t.work))
  {
    if s.env.thread == pinned {
      var t := s.(env := s.env.(viewRoots := s.env.viewRoots - {pinned}),
                  work := WorkPinned(s.work, resolved));
      DiffIssueInv(t.diff, DiffKey(t.env.context, ViewRoot(t.env)));
      PinnedIssueInv(s.work, t.env, s.diff.requestSeq, resolved);
    }
  }

  /** Between the pin's answer and the refresh that follows it the store is never observed. */
  lemma PinnedIssueInv(w: Work, env: Env, request: nat, resolved: Option<Workspace>)
    requires OrderInv(w, request)
    ensures var t := WorkIssue(WorkPinned(w, resolved), env, request + 1);
      OrderInv(t, request + 1) && (CountInv(w) && CountFree(resolved) ==> CountInv(t))
  {
  }

  lemma ViewRootInv(s: Store, path: string)
    requires Inv(s)
    ensures var t := Step(s, SetViewRoot(path)); Inv(t) && (CountInv(s.work) ==> CountInv(t.work))
  {
    if s.env.thread != "" {
      var roots := if path != "" then s.env.viewRoots[s.env.thread := path]
                   else s.env.viewRoots - {s.env.thread};
      RefreshInv(ClearError(s.(env := s.env.(viewRoots := roots))));
    }
  }

  lemma MeasureInv(s: Store, owner: string)
    requires Inv(s)
    ensures var t := Step(s, Measure(owner)); Inv(t) && (CountInv(s.work) ==> CountInv(t.work))
  {
  }

  /** Steps that touch neither a number nor an answer. */
  lemma QuietInv(s: Store, e: Event)
    requires Inv(s)
    requires e.Switch? || e.PinSent? || e.TrustSent? || e.StopMeasuring?
          || (e.PinAnswer? && e.pin.Err?) || (e.TrustAnswer? && e.grant.Err?)
    ensures Inv(Step(s, e)) && (CountInv(s.work) ==> CountInv(Step(s, e).work))
  {
  }

  lemma StepInv(s: Store, e: Event)
    requires Inv(s)
    ensures Inv(Step(s, e)) && (CountInv(s.work) && PinCountFree(e) ==> CountInv(Step(s, e).work))
  {
    match e
    case Refresh => RefreshInv(s);
    case DiffAnswer(request, data) => DiffReplyInv(s.diff, request, data);
    case WorkspaceAnswer(n, resolved) => WorkReplyInv(s.work, s.env, s.diff.requestSeq, n, resolved);
    case SetViewRoot(path) => ViewRootInv(s, path);
    case PinAnswer(pinned, Ok(resolved)) => PinInv(s, pinned, resolved);
    case TrustAnswer(Ok(_)) => RefreshInv(s);
    case ClearCounts => WorkClearInv(s.work, s.diff.requestSeq);
    case Measure(owner) => MeasureInv(s, owner);
    case _ => QuietInv(s, e);
  }

  lemma {:induction false} RunInv(s: Store, run: seq<Event>)
    requires Inv(s)
    ensures Inv(Run(s, run)) && (CountInv(s.work) && PinsCountFree(run) ==> CountInv(Run(s, run).work))
    decreases |run|
  {
    if |run| > 0 {
      StepInv(s, run[0]);
      assert PinsCountFree(run) ==> PinCountFree(run[0]) && PinsCountFree(run[1..]);
      RunInv(Step(s, run[0]), run[1..]);
    }
  }

  // ---------------------------------------------------------------- what every run keeps

  /** Answers respect issue order. In every reachable state, a reply changes the workspace only if
      nothing was issued after its request or the panel was blank; a read failure is on screen
      only while no request issued after it has answered; and once the newest refresh's workspace
      fetch has settled, the status is not "loading". */
  lemma AnswersRespectIssueOrder(env: Env, run: seq<Event>, n: nat, reply: Reply<Option<Workspace>>)
    ensures var s := Run(Fresh(env), run);
      var t := Step(s, WorkspaceAnswer(n, reply));
      && (t.work.workspace != s.work.workspace ==>
            n in s.work.flights && (n == s.work.workspaceSeq || s.work.workspace.None?))
      && (t.work.kind == ReadError ==>
            t.work.answeredSeq <= t.work.readErrorFrom
            && (t.work.workspace.Some? ==> t.work.from <= t.work.readErrorFrom))
      && (s.work.status == Loading ==>
            s.work.current in s.work.flights
            && s.work.flights[s.work.current].RefreshFetch?
            && s.work.flights[s.work.current].request == s.diff.requestSeq)
      && (n == s.work.current && n in s.work.flights ==> t.work.status != Loading)
  {
    RunInv(Fresh(env), run);
    var s := Run(Fresh(env), run);
    StepInv(s, WorkspaceAnswer(n, reply));
    ReplyWrites(s.work, s.env, s.diff.requestSeq, n, reply);
    ReplySettles(s.work, s.env, s.diff.requestSeq, n, reply);
  }

  // ---------------------------------------------------------------- what an answer shows

  /** The panel shows the reply: its directory, its trees in its order, and on each tree exactly the
      count the cache holds for its path. */
  predicate ShowsReply(shown: Option<Workspace>, reply: Option<Workspace>, cache: Cache) {
    && (shown.Some? <==> reply.Some?)
    && (reply.Some? ==>
          && shown.value.cwd == reply.value.cwd && (shown.value.roots.Some? <==> reply.value.roots.Some?)
          && |RootsOf(shown)| == |RootsOf(reply)|
          && forall i :: 0 <= i < |RootsOf(reply)| ==>
               RootsOf(shown)[i].path == RootsOf(reply)[i].path && CountShown(RootsOf(shown)[i], cache))
  }

  predicate CountShown(root: Root, cache: Cache) {
    if root.path in cache then root.count == Some(cache[root.path].count) else root.count == None
  }

  /** The fetch is the newest refresh's own. */
  predicate Current(w: Work, request: nat, n: nat) {
    n in w.flights && w.flights[n].RefreshFetch? && w.flights[n].request == request
  }

  /** A measurement that every later event left standing. */
  predicate Standing(w: Work, env: Env, n: nat) {
    n in w.flights && w.flights[n].MeasureFetch? && w.flights[n].forThread == env.thread
    && n == w.workspaceSeq && w.flights[n].claim == w.countsSeq
  }

  /** What is left of an error after an answer: a refused pin or grant, word for word. */
  predicate KeepsRefusal(before: Work, after: Work) {
    if before.kind == MutationError then after.kind == MutationError && after.error == before.error
    else after.kind == NoError && after.error == None
  }

  lemma ShownIsReply(w: Workspace, cache: Cache)
    ensures ShowsReply(Some(WithRemembered(w, cache)), Some(w), cache)
  {
  }

  /** In every reachable state, what an answered workspace fetch puts on screen. The newest refresh's
      answer, being also the newest request, shows its reply; overtaken by a measurement it fills a
      blank and nothing else; a standing measurement shows its reply; and everything else leaves the
      panel as it was. */
  lemma AnswerShows(env: Env, run: seq<Event>, n: nat, resolved: Option<Workspace>)
    ensures var s := Run(Fresh(env), run);
      var w, t, newest := s.work, Step(s, WorkspaceAnswer(n, Ok(resolved))).work, s.diff.requestSeq;
      if Current(w, newest, n) then
        && t.status == Loaded && KeepsRefusal(w, t)
        && (if n == w.workspaceSeq || w.workspace.None? then ShowsReply(t.workspace, resolved, t.cache)
            else t.workspace == w.workspace)
      else if Standing(w, s.env, n) && resolved.Some? && resolved.value.roots.Some? then
        t.status == Loaded && KeepsRefusal(w, t) && ShowsReply(t.workspace, resolved, t.cache)
      else t == w.(flights := w.flights - {n})
  {
    var s := Run(Fresh(env), run);
    ReplyShows(s.work, s.env, s.diff.requestSeq, n, resolved);
  }

  lemma ReplyShows(w: Work, env: Env, request: nat, n: nat, resolved: Option<Workspace>)
    ensures var t := WorkReply(w, env, request, n, Ok(resolved));
      if Current(w, request, n) then
        && t.status == Loaded && KeepsRefusal(w, t)
        && (if n == w.workspaceSeq || w.workspace.None? then ShowsReply(t.workspace, resolved, t.cache)
            else t.workspace == w.workspace)
      else if Standing(w, env, n) && resolved.Some? && resolved.value.roots.Some? then
        t.status == Loaded && KeepsRefusal(w, t) && ShowsReply(t.workspace, resolved, t.cache)
      else t == w.(flights := w.flights - {n})
  {
    if n !in w.flights { assert w.flights - {n} == w.flights; }
    if resolved.Some? { ShownIsReply(resolved.value, WorkReply(w, env, request, n, Ok(resolved)).cache); }
  }

  /** And a failed one: the newest refresh's shows its message unless something issued after it has
      answered; nothing else shows. */
  lemma FailureShows(env: Env, run: seq<Event>, n: nat, message: string)
    ensures var s := Run(Fresh(env), run);
      var w, t := s.work, Step(s, WorkspaceAnswer(n, Err(message))).work;
      if Current(w, s.diff.requestSeq, n) && w.answeredSeq <= n then
        && t.status == Failed && t.error == Some(message) && t.kind == ReadError
        && t.workspace == w.workspace && t.cache == w.cache
      else t == w.(flights := w.flights - {n})
  {
    var w := Run(Fresh(env), run).work;
    if n !in w.flights { assert w.flights - {n} == w.flights; }
  }

  /** A reply that measured, and is the newest to have done so, shows its own counts: on every tree
      that is the last of its path in the reply, the reply's count or its absence. */
  lemma MeasuredCountsShow(env: Env, run: seq<Event>, n: nat, resolved: Workspace, i: nat)
    requires i < |RootsOf(Some(resolved))| && RootsOf(Some(resolved))[i].path != ""
    requires forall j :: i < j < |RootsOf(Some(resolved))| ==>
      RootsOf(Some(resolved))[j].path != RootsOf(Some(resolved))[i].path
    ensures var s := Run(Fresh(env), run);
      var t := Step(s, WorkspaceAnswer(n, Ok(Some(resolved)))).work;
      (Current(s.work, s.diff.requestSeq, n) && n == s.work.workspaceSeq
       && Claim(s.work.flights[n]) == Some(s.work.countsSeq)) || Standing(s.work, s.env, n) ==>
        |RootsOf(t.workspace)| == |RootsOf(Some(resolved))|
        && RootsOf(t.workspace)[i].count == RootsOf(Some(resolved))[i].count
  {
    var s := Run(Fresh(env), run);
    var w, roots := s.work, RootsOf(Some(resolved));
    AnswerShows(env, run, n, Some(resolved));
    RememberLast(w.cache, roots, w.countsSeq, i);
    var c := Remember(w.cache, roots, w.countsSeq);
    assert roots[i] in roots && roots[i].path in Paths(roots);
    assert roots[i].path in Forget(c, RootsOf(w.workspace), roots) <==> roots[i].path in c;
  }

  /** A standing measurement's reply forgets exactly the trees on screen that it no longer lists: what
      it does not mention and the panel did not show stays cached. */
  lemma TreesForgottenExactly(env: Env, run: seq<Event>, n: nat, resolved: Workspace, path: string)
    requires resolved.roots.Some? && path != ""
    requires forall i :: 0 <= i < |resolved.roots.value| ==> resolved.roots.value[i].path != path
    ensures var s := Run(Fresh(env), run);
      var t := Step(s, WorkspaceAnswer(n, Ok(Some(resolved)))).work;
      Standing(s.work, s.env, n) ==>
        (path in t.cache <==>
           path in s.work.cache
           && forall i :: 0 <= i < |RootsOf(s.work.workspace)| ==> RootsOf(s.work.workspace)[i].path != path)
        && (path in t.cache ==> t.cache[path] == s.work.cache[path])
  {
    var w := Run(Fresh(env), run).work;
    RememberOthers(w.cache, resolved.roots.value, w.countsSeq, path);
    PathListed(RootsOf(w.workspace), path);
    PathListed(resolved.roots.value, path);
  }

  lemma PathListed(roots: seq<Root>, path: string)
    ensures path in Paths(roots) <==> exists i :: 0 <= i < |roots| && roots[i].path == path
  {
    if i :| 0 <= i < |roots| && roots[i].path == path { assert roots[i] in roots; }
  }

  /** What a refresh and a measurement issue: one fetch each, under fresh numbers, a refresh with a
      claim on the counts exactly if somebody is measuring; and without a thread nothing. */
  lemma IssuesFetches(s: Store, owner: string)
    ensures var t := DoRefresh(s);
      && t.diff.requestSeq == s.diff.requestSeq + 1
      && t.diff.flights == s.diff.flights[t.diff.requestSeq := DiffKey(s.env.context, ViewRoot(s.env))]
      && (if s.env.thread != "" && s.env.canFetch then
            && t.work.status == Loading && t.work.workspaceSeq == s.work.workspaceSeq + 1
            && t.work.workspaceSeq in t.work.flights
            && Current(t.work, t.diff.requestSeq, t.work.workspaceSeq)
            && Claim(t.work.flights[t.work.workspaceSeq])
               == (if s.env.measuring == {} then None else Some(t.work.countsSeq))
            && (s.env.measuring == {} <==> t.work.countsSeq == s.work.countsSeq)
            && (s.work.lastThread != Some(s.env.thread) ==> t.work.workspace == None)
            && (s.work.lastThread == Some(s.env.thread) ==> t.work.workspace == s.work.workspace)
          else t.work.workspace == None && t.work.status == Idle && t.work.flights == s.work.flights)
    ensures s.env.thread != "" && s.env.canFetch ==>
      var t := Step(s, Measure(owner)); Standing(t.work, t.env, s.work.workspaceSeq + 1)
  {
  }

  lemma ReplyWrites(w: Work, env: Env, request: nat, n: nat, reply: Reply<Option<Workspace>>)
    ensures WorkReply(w, env, request, n, reply).workspace != w.workspace ==>
      n in w.flights && (n == w.workspaceSeq || w.workspace.None?)
  {
  }

  lemma ReplySettles(w: Work, env: Env, request: nat, n: nat, reply: Reply<Option<Workspace>>)
    ensures WorkReply(w, env, request, n, reply).flights == w.flights - {n}
    ensures WorkReply(w, env, request, n, reply).current == w.current
  {
    if n !in w.flights { assert w.flights - {n} == w.flights; }
  }

  /** The diff on screen belongs to the key of the most recently issued refresh, in every
      interleaving; and once that refresh's diff fetch has settled, what is shown is its own
      answer or its own error. */
  lemma DiffFollowsNewestRefresh(env: Env, run: seq<Event>)
    ensures var d := Run(Fresh(env), run).diff;
      && (d.data.Some? ==> d.dataKey == d.lastKey)
      && (d.requestSeq > 0 && d.requestSeq !in d.flights ==>
            || (d.status == Loaded && d.dataFrom == d.requestSeq && d.error == None)
            || (d.status == Failed && d.errorFrom == d.requestSeq && d.error.Some?))
  {
    RunInv(Fresh(env), run);
  }

  /** Every count on screen is the cached count of its path, and no count asked for before the
      last clear is cached or shown. */
  lemma CountsAgree(env: Env, run: seq<Event>, i: nat)
    requires PinsCountFree(run)
    ensures var w := Run(Fresh(env), run).work;
      i < |RootsOf(w.workspace)| && RootsOf(w.workspace)[i].count.Some? ==>
        var path := RootsOf(w.workspace)[i].path;
        && path in w.cache && w.cache[path].count == RootsOf(w.workspace)[i].count.value
        && w.cache[path].askedAt > w.clearedAt
  {
    RunInv(Fresh(env), run);
  }

  lemma ReplyWritesCache(w: Work, env: Env, request: nat, n: nat, reply: Reply<Option<Workspace>>)
    ensures WorkReply(w, env, request, n, reply).cache != w.cache ==>
      n in w.flights && Claim(w.flights[n]) == Some(w.countsSeq)
  {
  }

  lemma RefreshKeepsCache(s: Store)
    ensures DoRefresh(s).work.cache == s.work.cache
  {
  }

  /** Only the newest-issued measurement writes the cache, apart from a clear. */
  lemma OnlyNewestMeasurementWrites(s: Store, e: Event)
    requires Step(s, e).work.cache != s.work.cache
    ensures e.ClearCounts? ||
      (e.WorkspaceAnswer? && e.n in s.work.flights && Claim(s.work.flights[e.n]) == Some(s.work.countsSeq))
  {
    match e
    case WorkspaceAnswer(n, resolved) => ReplyWritesCache(s.work, s.env, s.diff.requestSeq, n, resolved);
    case Refresh => RefreshKeepsCache(s);
    case SetViewRoot(path) => ViewRootKeepsCache(s, path);
    case PinAnswer(pinned, pin) => PinKeepsCache(s, pinned, pin);
    case TrustAnswer(trust) => RefreshKeepsCache(s);
    case _ =>
  }

  lemma ViewRootKeepsCache(s: Store, path: string)
    ensures Step(s, SetViewRoot(path)).work.cache == s.work.cache
  {
    var roots := if path != "" then s.env.viewRoots[s.env.thread := path]
                 else s.env.viewRoots - {s.env.thread};
    RefreshKeepsCache(ClearError(s.(env := s.env.(viewRoots := roots))));
  }

  lemma PinKeepsCache(s: Store, pinned: string, pin: Reply<Option<Workspace>>)
    ensures Step(s, PinAnswer(pinned, pin)).work.cache == s.work.cache
  {
    if pin.Ok? {
      RefreshKeepsCache(s.(env := s.env.(viewRoots := s.env.viewRoots - {pinned}),
                           work := WorkPinned(s.work, pin.value)));
    }
  }

  /** Exactly when a pin's answer leaves counts and cache in agreement. */
  lemma PinAgreesExactly(s: Store, resolved: Option<Workspace>)
    requires Inv(s) && s.env.thread != "" && s.env.canFetch && s.work.lastThread == Some(s.env.thread)
    ensures var t := Step(s, PinAnswer(s.env.thread, Ok(resolved)));
      Agrees(t.work.workspace, t.work.cache) <==> Agrees(resolved, s.work.cache)
  {
  }

  // ---------------------------------------------------------------- the closure

  /** The record the panels render, replaced wholesale by every `setState`. */
  datatype Panel = Panel(status: Status, data: Option<string>, error: Option<string>,
                         workspace: Option<Workspace>, workspaceStatus: Status,
                         workspaceError: Option<string>, workspaceErrorKind: ErrorKind)

  datatype Counters = Counters(requestSeq: nat, workspaceSeq: nat, workspaceAnsweredSeq: nat, countsSeq: nat)

  datatype History = History(dataFrom: nat, dataKey: Option<DiffKey>, errorFrom: nat, from: nat,
                             readErrorFrom: nat, current: nat, clearedAt: nat)

  function DiffOf(p: Panel, c: Counters, lastKey: Option<DiffKey>, fetches: map<nat, DiffKey>, h: History): Diff {
    Diff(p.status, p.data, p.error, c.requestSeq, lastKey, fetches, h.dataFrom, h.dataKey, h.errorFrom)
  }

  function WorkOf(p: Panel, c: Counters, lastThread: Option<string>, cache: Cache,
                  fetches: map<nat, Fetch>, h: History): Work
  {
    Work(p.workspace, p.workspaceStatus, p.workspaceError, p.workspaceErrorKind, lastThread,
         c.workspaceSeq, c.workspaceAnsweredSeq, c.countsSeq, cache, fetches,
         h.from, h.readErrorFrom, h.current, h.clearedAt)
  }

  /** The closure variables of `createWorkspaceDiffStore` and the functions that assign them, each
      up to its next await. Suspended calls are kept in `diffFetches` and `workspaceFetches`. Every
      entry point is one step of the store and keeps its invariant. */
  class DiffStore {
    var env: Env
    var state: Panel
    var counters: Counters
    var lastKey: Option<DiffKey>
    var lastWorkspaceThread: Option<string>
    var rootCounts: Cache
    var diffFetches: map<nat, DiffKey>
    var workspaceFetches: map<nat, Fetch>
    ghost var history: History

    ghost function DiffNow(): Diff
      reads this
    {
      DiffOf(state, counters, lastKey, diffFetches, history)
    }

    ghost function WorkNow(): Work
      reads this
    {
      WorkOf(state, counters, lastWorkspaceThread, rootCounts, workspaceFetches, history)
    }

    ghost function Now(): Store
      reads this
    {
      Store(env, DiffNow(), WorkNow())
    }

    ghost predicate Valid()
      reads this
    {
      Inv(Now())
    }

    constructor (env: Env)
      ensures Valid() && Now() == Fresh(env)
    {
      this.env := env;
      state := Panel(Idle, None, None, None, Idle, None, NoError);
      counters := Counters(0, 0, 0, 0);
      lastKey, lastWorkspaceThread, rootCounts := None, None, map[];
      diffFetches, workspaceFetches := map[], map[];
      history := History(0, None, 0, 0, 0, 0, 0);
    }

    /** Accept or refuse a measurement's numbers, root by root. */
    method RememberRootCounts(roots: seq<Root>, seqNo: nat) returns (accepted: bool)
      modifies this`rootCounts
      ensures accepted <==> seqNo == counters.countsSeq
      ensures rootCounts == if accepted then Remember(old(rootCounts), roots, seqNo) else old(rootCounts)
    {
      if seqNo != counters.countsSeq {
        return false;
      }
      var i := 0;
      while i < |roots|
        invariant 0 <= i <= |roots|
        invariant Remember(rootCounts, roots[i..], seqNo) == Remember(old(rootCounts), roots, seqNo)
      {
        var root := roots[i];
        assert roots[i..][0] == root && roots[i..][1..] == roots[i + 1..];
        i := i + 1;
        if root.path == "" {
          continue;
        }
        if root.count.Some? {
          rootCounts := rootCounts[root.path := Known(root.count.value, seqNo)];
        } else {
          rootCounts := rootCounts - {root.path};
        }
      }
      return true;
    }

    /** Drop the cached count of every tree the measurement no longer lists. */
    method ForgetRootsMissingFrom(previous: seq<Root>, measured: seq<Root>)
      modifies this`rootCounts
      ensures rootCounts == Forget(old(rootCounts), previous, measured)
    {
      var present := Paths(measured);
      assert previous[..0] == [];
      for i := 0 to |previous|
        invariant rootCounts == old(rootCounts) - (Paths(previous[..i]) - present - {""})
      {
        var root := previous[i];
        assert previous[..i + 1] == previous[..i] + [root];
        assert Paths(previous[..i + 1]) == Paths(previous[..i]) + {root.path};
        if root.path != "" && root.path !in present {
          rootCounts := rootCounts - {root.path};
        }
      }
      assert previous[..|previous|] == previous;
    }

    method KeepRefusal()
      modifies this`state
      ensures WorkNow() == KeepingRefusal(old(WorkNow())) && DiffNow() == old(DiffNow())
    {
      if state.workspaceErrorKind != MutationError {
        state := state.(workspaceError := None, workspaceErrorKind := NoError);
      }
    }

    /** `refreshWorkspace` up to its await. */
    method RefreshWorkspace(request: nat)
      modifies this`state, this`counters, this`lastWorkspaceThread, this`workspaceFetches, this`history
      ensures WorkNow() == WorkIssue(old(WorkNow()), env, request) && DiffNow() == old(DiffNow())
    {
      var switched := Some(env.thread) != lastWorkspaceThread;
      lastWorkspaceThread := Some(env.thread);
      if env.thread == "" || !env.canFetch {
        state := state.(workspace := None, workspaceStatus := Idle, workspaceError := None,
                        workspaceErrorKind := NoError);
        history := history.(current := 0);
        return;
      }
      if switched {
        state := state.(workspace := None, workspaceError := None, workspaceErrorKind := NoError);
      }
      state := state.(workspaceStatus := Loading);
      var countsAtIssue := None;
      if env.measuring != {} {
        counters := counters.(countsSeq := counters.countsSeq + 1);
        countsAtIssue := Some(counters.countsSeq);
      }
      counters := counters.(workspaceSeq := counters.workspaceSeq + 1);
      history := history.(current := counters.workspaceSeq);
      workspaceFetches := workspaceFetches[counters.workspaceSeq := RefreshFetch(request, countsAtIssue)];
    }

    /** `refresh()` up to its awaits: every diff fetch already out is overtaken, and a diff of
        another key leaves the screen at once. */
    method RefreshNow()
      modifies this
      ensures old(Valid()) ==> Valid()
      ensures Now() == DoRefresh(old(Now()))
      ensures state.status == Loading && state.error == None
      ensures state.data == if lastKey != old(lastKey) then None else old(state).data
      ensures counters.requestSeq in diffFetches
      ensures env.thread != "" && env.canFetch ==> Current(WorkNow(), counters.requestSeq, counters.workspaceSeq)
      ensures old(Valid()) ==> forall r :: r in old(diffFetches) ==> r in diffFetches && r < counters.requestSeq
    {
      ghost var before := Now();
      if Inv(before) { RefreshInv(before); }
      counters := counters.(requestSeq := counters.requestSeq + 1);
      var key := DiffKey(env.context, ViewRoot(env));
      var viewChanged := Some(key) != lastKey;
      lastKey := Some(key);
      RefreshWorkspace(counters.requestSeq);
      state := state.(status := Loading, error := None, data := if viewChanged then None else state.data);
      diffFetches := diffFetches[counters.requestSeq := key];
    }

    /** A diff reply: only the newest refresh's shows, and it ends the loading. */
    method DiffAnswered(request: nat, reply: Reply<Option<string>>)
      requires Valid() && request in diffFetches
      modifies this`state, this`diffFetches, this`history
      ensures Valid() && Now() == Step(old(Now()), DiffAnswer(request, reply))
      ensures request != counters.requestSeq ==> state == old(state)
      ensures request == counters.requestSeq && reply.Ok? ==>
        state.status == Loaded && state.data == reply.value && state.error == None
      ensures request == counters.requestSeq && reply.Err? ==>
        state.status == Failed && state.error == Some(reply.message) && state.data == old(state).data
    {
      StepInv(Now(), DiffAnswer(request, reply));
      var key := diffFetches[request];
      diffFetches := diffFetches - {request};
      if request != counters.requestSeq {
        return;
      }
      match reply {
        case Ok(answer) =>
          state := state.(status := Loaded, data := answer, error := None);
          history := history.(dataFrom := request, dataKey := Some(key));
        case Err(message) =>
          state := state.(status := Failed, error := Some(message));
          history := history.(errorFrom := request);
      }
    }

    method NoteAnswered(n: nat)
      modifies this`counters
      ensures counters == old(counters).(workspaceAnsweredSeq := Max(old(counters).workspaceAnsweredSeq, n))
    {
      counters := counters.(workspaceAnsweredSeq := Max(counters.workspaceAnsweredSeq, n));
    }

    /** The rest of a refresh's workspace fetch: answered, overtaken or failed. */
    method RefreshAnswered(n: nat, counts: Option<nat>, reply: Reply<Option<Workspace>>)
      modifies this`state, this`counters, this`rootCounts, this`history
      ensures DiffNow() == old(DiffNow())
      ensures WorkNow() ==
        if reply.Err? then WorkFailure(old(WorkNow()), n, reply.message)
        else if n != old(counters).workspaceSeq then WorkOvertaken(old(WorkNow()), n, reply.value)
        else WorkAnswer(old(WorkNow()), n, counts, reply.value)
    {
      if reply.Err? {
        if counters.workspaceAnsweredSeq > n {
          return;
        }
        state := state.(workspaceStatus := Failed, workspaceError := Some(reply.message),
                        workspaceErrorKind := ReadError);
        history := history.(readErrorFrom := n);
        return;
      }
      var resolved := reply.value;
      if n == counters.workspaceSeq && counts.Some? {
        var _ := RememberRootCounts(RootsOf(resolved), counts.value);
      }
      NoteAnswered(n);
      if n == counters.workspaceSeq || state.workspace.None? {
        state := state.(workspace := if resolved.Some? then Some(WithRemembered(resolved.value, rootCounts)) else None);
        history := history.(from := n);
      }
      state := state.(workspaceStatus := Loaded);
      KeepRefusal();
    }

    /** The rest of a measurement, guard by guard. */
    method MeasureAnswered(n: nat, forThread: string, claim: nat, reply: Reply<Option<Workspace>>)
      modifies this`state, this`counters, this`rootCounts, this`history
      ensures DiffNow() == old(DiffNow())
      ensures WorkNow() ==
        if reply.Err? || env.thread != forThread || reply.value.None? || reply.value.value.roots.None?
           || n != old(counters).workspaceSeq || claim != old(counters).countsSeq
        then old(WorkNow()) else WorkMeasured(old(WorkNow()), n, claim, reply.value.value)
    {
      if reply.Err? || env.thread != forThread { return; }
      if reply.value.None? || reply.value.value.roots.None? { return; }
      var resolved := reply.value.value;
      var counted := resolved.roots.value;
      if n != counters.workspaceSeq { return; }
      var accepted := RememberRootCounts(counted, claim);
      if !accepted { return; }
      ForgetRootsMissingFrom(RootsOf(state.workspace), counted);
      NoteAnswered(n);
      state := state.(workspace := Some(WithRemembered(resolved, rootCounts)), workspaceStatus := Loaded);
      history := history.(from := n);
      KeepRefusal();
    }

    /** A workspace reply never replaces an answer to a request issued after its own, and reaches
        the count cache only with the newest measurement's number. */
    method WorkspaceAnswered(n: nat, reply: Reply<Option<Workspace>>)
      requires Valid() && n in workspaceFetches
      modifies this
      ensures Valid() && Now() == Step(old(Now()), WorkspaceAnswer(n, reply))
      ensures state.workspace != old(state).workspace ==> n == old(counters).workspaceSeq || old(state).workspace.None?
      ensures reply.Ok? && Current(old(WorkNow()), counters.requestSeq, n) ==>
        && state.workspaceStatus == Loaded
        && (n == old(counters).workspaceSeq || old(state).workspace.None? ==>
              ShowsReply(state.workspace, reply.value, rootCounts))
      ensures reply.Ok? && Standing(old(WorkNow()), env, n) && reply.value.Some? && reply.value.value.roots.Some? ==>
        ShowsReply(state.workspace, reply.value, rootCounts)
      ensures rootCounts != old(rootCounts) ==> Claim(old(workspaceFetches)[n]) == Some(old(counters).countsSeq)
    {
      StepInv(Now(), WorkspaceAnswer(n, reply));
      ReplyWrites(WorkNow(), env, counters.requestSeq, n, reply);
      ReplyWritesCache(WorkNow(), env, counters.requestSeq, n, reply);
      if reply.Ok? { ReplyShows(WorkNow(), env, counters.requestSeq, n, reply.value); }
      Settle(n, reply);
    }

    method Settle(n: nat, reply: Reply<Option<Workspace>>)
      requires n in workspaceFetches
      modifies this
      ensures env == old(env) && DiffNow() == old(DiffNow())
      ensures WorkNow() == WorkReply(old(WorkNow()), env, old(counters).requestSeq, n, reply)
    {
      var fetch := workspaceFetches[n];
      workspaceFetches := workspaceFetches - {n};
      match fetch {
        case RefreshFetch(request, counts) =>
          if request != counters.requestSeq { return; }
          RefreshAnswered(n, counts, reply);
        case MeasureFetch(forThread, claim) =>
          MeasureAnswered(n, forThread, claim, reply);
      }
    }

    /** A measurement changes nothing on screen when it is issued, and takes the place of every
        request already out in both queues. */
    method MeasureRoots(owner: string)
      requires Valid()
      modifies this
      ensures Valid() && Now() == Step(old(Now()), Measure(owner))
      ensures state == old(state) && rootCounts == old(rootCounts)
      ensures env.thread != "" && env.canFetch ==> Standing(WorkNow(), env, counters.workspaceSeq)
      ensures env.thread != "" && env.canFetch ==>
        forall n :: n in old(workspaceFetches) ==>
          n < counters.workspaceSeq && Claim(old(workspaceFetches)[n]) != Some(counters.countsSeq)
    {
      StepInv(Now(), Measure(owner));
      env := env.(measuring := env.measuring + {owner});
      if env.thread == "" || !env.canFetch { return; }
      counters := counters.(countsSeq := counters.countsSeq + 1, workspaceSeq := counters.workspaceSeq + 1);
      workspaceFetches := workspaceFetches[counters.workspaceSeq := MeasureFetch(env.thread, counters.countsSeq)];
    }

    /** After a clear no count is on screen or cached, and none that is on its way will be accepted. */
    method ClearRootCounts()
      requires Valid()
      modifies this
      ensures Valid() && Now() == Step(old(Now()), ClearCounts)
      ensures CountFree(state.workspace) && rootCounts == map[]
      ensures forall n :: n in workspaceFetches ==> Claim(workspaceFetches[n]) != Some(counters.countsSeq)
    {
      StepInv(Now(), ClearCounts);
      rootCounts := map[];
      counters := counters.(countsSeq := counters.countsSeq + 1);
      history := history.(clearedAt := counters.countsSeq);
      if |RootsOf(state.workspace)| > 0 {
        state := state.(workspace := Some(WithRemembered(state.workspace.value, rootCounts)));
      }
    }

    /** A preview root is this thread's alone, and clears what was shown as an error. */
    method SetViewRoot(path: string)
      requires Valid()
      modifies this
      ensures Valid() && Now() == Step(old(Now()), Event.SetViewRoot(path))
      ensures env.thread != "" ==> ViewRoot(env) == (if path != "" then Some(path) else None)
      ensures forall t :: t != env.thread ==>
        (t in env.viewRoots <==> t in old(env).viewRoots)
        && (t in env.viewRoots ==> env.viewRoots[t] == old(env).viewRoots[t])
    {
      StepInv(Now(), Event.SetViewRoot(path));
      if env.thread == "" { return; }
      if path != "" {
        env := env.(viewRoots := env.viewRoots[env.thread := path]);
      } else {
        env := env.(viewRoots := env.viewRoots - {env.thread});
      }
      state := state.(workspaceError := None, workspaceErrorKind := NoError);
      RefreshNow();
    }

    /** `pinWorkspace` after its await, in the try and in the catch: another thread's answer changes
        nothing, a refusal only the error, and an accepted pin ends the preview. */
    method PinAnswered(pinned: string, reply: Reply<Option<Workspace>>)
      requires Valid()
      modifies this
      ensures Valid() && Now() == Step(old(Now()), PinAnswer(pinned, reply))
      ensures old(env).thread != pinned ==> Now() == old(Now())
      ensures old(env).thread == pinned && reply.Err? ==>
        state == old(state).(workspaceError := Some(reply.message), workspaceErrorKind := MutationError)
      ensures old(env).thread == pinned && reply.Ok? ==> ViewRoot(env) == None && state.status == Loading
      ensures old(env).thread == pinned != "" && reply.Ok? && env.canFetch
              && old(lastWorkspaceThread) == Some(pinned) ==>
        state.workspace == reply.value
    {
      StepInv(Now(), PinAnswer(pinned, reply));
      if env.thread != pinned { return; }
      match reply
      case Err(message) =>
        state := state.(workspaceError := Some(message), workspaceErrorKind := MutationError);
      case Ok(resolved) =>
        env := env.(viewRoots := env.viewRoots - {pinned});
        state := state.(workspace := resolved, workspaceStatus := Loaded, workspaceError := None,
                        workspaceErrorKind := NoError);
        history := history.(from := counters.workspaceSeq);
        RefreshNow();
    }

    /** `trustWorkspace` after its await: a refusal changes only the error, a grant refetches. */
    method TrustAnswered(reply: Reply<bool>)
      requires Valid()
      modifies this
      ensures Valid() && Now() == Step(old(Now()), TrustAnswer(reply))
      ensures reply.Err? ==>
        state == old(state).(workspaceError := Some(reply.message), workspaceErrorKind := MutationError)
      ensures reply.Ok? ==> state.status == Loading && counters.requestSeq in diffFetches
    {
      StepInv(Now(), TrustAnswer(reply));
      match reply
      case Err(message) =>
        state := state.(workspaceError := Some(message), workspaceErrorKind := MutationError);
      case Ok(_) => RefreshNow();
    }
  }
}
