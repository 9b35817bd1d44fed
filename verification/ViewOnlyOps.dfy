/** The read-only pin's fetch protocol (frontend/local/view-only-refresh-ops.js): numbered tail
    loads, one older-page load at a time, live deltas, releases, and replies in any order. */
module ViewOnlyOps {
  import opened Options
  import opened PinMerge

  datatype Pin = Pin(view: View, generation: nat, loading: bool, error: bool, wasWorking: bool,
                     tailGap: bool, deltaDuringFetch: bool)

  /** A suspended tail load: its locals. */
  datatype TailFlight = TailFlight(threadId: string, terminal: bool, prior: Option<Pin>)

  datatype OlderFlight = OlderFlight(threadId: string, generation: nat, cursor: nat)

  /** The client's state, its suspended loads, and what lies behind them. */
  datatype Ops = Ops(pin: Option<Pin>, generation: nat, tails: map<nat, TailFlight>,
                     olderLoading: bool, older: seq<OlderFlight>, net: Net)

  const Start := Ops(None, 0, map[], false, [], Net(map[], map[], map[], 0, map[], map[], map[]))

  // ---------------------------------------------------------------- requests

  datatype Fate = Waiting | Answered(at: nat) | Cancelled

  /** A tail request of a thread: the log's length when it was sent, and when it was answered. */
  datatype Request = Request(threadId: string, sentAt: nat, fate: Fate)

  /** A load's share in a request; `base` is how long the log was when the thread's last request
      before it had been answered. */
  datatype Join = Join(request: nat, base: nat)

  /** The logs and the query layer. A thread has at most one tail request out: whoever asks
      meanwhile, this pin or another reader, joins it. `done` is the length at which the thread's
      last request was answered, `asked` the length at which an older cursor was first asked for. */
  datatype Net = Net(length: map<string, nat>, out: map<string, nat>, requests: map<nat, Request>, next: nat,
                     done: map<string, nat>, joined: map<nat, Join>, asked: map<(string, nat), nat>)

  function Length(n: Net, threadId: string): nat { if threadId in n.length then n.length[threadId] else 0 }

  function Done(n: Net, threadId: string): nat { if threadId in n.done then n.done[threadId] else 0 }

  /** `fetchQuery` for a thread's tail: start a request unless one is out. */
  function Send(n: Net, t: string): Net {
    if t in n.out then n
    else n.(out := n.out[t := n.next], requests := n.requests[n.next := Request(t, Length(n, t), Waiting)],
            next := n.next + 1)
  }

  function JoinTail(n: Net, g: nat, t: string): Net {
    var m := Send(n, t);
    m.(joined := m.joined[g := Join(m.out[t], Done(m, t))])
  }

  function Resolve(n: Net, t: string): Net {
    if t !in n.out || n.out[t] !in n.requests then n
    else n.(out := n.out - {t}, done := n.done[t := Length(n, t)],
            requests := n.requests[n.out[t] := n.requests[n.out[t]].(fate := Answered(Length(n, t)))])
  }

  /** `removeQueries`: whoever waits for the request is rejected. */
  function Evict(n: Net, t: string): Net {
    if t !in n.out || n.out[t] !in n.requests then n
    else n.(out := n.out - {t}, requests := n.requests[n.out[t] := n.requests[n.out[t]].(fate := Cancelled)])
  }

  function Ask(n: Net, t: string, cursor: nat): Net {
    if (t, cursor) in n.asked then n else n.(asked := n.asked[(t, cursor) := Length(n, t)])
  }

  // ---------------------------------------------------------------- the pins a load writes

  function PriorFor(s: Ops, threadId: string): Option<Pin> {
    if s.pin.Some? && s.pin.value.view.threadId == threadId then s.pin else None
  }

  function EntriesOf(pin: Option<Pin>, threadId: string): View {
    if pin.Some? then pin.value.view.(threadId := threadId) else View(threadId, [], None, false)
  }

  predicate WasWorking(pin: Option<Pin>) { pin.Some? && pin.value.wasWorking }
  predicate TailGap(pin: Option<Pin>) { pin.Some? && pin.value.tailGap }
  predicate DeltaDuringFetch(pin: Option<Pin>) { pin.Some? && pin.value.deltaDuringFetch }

  function LoadingPin(prior: Option<Pin>, threadId: string, generation: nat, isWorking: bool): Pin {
    Pin(EntriesOf(prior, threadId), generation, true, false, isWorking || WasWorking(prior),
        TailGap(prior), false)
  }

  /** `resolveViewOnlyPinWasWorkingAfterFetch` */
  predicate WasWorkingAfterFetch(live: Option<Pin>, isWorking: bool, terminal: bool) {
    if terminal && !DeltaDuringFetch(live) then isWorking else isWorking || WasWorking(live)
  }

  /** The pin a settled load leaves: merged on success, kept as it was on a failed fetch or a
      response for another thread. */
  function SettledPin(live: Option<Pin>, flight: TailFlight, generation: nat,
                      response: Option<Response>, isWorking: bool): Pin
  {
    var page := if response.Some? then NormalizePage(response.value, flight.threadId) else None;
    var view := if live.Some? then Some(live.value.view) else None;
    Pin(if page.Some? then Refreshed(flight.threadId, MergeRefreshed(view, page.value))
        else EntriesOf(live, flight.threadId),
        generation, false, page.None?, WasWorkingAfterFetch(live, isWorking, flight.terminal),
        TailGap(live) && DeltaDuringFetch(live), false)
  }

  /** `pinForGeneration`: the pin as it stands now if this load still owns it, else its prior. */
  function LivePin(s: Ops, flight: TailFlight, generation: nat): Option<Pin> {
    if s.pin.Some? && s.pin.value.view.threadId == flight.threadId && s.pin.value.generation == generation
    then s.pin else flight.prior
  }

  // ---------------------------------------------------------------- steps

  datatype Event =
    | Grow(threadId: string, count: nat)
    | OtherReader(threadId: string)                // somebody else asks for the same tail
    | RequestAnswered(threadId: string)
    | RequestEvicted(threadId: string)
    | Load(threadId: string, eligible: bool, isWorking: bool, terminal: bool)
    | TailReply(generation: nat, response: Option<Response>, isWorking: bool)
    | Release
    | OlderLoad(viewThreadId: string)
    | OlderReply(response: Option<Response>)
    | DeltaAppend(entry: Entry, at: nat)
    | DeltaEdit(index: nat, body: string, seqNo: Option<int>)
    | DeltaRefused

  function Step(s: Ops, e: Event): Ops {
    match e
    case Grow(t, count) => s.(net := s.net.(length := s.net.length[t := Length(s.net, t) + count]))
    case OtherReader(t) => s.(net := Send(s.net, t))
    case RequestAnswered(t) => s.(net := Resolve(s.net, t))
    case RequestEvicted(t) => s.(net := Evict(s.net, t))
    case Load(t, eligible, isWorking, terminal) => DoLoad(s, t, eligible, isWorking, terminal)
    case TailReply(g, response, isWorking) => DoTailReply(s, g, response, isWorking)
    case Release => s.(pin := None)
    case OlderLoad(t) => DoOlderLoad(s, t)
    case OlderReply(response) => DoOlderReply(s, response)
    case DeltaAppend(entry, _) =>
      if s.pin.None? then s
      else s.(pin := Some(Streamed(s.pin.value, s.pin.value.view.entries + [entry])))
    case DeltaEdit(i, body, seqNo) =>
      if s.pin.None? || i >= |s.pin.value.view.entries| then s
      else s.(pin := Some(Streamed(s.pin.value, Edited(s.pin.value.view.entries, i, body, seqNo))))
    case DeltaRefused =>
      if s.pin.None? then s
      else
        var p := s.pin.value;
        s.(pin := Some(p.(tailGap := true, deltaDuringFetch := p.deltaDuringFetch || p.loading)))
  }

  /** A delta to a held entry changes its text, and gives it its number if it has none. */
  function Edited(entries: seq<Entry>, i: nat, body: string, seqNo: Option<int>): seq<Entry>
    requires i < |entries|
  {
    entries[i := entries[i].(body := body, seqNo := if entries[i].seqNo.Some? then entries[i].seqNo else seqNo)]
  }

  /** `applyDeltaToViewOnlyPin` for a delta that applies. */
  function Streamed(p: Pin, entries: seq<Entry>): Pin {
    p.(view := p.view.(entries := entries), wasWorking := true,
       deltaDuringFetch := p.deltaDuringFetch || p.loading)
  }

  function DoLoad(s: Ops, t: string, eligible: bool, isWorking: bool, terminal: bool): Ops {
    if !eligible then s.(pin := None)
    else
      var g := s.generation + 1;
      var prior := PriorFor(s, t);
      s.(generation := g, pin := Some(LoadingPin(prior, t, g, isWorking)),
         tails := s.tails[g := TailFlight(t, terminal, prior)], net := JoinTail(s.net, g, t))
  }

  function DoTailReply(s: Ops, g: nat, response: Option<Response>, isWorking: bool): Ops {
    if g !in s.tails then s
    else
      var flight := s.tails[g];
      var t := s.(tails := s.tails - {g});
      if g != s.generation then t
      else t.(pin := Some(SettledPin(LivePin(s, flight, g), flight, g, response, isWorking)))
  }

  function DoOlderLoad(s: Ops, viewThreadId: string): Ops {
    if s.pin.None? || viewThreadId != s.pin.value.view.threadId then s
    else if s.pin.value.view.olderCursor.None? then s
    else if s.pin.value.loading || s.olderLoading then s
    else s.(olderLoading := true,
            older := s.older + [OlderFlight(viewThreadId, s.pin.value.generation,
                                            s.pin.value.view.olderCursor.value)],
            net := Ask(s.net, viewThreadId, s.pin.value.view.olderCursor.value))
  }

  /** What `mergeOlderViewOnlyPage` sees of a response; `None` is anything without the thread's id. */
  function OlderPageOf(response: Response): Option<Page> {
    match response
    case PageObject(page) => Some(page)
    case Entryless(threadId, prevCursor) => Some(Page(threadId, [], prevCursor))
    case _ => None
  }

  function DoOlderReply(s: Ops, response: Option<Response>): Ops {
    if |s.older| == 0 then s
    else
      var flight := s.older[0];
      var t := s.(olderLoading := false, older := s.older[1..]);
      if response.None? || OlderPageOf(response.value).None? || s.pin.None?
         || s.pin.value.generation != flight.generation || s.pin.value.view.threadId != flight.threadId
      then t
      else t.(pin := Some(s.pin.value.(view := MergeOlder(s.pin.value.view, OlderPageOf(response.value).value))))
  }

  function Run(s: Ops, run: seq<Event>): Ops
    decreases |run|
  {
    if |run| == 0 then s else Run(Step(s, run[0]), run[1..])
  }

  // ---------------------------------------------------------------- generation safety

  /** Generation discipline, over every event whatever the replies carry. */
  predicate Disciplined(s: Ops) {
    && (forall g :: g in s.tails ==> g <= s.generation)
    && (forall g :: g in s.tails && s.tails[g].prior.Some? ==>
          s.tails[g].prior.value.view.threadId == s.tails[g].threadId
          && s.tails[g].prior.value.generation < g)
    && (s.pin.Some? ==> s.pin.value.generation <= s.generation)
    && (s.pin.Some? && s.pin.value.loading ==>
          s.pin.value.generation == s.generation && s.generation in s.tails
          && s.tails[s.generation].threadId == s.pin.value.view.threadId)
    && (s.pin.Some? && !s.pin.value.loading ==> s.pin.value.generation !in s.tails)
    && |s.older| == (if s.olderLoading then 1 else 0)
    && (|s.older| > 0 ==> s.older[0].generation <= s.generation && s.older[0].generation !in s.tails)
    && (|s.older| > 0 && s.pin.Some? && s.pin.value.generation == s.older[0].generation
        && s.pin.value.view.threadId == s.older[0].threadId ==>
          !s.pin.value.loading && s.pin.value.view.olderCursor == Some(s.older[0].cursor))
  }

  lemma StepDisciplined(s: Ops, e: Event)
    requires Disciplined(s)
    ensures Disciplined(Step(s, e))
  {
    match e
    case Load(t, eligible, isWorking, terminal) => LoadDisciplined(s, t, eligible, isWorking, terminal);
    case TailReply(g, response, isWorking) => ReplyDisciplined(s, g, response, isWorking);
    case _ =>
  }

  lemma LoadDisciplined(s: Ops, t: string, eligible: bool, isWorking: bool, terminal: bool)
    requires Disciplined(s)
    ensures Disciplined(DoLoad(s, t, eligible, isWorking, terminal))
  {
  }

  lemma ReplyDisciplined(s: Ops, g: nat, response: Option<Response>, isWorking: bool)
    requires Disciplined(s)
    ensures Disciplined(DoTailReply(s, g, response, isWorking))
  {
  }

  lemma {:induction false} RunDisciplined(s: Ops, run: seq<Event>)
    requires Disciplined(s)
    ensures Disciplined(Run(s, run))
    decreases |run|
  {
    if |run| > 0 {
      StepDisciplined(s, run[0]);
      RunDisciplined(Step(s, run[0]), run[1..]);
    }
  }

  /** In every reachable state: a pin marked loading has the current generation's fetch out; only
      that fetch may write a settled pin; and however it settles (a page, a failure, or another
      thread's page), loading ends and the failure shows. */
  lemma GenerationSafety(run: seq<Event>, g: nat, response: Option<Response>, isWorking: bool)
    ensures var s := Run(Start, run);
      var t := Step(s, TailReply(g, response, isWorking));
      && (s.pin.Some? && s.pin.value.loading ==> s.generation in s.tails)
      && (g != s.generation ==> t.pin == s.pin)
      && (g in s.tails && g == s.generation ==>
            && t.pin.Some? && !t.pin.value.loading && t.pin.value.generation == g
            && t.pin.value.view.threadId == s.tails[g].threadId
            && (t.pin.value.error <==>
                  response.None? || NormalizePage(response.value, s.tails[g].threadId).None?))
  {
    RunDisciplined(Start, run);
  }

  /** An older page is merged only into the generation, thread and cursor it was requested
      against, whatever was loaded, released or merged meanwhile. */
  lemma OlderOwnGeneration(run: seq<Event>, response: Option<Response>)
    ensures var s := Run(Start, run);
      var t := Step(s, OlderReply(response));
      t.pin != s.pin ==>
        && |s.older| == 1 && s.pin.Some? && t.pin.Some?
        && s.pin.value.generation == s.older[0].generation
        && s.pin.value.view.threadId == s.older[0].threadId
        && s.pin.value.view.olderCursor == Some(s.older[0].cursor)
        && t.pin.value == s.pin.value.(view := t.pin.value.view)
  {
    RunDisciplined(Start, run);
  }

  /** What a load does when it is issued: a thread that cannot be viewed loses its pin and asks for
      nothing; any other gets a loading pin under a new generation, with the entries already held
      of that same thread and its own share in a tail request. */
  lemma LoadIssues(s: Ops, t: string, isWorking: bool, terminal: bool)
    ensures var u := Step(s, Load(t, false, isWorking, terminal));
      u.pin == None && u.tails == s.tails && u.generation == s.generation && u.net == s.net
    ensures Step(s, Release) == s.(pin := None)
    ensures var u := Step(s, Load(t, true, isWorking, terminal));
      var g := s.generation + 1;
      && u.generation == g && g in u.tails && u.tails[g].threadId == t && g in u.net.joined && t in u.net.out
      && u.pin.Some? && u.pin.value.loading && !u.pin.value.error && u.pin.value.generation == g
      && u.pin.value.view.threadId == t
      && (if s.pin.Some? && s.pin.value.view.threadId == t
          then u.pin.value.view == s.pin.value.view && u.tails[g].prior == s.pin
          else u.pin.value.view.entries == [] && u.pin.value.view.olderCursor == None && u.tails[g].prior == None)
      && (u.pin.value.wasWorking <==>
            isWorking || (s.pin.Some? && s.pin.value.view.threadId == t && s.pin.value.wasWorking))
  {
  }

  /** Exactly when an older page is asked for: the pin of the viewed thread has a cursor, no tail load
      is out for it and no other older page; and the request is for that cursor and generation. */
  lemma OlderLoadIssuesExactly(s: Ops, viewThreadId: string)
    ensures var u := Step(s, OlderLoad(viewThreadId));
      if s.pin.Some? && s.pin.value.view.threadId == viewThreadId && s.pin.value.view.olderCursor.Some?
         && !s.pin.value.loading && !s.olderLoading
      then u.pin == s.pin && u.olderLoading
           && u.older == s.older + [OlderFlight(viewThreadId, s.pin.value.generation,
                                                s.pin.value.view.olderCursor.value)]
      else u == s
  {
  }

  /** A delta that applies reaches the entries: the newest one is appended, or the edited one gets its
      text and, if it had none, its number, and no other entry changes. A refused one changes no
      entry and raises the gap. */
  lemma DeltaReaches(s: Ops, entry: Entry, at: nat, i: nat, body: string, seqNo: Option<int>)
    requires s.pin.Some?
    ensures var p, u := s.pin.value, Step(s, DeltaAppend(entry, at));
      u.pin.Some? && u.pin.value.view.entries == p.view.entries + [entry] && u.pin.value.wasWorking
      && u.pin.value.tailGap == p.tailGap
    ensures var p, u := s.pin.value, Step(s, DeltaEdit(i, body, seqNo));
      i < |p.view.entries| ==>
        && u.pin.Some? && |u.pin.value.view.entries| == |p.view.entries| && u.pin.value.wasWorking
        && (forall k :: 0 <= k < |p.view.entries| && k != i ==> u.pin.value.view.entries[k] == p.view.entries[k])
        && u.pin.value.view.entries[i].id == p.view.entries[i].id && u.pin.value.view.entries[i].body == body
        && (p.view.entries[i].seqNo.Some? ==> u.pin.value.view.entries[i].seqNo == p.view.entries[i].seqNo)
        && (p.view.entries[i].seqNo.None? ==> u.pin.value.view.entries[i].seqNo == seqNo)
    ensures var p, u := s.pin.value, Step(s, DeltaRefused);
      u.pin.Some? && u.pin.value.view == p.view && u.pin.value.tailGap && u.pin.value.wasWorking == p.wasWorking
  {
  }

  /** How a settled load leaves the working mark: a thread still at work keeps it, an idle one loses
      it exactly if the load was the turn's last and no delta came while it was out. */
  lemma WorkingSettlement(s: Ops, response: Option<Response>, isWorking: bool)
    requires Disciplined(s) && s.pin.Some? && s.pin.value.loading
    ensures var t := Step(s, TailReply(s.generation, response, isWorking));
      && t.pin.Some?
      && (isWorking ==> t.pin.value.wasWorking)
      && (!isWorking && s.pin.value.wasWorking ==>
            (!t.pin.value.wasWorking <==> s.tails[s.generation].terminal && !s.pin.value.deltaDuringFetch))
      && (!isWorking && !s.pin.value.wasWorking ==> !t.pin.value.wasWorking)
  {
  }

  /** A failed or mismatched load keeps every entry the pin held. */
  lemma FailureKeepsEntries(s: Ops, response: Option<Response>, isWorking: bool)
    requires Disciplined(s) && s.pin.Some? && s.pin.value.loading
    requires response.None? || NormalizePage(response.value, s.pin.value.view.threadId).None?
    ensures Step(s, TailReply(s.generation, response, isWorking)).pin.value.view == s.pin.value.view
  {
  }

  /** A delta that reaches the pin, applied or refused. */
  predicate Touches(s: Ops, e: Event) {
    s.pin.Some? && (e.DeltaAppend? || e.DeltaRefused? || (e.DeltaEdit? && e.index < |s.pin.value.view.entries|))
  }

  predicate Touched(s: Ops, run: seq<Event>)
    decreases |run|
  {
    |run| > 0 && (Touches(s, run[0]) || Touched(Step(s, run[0]), run[1..]))
  }

  /** The load stays the newest, unsettled and unreleased. */
  predicate StaysOut(e: Event, g: nat) {
    !e.Load? && !e.Release? && (e.TailReply? ==> e.generation != g)
  }

  lemma {:induction false} FlagIsTouched(s: Ops, run: seq<Event>)
    requires Disciplined(s) && s.pin.Some? && s.pin.value.loading
    requires forall i :: 0 <= i < |run| ==> StaysOut(run[i], s.generation)
    ensures var t := Run(s, run);
      && t.generation == s.generation && t.generation in t.tails
      && t.pin.Some? && t.pin.value.loading && t.pin.value.generation == s.pin.value.generation
      && t.pin.value.view.threadId == s.pin.value.view.threadId && Disciplined(t)
      && (s.pin.value.tailGap ==> t.pin.value.tailGap)
      && (t.pin.value.deltaDuringFetch <==> s.pin.value.deltaDuringFetch || Touched(s, run))
    decreases |run|
  {
    if |run| > 0 {
      StepDisciplined(s, run[0]);
      StepKeepsLoading(s, run[0]);
      FlagIsTouched(Step(s, run[0]), run[1..]);
    }
  }

  lemma StepKeepsLoading(s: Ops, e: Event)
    requires Disciplined(s) && s.pin.Some? && s.pin.value.loading && StaysOut(e, s.generation)
    ensures var t := Step(s, e);
      && t.generation == s.generation && t.pin.Some? && t.pin.value.loading
      && t.pin.value.generation == s.pin.value.generation
      && t.pin.value.view.threadId == s.pin.value.view.threadId
      && (s.pin.value.tailGap ==> t.pin.value.tailGap)
      && (t.pin.value.deltaDuringFetch <==> s.pin.value.deltaDuringFetch || Touches(s, e))
  {
  }

  /** A load begins without any delta against it, and keeps the gap. */
  lemma LoadBegins(s: Ops, isWorking: bool, terminal: bool)
    requires Disciplined(s) && s.pin.Some?
    ensures var t := Step(s, Load(s.pin.value.view.threadId, true, isWorking, terminal));
      && Disciplined(t) && t.generation == s.generation + 1 && t.pin.Some? && t.pin.value.loading
      && t.pin.value.tailGap == s.pin.value.tailGap && !t.pin.value.deltaDuringFetch
  {
    LoadDisciplined(s, s.pin.value.view.threadId, true, isWorking, terminal);
  }

  /** Exactly when a raised gap survives the next load to settle: a delta reached the pin after that
      load was issued. What reached it during an earlier load, superseded by this one, is
      forgotten. */
  lemma GapSurvivesExactly(s: Ops, isWorking: bool, terminal: bool, run: seq<Event>,
                           response: Option<Response>, workingThen: bool)
    requires Disciplined(s) && s.pin.Some? && s.pin.value.tailGap
    requires forall i :: 0 <= i < |run| ==> StaysOut(run[i], s.generation + 1)
    ensures var begun := Step(s, Load(s.pin.value.view.threadId, true, isWorking, terminal));
      var t := Step(Run(begun, run), TailReply(s.generation + 1, response, workingThen));
      t.pin.Some? && (t.pin.value.tailGap <==> Touched(begun, run))
  {
    LoadBegins(s, isWorking, terminal);
    GapAfterRun(Step(s, Load(s.pin.value.view.threadId, true, isWorking, terminal)), run, response, workingThen);
  }

  lemma GapAfterRun(s: Ops, run: seq<Event>, response: Option<Response>, isWorking: bool)
    requires Disciplined(s) && s.pin.Some? && s.pin.value.loading && s.pin.value.tailGap
    requires !s.pin.value.deltaDuringFetch && forall i :: 0 <= i < |run| ==> StaysOut(run[i], s.generation)
    ensures var t := Step(Run(s, run), TailReply(s.generation, response, isWorking));
      t.pin.Some? && (t.pin.value.tailGap <==> Touched(s, run))
  {
    FlagIsTouched(s, run);
    GapSettlement(Run(s, run), response, isWorking);
  }

  /** The settling load keeps a raised gap exactly when a delta reached the pin while it was
      loading, so a gap raised in flight is never cleared by that flight. */
  lemma GapSettlement(s: Ops, response: Option<Response>, isWorking: bool)
    requires Disciplined(s) && s.pin.Some? && s.pin.value.loading
    ensures var t := Step(s, TailReply(s.generation, response, isWorking));
      t.pin.Some? && (t.pin.value.tailGap <==> s.pin.value.tailGap && s.pin.value.deltaDuringFetch)
  {
  }

  /** And that loses a gap nothing repaired: a load issued after the refusal, while a request of the
      thread is out, joins it, so its page was asked for before the delta was refused. */
  lemma JoinedLoadForgetsGap(s: Ops, isWorking: bool, terminal: bool, response: Option<Response>)
    requires Disciplined(s) && s.pin.Some? && s.pin.value.view.threadId in s.net.out
    ensures var t := s.pin.value.view.threadId;
      var refused := Step(s, DeltaRefused);
      var reloaded := Step(refused, Load(t, true, isWorking, terminal));
      && refused.pin.Some? && refused.pin.value.tailGap
      && reloaded.net.joined[s.generation + 1].request == s.net.out[t]
      && (var settled := Step(reloaded, TailReply(s.generation + 1, response, isWorking));
          settled.pin.Some? && !settled.pin.value.tailGap)
  {
    var refused := Step(s, DeltaRefused);
    StepDisciplined(s, DeltaRefused);
    GapSurvivesExactly(refused, isWorking, terminal, [], response, isWorking);
  }

  // ---------------------------------------------------------------- stale repairs

  /** Requests are numbered as they are sent. */
  ghost predicate Counted(n: Net) {
    && (forall r :: r in n.requests ==> r < n.next)
    && (forall t :: t in n.out ==> n.out[t] in n.requests)
  }

  predicate Retires(e: Event, t: string) { e == RequestAnswered(t) || e == RequestEvicted(t) }

  /** From `was` to `now` the thread's request is still the one that was out (or a later one, if
      `still` is false). */
  ghost predicate Tracks(was: Net, now: Net, t: string, still: bool) {
    && Counted(now) && was.next <= now.next
    && (still ==> t in was.out && t in now.out && now.out[t] == was.out[t])
    && (!still && t in now.out ==> now.out[t] >= was.next)
  }

  lemma StepTracks(was: Net, s: Ops, e: Event, t: string, still: bool)
    requires Tracks(was, s.net, t, still)
    ensures Tracks(was, Step(s, e).net, t, still && !Retires(e, t))
  {
  }

  /** Nothing in the run answers or evicts the thread's request. */
  predicate Unretired(run: seq<Event>, t: string) {
    |run| == 0 || (!Retires(run[0], t) && Unretired(run[1..], t))
  }

  lemma {:induction false} RunTracks(was: Net, s: Ops, run: seq<Event>, t: string, still: bool)
    requires Tracks(was, s.net, t, still)
    ensures Tracks(was, Run(s, run).net, t, still && Unretired(run, t))
    decreases |run|
  {
    if |run| > 0 {
      StepTracks(was, s, run[0], t, still);
      RunTracks(was, Step(s, run[0]), run[1..], t, still && !Retires(run[0], t));
    }
  }

  lemma RunCounted(run: seq<Event>)
    ensures Counted(Run(Start, run).net)
  {
    RunTracks(Start.net, Start, run, "", false);
  }

  /** Exactly when a load issued after a run joins a request that had been sent before it: a request
      of its thread was out at the start, and nothing answered or evicted it. */
  lemma JoinsEarlierExactly(s: Ops, run: seq<Event>, g: nat, t: string)
    requires Counted(s.net)
    ensures var m := JoinTail(Run(s, run).net, g, t);
      g in m.joined && (m.joined[g].request in s.net.requests <==> t in s.net.out && Unretired(run, t))
  {
    RunTracks(s.net, s, run, t, t in s.net.out);
    JoinTracks(s.net, Run(s, run).net, g, t, t in s.net.out && Unretired(run, t));
  }

  lemma LoadJoins(s: Ops, t: string, isWorking: bool, terminal: bool)
    ensures Step(s, Load(t, true, isWorking, terminal)).net == JoinTail(s.net, s.generation + 1, t)
  {
  }

  /** Exactly when the page that may settle a gap was asked for before the delta was refused, and,
      independently of that, exactly when it clears the gap. `r` is where the refusal and the events
      after it have led when the load is issued. */
  lemma StaleRepairExactly(s: Ops, before: seq<Event>, r: Ops, begun: Ops, isWorking: bool, terminal: bool,
                           during: seq<Event>, response: Option<Response>, workingThen: bool)
    requires Disciplined(s) && Counted(s.net) && r == Run(Step(s, DeltaRefused), before)
    requires r.pin.Some? && r.pin.value.tailGap
    requires begun == Step(r, Load(r.pin.value.view.threadId, true, isWorking, terminal))
    requires forall i :: 0 <= i < |during| ==> StaysOut(during[i], r.generation + 1)
    ensures var g, t := r.generation + 1, r.pin.value.view.threadId;
      g in begun.net.joined
      && (begun.net.joined[g].request in s.net.requests <==> t in s.net.out && Unretired(before, t))
    ensures var settled := Step(Run(begun, during), TailReply(r.generation + 1, response, workingThen));
      settled.pin.Some? && (!settled.pin.value.tailGap <==> !Touched(begun, during))
  {
    StaleRepairJoins(s, before, r.generation + 1, r.pin.value.view.threadId);
    LoadJoins(r, r.pin.value.view.threadId, isWorking, terminal);
    StepDisciplined(s, DeltaRefused);
    RunDisciplined(Step(s, DeltaRefused), before);
    GapSurvivesExactly(r, isWorking, terminal, during, response, workingThen);
  }

  lemma StaleRepairJoins(s: Ops, before: seq<Event>, g: nat, t: string)
    requires Counted(s.net)
    ensures var m := JoinTail(Run(Step(s, DeltaRefused), before).net, g, t);
      g in m.joined && (m.joined[g].request in s.net.requests <==> t in s.net.out && Unretired(before, t))
  {
    assert Step(s, DeltaRefused).net == s.net;
    JoinsEarlierExactly(Step(s, DeltaRefused), before, g, t);
  }

  lemma JoinTracks(was: Net, now: Net, g: nat, t: string, still: bool)
    requires Counted(was) && Tracks(was, now, t, still)
    ensures JoinTail(now, g, t).joined[g].request in was.requests <==> still
  {
  }

  // ---------------------------------------------------------------- the pin against the log

  /** Every thread's eventual log, of which the relay has `length` so far, and whether the entries
      of its pages carry their sequence numbers. The relay as written sends none. */
  datatype Relay = Relay(logs: string -> seq<Key>, numbersPages: bool)

  ghost predicate World(w: Relay) {
    forall t :: ValidLog(w.logs(t))
  }

  ghost predicate Located(w: Relay, v: View, limit: nat) {
    && (w.numbersPages ==> AllNumbered(v.entries))
    && exists pos :: PinAt(w.logs(v.threadId), v, pos, limit)
  }

  /** Numbered throughout, or not at all. */
  predicate Numbering(w: Relay, page: Page) {
    if w.numbersPages then AllNumbered(page.entries) else MaxSeq(page.entries).None?
  }

  /** The relay's side of the contract: a tail page ends at the log's length at some moment between
      the sending and the answering of its request, an older page ends at the cursor asked for and
      was built once somebody had asked for it, and a streamed entry is newer than what the pin
      holds. A response naming another thread may carry anything. */
  ghost predicate Honest(w: Relay, s: Ops, e: Event) {
    match e
    case Grow(t, count) => Length(s.net, t) + count <= |w.logs(t)|
    case TailReply(g, Some(response), _) => g in s.tails ==> HonestTail(w, s, g, response)
    case OlderReply(Some(response)) =>
      |s.older| > 0 && OlderPageOf(response).Some? && OlderPageOf(response).value.threadId == s.older[0].threadId ==>
        HonestOlder(w, s.net, s.older[0], OlderPageOf(response).value)
    case DeltaAppend(entry, at) =>
      s.pin.Some? ==>
        && (w.numbersPages ==> entry.seqNo.Some?)
        && Newest(w.logs(s.pin.value.view.threadId), s.pin.value.view, entry, at)
    case DeltaEdit(i, _, seqNo) =>
      s.pin.Some? && i < |s.pin.value.view.entries| && seqNo.Some? ==>
        NumberOf(w.logs(s.pin.value.view.threadId), s.pin.value.view.entries[i].id, seqNo.value)
    case _ => true
  }

  ghost predicate HonestTail(w: Relay, s: Ops, g: nat, response: Response)
    requires g in s.tails
  {
    var t := s.tails[g].threadId;
    var page := NormalizePage(response, t);
    page.Some? ==>
      && g in s.net.joined && s.net.joined[g].request in s.net.requests
      && Numbering(w, page.value)
      && exists a: nat, b: nat ::
           TailPage(w.logs(t), page.value, a, b) && BuiltFor(s.net.requests[s.net.joined[g].request], b)
  }

  /** The request was answered with the log as it stood when it had `b` entries. */
  predicate BuiltFor(r: Request, b: nat) { r.fate.Answered? && r.sentAt <= b <= r.fate.at }

  ghost predicate NumberOf(log: seq<Key>, id: string, seqNo: int) {
    forall p :: 0 <= p < |log| && log[p].id == id ==> log[p].seqNo == seqNo
  }

  ghost predicate HonestOlder(w: Relay, n: Net, flight: OlderFlight, page: Page) {
    && Numbering(w, page)
    && exists x: nat, len: nat :: OlderPage(w.logs(flight.threadId), page, x, flight.cursor, len)
         && ((flight.threadId, flight.cursor) in n.asked ==> n.asked[(flight.threadId, flight.cursor)] <= len)
  }

  ghost predicate OlderPage(log: seq<Key>, page: Page, x: nat, y: nat, len: nat) {
    x < y <= len && Window(log, page.entries, x, y) && page.prevCursor == ReadCursor(x, y, len)
  }

  ghost predicate Newest(log: seq<Key>, v: View, entry: Entry, at: nat) {
    && at < |log| && Matches(entry, log[at])
    && forall i, p :: 0 <= i < |v.entries| && 0 <= p < |log| && Matches(v.entries[i], log[p]) ==> p < at
  }

  ghost predicate HonestRun(w: Relay, s: Ops, run: seq<Event>)
    decreases |run|
  {
    |run| == 0 || (Honest(w, s, run[0]) && HonestRun(w, Step(s, run[0]), run[1..]))
  }

  ghost predicate NetInv(n: Net) {
    && (forall t :: ThreadInv(n, t))
    && (forall r :: r in n.requests ==> r < n.next && RequestInv(n, n.requests[r]))
    && (forall g :: g in n.joined ==> JoinInv(n, n.joined[g]))
    && (forall k :: k in n.asked ==> k.1 < n.asked[k])
  }

  /** Requests of one thread follow one another: the one out was sent no earlier than the last one
      was answered. */
  predicate ThreadInv(n: Net, t: string) {
    && Done(n, t) <= Length(n, t)
    && (t in n.out ==>
          && n.out[t] in n.requests && n.requests[n.out[t]].threadId == t
          && n.requests[n.out[t]].fate == Waiting && Done(n, t) <= n.requests[n.out[t]].sentAt)
  }

  predicate RequestInv(n: Net, r: Request) {
    r.sentAt <= Length(n, r.threadId) && (r.fate.Answered? ==> r.fate.at <= Done(n, r.threadId))
  }

  predicate JoinInv(n: Net, j: Join) {
    && j.request in n.requests
    && j.base <= n.requests[j.request].sentAt && j.base <= Done(n, n.requests[j.request].threadId)
  }

  lemma SendInv(n: Net, t: string)
    requires NetInv(n)
    ensures NetInv(Send(n, t))
  {
    if t !in n.out {
      var m := Send(n, t);
      assert ThreadInv(n, t);
      forall u ensures ThreadInv(m, u) {
        assert ThreadInv(n, u);
      }
      forall r | r in m.requests ensures r < m.next && RequestInv(m, m.requests[r]) {
        if r != n.next { assert RequestInv(n, n.requests[r]); }
      }
      forall g | g in m.joined ensures JoinInv(m, m.joined[g]) {
        assert JoinInv(n, n.joined[g]);
      }
    }
  }

  lemma SendKeeps(n: Net, t: string)
    requires NetInv(n)
    ensures var m := Send(n, t);
      && t in m.out && m.length == n.length && m.done == n.done && m.asked == n.asked && m.joined == n.joined
      && (forall r :: r in n.requests ==> r in m.requests && m.requests[r] == n.requests[r])
  {
    assert n.next !in n.requests;
  }

  lemma JoinTailInv(n: Net, g: nat, t: string)
    requires NetInv(n)
    ensures NetInv(JoinTail(n, g, t))
  {
    SendInv(n, t);
    SendKeeps(n, t);
    var k, m := Send(n, t), JoinTail(n, g, t);
    assert ThreadInv(k, t);
    forall u ensures ThreadInv(m, u) {
      assert ThreadInv(k, u);
    }
    forall r | r in m.requests ensures RequestInv(m, m.requests[r]) {
      assert RequestInv(k, k.requests[r]);
    }
    forall h | h in m.joined ensures JoinInv(m, m.joined[h]) {
      if h != g { assert JoinInv(k, k.joined[h]); }
    }
  }

  lemma JoinTailKeeps(n: Net, g: nat, t: string)
    requires NetInv(n)
    ensures var m := JoinTail(n, g, t);
      && g in m.joined && m.joined[g].base == Done(n, t)
      && m.joined[g].request in m.requests && m.requests[m.joined[g].request].threadId == t
      && (forall h :: h in n.joined && h != g ==> h in m.joined && m.joined[h] == n.joined[h])
      && (forall r :: r in n.requests ==> r in m.requests && m.requests[r] == n.requests[r])
      && m.length == n.length && m.done == n.done && m.asked == n.asked
  {
    SendKeeps(n, t);
    SendInv(n, t);
    assert ThreadInv(Send(n, t), t);
  }

  /** A request that is no longer out, answered or evicted. */
  function Retired(n: Net, t: string, answered: bool): Net { if answered then Resolve(n, t) else Evict(n, t) }

  lemma RetiredThreads(n: Net, t: string, answered: bool)
    requires NetInv(n)
    ensures var m := Retired(n, t, answered);
      forall u :: ThreadInv(m, u) && Done(n, u) <= Done(m, u) && Length(m, u) == Length(n, u)
  {
    var m := Retired(n, t, answered);
    assert ThreadInv(n, t);
    forall u ensures ThreadInv(m, u) && Done(n, u) <= Done(m, u) && Length(m, u) == Length(n, u) {
      assert ThreadInv(n, u);
    }
  }

  lemma RetiredRequest(n: Net, t: string, answered: bool, r: nat)
    requires NetInv(n) && r in Retired(n, t, answered).requests
    ensures var m := Retired(n, t, answered); r < m.next && RequestInv(m, m.requests[r])
  {
    var m := Retired(n, t, answered);
    assert ThreadInv(n, t) && RequestInv(n, n.requests[r]);
    RetiredThreads(n, t, answered);
    assert ThreadInv(m, m.requests[r].threadId);
  }

  lemma RetiredInv(n: Net, t: string, answered: bool)
    requires NetInv(n)
    ensures NetInv(Retired(n, t, answered))
  {
    var m := Retired(n, t, answered);
    RetiredThreads(n, t, answered);
    forall r | r in m.requests ensures r < m.next && RequestInv(m, m.requests[r]) {
      RetiredRequest(n, t, answered, r);
    }
    forall g | g in m.joined ensures JoinInv(m, m.joined[g]) {
      assert JoinInv(n, n.joined[g]);
      assert ThreadInv(m, m.requests[m.joined[g].request].threadId);
    }
  }

  lemma RetiredKeeps(n: Net, t: string, answered: bool)
    requires NetInv(n)
    ensures var m := Retired(n, t, answered);
      && m.joined == n.joined && m.asked == n.asked
      && (forall u :: Done(n, u) <= Done(m, u))
      && (forall r :: r in n.requests ==> r in m.requests && m.requests[r].threadId == n.requests[r].threadId)
  {
    RetiredThreads(n, t, answered);
  }

  /** The pin is located in its thread's log with its cursor below the length at which the thread's
      last request was answered; and what a suspended load may fall back on, below the length at
      which the request it joined was sent. */
  ghost predicate Inv(w: Relay, s: Ops) {
    && Disciplined(s) && NetInv(s.net)
    && (s.pin.Some? ==> Located(w, s.pin.value.view, Done(s.net, s.pin.value.view.threadId)))
    && (forall g :: g in s.tails ==> FlightInv(w, s, g))
    && (s.pin.Some? && s.pin.value.loading ==> Located(w, s.pin.value.view, Base(s.net, s.generation)))
    && (|s.older| > 0 ==> (s.older[0].threadId, s.older[0].cursor) in s.net.asked)
  }

  function Base(n: Net, g: nat): nat { if g in n.joined then n.joined[g].base else 0 }

  ghost predicate FlightInv(w: Relay, s: Ops, g: nat)
    requires g in s.tails
  {
    var f := s.tails[g];
    && g in s.net.joined && s.net.joined[g].request in s.net.requests
    && s.net.requests[s.net.joined[g].request].threadId == f.threadId
    && (f.prior.Some? ==> Located(w, f.prior.value.view, s.net.joined[g].base))
  }

  lemma LocatedWider(w: Relay, v: View, limit: nat, wider: nat)
    requires Located(w, v, limit) && limit <= wider
    ensures Located(w, v, wider)
  {
    var pos :| PinAt(w.logs(v.threadId), v, pos, limit);
    assert PinAt(w.logs(v.threadId), v, pos, wider);
  }

  lemma LocatedEmpty(w: Relay, t: string, limit: nat)
    ensures Located(w, View(t, [], None, false), limit)
  {
    assert PinAt(w.logs(t), View(t, [], None, false), [], limit);
  }

  /** The pin and the loads stay as they are and the log or the query layer moves on. */
  lemma NetMovesInv(w: Relay, s: Ops, m: Net)
    requires Inv(w, s) && NetInv(m) && m.joined == s.net.joined && m.asked == s.net.asked
    requires forall u :: Done(s.net, u) <= Done(m, u)
    requires forall r :: r in s.net.requests ==> r in m.requests && m.requests[r].threadId == s.net.requests[r].threadId
    ensures Inv(w, s.(net := m))
  {
    var s' := s.(net := m);
    if s.pin.Some? {
      var u := s.pin.value.view.threadId;
      LocatedWider(w, s.pin.value.view, Done(s.net, u), Done(m, u));
    }
    forall g | g in s'.tails ensures FlightInv(w, s', g) {
      assert FlightInv(w, s, g);
    }
  }

  lemma NetEventInv(w: Relay, s: Ops, e: Event)
    requires Inv(w, s) && (e.Grow? || e.OtherReader? || e.RequestAnswered? || e.RequestEvicted?)
    ensures Inv(w, Step(s, e))
  {
    match e
    case Grow(t, count) =>
      var m := s.net.(length := s.net.length[t := Length(s.net, t) + count]);
      GrownInv(s.net, t, count);
      NetMovesInv(w, s, m);
    case OtherReader(t) =>
      SendInv(s.net, t);
      SendKeeps(s.net, t);
      NetMovesInv(w, s, Send(s.net, t));
    case RequestAnswered(t) => NetRetiresInv(w, s, t, true);
    case RequestEvicted(t) => NetRetiresInv(w, s, t, false);
  }

  lemma NetRetiresInv(w: Relay, s: Ops, t: string, answered: bool)
    requires Inv(w, s)
    ensures Inv(w, s.(net := Retired(s.net, t, answered)))
  {
    RetiredInv(s.net, t, answered);
    RetiredKeeps(s.net, t, answered);
    NetMovesInv(w, s, Retired(s.net, t, answered));
  }

  lemma GrownInv(n: Net, t: string, count: nat)
    requires NetInv(n)
    ensures NetInv(n.(length := n.length[t := Length(n, t) + count]))
  {
    var m := n.(length := n.length[t := Length(n, t) + count]);
    forall u ensures ThreadInv(m, u) && Length(n, u) <= Length(m, u) {
      assert ThreadInv(n, u);
    }
    forall r | r in m.requests ensures RequestInv(m, m.requests[r]) {
      assert RequestInv(n, n.requests[r]);
    }
    forall g | g in m.joined ensures JoinInv(m, m.joined[g]) {
      assert JoinInv(n, n.joined[g]);
    }
  }

  lemma LoadFlights(w: Relay, s: Ops, t: string, isWorking: bool, terminal: bool)
    requires Inv(w, s)
    ensures var s' := DoLoad(s, t, true, isWorking, terminal);
      forall g :: g in s'.tails ==> FlightInv(w, s', g)
  {
    var s' := DoLoad(s, t, true, isWorking, terminal);
    JoinTailKeeps(s.net, s'.generation, t);
    forall g | g in s'.tails ensures FlightInv(w, s', g) {
      if g != s'.generation { assert FlightInv(w, s, g); }
    }
  }

  lemma PriorLocated(w: Relay, s: Ops, t: string)
    requires Inv(w, s)
    ensures Located(w, EntriesOf(PriorFor(s, t), t), Done(s.net, t))
  {
    LocatedEmpty(w, t, Done(s.net, t));
  }

  lemma LoadedNet(w: Relay, s: Ops, t: string, isWorking: bool, terminal: bool)
    requires Inv(w, s)
    ensures var s' := DoLoad(s, t, true, isWorking, terminal);
      && NetInv(s'.net) && Done(s'.net, t) == Done(s.net, t) == Base(s'.net, s'.generation)
      && (|s'.older| > 0 ==> (s'.older[0].threadId, s'.older[0].cursor) in s'.net.asked)
      && s'.pin.Some? && s'.pin.value.view == EntriesOf(PriorFor(s, t), t)
  {
    JoinTailInv(s.net, s.generation + 1, t);
    JoinTailKeeps(s.net, s.generation + 1, t);
  }

  lemma LoadInv(w: Relay, s: Ops, t: string, eligible: bool, isWorking: bool, terminal: bool)
    requires Inv(w, s)
    ensures Inv(w, DoLoad(s, t, eligible, isWorking, terminal))
  {
    if eligible {
      LoadDisciplined(s, t, eligible, isWorking, terminal);
      LoadedNet(w, s, t, isWorking, terminal);
      LoadFlights(w, s, t, isWorking, terminal);
      PriorLocated(w, s, t);
    } else {
      ReleaseInv(w, s);
    }
  }

  /** The winning reply leaves a located pin: it merges into a view whose cursor lies below the
      length at which the request was sent, and the page cannot end before that. */
  lemma SettledLocated(w: Relay, s: Ops, live: Option<Pin>, g: nat, response: Option<Response>, isWorking: bool)
    requires World(w) && NetInv(s.net) && g in s.tails && FlightInv(w, s, g)
    requires live.Some? ==> live.value.view.threadId == s.tails[g].threadId
                            && Located(w, live.value.view, s.net.joined[g].base)
    requires response.Some? ==> HonestTail(w, s, g, response.value)
    ensures Located(w, SettledPin(live, s.tails[g], g, response, isWorking).view, Done(s.net, s.tails[g].threadId))
  {
    var t, j := s.tails[g].threadId, s.net.joined[g];
    var r, n := s.net.requests[j.request], Done(s.net, t);
    assert JoinInv(s.net, j) && RequestInv(s.net, r);
    var held := EntriesOf(live, t);
    LocatedEmpty(w, t, j.base);
    assert Located(w, held, j.base);
    var page := if response.Some? then NormalizePage(response.value, t) else None;
    if page.None? {
      LocatedWider(w, held, j.base, n);
    } else {
      var a: nat, b: nat :| TailPage(w.logs(t), page.value, a, b) && BuiltFor(r, b);
      MergedLocated(w, live, t, page.value, j.base, a, b);
      var view := if live.Some? then Some(live.value.view) else None;
      LocatedWider(w, Refreshed(t, MergeRefreshed(view, page.value)), b, n);
    }
  }

  lemma MergedLocated(w: Relay, live: Option<Pin>, t: string, page: Page, limit: nat, a: nat, b: nat)
    requires World(w) && page.threadId == t && Numbering(w, page)
    requires live.Some? ==> live.value.view.threadId == t
    requires Located(w, EntriesOf(live, t), limit) && TailPage(w.logs(t), page, a, b) && limit <= b
    ensures Located(w, Refreshed(t, MergeRefreshed(if live.Some? then Some(live.value.view) else None, page)), b)
  {
    var held := EntriesOf(live, t);
    var pos :| PinAt(w.logs(t), held, pos, limit);
    var pos' := RefreshKeeps(w.logs(t), held, pos, limit, page, a, b);
    MergeOfNone(t, page);
    if w.numbersPages { MergeNumbered(held, page); }
    var settled := Refreshed(t, MergeRefreshed(Some(held), page));
    assert PinAt(w.logs(settled.threadId), settled, pos', b);
  }

  lemma MergeNumbered(pin: View, page: Page)
    requires page.threadId == pin.threadId && AllNumbered(pin.entries) && AllNumbered(page.entries)
    ensures AllNumbered(MergeRefreshed(Some(pin), page).entries)
  {
    MergeMembers(pin, page);
    var m := MergeRefreshed(Some(pin), page).entries;
    forall i | 0 <= i < |m| ensures m[i].seqNo.Some? {
      assert m[i] in m;
    }
  }

  /** A first load merges as it would into an empty pin. */
  lemma MergeOfNone(t: string, page: Page)
    requires page.threadId == t
    ensures MergeRefreshed(None, page) == MergeRefreshed(Some(View(t, [], None, false)), page)
  {
  }

  /** What the winning reply merges into is located below the length at which its request was sent. */
  lemma LiveLocated(w: Relay, s: Ops, g: nat)
    requires Inv(w, s) && g in s.tails && g == s.generation
    ensures g in s.net.joined
    ensures var live := LivePin(s, s.tails[g], g);
      live.Some? ==> live.value.view.threadId == s.tails[g].threadId
                     && Located(w, live.value.view, s.net.joined[g].base)
  {
    assert FlightInv(w, s, g);
  }

  lemma FlightsKept(w: Relay, s: Ops, g: nat, response: Option<Response>, isWorking: bool)
    requires Inv(w, s)
    ensures var s' := DoTailReply(s, g, response, isWorking);
      forall h :: h in s'.tails ==> FlightInv(w, s', h)
  {
    var s' := DoTailReply(s, g, response, isWorking);
    forall h | h in s'.tails ensures FlightInv(w, s', h) {
      assert FlightInv(w, s, h);
    }
  }

  lemma WinningPinLocated(w: Relay, s: Ops, g: nat, response: Option<Response>, isWorking: bool)
    requires World(w) && Inv(w, s) && g in s.tails && g == s.generation
    requires response.Some? ==> HonestTail(w, s, g, response.value)
    ensures Located(w, SettledPin(LivePin(s, s.tails[g], g), s.tails[g], g, response, isWorking).view,
                    Done(s.net, s.tails[g].threadId))
  {
    assert FlightInv(w, s, g);
    LiveLocated(w, s, g);
    SettledLocated(w, s, LivePin(s, s.tails[g], g), g, response, isWorking);
  }

  lemma SettledNames(live: Option<Pin>, flight: TailFlight, g: nat, response: Option<Response>, isWorking: bool)
    requires live.Some? ==> live.value.view.threadId == flight.threadId
    ensures var pin := SettledPin(live, flight, g, response, isWorking);
      pin.view.threadId == flight.threadId && !pin.loading
  {
  }

  lemma TailReplyInv(w: Relay, s: Ops, g: nat, response: Option<Response>, isWorking: bool)
    requires World(w) && Inv(w, s) && Honest(w, s, TailReply(g, response, isWorking))
    ensures Inv(w, DoTailReply(s, g, response, isWorking))
  {
    ReplyDisciplined(s, g, response, isWorking);
    FlightsKept(w, s, g, response, isWorking);
    if g in s.tails && g == s.generation {
      LiveLocated(w, s, g);
      SettledNames(LivePin(s, s.tails[g], g), s.tails[g], g, response, isWorking);
      WinningPinLocated(w, s, g, response, isWorking);
    }
  }

  lemma OlderReplyInv(w: Relay, s: Ops, response: Option<Response>)
    requires World(w) && Inv(w, s) && Honest(w, s, OlderReply(response))
    ensures Inv(w, DoOlderReply(s, response))
  {
    StepDisciplined(s, OlderReply(response));
    var s' := DoOlderReply(s, response);
    forall h | h in s'.tails ensures FlightInv(w, s', h) {
      assert FlightInv(w, s, h);
    }
    if s'.pin != s.pin {
      var flight, v, page := s.older[0], s.pin.value.view, OlderPageOf(response.value).value;
      if page.threadId == v.threadId {
        OlderLocated(w, s.net, v, Done(s.net, v.threadId), flight, page);
      }
    }
  }

  lemma OlderLocated(w: Relay, n: Net, v: View, limit: nat, flight: OlderFlight, page: Page)
    requires World(w) && Located(w, v, limit) && v.olderCursor == Some(flight.cursor)
    requires v.threadId == flight.threadId == page.threadId && HonestOlder(w, n, flight, page)
    ensures Located(w, MergeOlder(v, page), limit)
  {
    var t := v.threadId;
    var x: nat, len: nat :| OlderPage(w.logs(t), page, x, flight.cursor, len);
    var pos :| PinAt(w.logs(t), v, pos, limit);
    OlderKeeps(w.logs(t), v, pos, limit, page, x, flight.cursor);
    var merged := MergeOlder(v, page);
    if w.numbersPages { OlderNumbered(v, page); }
    assert PinAt(w.logs(merged.threadId), merged, NewBelow(pos, x, flight.cursor) + pos, limit);
  }

  lemma OlderNumbered(pin: View, page: Page)
    requires page.threadId == pin.threadId && AllNumbered(pin.entries) && AllNumbered(page.entries)
    ensures AllNumbered(MergeOlder(pin, page).entries)
  {
    var older := NotIn(page.entries, FreshIds(pin.entries));
    NotInSubset(page.entries, FreshIds(pin.entries));
    forall i | 0 <= i < |older| ensures older[i].seqNo.Some? {
      assert older[i] in older;
    }
  }

  lemma DeltaLocated(w: Relay, v: View, limit: nat, entry: Entry, at: nat)
    requires Located(w, v, limit) && Newest(w.logs(v.threadId), v, entry, at)
    requires w.numbersPages ==> entry.seqNo.Some?
    ensures Located(w, v.(entries := v.entries + [entry]), limit)
  {
    var log := w.logs(v.threadId);
    var pos :| PinAt(log, v, pos, limit);
    forall i | 0 <= i < |pos| ensures pos[i] < at {
      assert Matches(v.entries[i], log[pos[i]]);
    }
    assert Places(log, [entry], [at]);
    PlacesConcat(log, v.entries, pos, [entry], [at], at);
    var v' := v.(entries := v.entries + [entry]);
    if |pos| > 0 { assert (pos + [at])[0] == pos[0]; }
    assert PinAt(log, v', pos + [at], limit);
  }

  lemma EditLocated(w: Relay, v: View, limit: nat, i: nat, body: string, seqNo: Option<int>)
    requires World(w) && Located(w, v, limit) && i < |v.entries|
    requires seqNo.Some? ==> NumberOf(w.logs(v.threadId), v.entries[i].id, seqNo.value)
    ensures Located(w, v.(entries := Edited(v.entries, i, body, seqNo)), limit)
  {
    var log := w.logs(v.threadId);
    var pos :| PinAt(log, v, pos, limit);
    assert Matches(v.entries[i], log[pos[i]]);
    var v' := v.(entries := Edited(v.entries, i, body, seqNo));
    assert PinAt(log, v', pos, limit);
  }

  lemma StreamedFlights(w: Relay, s: Ops, e: Event)
    requires Inv(w, s) && (e.DeltaAppend? || e.DeltaEdit? || e.DeltaRefused?)
    ensures forall h :: h in Step(s, e).tails ==> FlightInv(w, Step(s, e), h)
  {
    forall h | h in Step(s, e).tails ensures FlightInv(w, Step(s, e), h) {
      assert FlightInv(w, s, h);
    }
  }

  lemma DeltaAppendInv(w: Relay, s: Ops, entry: Entry, at: nat)
    requires Inv(w, s) && Honest(w, s, DeltaAppend(entry, at))
    ensures Inv(w, Step(s, DeltaAppend(entry, at)))
  {
    StepDisciplined(s, DeltaAppend(entry, at));
    StreamedFlights(w, s, DeltaAppend(entry, at));
    if s.pin.Some? {
      var v := s.pin.value.view;
      DeltaLocated(w, v, Done(s.net, v.threadId), entry, at);
      if s.pin.value.loading { DeltaLocated(w, v, Base(s.net, s.generation), entry, at); }
    }
  }

  lemma DeltaEditInv(w: Relay, s: Ops, i: nat, body: string, seqNo: Option<int>)
    requires World(w) && Inv(w, s) && Honest(w, s, DeltaEdit(i, body, seqNo))
    ensures Inv(w, Step(s, DeltaEdit(i, body, seqNo)))
  {
    StepDisciplined(s, DeltaEdit(i, body, seqNo));
    StreamedFlights(w, s, DeltaEdit(i, body, seqNo));
    if s.pin.Some? && i < |s.pin.value.view.entries| {
      var v := s.pin.value.view;
      EditLocated(w, v, Done(s.net, v.threadId), i, body, seqNo);
      if s.pin.value.loading { EditLocated(w, v, Base(s.net, s.generation), i, body, seqNo); }
    }
  }

  lemma DeltaRefusedInv(w: Relay, s: Ops)
    requires Inv(w, s)
    ensures Inv(w, Step(s, DeltaRefused))
  {
    StepDisciplined(s, DeltaRefused);
    StreamedFlights(w, s, DeltaRefused);
  }

  lemma StepInv(w: Relay, s: Ops, e: Event)
    requires World(w) && Inv(w, s) && Honest(w, s, e)
    ensures Inv(w, Step(s, e))
  {
    match e
    case Load(t, eligible, isWorking, terminal) => LoadInv(w, s, t, eligible, isWorking, terminal);
    case TailReply(g, response, isWorking) => TailReplyInv(w, s, g, response, isWorking);
    case OlderReply(response) => OlderReplyInv(w, s, response);
    case Release => ReleaseInv(w, s);
    case OlderLoad(t) => OlderLoadInv(w, s, t);
    case DeltaAppend(entry, at) => DeltaAppendInv(w, s, entry, at);
    case DeltaEdit(i, body, seqNo) => DeltaEditInv(w, s, i, body, seqNo);
    case DeltaRefused => DeltaRefusedInv(w, s);
    case _ => NetEventInv(w, s, e);
  }

  lemma ReleaseInv(w: Relay, s: Ops)
    requires Inv(w, s)
    ensures Inv(w, Step(s, Release))
  {
    StepDisciplined(s, Release);
    forall h | h in s.tails ensures FlightInv(w, Step(s, Release), h) {
      assert FlightInv(w, s, h);
    }
  }

  /** The cursor asked for lies below the length the log has by then. */
  lemma OlderLoadInv(w: Relay, s: Ops, t: string)
    requires Inv(w, s)
    ensures Inv(w, DoOlderLoad(s, t))
  {
    StepDisciplined(s, OlderLoad(t));
    var s' := DoOlderLoad(s, t);
    forall h | h in s'.tails ensures FlightInv(w, s', h) {
      assert FlightInv(w, s, h);
    }
    if s'.olderLoading != s.olderLoading {
      CursorBelow(w, s.pin.value.view, Done(s.net, t));
      AskInv(s.net, t, s.pin.value.view.olderCursor.value);
    }
  }

  lemma CursorBelow(w: Relay, v: View, limit: nat)
    requires Located(w, v, limit) && v.olderCursor.Some?
    ensures v.olderCursor.value < limit
  {
  }

  lemma AskInv(n: Net, t: string, cursor: nat)
    requires NetInv(n) && cursor < Done(n, t)
    ensures NetInv(Ask(n, t, cursor))
  {
    var m := Ask(n, t, cursor);
    assert ThreadInv(n, t);
    forall u ensures ThreadInv(m, u) {
      assert ThreadInv(n, u);
    }
    forall r | r in m.requests ensures RequestInv(m, m.requests[r]) {
      assert RequestInv(n, n.requests[r]);
    }
    forall g | g in m.joined ensures JoinInv(m, m.joined[g]) {
      assert JoinInv(n, n.joined[g]);
    }
  }

  lemma {:induction false} RunInv(w: Relay, s: Ops, run: seq<Event>)
    requires World(w) && Inv(w, s) && HonestRun(w, s, run)
    ensures Inv(w, Run(s, run))
    decreases |run|
  {
    if |run| > 0 {
      StepInv(w, s, run[0]);
      RunInv(w, Step(s, run[0]), run[1..]);
    }
  }

  /** Over every run of loads, replies in any order, older pages, releases, deltas, a growing log and
      requests shared with other loads and readers, the pin's entries are strictly increasing and
      free of duplicates, and every log position from its first entry up to its older cursor is
      held. A page may have been built before the load that receives it was issued; that accepted
      pages still never move back follows from the generation guard and the query layer. */
  lemma PinRun(w: Relay, run: seq<Event>) returns (pos: seq<nat>)
    requires World(w) && HonestRun(w, Start, run)
    ensures var s := Run(Start, run);
      s.pin.Some? ==>
        && OrderedAndDistinct(s.pin.value.view.entries)
        && Places(w.logs(s.pin.value.view.threadId), s.pin.value.view.entries, pos)
        && (s.pin.value.view.olderCursor.Some? ==>
              && HeldUpTo(pos, s.pin.value.view.olderCursor.value)
              && s.pin.value.view.olderCursor.value < Length(s.net, s.pin.value.view.threadId))
  {
    RunInv(w, Start, run);
    var s := Run(Start, run);
    pos := [];
    if s.pin.Some? {
      var v := s.pin.value.view;
      pos :| PinAt(w.logs(v.threadId), v, pos, Done(s.net, v.threadId));
      PlacedAreOrdered(w.logs(v.threadId), v.entries, pos);
      assert ThreadInv(s.net, v.threadId);
    }
  }

  /** What an older page does, over every honest run. If the pin still has the generation and thread
      it was asked with, the entries afterwards lie at the positions held before together with every
      position of the page, the cursor is the page's and history counts as extended; otherwise the
      pin is untouched. Either way the request is over. */
  lemma OlderReplyMeans(w: Relay, run: seq<Event>, page: Page, x: nat) returns (pos: seq<nat>, pos': seq<nat>)
    requires World(w) && HonestRun(w, Start, run)
    requires var s := Run(Start, run);
      |s.older| > 0 && x < s.older[0].cursor
      && Window(w.logs(s.older[0].threadId), page.entries, x, s.older[0].cursor)
    ensures var s := Run(Start, run);
      var t, flight := Step(s, OlderReply(Some(PageObject(page)))), s.older[0];
      && !t.olderLoading && t.older == []
      && (if s.pin.Some? && s.pin.value.generation == flight.generation
             && s.pin.value.view.threadId == flight.threadId == page.threadId
          then
            && t.pin.Some? && t.pin.value == s.pin.value.(view := t.pin.value.view)
            && t.pin.value.view.threadId == flight.threadId
            && t.pin.value.view.olderCursor == page.prevCursor && t.pin.value.view.historyExtended
            && Places(w.logs(flight.threadId), s.pin.value.view.entries, pos)
            && Places(w.logs(flight.threadId), t.pin.value.view.entries, pos')
            && (forall p :: p in pos' <==> p in pos || x <= p < flight.cursor)
          else t.pin == s.pin)
  {
    RunInv(w, Start, run);
    var s := Run(Start, run);
    OlderStepMeans(s, page);
    pos, pos' := [], [];
    if StillAsked(s, page) {
      pos, pos' := OlderPlacesPin(w, s, page, x);
    }
  }

  /** The pin is still the one the older page was asked for. */
  predicate StillAsked(s: Ops, page: Page) {
    && |s.older| > 0 && s.pin.Some? && s.pin.value.generation == s.older[0].generation
    && s.pin.value.view.threadId == s.older[0].threadId == page.threadId
  }

  lemma OlderStepMeans(s: Ops, page: Page)
    requires Disciplined(s) && |s.older| > 0
    ensures var t := Step(s, OlderReply(Some(PageObject(page))));
      && !t.olderLoading && t.older == []
      && (if StillAsked(s, page)
          then t.pin.Some? && t.pin.value == s.pin.value.(view := t.pin.value.view)
               && PagedUp(s.pin.value.view, t.pin.value.view, page)
          else t.pin == s.pin)
  {
    if StillAsked(s, page) { MergePagesUp(s.pin.value.view, page); }
  }

  lemma OlderPlacesPin(w: Relay, s: Ops, page: Page, x: nat) returns (pos: seq<nat>, pos': seq<nat>)
    requires World(w) && Inv(w, s) && StillAsked(s, page) && x < s.older[0].cursor
    requires Window(w.logs(page.threadId), page.entries, x, s.older[0].cursor)
    ensures var t := Step(s, OlderReply(Some(PageObject(page))));
      && Places(w.logs(page.threadId), s.pin.value.view.entries, pos)
      && t.pin.Some? && Places(w.logs(page.threadId), t.pin.value.view.entries, pos')
      && forall p :: p in pos' <==> p in pos || x <= p < s.older[0].cursor
  {
    var v, y := s.pin.value.view, s.older[0].cursor;
    assert v.olderCursor == Some(y);
    pos :| PinAt(w.logs(v.threadId), v, pos, Done(s.net, v.threadId));
    pos' := NewBelow(pos, x, y) + pos;
    OlderPlaces(w.logs(v.threadId), v, pos, page, x, y);
    OlderPositions(pos, x, y);
  }

  /** So no older page ever ends the paging: over every run, an older page leaves a cursor behind,
      the one it was asked with or a lower one. */
  lemma PagingNeverEnds(w: Relay, run: seq<Event>, response: Option<Response>)
    requires World(w) && HonestRun(w, Start, run) && Honest(w, Run(Start, run), OlderReply(response))
    ensures var s := Run(Start, run);
      var t := Step(s, OlderReply(response));
      s.pin.Some? && s.pin.value.view.olderCursor.Some? ==>
        && t.pin.Some? && t.pin.value.view.olderCursor.Some?
        && t.pin.value.view.olderCursor.value <= s.pin.value.view.olderCursor.value
  {
    RunInv(w, Start, run);
    var s := Run(Start, run);
    var t := Step(s, OlderReply(response));
    if s.pin.Some? && t.pin != s.pin {
      var flight, v, page := s.older[0], s.pin.value.view, OlderPageOf(response.value).value;
      if page.threadId == v.threadId {
        CursorRemains(w, s.net, v, flight, page);
      }
    }
  }

  lemma CursorRemains(w: Relay, n: Net, v: View, flight: OlderFlight, page: Page)
    requires NetInv(n) && (flight.threadId, flight.cursor) in n.asked && v.olderCursor == Some(flight.cursor)
    requires v.threadId == flight.threadId == page.threadId && HonestOlder(w, n, flight, page)
    ensures var cursor := MergeOlder(v, page).olderCursor; cursor.Some? && cursor.value <= flight.cursor
  {
    var x: nat, len: nat :| OlderPage(w.logs(flight.threadId), page, x, flight.cursor, len)
                            && n.asked[(flight.threadId, flight.cursor)] <= len;
    OlderCursorExactly(v, page, x, flight.cursor, len);
  }

  /** A winning page is merged into the pin as it stands at the reply. */
  lemma WinningView(s: Ops, response: Response, isWorking: bool)
    requires Disciplined(s) && s.pin.Some? && s.pin.value.loading
    requires NormalizePage(response, s.pin.value.view.threadId).Some?
    ensures var t := Step(s, TailReply(s.generation, Some(response), isWorking));
      var page := NormalizePage(response, s.pin.value.view.threadId).value;
      && page.threadId == s.pin.value.view.threadId && t.pin.Some?
      && (var m := MergeRefreshed(Some(s.pin.value.view), page);
          t.pin.value.view == View(page.threadId, m.entries, m.olderCursor, m.historyExtended))
  {
  }

  /** An entry streamed in while the tail load was out, and newer than the page it brings, survives
      that load exactly when the page shares an entry with the pin as it stands at the reply, or the
      relay numbers its pages. */
  lemma StreamedEntrySurvivesExactly(w: Relay, s: Ops, response: Response, isWorking: bool,
                                     pos: seq<nat>, a: nat, b: nat, i: nat)
    requires World(w) && Inv(w, s) && s.pin.Some? && s.pin.value.loading
    requires var v := s.pin.value.view;
      && NormalizePage(response, v.threadId).Some?
      && Numbering(w, NormalizePage(response, v.threadId).value)
      && Window(w.logs(v.threadId), NormalizePage(response, v.threadId).value.entries, a, b)
      && Places(w.logs(v.threadId), v.entries, pos)
    requires a < b && i < |pos| && pos[i] >= b
    ensures var t := Step(s, TailReply(s.generation, Some(response), isWorking));
      && t.pin.Some?
      && (HoldsId(t.pin.value.view.entries, s.pin.value.view.entries[i].id)
          <==> w.numbersPages || Below(pos, a) < Below(pos, b))
  {
    WinningView(s, response, isWorking);
    var v := s.pin.value.view;
    NewerKept(w, v, NormalizePage(response, v.threadId).value, pos, a, b, i);
  }

  lemma NewerKept(w: Relay, v: View, page: Page, pos: seq<nat>, a: nat, b: nat, i: nat)
    requires World(w) && page.threadId == v.threadId && Numbering(w, page) && a < b && i < |pos| && pos[i] >= b
    requires Window(w.logs(v.threadId), page.entries, a, b) && Places(w.logs(v.threadId), v.entries, pos)
    requires w.numbersPages ==> AllNumbered(v.entries)
    ensures HoldsId(MergeRefreshed(Some(v), page).entries, v.entries[i].id)
            <==> w.numbersPages || Below(pos, a) < Below(pos, b)
  {
    if w.numbersPages {
      assert page.entries[0].seqNo.Some?;
      PlaceableKeepsNewer(w.logs(v.threadId), v, pos, page, a, b, i);
    } else {
      NewerKeptExactly(w.logs(v.threadId), v, pos, page, a, b, i);
    }
  }

  /** The state the source keeps and the functions that change it, each up to its next await. */
  class RefreshOps {
    var viewOnlyThread: Option<Pin>
    var viewOnlyGeneration: nat
    var viewOnlyOlderLoading: bool
    var tailLoads: map<nat, TailFlight>
    var olderLoads: seq<OlderFlight>
    ghost var net: Net

    ghost function Model(): Ops
      reads this
    {
      Ops(viewOnlyThread, viewOnlyGeneration, tailLoads, viewOnlyOlderLoading, olderLoads, net)
    }

    constructor ()
      ensures Model() == Start
    {
      viewOnlyThread, viewOnlyGeneration, viewOnlyOlderLoading := None, 0, false;
      tailLoads, olderLoads, net := map[], [], Start.net;
    }

    method LoadViewOnlyTranscript(threadId: string, eligible: bool, isWorking: bool, terminal: bool)
      requires Disciplined(Model())
      modifies this
      ensures Model() == Step(old(Model()), Load(threadId, eligible, isWorking, terminal))
      ensures Disciplined(Model())
    {
      LoadDisciplined(Model(), threadId, eligible, isWorking, terminal);
      if !eligible {
        viewOnlyThread := None;
        return;
      }
      viewOnlyGeneration := viewOnlyGeneration + 1;
      var prior := None;
      if viewOnlyThread.Some? && viewOnlyThread.value.view.threadId == threadId {
        prior := viewOnlyThread;
      }
      viewOnlyThread := Some(LoadingPin(prior, threadId, viewOnlyGeneration, isWorking));
      tailLoads := tailLoads[viewOnlyGeneration := TailFlight(threadId, terminal, prior)];
      net := JoinTail(net, viewOnlyGeneration, threadId);
    }

    /** The code after `await fetchTranscriptPage`, in the try and in the catch. */
    method TailLoadSettled(generation: nat, response: Option<Response>, isWorking: bool)
      requires Disciplined(Model()) && generation in tailLoads
      modifies this
      ensures Model() == Step(old(Model()), TailReply(generation, response, isWorking))
      ensures Disciplined(Model())
    {
      ReplyDisciplined(Model(), generation, response, isWorking);
      var flight := tailLoads[generation];
      tailLoads := tailLoads - {generation};
      if generation != viewOnlyGeneration {
        return;
      }
      var live := flight.prior;
      if viewOnlyThread.Some? && viewOnlyThread.value.view.threadId == flight.threadId
         && viewOnlyThread.value.generation == generation {
        live := viewOnlyThread;
      }
      var settled := Settle(live, flight, generation, response, isWorking);
      viewOnlyThread := Some(settled);
    }

    /** The pin a winning load leaves behind. */
    static method Settle(live: Option<Pin>, flight: TailFlight, generation: nat,
                         response: Option<Response>, isWorking: bool) returns (pin: Pin)
      ensures pin == SettledPin(live, flight, generation, response, isWorking)
    {
      var page := None;
      if response.Some? {
        page := NormalizePage(response.value, flight.threadId);
      }
      var view := EntriesOf(live, flight.threadId);
      if page.Some? {
        var merged := RefreshPin(if live.Some? then Some(live.value.view) else None, page.value);
        view := Refreshed(flight.threadId, merged);
      }
      var wasWorking := WasWorkingAfterFetch(live, isWorking, flight.terminal);
      var keepGap := TailGap(live) && DeltaDuringFetch(live);
      pin := Pin(view, generation, false, page.None?, wasWorking, keepGap, false);
    }

    method LoadOlder(viewThreadId: string)
      requires Disciplined(Model())
      modifies this
      ensures Model() == Step(old(Model()), OlderLoad(viewThreadId))
      ensures Disciplined(Model())
    {
      StepDisciplined(Model(), OlderLoad(viewThreadId));
      if viewOnlyThread.None? || viewThreadId != viewOnlyThread.value.view.threadId { return; }
      var pin := viewOnlyThread.value;
      if pin.view.olderCursor.None? { return; }
      if pin.loading || viewOnlyOlderLoading { return; }
      viewOnlyOlderLoading := true;
      olderLoads := olderLoads + [OlderFlight(viewThreadId, pin.generation, pin.view.olderCursor.value)];
      net := Ask(net, viewThreadId, pin.view.olderCursor.value);
    }

    method OlderLoadSettled(response: Option<Response>)
      requires Disciplined(Model()) && |olderLoads| > 0
      modifies this
      ensures Model() == Step(old(Model()), OlderReply(response))
      ensures Disciplined(Model()) && !viewOnlyOlderLoading
      ensures response.Some? && response.value.PageObject? ==>
        if StillAsked(old(Model()), response.value.page)
        then viewOnlyThread.Some?
             && PagedUp(old(viewOnlyThread).value.view, viewOnlyThread.value.view, response.value.page)
        else viewOnlyThread == old(viewOnlyThread)
    {
      StepDisciplined(Model(), OlderReply(response));
      if response.Some? && response.value.PageObject? { OlderStepMeans(Model(), response.value.page); }
      var flight := olderLoads[0];
      olderLoads := olderLoads[1..];
      viewOnlyOlderLoading := false;
      if response.None? || OlderPageOf(response.value).None? { return; }
      if viewOnlyThread.None? { return; }
      var current := viewOnlyThread.value;
      if current.generation != flight.generation || current.view.threadId != flight.threadId { return; }
      viewOnlyThread := Some(current.(view := MergeOlder(current.view, OlderPageOf(response.value).value)));
    }
  }
}
