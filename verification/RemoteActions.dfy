/** The remote surface's pending actions (frontend/remote/actions.js): registration, replies whole
    or in chunks, deadlines, suspension and resending, and mass rejection. */
module RemoteActions {
  import opened Options
  import opened Text

  const TIMEOUT_MS := 15000

  /** The longest array JavaScript makes. */
  const MAX_SLOTS := 0xFFFF_FFFF

  /** `deadline` is when the action's timer fires, `None` while it is stood down; `registeredAt`
      is history. */
  datatype Pending = Pending(actionType: string, request: string, deadline: Option<int>, registeredAt: int)

  /** Slots of a chunked reply; the source's `chunkCount` is the number of slots. */
  datatype Buffer = Buffer(chunks: seq<Option<string>>, receivedCount: nat)

  /** A chunk as it arrives; `None` is a field of the wrong type. */
  datatype Chunk = Chunk(index: Option<int>, count: Option<int>, data: Option<string>)

  datatype ActionResult = ActionResult(ok: bool, body: string)

  /** What a reply's text is: not JSON, the JSON value null, or anything else. */
  datatype Reply = Unreadable | Null | Read(result: ActionResult)

  type Parse = string -> Reply

  datatype Outcome = Resolved(result: ActionResult) | Rejected(message: string)

  /** One action: its entries in the two maps, and its history: how often and how it was settled,
      and whether it left the table without being settled. */
  datatype Action = Action(pending: Option<Pending>, buffer: Option<Buffer>, settles: nat,
                           outcome: Option<Outcome>, dropped: bool)

  const Unknown := Action(None, None, 0, None, false)

  datatype Table = Table(actions: map<string, Action>, now: int, registered: set<string>)

  const Start := Table(map[], 0, {})

  function At(t: Table, id: string): Action { if id in t.actions then t.actions[id] else Unknown }

  function Put(t: Table, id: string, a: Action): Table { t.(actions := t.actions[id := a]) }

  // ---------------------------------------------------------------- settling

  /** `rejectPendingAction`, and `settlePendingAction` for a result that is not null: drop the chunks,
      and settle if pending. */
  function Settle(a: Action, outcome: Outcome): Action {
    if a.pending.None? then a.(buffer := None) else Action(None, None, a.settles + 1, Some(outcome), a.dropped)
  }

  /** `settlePendingAction` for null: the entry is gone before `result.ok` throws, and the handler
      that catches it finds nothing left to reject. */
  function Drop(a: Action): Action {
    if a.pending.None? then a.(buffer := None) else a.(pending := None, buffer := None, dropped := true)
  }

  function OutcomeOf(reply: Reply): Outcome {
    if !reply.Read? then Rejected("unreadable result")
    else if reply.result.ok then Resolved(reply.result) else Rejected(reply.result.body)
  }

  /** A completely received reply. */
  function Finish(a: Action, reply: Reply): Action {
    if reply.Null? then Drop(a) else Settle(a, OutcomeOf(reply))
  }

  function Extend(a: Action, now: int): Action {
    if a.pending.None? then a else a.(pending := Some(a.pending.value.(deadline := Some(now + TIMEOUT_MS))))
  }

  // ---------------------------------------------------------------- chunks

  predicate WellFormed(c: Chunk) {
    c.index.Some? && c.count.Some? && c.data.Some? && 0 <= c.index.value < c.count.value
  }

  function EmptySlots(n: nat): seq<Option<string>> { seq(n, i => None) }

  function Serialized(chunks: seq<Option<string>>): string {
    if |chunks| == 0 then ""
    else (if chunks[0].Some? then chunks[0].value else "") + Serialized(chunks[1..])
  }

  function Filled(chunks: seq<Option<string>>): nat {
    if |chunks| == 0 then 0 else (if chunks[0].Some? then 1 else 0) + Filled(chunks[1..])
  }

  function BufferFor(a: Action, count: nat): Buffer {
    if a.buffer.Some? then a.buffer.value else Buffer(EmptySlots(count), 0)
  }

  function Store(b: Buffer, index: nat, data: string): Buffer
    requires index < |b.chunks|
  {
    Buffer(b.chunks[index := Some(data)], b.receivedCount + if b.chunks[index].None? then 1 else 0)
  }

  predicate Full(b: Buffer) { b.receivedCount == |b.chunks| }

  /** A well-formed chunk of a pending action: store it, renew the deadline if it filled a slot,
      and finish the action once every slot is filled. */
  function Accept(a: Action, now: int, b: Buffer, index: nat, data: string, parse: Parse): Action
    requires index < |b.chunks|
  {
    var stored := Store(b, index, data);
    var renewed := if b.chunks[index].None? then Extend(a, now) else a;
    if !Full(stored) then renewed.(buffer := Some(stored)) else Finish(renewed, parse(Serialized(stored.chunks)))
  }

  /** `handleRemoteActionResultChunk`. Making room for too many slots throws before anything is
      stored, outside the handler's try. */
  function TakeChunk(a: Action, now: int, c: Chunk, parse: Parse): Action {
    if a.pending.None? then a.(buffer := None)
    else if !WellFormed(c) then Settle(a, Rejected("remote action chunk is malformed"))
    else if a.buffer.None? && c.count.value > MAX_SLOTS then a
    else
      var b := BufferFor(a, c.count.value);
      if |b.chunks| != c.count.value then Settle(a, Rejected("remote action chunk count changed mid-stream"))
      else Accept(a, now, b, c.index.value, c.data.value, parse)
  }

  // ---------------------------------------------------------------- steps

  datatype Event =
    | Register(id: string, actionType: string, request: string)
    | Result(id: string, reply: Reply)          // a whole reply; one that cannot be decrypted reaches nothing
    | ChunkArrived(id: string, chunk: Chunk)
    | Reject(id: string, message: string)       // a fired timer, a metadata mismatch, a failed send
    | RejectAll(order: seq<string>, message: string)
    | Suspend
    | Resent(id: string)
    | Tick(time: int)

  /** The loop of `rejectPendingActions` over the keys in map order. */
  function RejectEach(t: Table, order: seq<string>, message: string): Table
    decreases |order|
  {
    if |order| == 0 then t
    else RejectEach(Put(t, order[0], Settle(At(t, order[0]), Rejected(message))), order[1..], message)
  }

  function Suspended(a: Action): Action {
    if a.pending.None? then a else a.(pending := Some(a.pending.value.(deadline := None)))
  }

  function Step(t: Table, e: Event, parse: Parse): Table {
    match e
    case Register(id, actionType, request) =>
      Put(t, id, At(t, id).(pending := Some(Pending(actionType, request, Some(t.now + TIMEOUT_MS), t.now))))
        .(registered := t.registered + {id})
    case Result(id, reply) => if reply.Unreadable? then t else Put(t, id, Finish(At(t, id), reply))
    case ChunkArrived(id, chunk) => Put(t, id, TakeChunk(At(t, id), t.now, chunk, parse))
    case Reject(id, message) => Put(t, id, Settle(At(t, id), Rejected(message)))
    case RejectAll(order, message) =>
      var u := RejectEach(t, order, message);
      u.(actions := map id | id in u.actions :: u.actions[id].(buffer := None))
    case Suspend => t.(actions := map id | id in t.actions :: Suspended(t.actions[id]))
    case Resent(id) => Put(t, id, Extend(At(t, id), t.now))
    case Tick(time) => t.(now := time)
  }

  function Run(t: Table, run: seq<Event>, parse: Parse): Table
    decreases |run|
  {
    if |run| == 0 then t else Run(Step(t, run[0], parse), run[1..], parse)
  }

  // ---------------------------------------------------------------- settled at most once

  predicate BufferInv(b: Buffer) {
    b.receivedCount == Filled(b.chunks) && b.receivedCount < |b.chunks|
  }

  /** A registered action is pending, was settled once, or was dropped, one of the three, and chunks
      are held only for pending actions, each reply still incomplete. */
  predicate Ok(a: Action, registered: bool) {
    && (a.buffer.Some? ==> a.pending.Some? && BufferInv(a.buffer.value))
    && (a.pending.Some? ==> registered && a.settles == 0 && !a.dropped)
    && (registered && a.pending.None? && !a.dropped ==> a.settles == 1 && a.outcome.Some?)
    && (a.dropped ==> registered && a.settles == 0)
    && (a.settles > 0 ==> registered)
  }

  ghost predicate Inv(t: Table) {
    forall id :: Ok(At(t, id), id in t.registered)
  }

  /** Action ids are minted afresh, and a mass rejection goes through every pending id. */
  ghost predicate Legal(t: Table, e: Event) {
    && (e.Register? ==> e.id !in t.registered)
    && (e.RejectAll? ==> forall id :: At(t, id).pending.Some? ==> id in e.order)
  }

  ghost predicate LegalRun(t: Table, run: seq<Event>, parse: Parse)
    decreases |run|
  {
    |run| == 0 || (Legal(t, run[0]) && LegalRun(Step(t, run[0], parse), run[1..], parse))
  }

  lemma {:induction false} FilledUpdate(chunks: seq<Option<string>>, i: nat, data: string)
    requires i < |chunks|
    ensures Filled(chunks[i := Some(data)]) == Filled(chunks) + if chunks[i].None? then 1 else 0
  {
    if i == 0 {
      assert chunks[0 := Some(data)][1..] == chunks[1..];
    } else {
      assert chunks[i := Some(data)][1..] == chunks[1..][i - 1 := Some(data)];
      FilledUpdate(chunks[1..], i - 1, data);
    }
  }

  lemma {:induction false} FilledBound(chunks: seq<Option<string>>)
    ensures Filled(chunks) <= |chunks|
    ensures (forall i :: 0 <= i < |chunks| ==> chunks[i].None?) ==> Filled(chunks) == 0
  {
    if |chunks| > 0 { FilledBound(chunks[1..]); }
  }

  lemma PutInv(t: Table, id: string, a: Action)
    requires Inv(t) && Ok(a, id in t.registered)
    ensures Inv(Put(t, id, a))
  {
    forall k ensures Ok(At(Put(t, id, a), k), k in t.registered) {
      assert Ok(At(t, k), k in t.registered);
    }
  }

  lemma AcceptOk(a: Action, now: int, b: Buffer, index: nat, data: string, parse: Parse)
    requires Ok(a, true) && a.pending.Some? && index < |b.chunks| && b.receivedCount == Filled(b.chunks)
    ensures Ok(Accept(a, now, b, index, data, parse), true)
  {
    FilledUpdate(b.chunks, index, data);
    FilledBound(Store(b, index, data).chunks);
  }

  lemma ChunkOk(a: Action, registered: bool, now: int, c: Chunk, parse: Parse)
    requires Ok(a, registered)
    ensures Ok(TakeChunk(a, now, c, parse), registered)
  {
    if a.pending.Some? && WellFormed(c) {
      FilledBound(EmptySlots(c.count.value));
      var b := BufferFor(a, c.count.value);
      if |b.chunks| == c.count.value {
        AcceptOk(a, now, b, c.index.value, c.data.value, parse);
      }
    }
  }

  lemma {:induction false} RejectEachInv(t: Table, order: seq<string>, message: string)
    requires Inv(t)
    ensures Inv(RejectEach(t, order, message))
    decreases |order|
  {
    if |order| > 0 {
      assert Ok(At(t, order[0]), order[0] in t.registered);
      PutInv(t, order[0], Settle(At(t, order[0]), Rejected(message)));
      RejectEachInv(Put(t, order[0], Settle(At(t, order[0]), Rejected(message))), order[1..], message);
    }
  }

  /** Each listed action is rejected once if it was pending, and no other changes. */
  lemma {:induction false} RejectEachAt(t: Table, order: seq<string>, message: string, id: string)
    ensures var u := RejectEach(t, order, message);
      && At(u, id) == (if id in order then Settle(At(t, id), Rejected(message)) else At(t, id))
      && u.now == t.now && u.registered == t.registered
    decreases |order|
  {
    if |order| > 0 {
      RejectEachAt(Put(t, order[0], Settle(At(t, order[0]), Rejected(message))), order[1..], message, id);
    }
  }

  lemma RejectAllAt(t: Table, order: seq<string>, message: string, parse: Parse, id: string)
    ensures var u := Step(t, RejectAll(order, message), parse);
      At(u, id) == if id in order then Settle(At(t, id), Rejected(message)) else At(t, id).(buffer := None)
  {
    RejectEachAt(t, order, message, id);
  }

  lemma StepInv(t: Table, e: Event, parse: Parse)
    requires Inv(t) && Legal(t, e)
    ensures Inv(Step(t, e, parse))
  {
    match e
    case RejectAll(order, message) =>
      RejectEachInv(t, order, message);
      var r, u := RejectEach(t, order, message), Step(t, e, parse);
      forall id ensures Ok(At(u, id), id in u.registered) {
        assert Ok(At(r, id), id in r.registered);
        RejectAllAt(t, order, message, parse, id);
        RejectEachAt(t, order, message, id);
      }
    case Suspend =>
      var u := Step(t, e, parse);
      forall id ensures Ok(At(u, id), id in u.registered) {
        assert Ok(At(t, id), id in t.registered);
      }
    case Tick(_) =>
      var u := Step(t, e, parse);
      forall id ensures Ok(At(u, id), id in u.registered) {
        assert Ok(At(t, id), id in t.registered);
      }
    case Register(id, _, _) => RegisterInv(t, e, parse);
    case ChunkArrived(id, c) =>
      assert Ok(At(t, id), id in t.registered);
      ChunkOk(At(t, id), id in t.registered, t.now, c, parse);
      PutInv(t, id, TakeChunk(At(t, id), t.now, c, parse));
    case Result(id, reply) =>
      assert Ok(At(t, id), id in t.registered);
      PutInv(t, id, Finish(At(t, id), reply));
    case Reject(id, message) =>
      assert Ok(At(t, id), id in t.registered);
      PutInv(t, id, Settle(At(t, id), Rejected(message)));
    case Resent(id) =>
      assert Ok(At(t, id), id in t.registered);
      PutInv(t, id, Extend(At(t, id), t.now));
  }

  lemma RegisterInv(t: Table, e: Event, parse: Parse)
    requires Inv(t) && Legal(t, e) && e.Register?
    ensures Inv(Step(t, e, parse))
  {
    var u := Step(t, e, parse);
    forall id ensures Ok(At(u, id), id in u.registered) {
      assert Ok(At(t, id), id in t.registered);
    }
  }

  lemma {:induction false} RunInv(t: Table, run: seq<Event>, parse: Parse)
    requires Inv(t) && LegalRun(t, run, parse)
    ensures Inv(Run(t, run, parse))
    decreases |run|
  {
    if |run| > 0 {
      StepInv(t, run[0], parse);
      RunInv(Step(t, run[0], parse), run[1..], parse);
    }
  }

  /** The chunk completes the action's reply, and that reply is null. */
  predicate CompletesNull(a: Action, c: Chunk, parse: Parse) {
    && a.pending.Some? && WellFormed(c) && (a.buffer.Some? || c.count.value <= MAX_SLOTS)
    && (var b := BufferFor(a, c.count.value);
        && |b.chunks| == c.count.value
        && (var stored := Store(b, c.index.value, c.data.value);
            Full(stored) && parse(Serialized(stored.chunks)).Null?))
  }

  /** The event completes the action's reply, and that reply is null. */
  predicate CarriesNull(t: Table, e: Event, parse: Parse, id: string) {
    match e
    case Result(k, reply) => k == id && reply.Null?
    case ChunkArrived(k, c) => k == id && CompletesNull(At(t, id), c, parse)
    case _ => false
  }

  /** Over every run of registrations, replies, chunks, timeouts, mismatches, failed sends, mass
      rejections, suspensions and resends: an action is settled at most once, is in the pending
      table exactly while it is registered and neither settled nor dropped, and holds chunks only
      meanwhile; and an action that leaves the table is settled exactly when what removed it was
      not a null reply. */
  lemma SettledAtMostOnce(run: seq<Event>, e: Event, parse: Parse, id: string)
    requires LegalRun(Start, run, parse) && Legal(Run(Start, run, parse), e)
    ensures var t := Run(Start, run, parse);
      var before, after := At(t, id), At(Step(t, e, parse), id);
      && before.settles <= 1
      && (before.pending.Some? <==> id in t.registered && before.settles == 0 && !before.dropped)
      && (before.buffer.Some? ==> before.pending.Some?)
      && (after.settles > before.settles <==>
            before.pending.Some? && after.pending.None? && !CarriesNull(t, e, parse, id))
      && (after.dropped && !before.dropped <==> before.pending.Some? && CarriesNull(t, e, parse, id))
  {
    RunInv(Start, run, parse);
    var t := Run(Start, run, parse);
    assert Ok(At(t, id), id in t.registered);
    StepSettles(t, e, parse, id);
  }

  lemma StepSettles(t: Table, e: Event, parse: Parse, id: string)
    requires Inv(t) && Legal(t, e)
    ensures var before, after := At(t, id), At(Step(t, e, parse), id);
      && (after.settles > before.settles <==>
            before.pending.Some? && after.pending.None? && !CarriesNull(t, e, parse, id))
      && (after.dropped && !before.dropped <==> before.pending.Some? && CarriesNull(t, e, parse, id))
  {
    assert Ok(At(t, id), id in t.registered);
    match e
    case RejectAll(order, message) => RejectAllAt(t, order, message, parse, id);
    case _ =>
  }

  /** A null reply strands its caller: the action is gone from the table, unsettled, and nothing
      that happens afterwards settles it. */
  lemma {:induction false} NullStrands(t: Table, run: seq<Event>, parse: Parse, id: string)
    requires Inv(t) && At(t, id).dropped && LegalRun(t, run, parse)
    ensures var a := At(Run(t, run, parse), id); a.dropped && a.pending.None? && a.settles == 0
    decreases |run|
  {
    assert Ok(At(t, id), id in t.registered);
    if |run| > 0 {
      StepInv(t, run[0], parse);
      StepSettles(t, run[0], parse, id);
      DroppedStays(t, run[0], parse, id);
      NullStrands(Step(t, run[0], parse), run[1..], parse, id);
    }
  }

  lemma DroppedStays(t: Table, e: Event, parse: Parse, id: string)
    requires At(t, id).dropped
    ensures At(Step(t, e, parse), id).dropped
  {
    if e.RejectAll? { RejectAllAt(t, e.order, e.message, parse, id); }
  }

  // ---------------------------------------------------------------- reassembly

  /** The slots after the slices named by `got` have arrived. */
  predicate SlotsOf(chunks: seq<Option<string>>, slices: seq<string>, got: set<nat>) {
    && |chunks| == |slices|
    && forall i :: 0 <= i < |slices| ==> chunks[i] == if i in got then Some(slices[i]) else None
  }

  ghost function Indices(n: nat): (r: set<nat>)
    ensures forall i: nat :: i in r <==> i < n
    ensures |r| == n
  {
    if n == 0 then {} else Indices(n - 1) + {n - 1}
  }

  /** The action waits and holds exactly the slices in `got`. */
  ghost predicate Holding(a: Action, slices: seq<string>, got: set<nat>) {
    && a.pending.Some? && a.settles == 0 && !a.dropped && got < Indices(|slices|) && |slices| <= MAX_SLOTS
    && (a.buffer.Some? <==> got != {})
    && (a.buffer.Some? ==> SlotsOf(a.buffer.value.chunks, slices, got) && a.buffer.value.receivedCount == |got|)
  }

  function SliceChunk(slices: seq<string>, i: nat): Chunk
    requires i < |slices|
  {
    Chunk(Some(i), Some(|slices|), Some(slices[i]))
  }

  lemma {:induction false} FullConcat(chunks: seq<Option<string>>, slices: seq<string>)
    requires |chunks| == |slices| && forall i :: 0 <= i < |slices| ==> chunks[i] == Some(slices[i])
    ensures Serialized(chunks) == Concat(slices)
  {
    if |slices| > 0 { FullConcat(chunks[1..], slices[1..]); }
  }

  lemma ProperIsSmaller(a: set<nat>, b: set<nat>)
    requires a <= b
    ensures |a| == |b| <==> a == b
    ensures |a| <= |b|
  {
    assert b == a + (b - a);
  }

  /** What a caller is told of a reply: a result resolves exactly if it says ok, a failed one rejects
      with its own message, an unreadable one rejects, and null tells nobody. */
  predicate Tells(answer: Option<Outcome>, reply: Reply) {
    match reply
    case Null => answer == None
    case Unreadable => answer.Some? && answer.value.Rejected?
    case Read(result) =>
      && (answer == Some(Resolved(result)) <==> result.ok)
      && (answer == Some(Rejected(result.body)) <==> !result.ok)
  }

  /** The action left the table once its text was whole: settled with what the text says, or
      dropped if it says null. */
  predicate Finished(a: Action, slices: seq<string>, parse: Parse) {
    var reply := parse(Concat(slices));
    && a.pending.None? && a.buffer.None?
    && (if reply.Null? then a.dropped && a.settles == 0 else a.settles == 1 && Tells(a.outcome, reply))
  }

  /** The whole text, once a chunk completes the reply it belongs to. */
  function CompletedText(a: Action, c: Chunk): Option<string> {
    if a.pending.None? || !WellFormed(c) || (a.buffer.None? && c.count.value > MAX_SLOTS) then None
    else
      var b := BufferFor(a, c.count.value);
      if |b.chunks| != c.count.value then None
      else
        var stored := Store(b, c.index.value, c.data.value);
        if Full(stored) then Some(Serialized(stored.chunks)) else None
  }

  /** A well-formed chunk whose reply is still incomplete with it. */
  predicate StillIncomplete(a: Action, c: Chunk) {
    && a.pending.Some? && WellFormed(c) && CompletedText(a, c).None?
    && (a.buffer.Some? ==> |a.buffer.value.chunks| == c.count.value)
  }

  /** In every reachable table a reply to a pending action, whole or completed by its last chunk,
      leaves exactly what the reply says as the action's outcome. */
  lemma RepliesTell(run: seq<Event>, parse: Parse, id: string, reply: Reply, c: Chunk)
    requires LegalRun(Start, run, parse) && At(Run(Start, run, parse), id).pending.Some?
    ensures var t := Run(Start, run, parse);
      && (!reply.Unreadable? ==>
            var a := At(Step(t, Result(id, reply), parse), id); a.pending.None? && Tells(a.outcome, reply))
      && (CompletedText(At(t, id), c).Some? ==>
            var a := At(Step(t, ChunkArrived(id, c), parse), id);
            a.pending.None? && Tells(a.outcome, parse(CompletedText(At(t, id), c).value)))
      && (StillIncomplete(At(t, id), c) ==>
            var a := At(Step(t, ChunkArrived(id, c), parse), id); a.pending.Some? && a.outcome == At(t, id).outcome)
      && (!WellFormed(c) || (At(t, id).buffer.Some? && |At(t, id).buffer.value.chunks| != c.count.value) ==>
            var a := At(Step(t, ChunkArrived(id, c), parse), id);
            a.pending.None? && a.outcome.Some? && a.outcome.value.Rejected?)
  {
    RunInv(Start, run, parse);
    RunUntold(Start, run, parse, id);
    var t := Run(Start, run, parse);
    assert Ok(At(t, id), id in t.registered);
  }

  /** A pending action has been told nothing. */
  lemma {:induction false} RunUntold(t: Table, run: seq<Event>, parse: Parse, id: string)
    requires Inv(t) && LegalRun(t, run, parse) && Untold(At(t, id))
    ensures Untold(At(Run(t, run, parse), id))
    decreases |run|
  {
    if |run| > 0 {
      StepInv(t, run[0], parse);
      StepUntold(t, run[0], parse, id);
      RunUntold(Step(t, run[0], parse), run[1..], parse, id);
    }
  }

  predicate Untold(a: Action) { a.outcome.Some? <==> a.settles > 0 }

  lemma StepUntold(t: Table, e: Event, parse: Parse, id: string)
    requires Untold(At(t, id))
    ensures Untold(At(Step(t, e, parse), id))
  {
    if e.RejectAll? { RejectAllAt(t, e.order, e.message, parse, id); }
  }

  /** A chunk that fills a slot without completing the reply, and a resend, restart the action's
      deadline in full; a repeated chunk leaves it. */
  lemma ProgressRenews(t: Table, parse: Parse, id: string, c: Chunk)
    requires Inv(t) && At(t, id).pending.Some?
    ensures At(Step(t, Resent(id), parse), id).pending.Some?
    ensures At(Step(t, Resent(id), parse), id).pending.value.deadline == Some(t.now + TIMEOUT_MS)
    ensures StillIncomplete(At(t, id), c) && (At(t, id).buffer.Some? || c.count.value <= MAX_SLOTS) ==>
      var a, b := At(Step(t, ChunkArrived(id, c), parse), id), BufferFor(At(t, id), c.count.value);
      && a.pending.Some? && a.buffer.Some? && a.buffer.value.chunks == b.chunks[c.index.value := c.data]
      && a.pending.value.deadline ==
           if b.chunks[c.index.value].None? then Some(t.now + TIMEOUT_MS) else At(t, id).pending.value.deadline
  {
  }

  /** A registered action waits a full deadline; a mass rejection tells every waiting caller its
      message. */
  lemma RegisteredAndRejected(t: Table, parse: Parse, id: string, actionType: string, request: string,
                              order: seq<string>, message: string)
    requires Inv(t)
    ensures id !in t.registered ==>
      At(Step(t, Register(id, actionType, request), parse), id).pending
        == Some(Pending(actionType, request, Some(t.now + TIMEOUT_MS), t.now))
    ensures At(t, id).pending.Some? && id in order ==>
      var a := At(Step(t, RejectAll(order, message), parse), id);
      a.pending.None? && a.buffer.None? && a.outcome == Some(Rejected(message))
  {
    RejectAllAt(t, order, message, parse, id);
  }

  /** The slices in `got` have arrived so far. */
  ghost predicate Progress(a: Action, slices: seq<string>, got: set<nat>, parse: Parse) {
    if got == Indices(|slices|) then Finished(a, slices, parse) else Holding(a, slices, got)
  }

  /** The two ways a stored chunk leaves its action. */
  lemma AcceptCases(a: Action, now: int, b: Buffer, index: nat, data: string, parse: Parse)
    requires a.pending.Some? && index < |b.chunks|
    ensures var after, stored := Accept(a, now, b, index, data, parse), Store(b, index, data);
      if Full(stored) then after == Finish(a, parse(Serialized(stored.chunks)))
      else after == (if b.chunks[index].None? then Extend(a, now) else a).(buffer := Some(stored))
  {
  }

  lemma TakesSlice(a: Action, now: int, slices: seq<string>, got: set<nat>, i: nat, parse: Parse)
    requires Holding(a, slices, got) && i < |slices|
    ensures var b := BufferFor(a, |slices|);
      && SlotsOf(b.chunks, slices, got) && b.receivedCount == |got|
      && TakeChunk(a, now, SliceChunk(slices, i), parse) == Accept(a, now, b, i, slices[i], parse)
  {
  }

  lemma SliceTaken(a: Action, now: int, slices: seq<string>, got: set<nat>, i: nat, parse: Parse)
      returns (stored: Buffer)
    requires Holding(a, slices, got) && i < |slices|
    ensures SlotsOf(stored.chunks, slices, got + {i}) && stored.receivedCount == |got + {i}|
    ensures Full(stored) <==> got + {i} == Indices(|slices|)
    ensures Full(stored) ==> Serialized(stored.chunks) == Concat(slices)
    ensures var after := TakeChunk(a, now, SliceChunk(slices, i), parse);
      if Full(stored) then after == Finish(a, parse(Concat(slices)))
      else after == a.(pending := after.pending, buffer := Some(stored)) && after.pending.Some?
  {
    var b := BufferFor(a, |slices|);
    TakesSlice(a, now, slices, got, i, parse);
    stored := Store(b, i, slices[i]);
    SliceStored(b, slices, got, i);
    AcceptCases(a, now, b, i, slices[i], parse);
    if Full(stored) { FullConcat(stored.chunks, slices); }
  }

  /** One slice arrives, first or repeated. */
  lemma SliceArrives(a: Action, now: int, slices: seq<string>, got: set<nat>, i: nat, parse: Parse)
    requires Holding(a, slices, got) && i < |slices|
    ensures Progress(TakeChunk(a, now, SliceChunk(slices, i), parse), slices, got + {i}, parse)
  {
    var stored := SliceTaken(a, now, slices, got, i, parse);
    if !Full(stored) {
      assert got + {i} < Indices(|slices|) && i in got + {i};
    }
  }

  lemma SliceStored(b: Buffer, slices: seq<string>, got: set<nat>, i: nat)
    requires SlotsOf(b.chunks, slices, got) && b.receivedCount == |got| && got <= Indices(|slices|) && i < |slices|
    ensures var stored := Store(b, i, slices[i]);
      && SlotsOf(stored.chunks, slices, got + {i})
      && stored.receivedCount == |got + {i}|
      && (Full(stored) <==> got + {i} == Indices(|slices|))
      && (got + {i} == Indices(|slices|) ==>
            forall k :: 0 <= k < |slices| ==> stored.chunks[k] == Some(slices[k]))
  {
    if i in got {
      assert got + {i} == got;
    }
    ProperIsSmaller(got + {i}, Indices(|slices|));
  }

  /** A reply announced in more chunks than there can be slots never gets anywhere: its chunks leave
      the action as it was, deadline included. */
  lemma OversizedReplyIgnored(t: Table, id: string, c: Chunk, parse: Parse)
    requires At(t, id).pending.Some? && At(t, id).buffer.None? && WellFormed(c) && c.count.value > MAX_SLOTS
    ensures At(Step(t, ChunkArrived(id, c), parse), id) == At(t, id)
  {
  }

  /** What may happen while the reply is on its way: slices of it, in any order and repeated, and
      anything that does not name the action. */
  ghost predicate Undisturbed(e: Event, id: string, slices: seq<string>) {
    match e
    case ChunkArrived(k, c) => k == id ==> exists i :: 0 <= i < |slices| && c == SliceChunk(slices, i)
    case Register(k, _, _) => k != id
    case Result(k, _) => k != id
    case Reject(k, _) => k != id
    case RejectAll(_, _) => false
    case _ => true
  }

  /** The index an event delivers to the action, if it is one of its chunks. */
  ghost function Delivers(e: Event, id: string): set<nat> {
    if e.ChunkArrived? && e.id == id && e.chunk.index.Some? && e.chunk.index.value >= 0
    then {e.chunk.index.value} else {}
  }

  ghost function Delivered(run: seq<Event>, id: string): set<nat> {
    if |run| == 0 then {} else Delivers(run[0], id) + Delivered(run[1..], id)
  }

  /** One of the action's own chunks, before or after it left the table. */
  lemma OwnChunk(a: Action, now: int, i: nat, slices: seq<string>, got: set<nat>, parse: Parse)
    requires Progress(a, slices, got, parse) && i < |slices|
    ensures Progress(TakeChunk(a, now, SliceChunk(slices, i), parse), slices, got + {i}, parse)
  {
    if got == Indices(|slices|) {
      assert got + {i} == got;
    } else {
      SliceArrives(a, now, slices, got, i, parse);
    }
  }

  lemma SameProgress(a: Action, b: Action, slices: seq<string>, got: set<nat>, parse: Parse)
    requires Progress(a, slices, got, parse)
    requires b == a.(pending := b.pending) && (b.pending.Some? <==> a.pending.Some?)
    ensures Progress(b, slices, got, parse)
  {
  }

  lemma OwnAdvance(t: Table, i: nat, id: string, slices: seq<string>, got: set<nat>, parse: Parse)
    requires Progress(At(t, id), slices, got, parse) && i < |slices|
    ensures var e := ChunkArrived(id, SliceChunk(slices, i));
      Progress(At(Step(t, e, parse), id), slices, got + Delivers(e, id), parse)
  {
    OwnChunk(At(t, id), t.now, i, slices, got, parse);
  }

  lemma OtherAdvance(t: Table, e: Event, id: string, slices: seq<string>, got: set<nat>, parse: Parse)
    requires Progress(At(t, id), slices, got, parse)
    requires Undisturbed(e, id, slices) && (e.ChunkArrived? ==> e.id != id)
    ensures Progress(At(Step(t, e, parse), id), slices, got + Delivers(e, id), parse)
  {
    OthersKeep(t, e, parse, id, slices);
    SameProgress(At(t, id), At(Step(t, e, parse), id), slices, got, parse);
    assert got + Delivers(e, id) == got;
  }

  lemma Advance(t: Table, e: Event, id: string, slices: seq<string>, got: set<nat>, parse: Parse)
    requires Progress(At(t, id), slices, got, parse) && Undisturbed(e, id, slices)
    ensures Progress(At(Step(t, e, parse), id), slices, got + Delivers(e, id), parse)
  {
    if e.ChunkArrived? && e.id == id {
      var i :| 0 <= i < |slices| && e.chunk == SliceChunk(slices, i);
      OwnAdvance(t, i, id, slices, got, parse);
    } else {
      OtherAdvance(t, e, id, slices, got, parse);
    }
  }

  /** An event that does not name the action leaves it as it was, but for its deadline. */
  lemma OthersKeep(t: Table, e: Event, parse: Parse, id: string, slices: seq<string>)
    requires Undisturbed(e, id, slices) && (e.ChunkArrived? ==> e.id != id)
    ensures var before, after := At(t, id), At(Step(t, e, parse), id);
      after == before.(pending := after.pending) && (after.pending.Some? <==> before.pending.Some?)
  {
  }

  /** Reassembly: for every split of a serialized result, every arrival order with repeats, and
      whatever other actions, timers and resends do meanwhile, the action leaves the table exactly
      when every index has arrived, once, with the slices concatenated in index order; until then
      the slots and the received count are exactly what has arrived (`Finished` and `Holding`, by
      cases in `Progress`). */
  lemma {:induction false} Reassembly(t: Table, run: seq<Event>, id: string, slices: seq<string>, got: set<nat>,
                                      parse: Parse)
    requires Progress(At(t, id), slices, got, parse)
    requires forall k :: 0 <= k < |run| ==> Undisturbed(run[k], id, slices)
    ensures Progress(At(Run(t, run, parse), id), slices, got + Delivered(run, id), parse)
    decreases |run|
  {
    if |run| == 0 {
      assert got + Delivered(run, id) == got;
    } else {
      var next := got + Delivers(run[0], id);
      Advance(t, run[0], id, slices, got, parse);
      Reassembly(Step(t, run[0], parse), run[1..], id, slices, next, parse);
      DeliveredUnfold(run, id, got);
    }
  }

  lemma DeliveredUnfold(run: seq<Event>, id: string, got: set<nat>)
    requires |run| > 0
    ensures got + Delivered(run, id) == got + Delivers(run[0], id) + Delivered(run[1..], id)
  {
  }

  // ---------------------------------------------------------------- deadlines

  function Received(a: Action): nat {
    if a.buffer.Some? then a.buffer.value.receivedCount else 0
  }

  /** Slots of the reply so far announced; 1 while no chunk has arrived. */
  function Slots(a: Action): nat {
    if a.buffer.Some? && |a.buffer.value.chunks| > 1 then |a.buffer.value.chunks| else 1
  }

  /** A pending action's timer is armed, has not been missed, and was renewed at most once per filled
      slot. */
  predicate InTime(a: Action, now: int) {
    a.pending.Some? ==>
      && a.pending.value.deadline.Some? && now <= a.pending.value.deadline.value
      && a.pending.value.deadline.value <= a.pending.value.registeredAt + TIMEOUT_MS * (Received(a) + 1)
  }

  ghost predicate TimeInv(t: Table) {
    forall id :: InTime(At(t, id), t.now)
  }

  /** Without suspension or resend, and with timers that fire when due: time does not pass a
      deadline whose action is still pending. */
  ghost predicate OnTime(t: Table, e: Event) {
    && !e.Suspend? && !e.Resent?
    && (e.Tick? ==> t.now <= e.time && forall id :: StillDue(At(t, id), e.time))
  }

  predicate StillDue(a: Action, time: int) {
    a.pending.Some? && a.pending.value.deadline.Some? ==> time <= a.pending.value.deadline.value
  }

  ghost predicate OnTimeRun(t: Table, run: seq<Event>, parse: Parse)
    decreases |run|
  {
    |run| == 0 || (OnTime(t, run[0]) && Legal(t, run[0]) && OnTimeRun(Step(t, run[0], parse), run[1..], parse))
  }

  lemma RenewalBound(now: int, deadline: int, registeredAt: int, received: nat)
    requires now <= deadline <= registeredAt + TIMEOUT_MS * (received + 1)
    ensures now + TIMEOUT_MS <= registeredAt + TIMEOUT_MS * (received + 2)
  {
  }

  lemma ChunkTime(a: Action, now: int, c: Chunk, parse: Parse)
    requires InTime(a, now)
    ensures InTime(TakeChunk(a, now, c, parse), now)
  {
    if a.pending.Some? {
      RenewalBound(now, a.pending.value.deadline.value, a.pending.value.registeredAt, Received(a));
    }
  }

  lemma StepTime(t: Table, e: Event, parse: Parse)
    requires Inv(t) && TimeInv(t) && OnTime(t, e) && Legal(t, e)
    ensures TimeInv(Step(t, e, parse))
  {
    var u := Step(t, e, parse);
    forall id ensures InTime(At(u, id), u.now) {
      assert InTime(At(t, id), t.now) && Ok(At(t, id), id in t.registered);
      if e.ChunkArrived? { ChunkTime(At(t, id), t.now, e.chunk, parse); }
      if e.RejectAll? { RejectAllAt(t, e.order, e.message, parse, id); RejectEachAt(t, e.order, e.message, id); }
      if e.Tick? { assert StillDue(At(t, id), e.time); }
    }
  }

  lemma {:induction false} RunTime(t: Table, run: seq<Event>, parse: Parse)
    requires Inv(t) && TimeInv(t) && OnTimeRun(t, run, parse)
    ensures Inv(Run(t, run, parse)) && TimeInv(Run(t, run, parse))
    decreases |run|
  {
    if |run| > 0 {
      StepInv(t, run[0], parse);
      StepTime(t, run[0], parse);
      RunTime(Step(t, run[0], parse), run[1..], parse);
    }
  }

  /** Stall bound: however often chunks repeat, an action whose reply has n chunks is off the table
      within 15000 max(1, n) milliseconds of its registration. */
  lemma StallBound(run: seq<Event>, parse: Parse, id: string)
    requires OnTimeRun(Start, run, parse)
    ensures var t := Run(Start, run, parse);
      var a := At(t, id);
      a.pending.Some? ==> t.now - a.pending.value.registeredAt <= TIMEOUT_MS * Slots(a)
  {
    RunTime(Start, run, parse);
    var t := Run(Start, run, parse);
    assert Ok(At(t, id), id in t.registered) && InTime(At(t, id), t.now);
  }

  /** Only a chunk that fills a slot renews a deadline, apart from a resend. */
  lemma OnlyProgressRenews(t: Table, e: Event, parse: Parse, id: string)
    requires Inv(t) && !e.Suspend? && !e.Resent? && Legal(t, e)
    requires At(t, id).pending.Some? && At(Step(t, e, parse), id).pending.Some?
    requires At(Step(t, e, parse), id).pending.value.deadline != At(t, id).pending.value.deadline
    ensures e.ChunkArrived? && e.id == id && Received(At(Step(t, e, parse), id)) == Received(At(t, id)) + 1
  {
    assert Ok(At(t, id), id in t.registered);
    if e.RejectAll? { RejectAllAt(t, e.order, e.message, parse, id); }
  }

  // ---------------------------------------------------------------- the module state

  lemma {:induction false} ConcatSnoc(chunks: seq<Option<string>>, k: nat)
    requires k < |chunks| && chunks[k].Some?
    ensures Serialized(chunks[..k + 1]) == Serialized(chunks[..k]) + chunks[k].value
    decreases k
  {
    if k == 0 {
      assert chunks[..1][1..] == [] && chunks[..0] == [];
      assert Serialized(chunks[..1]) == chunks[0].value + Serialized(chunks[..1][1..]);
    } else {
      ConcatSnoc(chunks[1..], k - 1);
      assert chunks[..k + 1][1..] == chunks[1..][..k] && chunks[..k][1..] == chunks[1..][..k - 1];
    }
  }

  /** `reassembleRemoteActionResultChunks` before parsing; `None` is its missing-chunk error. */
  method Reassemble(chunks: seq<Option<string>>) returns (serialized: Option<string>)
    ensures serialized == None <==> exists i :: 0 <= i < |chunks| && chunks[i].None?
    ensures serialized.Some? ==> serialized.value == Serialized(chunks)
  {
    var text := "";
    for index := 0 to |chunks|
      invariant forall i :: 0 <= i < index ==> chunks[i].Some?
      invariant text == Serialized(chunks[..index])
    {
      if chunks[index].None? {
        return None;
      }
      ConcatSnoc(chunks, index);
      text := text + chunks[index].value;
    }
    assert chunks[..|chunks|] == chunks;
    return Some(text);
  }

  lemma {:induction false} FullWhenCounted(chunks: seq<Option<string>>)
    requires Filled(chunks) == |chunks|
    ensures forall i :: 0 <= i < |chunks| ==> chunks[i].Some?
  {
    if |chunks| > 0 {
      FilledBound(chunks[1..]);
      FullWhenCounted(chunks[1..]);
    }
  }

  lemma AcceptInv(t: Table, id: string, b: Buffer, index: nat, data: string, parse: Parse)
    requires Inv(t) && At(t, id).pending.Some? && index < |b.chunks| && b.receivedCount == Filled(b.chunks)
    ensures Inv(Put(t, id, Accept(At(t, id), t.now, b, index, data, parse)))
  {
    assert Ok(At(t, id), id in t.registered);
    AcceptOk(At(t, id), t.now, b, index, data, parse);
    PutInv(t, id, Accept(At(t, id), t.now, b, index, data, parse));
  }

  /** What a chunk does to its action, told by the action's history. */
  lemma AnswersAs(a: Action, now: int, c: Chunk, parse: Parse)
    ensures var after := TakeChunk(a, now, c, parse);
      && (CompletedText(a, c).Some? ==>
            var reply := parse(CompletedText(a, c).value);
            Tells(if after.settles > a.settles then after.outcome else None, reply))
      && (StillIncomplete(a, c) ==> after.settles == a.settles && after.pending.Some?)
  {
  }

  lemma SuspendedAt(t: Table, parse: Parse, id: string)
    ensures At(Step(t, Suspend, parse), id) == Suspended(At(t, id))
  {
  }

  function Lookup<V>(m: map<string, V>, id: string): Option<V> { if id in m then Some(m[id]) else None }

  /** The two maps of the source's state and the functions that change them. `table` is their
      history-keeping model; `Valid` ties the maps to it and keeps its invariant, so what the run
      theorems say of tables holds of every object. */
  class ActionTable {
    const parse: Parse
    var pendingActions: map<string, Pending>
    var pendingActionChunks: map<string, Buffer>
    var now: int
    ghost var table: Table

    ghost predicate Valid()
      reads this
    {
      && Inv(table) && table.now == now
      && forall id :: Holds(At(table, id), Lookup(pendingActions, id), Lookup(pendingActionChunks, id))
    }

    static predicate Holds(a: Action, pending: Option<Pending>, buffer: Option<Buffer>) {
      a.pending == pending && a.buffer == buffer
    }

    constructor (parse: Parse)
      ensures Valid() && table == Start && this.parse == parse
    {
      this.parse := parse;
      pendingActions, pendingActionChunks, now := map[], map[], 0;
      table := Start;
    }

    method RegisterPendingAction(id: string, actionType: string, request: string)
      requires Valid() && id !in table.registered
      modifies this
      ensures Valid() && table == Step(old(table), Register(id, actionType, request), parse)
      ensures id in pendingActions && id !in pendingActionChunks && At(table, id).settles == 0
    {
      StepInv(table, Register(id, actionType, request), parse);
      assert Ok(At(table, id), id in table.registered);
      table := Step(table, Register(id, actionType, request), parse);
      pendingActions := pendingActions[id := Pending(actionType, request, Some(now + TIMEOUT_MS), now)];
      assert Ok(At(table, id), id in table.registered);
    }

    /** `rejectPendingAction`: `answer` is what the waiting caller is told, if one was still waiting. */
    method RejectPendingAction(id: string, message: string) returns (answer: Option<Outcome>)
      requires Valid()
      modifies this`pendingActions, this`pendingActionChunks, this`table
      ensures Valid() && table == Step(old(table), Reject(id, message), parse)
      ensures id !in pendingActions && id !in pendingActionChunks
      ensures answer == if id in old(pendingActions) then Some(Rejected(message)) else None
    {
      StepInv(table, Reject(id, message), parse);
      assert Holds(At(table, id), Lookup(pendingActions, id), Lookup(pendingActionChunks, id));
      table := Step(table, Reject(id, message), parse);
      pendingActionChunks := pendingActionChunks - {id};
      if id !in pendingActions {
        return None;
      }
      pendingActions := pendingActions - {id};
      return Some(Rejected(message));
    }

    /** `settlePendingAction`: the entry goes before the result is looked at, so null answers nobody. */
    method SettlePendingAction(id: string, reply: Reply) returns (answer: Option<Outcome>)
      requires Valid() && !reply.Unreadable?
      modifies this`pendingActions, this`pendingActionChunks, this`table
      ensures Valid() && table == Step(old(table), Result(id, reply), parse)
      ensures id !in pendingActions && id !in pendingActionChunks
      ensures answer.Some? <==> id in old(pendingActions) && !reply.Null?
      ensures answer.Some? ==> answer == At(table, id).outcome
      ensures id in old(pendingActions) ==> Tells(answer, reply)
    {
      StepInv(table, Result(id, reply), parse);
      assert Holds(At(table, id), Lookup(pendingActions, id), Lookup(pendingActionChunks, id));
      table := Step(table, Result(id, reply), parse);
      pendingActionChunks := pendingActionChunks - {id};
      if id !in pendingActions {
        return None;
      }
      pendingActions := pendingActions - {id};
      if reply.Null? {
        return None;
      }
      return Some(if reply.result.ok then Resolved(reply.result) else Rejected(reply.result.body));
    }

    /** `extendPendingActionDeadline` */
    method ExtendPendingActionDeadline(id: string)
      requires Valid()
      modifies this`pendingActions, this`table
      ensures Valid() && table == Step(old(table), Resent(id), parse)
      ensures pendingActions.Keys == old(pendingActions).Keys
      ensures forall k :: k in pendingActions && k != id ==> pendingActions[k] == old(pendingActions)[k]
    {
      StepInv(table, Resent(id), parse);
      assert Holds(At(table, id), Lookup(pendingActions, id), Lookup(pendingActionChunks, id));
      table := Step(table, Resent(id), parse);
      if id in pendingActions {
        pendingActions := pendingActions[id := pendingActions[id].(deadline := Some(now + TIMEOUT_MS))];
      }
    }

    /** `handleRemoteActionResultChunk`; the caller is answered exactly when this chunk settles it. */
    method HandleChunk(id: string, chunk: Chunk) returns (answer: Option<Outcome>)
      requires Valid()
      modifies this`pendingActions, this`pendingActionChunks, this`table
      ensures Valid() && table == Step(old(table), ChunkArrived(id, chunk), parse)
      ensures answer.Some? <==> At(table, id).settles > At(old(table), id).settles
      ensures answer.Some? ==> answer == At(table, id).outcome
      ensures CompletedText(At(old(table), id), chunk).Some? ==>
        Tells(answer, parse(CompletedText(At(old(table), id), chunk).value))
      ensures StillIncomplete(At(old(table), id), chunk) ==> answer == None && id in pendingActions
    {
      AnswersAs(At(table, id), now, chunk, parse);
      assert Holds(At(table, id), Lookup(pendingActions, id), Lookup(pendingActionChunks, id));
      assert Ok(At(table, id), id in table.registered);
      StepInv(table, ChunkArrived(id, chunk), parse);
      if id !in pendingActions {
        table := Step(table, ChunkArrived(id, chunk), parse);
        pendingActionChunks := pendingActionChunks - {id};
        return None;
      }
      if !WellFormed(chunk) {
        answer := RejectPendingAction(id, "remote action chunk is malformed");
        return;
      }
      if id !in pendingActionChunks && chunk.count.value > MAX_SLOTS {
        table := Step(table, ChunkArrived(id, chunk), parse);
        return None;
      }
      var buffer := Buffer(EmptySlots(chunk.count.value), 0);
      if id in pendingActionChunks {
        buffer := pendingActionChunks[id];
      }
      if |buffer.chunks| != chunk.count.value {
        answer := RejectPendingAction(id, "remote action chunk count changed mid-stream");
        return;
      }
      FilledBound(EmptySlots(chunk.count.value));
      answer := StoreChunk(id, buffer, chunk.index.value, chunk.data.value);
    }

    /** The chunk handler behind its guards. */
    method StoreChunk(id: string, buffer: Buffer, index: nat, data: string) returns (answer: Option<Outcome>)
      requires Valid() && id in pendingActions
      requires index < |buffer.chunks| && buffer.receivedCount == Filled(buffer.chunks)
      modifies this`pendingActions, this`pendingActionChunks, this`table
      ensures var a := At(old(table), id);
        var after := Accept(a, now, buffer, index, data, parse);
        && Valid() && table == Put(old(table), id, after)
        && (answer.Some? <==> after.settles > a.settles)
        && (answer.Some? ==> answer == after.outcome)
    {
      ghost var a := At(table, id);
      assert Holds(a, Lookup(pendingActions, id), Lookup(pendingActionChunks, id));
      AcceptInv(table, id, buffer, index, data, parse);
      AcceptCases(a, now, buffer, index, data, parse);
      ghost var after := Accept(a, now, buffer, index, data, parse);
      var stored := Store(buffer, index, data);
      if stored.receivedCount != |stored.chunks| {
        HoldChunk(id, stored, buffer.chunks[index].None?, after);
        answer := None;
      } else {
        FilledUpdate(buffer.chunks, index, data);
        answer := CompleteReply(id, stored, after);
      }
    }

    method HoldChunk(id: string, stored: Buffer, advancedTransfer: bool, ghost after: Action)
      requires Valid() && id in pendingActions && Inv(Put(table, id, after))
      requires var a := At(table, id);
        after == (if advancedTransfer then Extend(a, now) else a).(buffer := Some(stored))
      modifies this`pendingActions, this`pendingActionChunks, this`table
      ensures Valid() && table == Put(old(table), id, after)
    {
      assert Holds(At(table, id), Lookup(pendingActions, id), Lookup(pendingActionChunks, id));
      table := Put(table, id, after);
      if advancedTransfer {
        pendingActions := pendingActions[id := pendingActions[id].(deadline := Some(now + TIMEOUT_MS))];
      }
      pendingActionChunks := pendingActionChunks[id := stored];
    }

    method CompleteReply(id: string, stored: Buffer, ghost after: Action) returns (answer: Option<Outcome>)
      requires Valid() && id in pendingActions && Inv(Put(table, id, after))
      requires Filled(stored.chunks) == |stored.chunks|
      requires after == Finish(At(table, id), parse(Serialized(stored.chunks)))
      modifies this`pendingActions, this`pendingActionChunks, this`table
      ensures Valid() && table == Put(old(table), id, after)
      ensures answer == if after.settles > At(old(table), id).settles then after.outcome else None
    {
      assert Holds(At(table, id), Lookup(pendingActions, id), Lookup(pendingActionChunks, id));
      answer := ReadReply(stored);
      table := Put(table, id, after);
      pendingActionChunks := pendingActionChunks - {id};
      pendingActions := pendingActions - {id};
    }

    /** What the whole text answers: its outcome, the parse error, or nothing if it says null. */
    method ReadReply(stored: Buffer) returns (answer: Option<Outcome>)
      requires Filled(stored.chunks) == |stored.chunks|
      ensures var reply := parse(Serialized(stored.chunks));
        Tells(answer, reply) && answer == if reply.Null? then None else Some(OutcomeOf(reply))
    {
      FullWhenCounted(stored.chunks);
      var serialized := Reassemble(stored.chunks);
      var reply := parse(serialized.value);
      match reply
      case Unreadable => answer := Some(Rejected("unreadable result"));
      case Null => answer := None;
      case Read(result) => answer := Some(if result.ok then Resolved(result) else Rejected(result.body));
    }

    /** `rejectPendingActions`; `order` lists the pending ids as the map does. */
    method RejectPendingActions(order: seq<string>, message: string)
      requires Valid() && forall id :: id in pendingActions ==> id in order
      modifies this`pendingActions, this`pendingActionChunks, this`table
      ensures Valid() && table == Step(old(table), RejectAll(order, message), parse)
      ensures pendingActions == map[] && pendingActionChunks == map[]
    {
      CoversPending(order);
      StepInv(table, RejectAll(order, message), parse);
      var i := 0;
      while i < |order|
        invariant 0 <= i <= |order|
        invariant Valid()
        invariant RejectEach(table, order[i..], message) == RejectEach(old(table), order, message)
      {
        assert order[i..][0] == order[i] && order[i..][1..] == order[i + 1..];
        var _ := RejectPendingAction(order[i], message);
        i := i + 1;
      }
      NobodyLeft(old(table), order, message);
      table := Step(old(table), RejectAll(order, message), parse);
      pendingActionChunks := map[];
    }

    lemma CoversPending(order: seq<string>)
      requires Valid() && forall id :: id in pendingActions ==> id in order
      ensures forall id :: At(table, id).pending.Some? ==> id in order
    {
      forall id | At(table, id).pending.Some? ensures id in order {
        assert Holds(At(table, id), Lookup(pendingActions, id), Lookup(pendingActionChunks, id));
      }
    }

    lemma NobodyLeft(before: Table, order: seq<string>, message: string)
      requires Valid() && table == RejectEach(before, order, message)
      requires forall id :: At(before, id).pending.Some? ==> id in order
      ensures pendingActions == map[]
    {
      forall id ensures id !in pendingActions {
        assert Holds(At(table, id), Lookup(pendingActions, id), Lookup(pendingActionChunks, id));
        RejectEachAt(before, order, message, id);
      }
      assert pendingActions.Keys == {};
    }

    /** `suspendPendingActionDeadlines`: every entry stays, no timer runs. */
    method SuspendPendingActionDeadlines()
      requires Valid()
      modifies this`pendingActions, this`table
      ensures Valid() && table == Step(old(table), Suspend, parse)
      ensures pendingActions.Keys == old(pendingActions).Keys
      ensures forall id :: id in pendingActions ==> pendingActions[id].deadline == None
    {
      StepInv(table, Suspend, parse);
      ghost var before := table;
      var left := pendingActions.Keys;
      while left != {}
        invariant table == before
        invariant left <= old(pendingActions).Keys && pendingActions.Keys == old(pendingActions).Keys
        invariant forall id :: id in pendingActions ==>
          pendingActions[id] == if id in left then old(pendingActions)[id]
                                else old(pendingActions)[id].(deadline := None)
        decreases |left|
      {
        var id :| id in left;
        pendingActions := pendingActions[id := pendingActions[id].(deadline := None)];
        left := left - {id};
      }
      table := Step(table, Suspend, parse);
      forall id ensures Holds(At(table, id), Lookup(pendingActions, id), Lookup(pendingActionChunks, id)) {
        assert Holds(At(before, id), Lookup(old(pendingActions), id), Lookup(pendingActionChunks, id));
        SuspendedAt(before, parse, id);
      }
    }
  }
}
