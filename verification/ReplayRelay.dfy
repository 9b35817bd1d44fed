/** How often one `dispatchOrRecover` call executes: the client's retry and resend logic
    (frontend/remote/actions.js) against the relay's claim check and replay cache
    (crates/relay-server/src/broker/remote_actions.rs, crates/relay-server/src/state/relay.rs),
    over a network that loses, delays and repeats frames and replies. */
module ReplayRelay {
  import opened Options

  /** Ids are minted per attempt of a call, so an id names its call and attempt. */
  datatype ActionId = ActionId(call: nat, attempt: nat)

  type Claim = nat

  /** A published action: its id and the session claim it was built with. */
  datatype Frame = Frame(id: ActionId, claim: Claim)

  /** The relay ran the action (well or badly), or refused its session claim. */
  datatype Answer = Ran(ok: bool) | ClaimRefused

  datatype Reply = Reply(id: ActionId, answer: Answer)

  datatype Slot = InFlight | Completed(answer: Answer)

  datatype Call = Waiting(attempt: nat) | Reclaiming | Finished

  /** How the relay treats a claim-checked action: whether it looks the id up before checking the
      claim, and whether a refusal is stored under the id. */
  datatype Policy = Policy(lookupFirst: bool, cachesRefusals: bool)

  /** What the surroundings may do to a call: claims expiring, cache entries being evicted. */
  datatype Surroundings = Surroundings(mayExpire: bool, mayEvict: bool)

  /** `captured` are the ids a resend pass has listed but not yet sent; `dispatched` and
      `executions` are history. Frames and replies once sent may arrive any number of times. */
  datatype System = System(calls: map<nat, Call>, claim: Option<Claim>, captured: set<ActionId>,
                           frames: set<Frame>, replies: set<Reply>,
                           cache: map<ActionId, Slot>, expired: set<Claim>,
                           dispatched: set<ActionId>, executions: seq<ActionId>)

  const Start := System(map[], None, {}, {}, {}, map[], {}, {}, [])

  datatype Event =
    | NewClaim(claim: Claim)
    | DropClaim
    | Dispatch(call: nat)
    | Receive(reply: Reply)
    | Retry(call: nat)
    | GiveUp(call: nat)
    | StartPass
    | Resend(id: ActionId)
    | Deliver(frame: Frame)
    | Complete(id: ActionId, ok: bool)
    | Expire(claim: Claim)
    | Evict(id: ActionId)

  // ---------------------------------------------------------------- the relay

  function Execute(s: System, id: ActionId): System {
    s.(cache := s.cache[id := InFlight], executions := s.executions + [id])
  }

  function Refuse(s: System, id: ActionId, policy: Policy): System {
    s.(replies := s.replies + {Reply(id, ClaimRefused)},
       cache := if policy.cachesRefusals && id !in s.cache then s.cache[id := Completed(ClaimRefused)]
                else s.cache)
  }

  /** A known id is never executed again: a finished one is answered from the cache, a running one
      is left to answer for itself. */
  function Replay(s: System, id: ActionId): System
    requires id in s.cache
  {
    if s.cache[id].InFlight? then s else s.(replies := s.replies + {Reply(id, s.cache[id].answer)})
  }

  function Handle(s: System, frame: Frame, policy: Policy): System {
    var valid := frame.claim !in s.expired;
    if frame.id in s.cache && (policy.lookupFirst || valid) then Replay(s, frame.id)
    else if !valid then Refuse(s, frame.id, policy)
    else Execute(s, frame.id)
  }

  // ---------------------------------------------------------------- the client

  function Publish(s: System, id: ActionId): System
    requires s.claim.Some?
  {
    s.(frames := s.frames + {Frame(id, s.claim.value)}, dispatched := s.dispatched + {id},
       calls := s.calls[id.call := Waiting(id.attempt)])
  }

  /** A reply settles the attempt that waits for it; only a first attempt retries a refusal. */
  function Hear(s: System, reply: Reply): System {
    var c := reply.id.call;
    if c !in s.calls || s.calls[c] != Waiting(reply.id.attempt) then s
    else if reply.answer.ClaimRefused? && reply.id.attempt == 0
    then s.(calls := s.calls[c := Reclaiming], claim := None)
    else s.(calls := s.calls[c := Finished])
  }

  function WaitingIds(s: System): set<ActionId> {
    set c | c in s.calls && s.calls[c].Waiting? :: ActionId(c, s.calls[c].attempt)
  }

  function Step(s: System, e: Event, policy: Policy): System {
    match e
    case NewClaim(claim) => s.(claim := Some(claim))
    case DropClaim => s.(claim := None)
    case Dispatch(c) =>
      if c in s.calls then s
      else if s.claim.None? then s.(calls := s.calls[c := Finished])
      else Publish(s, ActionId(c, 0))
    case Receive(reply) => if reply in s.replies then Hear(s, reply) else s
    case Retry(c) =>
      if c !in s.calls || !s.calls[c].Reclaiming? then s
      else if s.claim.None? then s.(calls := s.calls[c := Finished])
      else Publish(s, ActionId(c, 1))
    case GiveUp(c) => if c in s.calls then s.(calls := s.calls[c := Finished]) else s
    case StartPass => s.(captured := s.captured + WaitingIds(s))
    case Resend(id) =>
      if id !in s.captured || s.claim.None? then s
      else s.(captured := s.captured - {id}, frames := s.frames + {Frame(id, s.claim.value)})
    case Deliver(frame) => if frame in s.frames then Handle(s, frame, policy) else s
    case Complete(id, ok) =>
      if id !in s.cache || !s.cache[id].InFlight? then s
      else s.(cache := s.cache[id := Completed(Ran(ok))], replies := s.replies + {Reply(id, Ran(ok))})
    case Expire(claim) => s.(expired := s.expired + {claim})
    case Evict(id) => s.(cache := s.cache - {id})
  }

  function Run(s: System, run: seq<Event>, policy: Policy): System
    decreases |run|
  {
    if |run| == 0 then s else Run(Step(s, run[0], policy), run[1..], policy)
  }

  predicate Allowed(e: Event, around: Surroundings) {
    (e.Expire? ==> around.mayExpire) && (e.Evict? ==> around.mayEvict)
  }

  predicate AllowedRun(run: seq<Event>, around: Surroundings) {
    forall i :: 0 <= i < |run| ==> Allowed(run[i], around)
  }

  /** How often a call was executed. */
  function Count(executions: seq<ActionId>, call: nat): nat {
    if |executions| == 0 then 0
    else (if executions[0].call == call then 1 else 0) + Count(executions[1..], call)
  }

  /** Every call executes at most once, in every run the surroundings allow. */
  ghost predicate AtMostOnce(policy: Policy, around: Surroundings) {
    forall run, call :: AllowedRun(run, around) ==> Count(Run(Start, run, policy).executions, call) <= 1
  }

  /** The exact condition: nothing is evicted, and either no claim expires or the relay both looks
      ids up before checking claims and stores its refusals. */
  predicate Safe(policy: Policy, around: Surroundings) {
    !around.mayEvict && (!around.mayExpire || (policy.lookupFirst && policy.cachesRefusals))
  }

  // ---------------------------------------------------------------- at most two ids

  /** Every id that circulates was dispatched, and a call dispatches at most its two attempts. */
  predicate Minted(s: System) {
    && (forall id :: id in s.dispatched ==> id.attempt <= 1 && id.call in s.calls)
    && (forall f :: f in s.frames ==> f.id in s.dispatched)
    && (forall id :: id in s.captured ==> id in s.dispatched)
    && (forall c :: c in s.calls && s.calls[c].Waiting? ==> ActionId(c, s.calls[c].attempt) in s.dispatched)
    && (forall id :: id in s.executions ==> id in s.dispatched)
  }

  lemma StepMinted(s: System, e: Event, policy: Policy)
    requires Minted(s)
    ensures Minted(Step(s, e, policy))
  {
  }

  lemma {:induction false} RunMinted(s: System, run: seq<Event>, policy: Policy)
    requires Minted(s)
    ensures Minted(Run(s, run, policy))
    decreases |run|
  {
    if |run| > 0 {
      StepMinted(s, run[0], policy);
      RunMinted(Step(s, run[0], policy), run[1..], policy);
    }
  }

  /** The ids in play: a call publishes its attempts 0 and 1 only, and nothing is executed that no
      call dispatched. */
  lemma AtMostTwoIds(run: seq<Event>, policy: Policy, id: ActionId)
    ensures var s := Run(Start, run, policy);
      && (id in s.dispatched ==> id == ActionId(id.call, 0) || id == ActionId(id.call, 1))
      && (id in s.executions ==> id in s.dispatched)
  {
    RunMinted(Start, run, policy);
  }

  // ---------------------------------------------------------------- safety

  predicate Refused(s: System, id: ActionId) {
    id in s.cache && s.cache[id] == Completed(ClaimRefused)
  }

  predicate Executed(s: System, id: ActionId) {
    id in s.cache && s.cache[id] != Completed(ClaimRefused)
  }

  predicate Distinct(executions: seq<ActionId>) {
    forall i, j :: 0 <= i < j < |executions| ==> executions[i] != executions[j]
  }

  /** Executed ids are remembered as run, refusals as refused, and a second attempt exists only
      where the first is remembered as refused. */
  ghost predicate Inv(s: System) {
    && Minted(s) && Distinct(s.executions)
    && (forall i :: 0 <= i < |s.executions| ==> Executed(s, s.executions[i]))
    && (forall id :: Reply(id, ClaimRefused) in s.replies ==> Refused(s, id))
    && (forall c :: c in s.calls && s.calls[c].Reclaiming? ==> Refused(s, ActionId(c, 0)))
    && (forall c :: ActionId(c, 1) in s.dispatched ==> Refused(s, ActionId(c, 0)))
  }

  predicate Calm(s: System, around: Surroundings) { !around.mayExpire ==> s.expired == {} }

  lemma ExecuteInv(s: System, id: ActionId)
    requires Inv(s) && id in s.dispatched && id !in s.cache
    ensures Inv(Execute(s, id))
  {
    var t := Execute(s, id);
    forall i | 0 <= i < |t.executions| ensures Executed(t, t.executions[i]) {
      if i < |s.executions| { assert Executed(s, s.executions[i]); }
    }
  }

  lemma RefuseInv(s: System, id: ActionId, policy: Policy)
    requires Inv(s) && id in s.dispatched && id !in s.cache && policy.cachesRefusals
    ensures Inv(Refuse(s, id, policy))
  {
    var t := Refuse(s, id, policy);
    forall i | 0 <= i < |t.executions| ensures Executed(t, t.executions[i]) {
      assert Executed(s, s.executions[i]);
    }
  }

  lemma DeliverInv(s: System, frame: Frame, policy: Policy, around: Surroundings)
    requires Inv(s) && Calm(s, around) && Safe(policy, around) && frame in s.frames
    ensures Inv(Handle(s, frame, policy))
  {
    if frame.id !in s.cache {
      if frame.claim in s.expired {
        RefuseInv(s, frame.id, policy);
      } else {
        ExecuteInv(s, frame.id);
      }
    }
  }

  lemma CompleteInv(s: System, id: ActionId, ok: bool, policy: Policy)
    requires Inv(s)
    ensures Inv(Step(s, Complete(id, ok), policy))
  {
    StepMinted(s, Complete(id, ok), policy);
    var t := Step(s, Complete(id, ok), policy);
    forall i | 0 <= i < |t.executions| ensures Executed(t, t.executions[i]) {
      assert Executed(s, s.executions[i]);
    }
  }

  /** The relay's memory and the second attempts it must account for, when only the client moves. */
  lemma ClientOnly(s: System, t: System)
    requires Inv(s) && Minted(t)
    requires t.cache == s.cache && t.executions == s.executions && t.replies == s.replies
    requires forall c :: c in t.calls && t.calls[c].Reclaiming? ==> Refused(s, ActionId(c, 0))
    requires forall c :: ActionId(c, 1) in t.dispatched ==> Refused(s, ActionId(c, 0))
    ensures Inv(t)
  {
    forall i | 0 <= i < |t.executions| ensures Executed(t, t.executions[i]) {
      assert Executed(s, s.executions[i]);
    }
    assert forall id :: Refused(t, id) == Refused(s, id);
  }

  lemma HearInv(s: System, reply: Reply)
    requires Inv(s) && reply in s.replies && Minted(Hear(s, reply))
    ensures Inv(Hear(s, reply))
  {
    var t := Hear(s, reply);
    forall c | c in t.calls && t.calls[c].Reclaiming? ensures Refused(s, ActionId(c, 0)) {
      if c == reply.id.call && t != s { assert reply == Reply(ActionId(c, 0), ClaimRefused); }
    }
    ClientOnly(s, t);
  }

  lemma ClientInv(s: System, e: Event, policy: Policy)
    requires Inv(s) && !e.Deliver? && !e.Complete? && !e.Evict?
    ensures Inv(Step(s, e, policy))
  {
    StepMinted(s, e, policy);
    if e.Receive? {
      if e.reply in s.replies { HearInv(s, e.reply); }
    } else {
      ClientOnly(s, Step(s, e, policy));
    }
  }

  lemma StepInv(s: System, e: Event, policy: Policy, around: Surroundings)
    requires Inv(s) && Calm(s, around) && Safe(policy, around) && Allowed(e, around)
    ensures Inv(Step(s, e, policy)) && Calm(Step(s, e, policy), around)
  {
    match e
    case Deliver(frame) => if frame in s.frames { DeliverInv(s, frame, policy, around); }
    case Complete(id, ok) => CompleteInv(s, id, ok, policy);
    case _ => ClientInv(s, e, policy);
  }

  lemma {:induction false} RunInv(s: System, run: seq<Event>, policy: Policy, around: Surroundings)
    requires Inv(s) && Calm(s, around) && Safe(policy, around) && AllowedRun(run, around)
    ensures Inv(Run(s, run, policy))
    decreases |run|
  {
    if |run| > 0 {
      StepInv(s, run[0], policy, around);
      assert AllowedRun(run[1..], around);
      RunInv(Step(s, run[0], policy), run[1..], policy, around);
    }
  }

  lemma {:induction false} CountOne(executions: seq<ActionId>, call: nat)
    requires Distinct(executions)
    requires forall i, j :: 0 <= i < |executions| && 0 <= j < |executions| ==>
               executions[i].call == call && executions[j].call == call ==> executions[i] == executions[j]
    ensures Count(executions, call) <= 1
  {
    if |executions| > 0 {
      CountOne(executions[1..], call);
      if executions[0].call == call {
        CountNone(executions[1..], call);
      }
    }
  }

  lemma {:induction false} CountNone(executions: seq<ActionId>, call: nat)
    requires forall i :: 0 <= i < |executions| ==> executions[i].call != call
    ensures Count(executions, call) == 0
  {
    if |executions| > 0 { CountNone(executions[1..], call); }
  }

  lemma InvCountsOnce(s: System, call: nat)
    requires Inv(s)
    ensures Count(s.executions, call) <= 1
  {
    var x := s.executions;
    forall i, j | 0 <= i < |x| && 0 <= j < |x| && x[i].call == call && x[j].call == call
      ensures x[i] == x[j]
    {
      assert Executed(s, x[i]) && Executed(s, x[j]);
      assert x[i] in x && x[j] in x;
      assert x[i] in s.dispatched && x[j] in s.dispatched;
      OneAttemptRan(s, x[i], x[j]);
    }
    CountOne(x, call);
  }

  lemma OneAttemptRan(s: System, a: ActionId, b: ActionId)
    requires Inv(s) && a in s.dispatched && b in s.dispatched && a.call == b.call && Executed(s, a) && Executed(s, b)
    ensures a == b
  {
    assert a.attempt <= 1 && b.attempt <= 1;
    if a.attempt == 1 { assert a == ActionId(a.call, 1); }
    if b.attempt == 1 { assert b == ActionId(b.call, 1); }
    if a.attempt == 0 { assert a == ActionId(a.call, 0); }
    if b.attempt == 0 { assert b == ActionId(b.call, 0); }
  }

  lemma SafeIsEnough(policy: Policy, around: Surroundings)
    requires Safe(policy, around)
    ensures AtMostOnce(policy, around)
  {
    forall run, call | AllowedRun(run, around)
      ensures Count(Run(Start, run, policy).executions, call) <= 1
    {
      RunInv(Start, run, policy, around);
      InvCountsOnce(Run(Start, run, policy), call);
    }
  }

  // ---------------------------------------------------------------- what the relay answers

  /** A frame for an id the relay knows never executes: a finished one is answered with what is stored
      under it, a running one with nothing yet. An unknown id with a valid claim executes once; with
      an expired claim it is refused, and stored as refused exactly by a relay that stores refusals. */
  lemma DeliveryAnswers(s: System, frame: Frame, policy: Policy)
    requires frame in s.frames
    ensures var t := Step(s, Deliver(frame), policy);
      var known, valid := frame.id in s.cache, frame.claim !in s.expired;
      if known && (policy.lookupFirst || valid) then
        && t.executions == s.executions && t.cache == s.cache
        && t.replies == if s.cache[frame.id].Completed? then s.replies + {Reply(frame.id, s.cache[frame.id].answer)}
                        else s.replies
      else if valid then
        && t.executions == s.executions + [frame.id] && t.replies == s.replies
        && t.cache == s.cache[frame.id := InFlight]
      else
        && t.executions == s.executions && t.replies == s.replies + {Reply(frame.id, ClaimRefused)}
        && (known ==> t.cache == s.cache)
        && (!known ==> (frame.id in t.cache <==> policy.cachesRefusals))
        && (frame.id in t.cache && !known ==> t.cache[frame.id] == Completed(ClaimRefused))
  {
  }

  /** What a reply does to the call that waits for it: the first attempt of a refused claim goes to
      reclaim, any other answer finishes the call, and a reply nobody waits for does nothing. */
  lemma ReplyHeard(s: System, reply: Reply, policy: Policy)
    requires reply in s.replies
    ensures var t, c := Step(s, Receive(reply), policy), reply.id.call;
      if c in s.calls && s.calls[c] == Waiting(reply.id.attempt) then
        && c in t.calls
        && (t.calls[c] == Reclaiming <==> reply.answer.ClaimRefused? && reply.id.attempt == 0)
        && (t.calls[c] == Finished <==> !(reply.answer.ClaimRefused? && reply.id.attempt == 0))
        && t.claim == (if t.calls[c] == Reclaiming then None else s.claim)
      else t == s
    ensures reply.id.call in s.calls ==> Step(s, GiveUp(reply.id.call), policy).calls[reply.id.call] == Finished
  {
  }

  /** And an undisturbed call runs once and finishes. */
  lemma CallCompletes(s: System, call: nat, ok: bool, policy: Policy)
    requires call !in s.calls && s.claim.Some? && s.claim.value !in s.expired && ActionId(call, 0) !in s.cache
    ensures var id := ActionId(call, 0);
      var sent := Step(s, Dispatch(call), policy);
      var running := Step(sent, Deliver(Frame(id, s.claim.value)), policy);
      var answered := Step(running, Complete(id, ok), policy);
      var t := Step(answered, Receive(Reply(id, Ran(ok))), policy);
      && t.executions == s.executions + [id] && call in t.calls && t.calls[call] == Finished
      && id in t.cache && t.cache[id] == Completed(Ran(ok))
  {
  }

  // ---------------------------------------------------------------- necessity

  lemma RunCons(s: System, e: Event, rest: seq<Event>, policy: Policy)
    ensures Run(s, [e] + rest, policy) == Run(Step(s, e, policy), rest, policy)
  {
    assert ([e] + rest)[1..] == rest;
  }

  const First := ActionId(0, 0)
  const Second := ActionId(0, 1)

  /** The call has sent its first attempt under claim 0. */
  const Sent := System(map[0 := Waiting(0)], Some(0), {}, {Frame(First, 0)}, {}, map[], {}, {First}, [])

  lemma ReachSent(rest: seq<Event>, policy: Policy)
    ensures Run(Start, [NewClaim(0)] + ([Dispatch(0)] + rest), policy) == Run(Sent, rest, policy)
  {
    RunCons(Start, NewClaim(0), [Dispatch(0)] + rest, policy);
    var s := Step(Start, NewClaim(0), policy);
    RunCons(s, Dispatch(0), rest, policy);
    assert Step(s, Dispatch(0), policy) == Sent;
  }

  function EvictionRun(): seq<Event> {
    [NewClaim(0)] + ([Dispatch(0)] + ([Deliver(Frame(First, 0))] + ([Complete(First, true)]
    + ([StartPass] + ([Resend(First)] + ([Evict(First)] + ([Deliver(Frame(First, 0))] + [])))))))
  }

  /** With eviction: the action runs, its reply is lost, its entry is evicted, and the resent copy
      runs it again. */
  lemma EvictionRunsTwice(policy: Policy)
    ensures Run(Start, EvictionRun(), policy).executions == [First, First]
  {
    var f := Frame(First, 0);
    var r2: seq<Event> := [Deliver(f)] + [];
    var r1 := [Evict(First)] + r2;
    ReachRan([StartPass] + ([Resend(First)] + r1), policy);
    ResendReturns(r1, policy);
    RunCons(RanOnce, Evict(First), r2, policy);
    var s1 := Step(RanOnce, Evict(First), policy);
    assert s1.cache == map[];
    RunCons(s1, Deliver(f), [], policy);
  }

  function EarlyCheckRun(): seq<Event> {
    [NewClaim(0)] + ([Dispatch(0)] + ([Deliver(Frame(First, 0))] + ([Complete(First, true)]
    + ([StartPass] + ([Resend(First)] + ([Expire(0)] + ([Deliver(Frame(First, 0))] + RetryTail())))))))
  }

  /** A claim check before the lookup: the action runs, its reply is lost, its claim expires, the
      resent copy is refused, and the retry runs it again under a fresh id. */
  lemma EarlyClaimCheckRunsTwice(policy: Policy)
    requires !policy.lookupFirst
    ensures Run(Start, EarlyCheckRun(), policy).executions == [First, Second]
  {
    var f := Frame(First, 0);
    var r2 := [Deliver(f)] + RetryTail();
    var r1 := [Expire(0)] + r2;
    ReachRan([StartPass] + ([Resend(First)] + r1), policy);
    ResendReturns(r1, policy);
    RunCons(RanOnce, Expire(0), r2, policy);
    var s1 := Step(RanOnce, Expire(0), policy);
    RunCons(s1, Deliver(f), RetryTail(), policy);
    var s2 := Step(s1, Deliver(f), policy);
    assert s2 == Refuse(s1, First, policy);
    RetryRuns(s2, policy);
  }

  lemma OneWaiting(s: System)
    requires s.calls == map[0 := Waiting(0)]
    ensures WaitingIds(s) == {First}
  {
    assert 0 in s.calls && First == ActionId(0, s.calls[0].attempt);
  }

  /** A resend under an unchanged claim puts an identical frame on the wire. */
  lemma ResendReturns(rest: seq<Event>, policy: Policy)
    ensures Run(RanOnce, [StartPass] + ([Resend(First)] + rest), policy) == Run(RanOnce, rest, policy)
  {
    RunCons(RanOnce, StartPass, [Resend(First)] + rest, policy);
    var s := Step(RanOnce, StartPass, policy);
    OneWaiting(RanOnce);
    RunCons(s, Resend(First), rest, policy);
    var t := Step(s, Resend(First), policy);
    assert t.captured == {} && t.frames == {Frame(First, 0)};
    assert t == RanOnce;
  }

  /** The first attempt has run and answered; the answer is on its way. */
  const RanOnce := System(map[0 := Waiting(0)], Some(0), {}, {Frame(First, 0)}, {Reply(First, Ran(true))},
                          map[First := Completed(Ran(true))], {}, {First}, [First])

  lemma DeliverRuns(policy: Policy)
    ensures Step(Sent, Deliver(Frame(First, 0)), policy) == Execute(Sent, First)
  {
  }

  lemma ReachRan(rest: seq<Event>, policy: Policy)
    ensures Run(Start, [NewClaim(0)] + ([Dispatch(0)] + ([Deliver(Frame(First, 0))]
                       + ([Complete(First, true)] + rest))), policy) == Run(RanOnce, rest, policy)
  {
    var f := Frame(First, 0);
    var r1 := [Complete(First, true)] + rest;
    ReachSent([Deliver(f)] + r1, policy);
    RunCons(Sent, Deliver(f), r1, policy);
    DeliverRuns(policy);
    var s1 := Execute(Sent, First);
    RunCons(s1, Complete(First, true), rest, policy);
    assert s1.cache[First := Completed(Ran(true))] == map[First := Completed(Ran(true))];
    assert Step(s1, Complete(First, true), policy) == RanOnce;
  }

  /** The client hears the refusal, claims anew and retries; the retry is delivered. */
  function RetryTail(): seq<Event> {
    [Receive(Reply(First, ClaimRefused))] + ([NewClaim(1)] + ([Retry(0)] + ([Deliver(Frame(Second, 1))] + [])))
  }

  lemma RetryRuns(s: System, policy: Policy)
    requires Reply(First, ClaimRefused) in s.replies && s.calls == map[0 := Waiting(0)]
    requires Second !in s.cache && 1 !in s.expired
    ensures Run(s, RetryTail(), policy).executions == s.executions + [Second]
  {
    var r3: seq<Event> := [Deliver(Frame(Second, 1))] + [];
    var r2 := [Retry(0)] + r3;
    var r1 := [NewClaim(1)] + r2;
    RunCons(s, Receive(Reply(First, ClaimRefused)), r1, policy);
    var s1 := Step(s, Receive(Reply(First, ClaimRefused)), policy);
    assert s1.calls[0] == Reclaiming;
    RunCons(s1, NewClaim(1), r2, policy);
    var s2 := Step(s1, NewClaim(1), policy);
    RunCons(s2, Retry(0), r3, policy);
    var s3 := Step(s2, Retry(0), policy);
    assert Frame(Second, 1) in s3.frames;
    RunCons(s3, Deliver(Frame(Second, 1)), [], policy);
  }

  function ForgottenRefusalRun(): seq<Event> {
    [NewClaim(0)] + ([Dispatch(0)] + ([StartPass] + ([Expire(0)] + ([Deliver(Frame(First, 0))]
    + (RetryTail() + ([Resend(First)] + ([Deliver(Frame(First, 1))] + [])))))))
  }

  /** Refusals that are not stored: the first attempt is refused, the retry runs, and the resend
      loop, which does not look whether its captured entry is still pending, sends the refused id
      again under the new claim. */
  lemma ForgottenRefusalRunsTwice(policy: Policy)
    requires !policy.cachesRefusals
    ensures Run(Start, ForgottenRefusalRun(), policy).executions == [Second, First]
  {
    var r2: seq<Event> := [Deliver(Frame(First, 1))] + [];
    var r1 := [Resend(First)] + r2;
    ReachRefused(RetryTail() + r1, policy);
    RetryThen(RefusedOnce, r1, policy);
    RetryRuns(RefusedOnce, policy);
    var s1 := Run(RefusedOnce, RetryTail(), policy);
    RunCons(s1, Resend(First), r2, policy);
    var s2 := Step(s1, Resend(First), policy);
    RunCons(s2, Deliver(Frame(First, 1)), [], policy);
  }

  /** The first attempt is captured by a resend pass and refused without a trace. */
  const RefusedOnce := System(map[0 := Waiting(0)], Some(0), {First}, {Frame(First, 0)},
                              {Reply(First, ClaimRefused)}, map[], {0}, {First}, [])

  lemma ReachRefused(rest: seq<Event>, policy: Policy)
    requires !policy.cachesRefusals
    ensures Run(Start, [NewClaim(0)] + ([Dispatch(0)] + ([StartPass] + ([Expire(0)]
                       + ([Deliver(Frame(First, 0))] + rest)))), policy) == Run(RefusedOnce, rest, policy)
  {
    var f := Frame(First, 0);
    var r2 := [Deliver(f)] + rest;
    var r1 := [Expire(0)] + r2;
    ReachSent([StartPass] + r1, policy);
    RunCons(Sent, StartPass, r1, policy);
    OneWaiting(Sent);
    var s1 := Step(Sent, StartPass, policy);
    RunCons(s1, Expire(0), r2, policy);
    var s2 := Step(s1, Expire(0), policy);
    RunCons(s2, Deliver(f), rest, policy);
    assert Step(s2, Deliver(f), policy) == RefusedOnce;
  }

  lemma RetryThen(s: System, rest: seq<Event>, policy: Policy)
    requires Reply(First, ClaimRefused) in s.replies && s.calls == map[0 := Waiting(0)]
    requires s.cache == map[] && 1 !in s.expired
    ensures Run(s, RetryTail() + rest, policy) == Run(Run(s, RetryTail(), policy), rest, policy)
    ensures var t := Run(s, RetryTail(), policy);
      t.captured == s.captured && t.claim == Some(1) && t.expired == s.expired && First !in t.cache
  {
    RunAppend(s, RetryTail(), rest, policy);
    var r3: seq<Event> := [Deliver(Frame(Second, 1))] + [];
    var r2 := [Retry(0)] + r3;
    var r1 := [NewClaim(1)] + r2;
    RunCons(s, Receive(Reply(First, ClaimRefused)), r1, policy);
    var s1 := Step(s, Receive(Reply(First, ClaimRefused)), policy);
    RunCons(s1, NewClaim(1), r2, policy);
    var s2 := Step(s1, NewClaim(1), policy);
    RunCons(s2, Retry(0), r3, policy);
    var s3 := Step(s2, Retry(0), policy);
    RunCons(s3, Deliver(Frame(Second, 1)), [], policy);
  }

  lemma {:induction false} RunAppend(s: System, a: seq<Event>, b: seq<Event>, policy: Policy)
    ensures Run(s, a + b, policy) == Run(Run(s, a, policy), b, policy)
    decreases |a|
  {
    if |a| == 0 {
      assert a + b == b;
    } else {
      assert (a + b)[1..] == a[1..] + b;
      RunAppend(Step(s, a[0], policy), a[1..], b, policy);
    }
  }

  lemma TwiceRefutes(run: seq<Event>, policy: Policy, around: Surroundings)
    requires AllowedRun(run, around) && |Run(Start, run, policy).executions| == 2
    requires var x := Run(Start, run, policy).executions; x[0].call == 0 && x[1].call == 0
    ensures !AtMostOnce(policy, around)
  {
    TwoOfOne(Run(Start, run, policy).executions);
  }

  lemma EvictionRefutes(policy: Policy, around: Surroundings)
    requires around.mayEvict
    ensures !AtMostOnce(policy, around)
  {
    EvictionRunsTwice(policy);
    assert AllowedRun(EvictionRun(), around);
    TwiceRefutes(EvictionRun(), policy, around);
  }

  lemma EarlyClaimCheckRefutes(policy: Policy, around: Surroundings)
    requires around.mayExpire && !policy.lookupFirst
    ensures !AtMostOnce(policy, around)
  {
    EarlyClaimCheckRunsTwice(policy);
    assert AllowedRun(EarlyCheckRun(), around);
    TwiceRefutes(EarlyCheckRun(), policy, around);
  }

  lemma ForgottenRefusalRefutes(policy: Policy, around: Surroundings)
    requires around.mayExpire && !policy.cachesRefusals
    ensures !AtMostOnce(policy, around)
  {
    ForgottenRefusalRunsTwice(policy);
    assert AllowedRun(ForgottenRefusalRun(), around);
    TwiceRefutes(ForgottenRefusalRun(), policy, around);
  }

  /** Exactly when a call executes at most once in every run: nothing is evicted from the replay
      cache, and either no claim expires, or the relay looks an id up before it checks the claim
      and stores its refusals under the id. */
  lemma AtMostOnceExactly(policy: Policy, around: Surroundings)
    ensures AtMostOnce(policy, around) <==> Safe(policy, around)
  {
    if Safe(policy, around) {
      SafeIsEnough(policy, around);
    } else if around.mayEvict {
      EvictionRefutes(policy, around);
    } else if !policy.lookupFirst {
      EarlyClaimCheckRefutes(policy, around);
    } else {
      ForgottenRefusalRefutes(policy, around);
    }
  }

  lemma TwoOfOne(executions: seq<ActionId>)
    requires |executions| == 2 && executions[0].call == 0 && executions[1].call == 0
    ensures Count(executions, 0) == 2
  {
    assert Count(executions[1..], 0) == 1 + Count(executions[1..][1..], 0);
  }

  /** The relay as written checks claims first and stores no refusal. */
  const RelayAsWritten := Policy(false, false)

  /** So, as written, one call can execute twice once a claim expires in flight, and cannot while
      no claim expires and nothing is evicted. */
  lemma RelayAsWrittenExactly(around: Surroundings)
    ensures AtMostOnce(RelayAsWritten, around) <==> !around.mayExpire && !around.mayEvict
  {
    AtMostOnceExactly(RelayAsWritten, around);
  }
}
