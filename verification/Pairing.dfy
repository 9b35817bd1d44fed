/** Pairing attempts (frontend/remote/pairing.js and the connection half of
    frontend/remote/broker-client.js): which attempt may publish a request, save a profile or lose
    its socket, over every interleaving of scans, frames, clock changes and suspended calls. */
module Pairing {
  import opened Options

  // ---------------------------------------------------------------- data

  /** A broker and one of its rooms. */
  datatype Site = Site(url: string, room: string)

  datatype Payload = Payload(pairingId: string, secret: string, site: Site, expiresAt: Option<int>)

  /** The parsed ticket object. Every parse makes a new object; `serial` is its identity. */
  datatype Ticket = Ticket(serial: nat, payload: Payload)

  /** What a decrypted pairing result carries: the verdict, whether the credential bundle is
      complete, the relay's name for itself, and whether there is a refresh token to establish and
      a client claim to redeem. */
  datatype Bundle = Bundle(ok: bool, complete: bool, relayId: string, refreshable: bool,
                           claimable: bool, credentials: string)

  datatype Profile = Profile(relayId: string, site: Site, credentials: string)

  /** A connection descriptor, named by the number of the socket it was opened with. */
  datatype Conn = PairingConn(attempt: nat, site: Site) | DeviceConn(site: Site)

  datatype Phase = NoPhase | Connecting | Requesting | Failed

  datatype Attempt = Attempt(id: nat, ticket: Option<Ticket>, retired: bool, phase: Phase)

  /** `current` outlives a socket that closed by itself. */
  datatype Wire = Wire(socket: Option<nat>, current: Option<nat>, conns: map<nat, Conn>, sockets: nat,
                       peer: Option<string>)

  /** A `sendPairingRequest` suspended on the device identity, or on proof and encryption. */
  datatype Request = Request(attempt: nat, socket: Option<nat>, ticket: Ticket, identified: bool)

  /** The awaits of `handleEncryptedPairingResult`. */
  datatype Stage =
    | Decrypting
    | DeviceSession(bundle: Bundle)
    | Signing(bundle: Bundle)
    | Redeeming(bundle: Bundle)
    | ClientSession(bundle: Bundle)

  datatype Result = Result(attempt: nat, ticket: Ticket, envelope: string, stage: Stage)

  /** What an attempt does beyond its own state. */
  datatype Effect =
    | Published(attempt: nat, pairingId: string, secret: string, site: Site)
    | SavedClient(attempt: nat, url: string)
    | SavedProfile(attempt: nat, profile: Profile, envelope: string)
    | Dropped(attempt: nat, conn: Conn)                    // a socket closed by retirement

  /** `tickets`, `over` and `effects` are history: the ticket of every attempt, the attempts that
      were retired, and everything attempts did. */
  datatype Client = Client(now: int, attempt: Attempt, wire: Wire, auth: Option<Profile>,
                           requests: map<nat, Request>, results: map<nat, Result>, started: nat,
                           tickets: map<nat, Ticket>, over: set<nat>, effects: seq<Effect>)

  type Decrypt = (string, string) -> Option<Bundle>

  // ---------------------------------------------------------------- state.js

  predicate Live(ticket: Ticket, now: int) {
    ticket.payload.expiresAt.None? || ticket.payload.expiresAt.value * 1000 > now
  }

  /** `hasActivePairing` */
  predicate Active(s: Client) {
    s.attempt.ticket.Some? && !s.attempt.retired && Live(s.attempt.ticket.value, s.now)
  }

  /** `connectionTarget`; `usable` stands for `hasUsableDeviceJoinTicket`. */
  function Target(s: Client, usable: bool): Option<Conn> {
    if Active(s) then Some(PairingConn(s.attempt.id, s.attempt.ticket.value.payload.site))
    else if s.auth.Some? && usable then Some(DeviceConn(s.auth.value.site))
    else None
  }

  datatype Selection = ForPairing(pairingId: string) | ForRelay(relayId: string)

  function SelectionKey(s: Client): Option<Selection> {
    if Active(s) then Some(ForPairing(s.attempt.ticket.value.payload.pairingId))
    else if s.auth.Some? && s.auth.value.relayId != "" then Some(ForRelay(s.auth.value.relayId))
    else None
  }

  // ---------------------------------------------------------------- broker-client.js

  /** `closeBrokerSocket`; `reset` also forgets the peer id. */
  function CloseSocket(w: Wire, reset: bool): Wire {
    var peer := if reset then None else w.peer;
    if w.socket.None? then w.(peer := peer) else w.(socket := None, current := None, peer := peer)
  }

  predicate OwnsSocket(w: Wire, attempt: nat) {
    && w.current.Some? && w.current.value in w.conns
    && w.conns[w.current.value].PairingConn? && w.conns[w.current.value].attempt == attempt
  }

  /** `retirePairing` */
  function Retire(s: Client, attempt: nat): Client {
    if attempt != s.attempt.id then s
    else
      var t := s.(attempt := s.attempt.(retired := true, phase := Failed), over := s.over + {attempt});
      if !OwnsSocket(s.wire, attempt) then t
      else t.(wire := CloseSocket(s.wire, true),
              effects := if s.wire.socket.Some? && s.wire.socket.value in s.wire.conns
                         then s.effects + [Dropped(attempt, s.wire.conns[s.wire.socket.value])]
                         else s.effects)
  }

  function RetireUnretired(s: Client): Client {
    if s.attempt.ticket.Some? && !s.attempt.retired then Retire(s, s.attempt.id) else s
  }

  /** `promoteConnectionToDevice`: the descriptor changes in place. */
  function Promote(w: Wire): Wire {
    if w.current.Some? && w.current.value in w.conns && w.conns[w.current.value].PairingConn?
    then w.(conns := w.conns[w.current.value := DeviceConn(w.conns[w.current.value].site)])
    else w
  }

  /** `releaseSupersededPairingSocket` */
  function Release(s: Client): Client {
    if s.wire.current.Some? && s.wire.current.value in s.wire.conns
       && s.wire.conns[s.wire.current.value].PairingConn?
       && s.wire.conns[s.wire.current.value].attempt != s.attempt.id
    then s.(wire := CloseSocket(s.wire, true)) else s
  }

  function Open(w: Wire, conn: Conn): Wire {
    Wire(Some(w.sockets), Some(w.sockets), w.conns[w.sockets := conn], w.sockets + 1, None)
  }

  /** `connectBroker` from the expiry check on; `opens` is false when the address does not parse. */
  function Connect(s: Client, selection: Option<Selection>, usable: bool, opens: bool): Client {
    var t := if Active(s) then s else RetireUnretired(s);
    var target := Target(t, usable);
    if target.None? || SelectionKey(t) != selection then t
    else
      var w := CloseSocket(t.wire, false);
      t.(wire := if opens then Open(w, target.value) else w)
  }

  datatype Frame =
    | Welcome(supported: bool, peer: Option<string>)
    | Problem(terminal: bool)
    | ResultFrame(pairingId: string, targetPeer: Option<string>, envelope: string)

  /** `handleSocketMessage` on the live socket: the gate, then the dispatch. */
  function OnFrame(s: Client, frame: Frame): Client {
    if s.wire.socket.None? || s.wire.socket.value !in s.wire.conns then s
    else
      var conn := s.wire.conns[s.wire.socket.value];
      if conn.DeviceConn? then Dispatch(s, frame, conn)
      else if conn.attempt != s.attempt.id then s
      else if !s.attempt.retired && !(s.attempt.ticket.Some? && Live(s.attempt.ticket.value, s.now))
      then Retire(s, conn.attempt)
      else if s.attempt.retired then s
      else Dispatch(s, frame, conn)
  }

  function Dispatch(s: Client, frame: Frame, conn: Conn): Client {
    match frame
    case Welcome(supported, peer) =>
      if !supported then s.(wire := CloseSocket(s.wire, true))
      else
        var t := s.(wire := s.wire.(peer := peer));
        if conn.PairingConn? then StartRequest(t) else t
    case Problem(terminal) => if conn.PairingConn? && terminal then Retire(s, conn.attempt) else s
    case ResultFrame(pairingId, targetPeer, envelope) => StartResult(s, pairingId, targetPeer, envelope)
  }

  // ---------------------------------------------------------------- pairing.js

  /** A new attempt, once the abandoned socket is released. */
  function Renewed(s: Client, payload: Payload): Client {
    var id := s.attempt.id + 1;
    Release(s.(attempt := s.attempt.(id := id)))
      .(attempt := Attempt(id, Some(Ticket(id, payload)), false, s.attempt.phase),
        tickets := s.tickets[id := Ticket(id, payload)])
  }

  /** `beginPairing` for input that parses. */
  function Scan(s: Client, payload: Payload, usable: bool, opens: bool): Client {
    var t := Renewed(s, payload);
    if !Live(Ticket(t.attempt.id, payload), s.now) then Retire(t, t.attempt.id)
    else
      var u := t.(attempt := t.attempt.(phase := Connecting));
      Connect(u, SelectionKey(u), usable, opens)
  }

  /** The synchronous half of `sendPairingRequest`. */
  function StartRequest(s: Client): Client {
    if !Active(s) then RetireUnretired(s)
    else s.(requests := s.requests[s.started := Request(s.attempt.id, s.wire.socket, s.attempt.ticket.value, false)],
            started := s.started + 1)
  }

  predicate RequestStillOurs(s: Client, f: Request) {
    && s.attempt.id == f.attempt && s.wire.socket == f.socket
    && s.attempt.ticket.Some? && s.attempt.ticket.value.payload.pairingId == f.ticket.payload.pairingId
    && Active(s)
  }

  function SiteOf(w: Wire, socket: Option<nat>): Site {
    if socket.Some? && socket.value in w.conns then w.conns[socket.value].site else Site("", "")
  }

  /** The code after each await of `sendPairingRequest`; `sent` is false when the await or the
      publish itself throws. */
  function RequestStep(s: Client, n: nat, sent: bool): Client {
    if n !in s.requests then s
    else
      var f := s.requests[n];
      var t := s.(requests := s.requests - {n});
      if !sent || !RequestStillOurs(s, f) then t
      else if !f.identified then
        s.(attempt := s.attempt.(phase := Requesting), requests := s.requests[n := f.(identified := true)])
      else
        t.(effects := s.effects + [Published(f.attempt, f.ticket.payload.pairingId, f.ticket.payload.secret,
                                             SiteOf(s.wire, s.wire.socket))])
  }

  /** The synchronous half of `handleEncryptedPairingResult`. */
  function StartResult(s: Client, pairingId: string, targetPeer: Option<string>, envelope: string): Client {
    if !Active(s) || pairingId != s.attempt.ticket.value.payload.pairingId || targetPeer != s.wire.peer then s
    else s.(results := s.results[s.started := Result(s.attempt.id, s.attempt.ticket.value, envelope, Decrypting)],
            started := s.started + 1)
  }

  predicate ResultStillOurs(s: Client, f: Result) {
    && s.attempt.id == f.attempt && s.attempt.ticket.Some?
    && s.attempt.ticket.value.serial == f.ticket.serial && !s.attempt.retired
  }

  function ProfileOf(ticket: Ticket, bundle: Bundle): Profile {
    Profile(if bundle.relayId != "" then bundle.relayId else ticket.payload.site.room,
            ticket.payload.site, bundle.credentials)
  }

  /** `saveRemoteAuth`, the promotion of the socket and the end of the ticket. */
  function Adopt(s: Client, f: Result, bundle: Bundle): Client {
    if !ResultStillOurs(s, f) then s
    else
      var profile := ProfileOf(f.ticket, bundle);
      s.(auth := Some(profile), effects := s.effects + [SavedProfile(f.attempt, profile, f.envelope)],
         wire := Promote(s.wire), attempt := s.attempt.(ticket := None, phase := NoPhase))
  }

  function Suspend(s: Client, n: nat, f: Result, stage: Stage): Client {
    s.(results := s.results[n := f.(stage := stage)])
  }

  /** From the check after the device session on. */
  function AfterDevice(s: Client, n: nat, f: Result, bundle: Bundle): Client {
    if !ResultStillOurs(s, f) then s
    else if bundle.claimable && bundle.relayId != "" then Suspend(s, n, f, Signing(bundle))
    else Adopt(s, f, bundle)
  }

  /** From the check after decryption on. */
  function AfterDecrypt(s: Client, n: nat, f: Result, bundle: Bundle): Client {
    if !ResultStillOurs(s, f) then s
    else if !bundle.ok || !bundle.complete then Retire(s, s.attempt.id)
    else if bundle.refreshable then Suspend(s, n, f, DeviceSession(bundle))
    else AfterDevice(s, n, f, bundle)
  }

  /** The code after each await of `handleEncryptedPairingResult`; `ok` is false when it throws. */
  function ResultStep(s: Client, n: nat, ok: bool, decrypt: Decrypt): Client {
    if n !in s.results then s
    else
      var f := s.results[n];
      var t := s.(results := s.results - {n});
      match f.stage
      case Decrypting =>
        var bundle := decrypt(f.ticket.payload.secret, f.envelope);
        if bundle.None? then t else AfterDecrypt(t, n, f, bundle.value)
      case DeviceSession(bundle) => AfterDevice(t, n, f, bundle)
      case Signing(bundle) => if ok then Suspend(t, n, f, Redeeming(bundle)) else Adopt(t, f, bundle)
      case Redeeming(bundle) =>
        if !ok then Adopt(t, f, bundle)
        else if !ResultStillOurs(t, f) then t
        else Suspend(t, n, f, ClientSession(bundle))
      case ClientSession(bundle) =>
        if !ok then Adopt(t, f, bundle)
        else if !ResultStillOurs(t, f) then t
        else Adopt(t.(effects := t.effects + [SavedClient(f.attempt, f.ticket.payload.site.url)]), f, bundle)
  }

  // ---------------------------------------------------------------- runs

  datatype Event =
    | Clock(now: int)                                            // any clock, not only a forward one
    | ScanCode(payload: Payload, usable: bool, opens: bool)
    | ScanUnreadable                                             // the catch of `beginPairing`
    | ConnectNow(usable: bool, opens: bool)                      // no refresh is needed first
    | ConnectRefreshed(selection: Option<Selection>, usable: bool, opens: bool)
    | SocketClosed
    | Arrive(frame: Frame)
    | RequestAnswered(request: nat, sent: bool)
    | ResultAnswered(result: nat, ok: bool)
    | Select(profile: Profile)                                   // `switchRemoteRelay`
    | LeaveRelay                                                 // `returnToRelayHome`
    | Forget                                                     // `forgetCurrentDevice`

  function Step(s: Client, e: Event, decrypt: Decrypt): Client {
    match e
    case Clock(now) => s.(now := now)
    case ScanCode(payload, usable, opens) => Scan(s, payload, usable, opens)
    case ScanUnreadable => s.(attempt := s.attempt.(phase := Failed))
    case ConnectNow(usable, opens) => Connect(s, SelectionKey(s), usable, opens)
    case ConnectRefreshed(selection, usable, opens) =>
      if SelectionKey(s) != selection then s else Connect(s, selection, usable, opens)
    case SocketClosed => s.(wire := s.wire.(socket := None, peer := None))
    case Arrive(frame) => OnFrame(s, frame)
    case RequestAnswered(n, sent) => RequestStep(s, n, sent)
    case ResultAnswered(n, ok) => ResultStep(s, n, ok, decrypt)
    case Select(profile) => s.(auth := Some(profile))
    case LeaveRelay => if s.auth.None? then s else s.(auth := None, wire := CloseSocket(s.wire, true))
    case Forget => s.(auth := None, wire := CloseSocket(s.wire, true),
                      attempt := s.attempt.(ticket := None, phase := NoPhase))
  }

  function Run(s: Client, run: seq<Event>, decrypt: Decrypt): Client
    decreases |run|
  {
    if |run| == 0 then s else Run(Step(s, run[0], decrypt), run[1..], decrypt)
  }

  function Boot(now: int, auth: Option<Profile>): Client {
    Client(now, Attempt(0, None, false, NoPhase), Wire(None, None, map[], 0, None), auth,
           map[], map[], 0, map[], {}, [])
  }

  // ---------------------------------------------------------------- the invariant

  predicate TicketInv(s: Client) {
    && (forall a :: a in s.tickets ==> a <= s.attempt.id && s.tickets[a].serial == a)
    && (s.attempt.ticket.Some? ==> s.attempt.id in s.tickets && s.tickets[s.attempt.id] == s.attempt.ticket.value)
    && (forall a :: a in s.over ==> a <= s.attempt.id)
    && (s.attempt.retired <==> s.attempt.id in s.over)
    && (s.attempt.retired && s.attempt.ticket.Some? ==> s.attempt.phase == Failed)
  }

  /** The live socket is the current connection, and if it was opened for pairing its attempt is
      the current, un-retired one. */
  predicate WireInv(s: Client) {
    && (s.wire.socket.Some? ==> s.wire.current == s.wire.socket && s.wire.socket.value in s.wire.conns)
    && (forall n :: n in s.wire.conns ==> n < s.wire.sockets)
    && (forall n :: n in s.wire.conns && s.wire.conns[n].PairingConn? ==>
          s.wire.conns[n].attempt in s.tickets
          && s.wire.conns[n].site == s.tickets[s.wire.conns[n].attempt].payload.site)
    && (s.wire.socket.Some? && s.wire.conns[s.wire.socket.value].PairingConn? ==>
          && s.wire.conns[s.wire.socket.value].attempt == s.attempt.id
          && !s.attempt.retired && s.attempt.ticket.Some?)
  }

  /** A suspended request holds its attempt's ticket, and its socket is still that attempt's
      unless the attempt is finished. */
  predicate RequestInv(s: Client, f: Request) {
    && f.attempt in s.tickets && f.ticket == s.tickets[f.attempt]
    && f.socket.Some? && f.socket.value in s.wire.conns
    && (s.wire.conns[f.socket.value] == PairingConn(f.attempt, f.ticket.payload.site)
        || f.attempt < s.attempt.id || s.attempt.ticket.None?)
  }

  predicate Opened(f: Result, bundle: Bundle, decrypt: Decrypt) {
    decrypt(f.ticket.payload.secret, f.envelope) == Some(bundle) && bundle.ok && bundle.complete
  }

  predicate ResultInv(s: Client, f: Result, decrypt: Decrypt) {
    && f.attempt in s.tickets && f.ticket == s.tickets[f.attempt]
    && (f.stage != Decrypting ==> Opened(f, f.stage.bundle, decrypt))
  }

  /** What each effect of attempt `a` is allowed to be, given the attempt's ticket. */
  ghost predicate EffectOk(e: Effect, ticket: Ticket, decrypt: Decrypt) {
    var p := ticket.payload;
    match e
    case Published(_, pairingId, secret, site) => pairingId == p.pairingId && secret == p.secret && site == p.site
    case SavedClient(_, url) => url == p.site.url
    case SavedProfile(_, profile, envelope) =>
      var bundle := decrypt(p.secret, envelope);
      bundle.Some? && bundle.value.ok && bundle.value.complete && profile == ProfileOf(ticket, bundle.value)
    case Dropped(a, conn) => conn == PairingConn(a, p.site)
  }

  ghost predicate EffectsOk(effects: seq<Effect>, tickets: map<nat, Ticket>, decrypt: Decrypt) {
    forall i :: 0 <= i < |effects| ==>
      effects[i].attempt in tickets && EffectOk(effects[i], tickets[effects[i].attempt], decrypt)
  }

  /** What is true of an attempt once it saved a profile: never retired, and its ticket is gone. */
  predicate Adopted(s: Client, a: nat) {
    a !in s.over && (a < s.attempt.id || (a == s.attempt.id && s.attempt.ticket.None?))
  }

  ghost predicate SavesInv(s: Client) {
    && (forall i :: 0 <= i < |s.effects| && s.effects[i].SavedProfile? ==> Adopted(s, s.effects[i].attempt))
    && (forall i, j :: 0 <= i < j < |s.effects| && s.effects[i].SavedProfile? && s.effects[j].SavedProfile? ==>
          s.effects[i].attempt != s.effects[j].attempt)
  }

  ghost predicate FlightsInv(s: Client, decrypt: Decrypt) {
    && (forall n :: n in s.requests ==> RequestInv(s, s.requests[n]))
    && (forall n :: n in s.results ==> ResultInv(s, s.results[n], decrypt))
  }

  ghost predicate Inv(s: Client, decrypt: Decrypt) {
    && TicketInv(s) && WireInv(s) && FlightsInv(s, decrypt)
    && EffectsOk(s.effects, s.tickets, decrypt) && SavesInv(s)
  }

  // ---------------------------------------------------------------- every step keeps it

  lemma LoggedOne(effects: seq<Effect>, e: Effect, tickets: map<nat, Ticket>, decrypt: Decrypt)
    requires EffectsOk(effects, tickets, decrypt) && e.attempt in tickets && EffectOk(e, tickets[e.attempt], decrypt)
    ensures EffectsOk(effects + [e], tickets, decrypt)
  {
  }

  /** Suspended calls stay in order while old sockets keep their descriptors. */
  lemma FlightsKept(s: Client, t: Client, decrypt: Decrypt)
    requires FlightsInv(s, decrypt)
    requires forall n :: n in t.requests ==> n in s.requests && t.requests[n] == s.requests[n]
    requires forall n :: n in t.results ==> n in s.results && t.results[n] == s.results[n]
    requires forall a :: a in s.tickets ==> a in t.tickets && t.tickets[a] == s.tickets[a]
    requires forall n :: n in s.wire.conns ==> n in t.wire.conns && t.wire.conns[n] == s.wire.conns[n]
    requires forall a :: a in s.tickets ==> a <= s.attempt.id
    requires s.attempt.id < t.attempt.id
             || (s.attempt.id == t.attempt.id && (s.attempt.ticket.None? ==> t.attempt.ticket.None?))
    ensures FlightsInv(t, decrypt)
  {
    forall n | n in t.requests ensures RequestInv(t, t.requests[n]) {
      assert RequestInv(s, s.requests[n]);
    }
    forall n | n in t.results ensures ResultInv(t, t.results[n], decrypt) {
      assert ResultInv(s, s.results[n], decrypt);
    }
  }

  lemma EffectsKept(effects: seq<Effect>, tickets: map<nat, Ticket>, more: map<nat, Ticket>, decrypt: Decrypt)
    requires EffectsOk(effects, tickets, decrypt)
    requires forall a :: a in tickets ==> a in more && more[a] == tickets[a]
    ensures EffectsOk(effects, more, decrypt)
  {
  }

  lemma RetireInv(s: Client, a: nat, decrypt: Decrypt)
    requires Inv(s, decrypt) && s.attempt.ticket.Some? && !s.attempt.retired
    ensures Inv(Retire(s, a), decrypt)
  {
    if a == s.attempt.id {
      var t := Retire(s, a);
      if t.effects != s.effects {
        LoggedOne(s.effects, Dropped(a, s.wire.conns[s.wire.socket.value]), s.tickets, decrypt);
      }
      FlightsKept(s, t, decrypt);
    }
  }

  /** Closing the socket, for whatever reason, keeps the invariant. */
  lemma CloseInv(s: Client, reset: bool, decrypt: Decrypt)
    requires Inv(s, decrypt)
    ensures Inv(s.(wire := CloseSocket(s.wire, reset)), decrypt)
  {
    var t := s.(wire := CloseSocket(s.wire, reset));
    FlightsKept(s, t, decrypt);
  }

  lemma OpenInv(s: Client, conn: Conn, decrypt: Decrypt)
    requires Inv(s, decrypt)
    requires conn.PairingConn? ==> Active(s) && conn == PairingConn(s.attempt.id, s.attempt.ticket.value.payload.site)
    ensures Inv(s.(wire := Open(s.wire, conn)), decrypt)
  {
    var t := s.(wire := Open(s.wire, conn));
    FlightsKept(s, t, decrypt);
  }

  lemma ConnectInv(s: Client, selection: Option<Selection>, usable: bool, opens: bool, decrypt: Decrypt)
    requires Inv(s, decrypt)
    ensures Inv(Connect(s, selection, usable, opens), decrypt)
  {
    if !Active(s) && s.attempt.ticket.Some? && !s.attempt.retired { RetireInv(s, s.attempt.id, decrypt); }
    var t := if Active(s) then s else RetireUnretired(s);
    var target := Target(t, usable);
    if target.Some? && SelectionKey(t) == selection {
      CloseInv(t, false, decrypt);
      var u := t.(wire := CloseSocket(t.wire, false));
      if opens { OpenInv(u, target.value, decrypt); }
    }
  }

  lemma RenewedWire(s: Client, payload: Payload)
    requires TicketInv(s) && WireInv(s)
    ensures WireInv(Renewed(s, payload))
  {
    assert s.attempt.id + 1 !in s.tickets;
  }

  lemma RenewedInv(s: Client, payload: Payload, decrypt: Decrypt)
    requires Inv(s, decrypt)
    ensures Inv(Renewed(s, payload), decrypt)
  {
    var t := Renewed(s, payload);
    assert s.attempt.id + 1 !in s.tickets;
    FlightsKept(s, t, decrypt);
    EffectsKept(s.effects, s.tickets, t.tickets, decrypt);
    RenewedWire(s, payload);
  }

  lemma ScanInv(s: Client, payload: Payload, usable: bool, opens: bool, decrypt: Decrypt)
    requires Inv(s, decrypt)
    ensures Inv(Scan(s, payload, usable, opens), decrypt)
  {
    RenewedInv(s, payload, decrypt);
    var t := Renewed(s, payload);
    if !Live(Ticket(t.attempt.id, payload), s.now) {
      RetireInv(t, t.attempt.id, decrypt);
    } else {
      var u := t.(attempt := t.attempt.(phase := Connecting));
      PhaseInv(t, Connecting, decrypt);
      ConnectInv(u, SelectionKey(u), usable, opens, decrypt);
    }
  }

  lemma PhaseInv(s: Client, phase: Phase, decrypt: Decrypt)
    requires Inv(s, decrypt)
    requires s.attempt.retired && s.attempt.ticket.Some? ==> phase == Failed
    ensures Inv(s.(attempt := s.attempt.(phase := phase)), decrypt)
  {
    var t := s.(attempt := s.attempt.(phase := phase));
    FlightsKept(s, t, decrypt);
  }

  lemma StartRequestInv(s: Client, decrypt: Decrypt)
    requires Inv(s, decrypt) && s.wire.socket.Some? && s.wire.conns[s.wire.socket.value].PairingConn?
    ensures Inv(StartRequest(s), decrypt)
  {
    if Active(s) {
      var t := StartRequest(s);
      forall n | n in t.requests ensures RequestInv(t, t.requests[n]) {
        if n in s.requests && n != s.started { assert RequestInv(s, s.requests[n]); }
      }
      forall n | n in t.results ensures ResultInv(t, t.results[n], decrypt) {
        assert ResultInv(s, s.results[n], decrypt);
      }
    } else {
      RetireInv(s, s.attempt.id, decrypt);
    }
  }

  lemma StartResultInv(s: Client, pairingId: string, targetPeer: Option<string>, envelope: string, decrypt: Decrypt)
    requires Inv(s, decrypt)
    ensures Inv(StartResult(s, pairingId, targetPeer, envelope), decrypt)
  {
    var t := StartResult(s, pairingId, targetPeer, envelope);
    forall n | n in t.requests ensures RequestInv(t, t.requests[n]) {
      assert RequestInv(s, s.requests[n]);
    }
    forall n | n in t.results ensures ResultInv(t, t.results[n], decrypt) {
      if t.results[n].stage != Decrypting || n != s.started { assert ResultInv(s, s.results[n], decrypt); }
    }
  }

  lemma PeerInv(s: Client, peer: Option<string>, decrypt: Decrypt)
    requires Inv(s, decrypt)
    ensures Inv(s.(wire := s.wire.(peer := peer)), decrypt)
  {
    FlightsKept(s, s.(wire := s.wire.(peer := peer)), decrypt);
  }

  lemma FrameInv(s: Client, frame: Frame, decrypt: Decrypt)
    requires Inv(s, decrypt)
    ensures Inv(OnFrame(s, frame), decrypt)
  {
    if s.wire.socket.Some? {
      var conn := s.wire.conns[s.wire.socket.value];
      if conn.PairingConn? && !Live(s.attempt.ticket.value, s.now) {
        RetireInv(s, conn.attempt, decrypt);
      } else {
        DispatchInv(s, frame, conn, decrypt);
      }
    }
  }

  lemma DispatchInv(s: Client, frame: Frame, conn: Conn, decrypt: Decrypt)
    requires Inv(s, decrypt) && s.wire.socket.Some? && conn == s.wire.conns[s.wire.socket.value]
    ensures Inv(Dispatch(s, frame, conn), decrypt)
  {
    match frame
    case Welcome(supported, peer) =>
      CloseInv(s, true, decrypt);
      PeerInv(s, peer, decrypt);
      if conn.PairingConn? { StartRequestInv(s.(wire := s.wire.(peer := peer)), decrypt); }
    case Problem(terminal) => if conn.PairingConn? { RetireInv(s, conn.attempt, decrypt); }
    case ResultFrame(pairingId, targetPeer, envelope) => StartResultInv(s, pairingId, targetPeer, envelope, decrypt);
  }

  lemma RequestStepInv(s: Client, n: nat, sent: bool, decrypt: Decrypt)
    requires Inv(s, decrypt)
    ensures Inv(RequestStep(s, n, sent), decrypt)
  {
    if n in s.requests {
      var f := s.requests[n];
      assert RequestInv(s, f);
      var t := RequestStep(s, n, sent);
      if sent && RequestStillOurs(s, f) && !f.identified {
        PhaseInv(s, Requesting, decrypt);
        forall k | k in t.requests ensures RequestInv(t, t.requests[k]) {
          assert RequestInv(s, s.requests[k]);
        }
      } else {
        FlightsKept(s, t, decrypt);
        if t.effects != s.effects { PublishOk(s, f, decrypt); }
      }
    }
  }

  lemma PublishOk(s: Client, f: Request, decrypt: Decrypt)
    requires Inv(s, decrypt) && RequestInv(s, f) && RequestStillOurs(s, f)
    ensures EffectsOk(s.effects + [Published(f.attempt, f.ticket.payload.pairingId, f.ticket.payload.secret,
                                             SiteOf(s.wire, s.wire.socket))], s.tickets, decrypt)
  {
    LoggedOne(s.effects, Published(f.attempt, f.ticket.payload.pairingId, f.ticket.payload.secret,
                                   SiteOf(s.wire, s.wire.socket)), s.tickets, decrypt);
  }

  lemma AdoptInv(s: Client, f: Result, bundle: Bundle, decrypt: Decrypt)
    requires Inv(s, decrypt) && ResultInv(s, f, decrypt) && Opened(f, bundle, decrypt)
    ensures Inv(Adopt(s, f, bundle), decrypt)
  {
    if ResultStillOurs(s, f) {
      var t := Adopt(s, f, bundle);
      LoggedOne(s.effects, SavedProfile(f.attempt, ProfileOf(f.ticket, bundle), f.envelope), s.tickets, decrypt);
      forall n | n in t.requests ensures RequestInv(t, t.requests[n]) {
        assert RequestInv(s, s.requests[n]);
      }
      forall n | n in t.results ensures ResultInv(t, t.results[n], decrypt) {
        assert ResultInv(s, s.results[n], decrypt);
      }
    }
  }

  lemma SuspendInv(s: Client, n: nat, f: Result, stage: Stage, decrypt: Decrypt)
    requires Inv(s, decrypt) && ResultInv(s, f, decrypt) && stage != Decrypting && Opened(f, stage.bundle, decrypt)
    ensures Inv(Suspend(s, n, f, stage), decrypt)
  {
    var t := Suspend(s, n, f, stage);
    forall k | k in t.requests ensures RequestInv(t, t.requests[k]) {
      assert RequestInv(s, s.requests[k]);
    }
    forall k | k in t.results ensures ResultInv(t, t.results[k], decrypt) {
      if k != n { assert ResultInv(s, s.results[k], decrypt); }
    }
  }

  lemma AfterDeviceInv(s: Client, n: nat, f: Result, bundle: Bundle, decrypt: Decrypt)
    requires Inv(s, decrypt) && ResultInv(s, f, decrypt) && Opened(f, bundle, decrypt)
    ensures Inv(AfterDevice(s, n, f, bundle), decrypt)
  {
    SuspendInv(s, n, f, Signing(bundle), decrypt);
    AdoptInv(s, f, bundle, decrypt);
  }

  lemma AfterDecryptInv(s: Client, n: nat, f: Result, bundle: Bundle, decrypt: Decrypt)
    requires Inv(s, decrypt) && ResultInv(s, f, decrypt)
    requires decrypt(f.ticket.payload.secret, f.envelope) == Some(bundle)
    ensures Inv(AfterDecrypt(s, n, f, bundle), decrypt)
  {
    if ResultStillOurs(s, f) {
      if !bundle.ok || !bundle.complete {
        RetireInv(s, s.attempt.id, decrypt);
      } else {
        SuspendInv(s, n, f, DeviceSession(bundle), decrypt);
        AfterDeviceInv(s, n, f, bundle, decrypt);
      }
    }
  }

  lemma SavedClientInv(s: Client, f: Result, decrypt: Decrypt)
    requires Inv(s, decrypt) && ResultInv(s, f, decrypt)
    ensures Inv(s.(effects := s.effects + [SavedClient(f.attempt, f.ticket.payload.site.url)]), decrypt)
  {
    LoggedOne(s.effects, SavedClient(f.attempt, f.ticket.payload.site.url), s.tickets, decrypt);
    FlightsKept(s, s.(effects := s.effects + [SavedClient(f.attempt, f.ticket.payload.site.url)]), decrypt);
  }

  lemma ResultStepInv(s: Client, n: nat, ok: bool, decrypt: Decrypt)
    requires Inv(s, decrypt)
    ensures Inv(ResultStep(s, n, ok, decrypt), decrypt)
  {
    if n in s.results {
      var f := s.results[n];
      var t := s.(results := s.results - {n});
      assert ResultInv(s, f, decrypt);
      FlightsKept(s, t, decrypt);
      assert Inv(t, decrypt) && ResultInv(t, f, decrypt);
      match f.stage
      case Decrypting =>
        var bundle := decrypt(f.ticket.payload.secret, f.envelope);
        if bundle.Some? { AfterDecryptInv(t, n, f, bundle.value, decrypt); }
      case DeviceSession(bundle) => AfterDeviceInv(t, n, f, bundle, decrypt);
      case Signing(bundle) =>
        SuspendInv(t, n, f, Redeeming(bundle), decrypt);
        AdoptInv(t, f, bundle, decrypt);
      case Redeeming(bundle) =>
        SuspendInv(t, n, f, ClientSession(bundle), decrypt);
        AdoptInv(t, f, bundle, decrypt);
      case ClientSession(bundle) =>
        AdoptInv(t, f, bundle, decrypt);
        SavedClientInv(t, f, decrypt);
        AdoptInv(t.(effects := t.effects + [SavedClient(f.attempt, f.ticket.payload.site.url)]), f, bundle, decrypt);
    }
  }

  lemma ForgetInv(s: Client, decrypt: Decrypt)
    requires Inv(s, decrypt)
    ensures Inv(Step(s, Forget, decrypt), decrypt)
  {
    FlightsKept(s, Step(s, Forget, decrypt), decrypt);
  }

  lemma AmbientInv(s: Client, t: Client, decrypt: Decrypt)
    requires Inv(s, decrypt)
    requires t == s.(now := t.now, auth := t.auth, wire := t.wire)
    requires t.wire == s.wire || t.wire == s.wire.(socket := None, peer := None)
    ensures Inv(t, decrypt)
  {
    FlightsKept(s, t, decrypt);
  }

  lemma StepInv(s: Client, e: Event, decrypt: Decrypt)
    requires Inv(s, decrypt)
    ensures Inv(Step(s, e, decrypt), decrypt)
  {
    match e
    case ScanCode(payload, usable, opens) => ScanInv(s, payload, usable, opens, decrypt);
    case ScanUnreadable => PhaseInv(s, Failed, decrypt);
    case ConnectNow(usable, opens) => ConnectInv(s, SelectionKey(s), usable, opens, decrypt);
    case ConnectRefreshed(selection, usable, opens) => ConnectInv(s, selection, usable, opens, decrypt);
    case Arrive(frame) => FrameInv(s, frame, decrypt);
    case RequestAnswered(n, sent) => RequestStepInv(s, n, sent, decrypt);
    case ResultAnswered(n, ok) => ResultStepInv(s, n, ok, decrypt);
    case LeaveRelay =>
      CloseInv(s, true, decrypt);
      AmbientInv(s.(wire := CloseSocket(s.wire, true)), s.(wire := CloseSocket(s.wire, true), auth := None), decrypt);
    case Forget => ForgetInv(s, decrypt);
    case Clock(_) => AmbientInv(s, Step(s, e, decrypt), decrypt);
    case SocketClosed => AmbientInv(s, Step(s, e, decrypt), decrypt);
    case Select(_) => AmbientInv(s, Step(s, e, decrypt), decrypt);
  }

  lemma {:induction false} RunInv(s: Client, run: seq<Event>, decrypt: Decrypt)
    requires Inv(s, decrypt)
    ensures Inv(Run(s, run, decrypt), decrypt)
    decreases |run|
  {
    if |run| > 0 {
      StepInv(s, run[0], decrypt);
      RunInv(Step(s, run[0], decrypt), run[1..], decrypt);
    }
  }

  // ---------------------------------------------------------------- what every run keeps

  /** Every profile ever saved carries the broker and room of its own attempt's ticket and the
      credentials that ticket's secret opened; its attempt was never retired, and saved no other. */
  lemma SavedByItsOwnTicket(now: int, auth: Option<Profile>, run: seq<Event>, decrypt: Decrypt, i: nat)
    ensures var s := Run(Boot(now, auth), run, decrypt);
      i < |s.effects| && s.effects[i].SavedProfile? ==>
        && s.effects[i].attempt in s.tickets
        && (var p := s.tickets[s.effects[i].attempt].payload;
            var bundle := decrypt(p.secret, s.effects[i].envelope);
            && bundle.Some? && bundle.value.ok && bundle.value.complete
            && s.effects[i].profile.site == p.site && s.effects[i].profile.credentials == bundle.value.credentials)
        && s.effects[i].attempt !in s.over
        && forall j :: 0 <= j < |s.effects| && j != i && s.effects[j].SavedProfile? ==>
             s.effects[j].attempt != s.effects[i].attempt
  {
    RunInv(Boot(now, auth), run, decrypt);
  }

  /** Every request ever published went, under its own ticket's secret, into its own ticket's room;
      and every socket a retirement closed had been opened for the retired attempt. */
  lemma PublishedInItsOwnRoom(now: int, auth: Option<Profile>, run: seq<Event>, decrypt: Decrypt, i: nat)
    ensures var s := Run(Boot(now, auth), run, decrypt);
      i < |s.effects| ==>
        && s.effects[i].attempt in s.tickets
        && (var p := s.tickets[s.effects[i].attempt].payload;
            && (s.effects[i].Published? ==>
                  && s.effects[i].pairingId == p.pairingId && s.effects[i].secret == p.secret
                  && s.effects[i].site == p.site)
            && (s.effects[i].Dropped? ==> s.effects[i].conn == PairingConn(s.effects[i].attempt, p.site)))
  {
    RunInv(Boot(now, auth), run, decrypt);
  }

  /** An attempt holds a seat in a room only while it is the current, un-retired one. */
  lemma SeatIsCurrent(now: int, auth: Option<Profile>, run: seq<Event>, decrypt: Decrypt)
    ensures var s := Run(Boot(now, auth), run, decrypt);
      s.wire.socket.Some? ==>
        && s.wire.socket.value in s.wire.conns
        && (s.wire.conns[s.wire.socket.value].PairingConn? ==>
              s.wire.conns[s.wire.socket.value].attempt == s.attempt.id && !s.attempt.retired && s.attempt.ticket.Some?)
  {
    RunInv(Boot(now, auth), run, decrypt);
  }

  /** Retiring closes the live socket exactly when it belongs to the attempt being retired and that
      attempt is the current one. */
  lemma RetireClosesExactly(s: Client, a: nat, decrypt: Decrypt)
    requires Inv(s, decrypt) && s.wire.socket.Some?
    ensures Retire(s, a).wire.socket == s.wire.socket
            <==> !(s.wire.conns[s.wire.socket.value].PairingConn? && s.wire.conns[s.wire.socket.value].attempt == a)
    ensures Retire(s, a).wire.socket == s.wire.socket || Retire(s, a).wire.socket == None
  {
  }

  // ---------------------------------------------------------------- over is over

  /** Superseded, retired, or its ticket gone. */
  predicate Ended(s: Client, a: nat) {
    a < s.attempt.id || (a == s.attempt.id && (s.attempt.retired || s.attempt.ticket.None?))
  }

  /** From `s` to `t` nothing that had ended comes back, and only the attempt that was current and
      had not ended did anything. */
  ghost predicate OnlyCurrentActs(s: Client, t: Client) {
    && (forall a :: Ended(s, a) ==> Ended(t, a))
    && |s.effects| <= |t.effects| && t.effects[..|s.effects|] == s.effects
    && (forall i :: |s.effects| <= i < |t.effects| ==>
          t.effects[i].attempt == s.attempt.id && !Ended(s, s.attempt.id))
  }

  lemma RetireActs(s: Client, a: nat)
    requires s.attempt.ticket.Some? && !s.attempt.retired
    ensures OnlyCurrentActs(s, Retire(s, a))
  {
  }

  lemma ConnectActs(s: Client, selection: Option<Selection>, usable: bool, opens: bool)
    ensures OnlyCurrentActs(s, Connect(s, selection, usable, opens))
    ensures Active(s) ==> Connect(s, selection, usable, opens).effects == s.effects
  {
    if !Active(s) && s.attempt.ticket.Some? && !s.attempt.retired { RetireActs(s, s.attempt.id); }
  }

  lemma ScanActs(s: Client, payload: Payload, usable: bool, opens: bool, decrypt: Decrypt)
    requires Inv(s, decrypt)
    ensures OnlyCurrentActs(s, Scan(s, payload, usable, opens))
  {
    var t := Renewed(s, payload);
    RenewedWire(s, payload);
    if !Live(Ticket(t.attempt.id, payload), s.now) {
      assert !OwnsSocket(t.wire, t.attempt.id);
    } else {
      var u := t.(attempt := t.attempt.(phase := Connecting));
      ConnectActs(u, SelectionKey(u), usable, opens);
      assert Scan(s, payload, usable, opens).effects == s.effects;
    }
  }

  lemma FrameActs(s: Client, frame: Frame, decrypt: Decrypt)
    requires Inv(s, decrypt)
    ensures OnlyCurrentActs(s, OnFrame(s, frame))
  {
    if s.attempt.ticket.Some? && !s.attempt.retired { RetireActs(s, s.attempt.id); }
    if s.wire.socket.Some? {
      var conn := s.wire.conns[s.wire.socket.value];
      if conn.PairingConn? && frame.Welcome? {
        var t := s.(wire := s.wire.(peer := frame.peer));
        RetireActs(t, t.attempt.id);
      }
    }
  }

  lemma AdoptActs(s: Client, f: Result, bundle: Bundle)
    ensures OnlyCurrentActs(s, Adopt(s, f, bundle))
    ensures ResultStillOurs(s, f) ==>
      var logged := s.(effects := s.effects + [SavedClient(f.attempt, f.ticket.payload.site.url)]);
      OnlyCurrentActs(s, Adopt(logged, f, bundle))
  {
  }

  lemma AfterDecryptActs(s: Client, n: nat, f: Result, bundle: Bundle)
    ensures OnlyCurrentActs(s, AfterDecrypt(s, n, f, bundle))
  {
    AdoptActs(s, f, bundle);
    if s.attempt.ticket.Some? && !s.attempt.retired { RetireActs(s, s.attempt.id); }
  }

  lemma ResultActs(s: Client, n: nat, ok: bool, decrypt: Decrypt)
    ensures OnlyCurrentActs(s, ResultStep(s, n, ok, decrypt))
  {
    if n in s.results {
      var f, t := s.results[n], s.(results := s.results - {n});
      if f.stage.Decrypting? {
        var bundle := decrypt(f.ticket.payload.secret, f.envelope);
        if bundle.Some? { AfterDecryptActs(t, n, f, bundle.value); }
      } else {
        AdoptActs(t, f, f.stage.bundle);
      }
      SameStart(s, t, ResultStep(s, n, ok, decrypt));
    }
  }

  lemma SameStart(s: Client, t: Client, u: Client)
    requires s.attempt == t.attempt && s.effects == t.effects
    ensures OnlyCurrentActs(t, u) ==> OnlyCurrentActs(s, u)
  {
    if OnlyCurrentActs(t, u) {
      forall a | Ended(s, a) ensures Ended(u, a) {
        assert Ended(t, a);
      }
      assert Ended(s, s.attempt.id) == Ended(t, t.attempt.id);
    }
  }

  lemma StepActs(s: Client, e: Event, decrypt: Decrypt)
    requires Inv(s, decrypt)
    ensures OnlyCurrentActs(s, Step(s, e, decrypt))
  {
    match e
    case ScanCode(payload, usable, opens) => ScanActs(s, payload, usable, opens, decrypt);
    case ConnectNow(usable, opens) => ConnectActs(s, SelectionKey(s), usable, opens);
    case ConnectRefreshed(selection, usable, opens) => ConnectActs(s, selection, usable, opens);
    case Arrive(frame) => FrameActs(s, frame, decrypt);
    case ResultAnswered(n, ok) => ResultActs(s, n, ok, decrypt);
    case _ =>
  }

  /** However a run goes on, an attempt that has ended never publishes, saves or closes anything
      again, and never comes back. */
  lemma {:induction false} EndedForGood(s: Client, run: seq<Event>, decrypt: Decrypt, a: nat)
    requires Inv(s, decrypt) && Ended(s, a)
    ensures var t := Run(s, run, decrypt);
      && Ended(t, a) && |s.effects| <= |t.effects| && t.effects[..|s.effects|] == s.effects
      && forall i :: |s.effects| <= i < |t.effects| ==> t.effects[i].attempt != a
    decreases |run|
  {
    if |run| > 0 {
      var u := Step(s, run[0], decrypt);
      StepInv(s, run[0], decrypt);
      StepActs(s, run[0], decrypt);
      EndedForGood(u, run[1..], decrypt, a);
      var t := Run(u, run[1..], decrypt);
      assert t.effects[..|s.effects|] == t.effects[..|u.effects|][..|s.effects|];
      forall i | |s.effects| <= i < |t.effects| ensures t.effects[i].attempt != a {
        if i < |u.effects| { assert t.effects[i] == t.effects[..|u.effects|][i]; }
      }
    }
  }

  // ---------------------------------------------------------------- an approval completes

  function Rank(stage: Stage): nat {
    match stage
    case Decrypting => 5
    case DeviceSession(_) => 4
    case Signing(_) => 3
    case Redeeming(_) => 2
    case ClientSession(_) => 1
  }

  /** The pairing is done: profile selected, ticket gone, and the socket kept as a device socket of
      the same room. */
  ghost predicate Paired(s: Client, t: Client, f: Result, profile: Profile) {
    && t.auth == Some(profile) && t.attempt.ticket.None? && t.attempt.phase == NoPhase
    && |t.effects| > 0 && t.effects[|t.effects| - 1] == SavedProfile(f.attempt, profile, f.envelope)
    && t.wire.socket == s.wire.socket
    && (s.wire.socket.Some? && s.wire.socket.value in s.wire.conns ==>
          && s.wire.socket.value in t.wire.conns
          && t.wire.conns[s.wire.socket.value] == DeviceConn(s.wire.conns[s.wire.socket.value].site))
  }

  /** An approved result of the current attempt, with nothing else happening: each answered await,
      whether it succeeds or throws, completes the pairing or moves on to a later await. */
  lemma AnswerMovesOn(s: Client, n: nat, ok: bool, bundle: Bundle, decrypt: Decrypt)
    requires Inv(s, decrypt) && n in s.results && ResultStillOurs(s, s.results[n])
    requires Opened(s.results[n], bundle, decrypt)
    ensures var f, t := s.results[n], ResultStep(s, n, ok, decrypt);
      || (Paired(s, t, f, ProfileOf(f.ticket, bundle)) && n !in t.results)
      || (&& n in t.results && ResultStillOurs(t, t.results[n]) && t.results[n].ticket == f.ticket
          && t.results[n].envelope == f.envelope && t.results[n].attempt == f.attempt
          && Rank(t.results[n].stage) < Rank(f.stage)
          && t.wire == s.wire)
  {
    assert ResultInv(s, s.results[n], decrypt);
  }

  function Answers(n: nat, oks: seq<bool>): seq<Event> {
    if |oks| == 0 then [] else [ResultAnswered(n, oks[0])] + Answers(n, oks[1..])
  }

  /** So an approved result that nothing interrupts is adopted, whatever its side requests answer. */
  lemma {:induction false} ApprovalCompletes(s: Client, n: nat, oks: seq<bool>, bundle: Bundle, decrypt: Decrypt)
    requires Inv(s, decrypt) && n in s.results && ResultStillOurs(s, s.results[n])
    requires Opened(s.results[n], bundle, decrypt) && |oks| >= Rank(s.results[n].stage)
    ensures Paired(s, Run(s, Answers(n, oks), decrypt), s.results[n], ProfileOf(s.results[n].ticket, bundle))
    decreases |oks|
  {
    var f, t := s.results[n], ResultStep(s, n, oks[0], decrypt);
    assert Answers(n, oks)[1..] == Answers(n, oks[1..]);
    AnswerMovesOn(s, n, oks[0], bundle, decrypt);
    StepInv(s, ResultAnswered(n, oks[0]), decrypt);
    if n in t.results {
      ApprovalCompletes(t, n, oks[1..], bundle, decrypt);
    } else {
      SettledAnswers(t, n, oks[1..], decrypt);
    }
  }

  lemma {:induction false} SettledAnswers(s: Client, n: nat, oks: seq<bool>, decrypt: Decrypt)
    requires n !in s.results
    ensures Run(s, Answers(n, oks), decrypt) == s
    decreases |oks|
  {
    if |oks| > 0 {
      assert Answers(n, oks)[1..] == Answers(n, oks[1..]);
      SettledAnswers(s, n, oks[1..], decrypt);
    }
  }

  // ---------------------------------------------------------------- what each step does do

  /** The request is still its attempt's: same attempt, socket and ticket, and the ticket alive. */
  predicate StillItsOwn(s: Client, f: Request) {
    && s.attempt.id == f.attempt && s.wire.socket == f.socket && s.attempt.ticket == Some(f.ticket)
    && !s.attempt.retired && Live(f.ticket, s.now)
  }

  lemma RequestPublishes(s: Client, n: nat, sent: bool, decrypt: Decrypt)
    requires Inv(s, decrypt) && n in s.requests && s.requests[n].identified
    ensures var f, t := s.requests[n], RequestStep(s, n, sent);
      && n !in t.requests
      && t.effects == s.effects + (if sent && StillItsOwn(s, f)
           then [Published(f.attempt, f.ticket.payload.pairingId, f.ticket.payload.secret, f.ticket.payload.site)]
           else [])
  {
    assert RequestInv(s, s.requests[n]);
  }

  /** Exactly when the last answer of a request publishes it, in every reachable state: it is still its
      attempt's. What is published then is that attempt's id, pairing id and secret, in its room. */
  lemma PublishesExactly(now: int, auth: Option<Profile>, run: seq<Event>, decrypt: Decrypt, n: nat, sent: bool)
    requires var s := Run(Boot(now, auth), run, decrypt); n in s.requests && s.requests[n].identified
    ensures var s := Run(Boot(now, auth), run, decrypt);
      var f, t := s.requests[n], Step(s, RequestAnswered(n, sent), decrypt);
      && n !in t.requests
      && t.effects == if sent && StillItsOwn(s, f)
                      then s.effects + [Published(f.attempt, f.ticket.payload.pairingId, f.ticket.payload.secret,
                                                  f.ticket.payload.site)]
                      else s.effects
  {
    RunInv(Boot(now, auth), run, decrypt);
    RequestPublishes(Run(Boot(now, auth), run, decrypt), n, sent, decrypt);
  }

  /** A supported welcome on the active attempt's own socket leads to exactly one published request,
      once the device identity and the proof are there and if nothing comes in between. */
  lemma WelcomePublishes(s: Client, peer: Option<string>, decrypt: Decrypt)
    requires Inv(s, decrypt) && Active(s) && s.wire.socket.Some?
    requires s.wire.conns[s.wire.socket.value].PairingConn?
    ensures var p := s.attempt.ticket.value.payload;
      var asked := Step(s, Arrive(Welcome(true, peer)), decrypt);
      var identified := Step(asked, RequestAnswered(s.started, true), decrypt);
      var t := Step(identified, RequestAnswered(s.started, true), decrypt);
      && asked.wire.peer == peer && t.attempt.phase == Requesting && t.wire.socket == s.wire.socket
      && t.effects == s.effects + [Published(s.attempt.id, p.pairingId, p.secret, p.site)]
  {
    var asked := Step(s, Arrive(Welcome(true, peer)), decrypt);
    assert asked.requests[s.started]
        == Request(s.attempt.id, s.wire.socket, s.attempt.ticket.value, false);
    var identified := Step(asked, RequestAnswered(s.started, true), decrypt);
    assert identified.requests[s.started]
        == Request(s.attempt.id, s.wire.socket, s.attempt.ticket.value, true);
  }

  /** Exactly when a pairing result is taken up: an attempt is active, the result names its pairing and
      this peer. */
  lemma ResultTakenUpExactly(s: Client, pairingId: string, peer: Option<string>, envelope: string, decrypt: Decrypt)
    requires Inv(s, decrypt) && s.wire.socket.Some?
    ensures var t := Step(s, Arrive(ResultFrame(pairingId, peer, envelope)), decrypt);
      t.results == if Active(s) && pairingId == s.attempt.ticket.value.payload.pairingId && peer == s.wire.peer
                   then s.results[s.started := Result(s.attempt.id, s.attempt.ticket.value, envelope, Decrypting)]
                   else s.results
  {
  }

  /** So an approval that arrives for the active attempt is adopted, whatever its side requests answer
      and if nothing comes in between. */
  lemma HandshakeCompletes(s: Client, taken: Client, envelope: string, oks: seq<bool>, bundle: Bundle, decrypt: Decrypt)
    requires Inv(s, decrypt) && Active(s) && s.wire.socket.Some? && |oks| >= 5
    requires var id := s.attempt.ticket.value.payload.pairingId;
      taken == Step(s, Arrive(ResultFrame(id, s.wire.peer, envelope)), decrypt)
    requires decrypt(s.attempt.ticket.value.payload.secret, envelope) == Some(bundle) && bundle.ok && bundle.complete
    ensures taken.wire == s.wire
    ensures Paired(taken, Run(taken, Answers(s.started, oks), decrypt),
                   Result(s.attempt.id, s.attempt.ticket.value, envelope, Decrypting),
                   ProfileOf(s.attempt.ticket.value, bundle))
  {
    ResultTakenUpExactly(s, s.attempt.ticket.value.payload.pairingId, s.wire.peer, envelope, decrypt);
    StepInv(s, Arrive(ResultFrame(s.attempt.ticket.value.payload.pairingId, s.wire.peer, envelope)), decrypt);
    TakenIsOurs(s, taken, envelope, decrypt);
    ApprovalCompletes(taken, s.started, oks, bundle, decrypt);
  }

  lemma TakenIsOurs(s: Client, taken: Client, envelope: string, decrypt: Decrypt)
    requires Inv(s, decrypt) && Active(s) && s.wire.socket.Some?
    requires var id := s.attempt.ticket.value.payload.pairingId;
      taken == Step(s, Arrive(ResultFrame(id, s.wire.peer, envelope)), decrypt)
    ensures taken.wire == s.wire && taken.attempt == s.attempt && s.started in taken.results
    ensures taken.results[s.started] == Result(s.attempt.id, s.attempt.ticket.value, envelope, Decrypting)
  {
  }

  /** A refused or incomplete result ends its attempt, visibly and with its socket; one that cannot be
      decrypted changes nothing. */
  lemma RejectionRetires(s: Client, n: nat, ok: bool, decrypt: Decrypt)
    requires Inv(s, decrypt) && n in s.results && s.results[n].stage == Decrypting && ResultStillOurs(s, s.results[n])
    ensures var f, t := s.results[n], Step(s, ResultAnswered(n, ok), decrypt);
      var bundle := decrypt(f.ticket.payload.secret, f.envelope);
      && (bundle.None? ==> t == s.(results := s.results - {n}))
      && (bundle.Some? && !(bundle.value.ok && bundle.value.complete) ==>
            && t.attempt.retired && t.attempt.phase == Failed && t.auth == s.auth && n !in t.results
            && (s.wire.socket.Some? && s.wire.conns[s.wire.socket.value].PairingConn? ==> t.wire.socket == None))
  {
  }

  /** The last await of an adopted result: with a client session the client is saved as well. */
  lemma ClientSavedExactly(s: Client, n: nat, ok: bool, decrypt: Decrypt)
    requires Inv(s, decrypt) && n in s.results && s.results[n].stage.ClientSession? && ResultStillOurs(s, s.results[n])
    ensures var f, t := s.results[n], Step(s, ResultAnswered(n, ok), decrypt);
      var saved := SavedProfile(f.attempt, ProfileOf(f.ticket, f.stage.bundle), f.envelope);
      t.effects == s.effects + (if ok then [SavedClient(f.attempt, f.ticket.payload.site.url), saved] else [saved])
  {
  }

  /** The order of the awaits of an approved result: the device session if there is a token, then, if
      there is a claim and the relay named itself, signing, redeeming and the client session; a throw
      past the device session skips the rest of the claim. */
  lemma AwaitOrderExactly(s: Client, n: nat, ok: bool, bundle: Bundle, decrypt: Decrypt)
    requires Inv(s, decrypt) && n in s.results && ResultStillOurs(s, s.results[n])
    requires Opened(s.results[n], bundle, decrypt)
    ensures var f, t := s.results[n], Step(s, ResultAnswered(n, ok), decrypt);
      var claims := bundle.claimable && bundle.relayId != "";
      var next :=
        match f.stage
        case Decrypting => if bundle.refreshable then Some(DeviceSession(bundle))
                           else if claims then Some(Signing(bundle)) else None
        case DeviceSession(_) => if claims then Some(Signing(bundle)) else None
        case Signing(_) => if ok then Some(Redeeming(bundle)) else None
        case Redeeming(_) => if ok then Some(ClientSession(bundle)) else None
        case ClientSession(_) => None;
      (n in t.results <==> next.Some?) && (next.Some? ==> t.results[n] == f.(stage := next.value))
  {
    assert ResultInv(s, s.results[n], decrypt);
  }

  /** Leaving, forgetting and losing the connection: which of profile, ticket and socket each drops.
      None of them retires the attempt, and an unsupported welcome only closes. */
  lemma IdentityMoves(s: Client, profile: Profile, peer: Option<string>, decrypt: Decrypt)
    ensures var t := Step(s, Forget, decrypt);
      t.auth == None && t.attempt == Attempt(s.attempt.id, None, s.attempt.retired, NoPhase) && t.wire.socket == None
    ensures var t := Step(s, LeaveRelay, decrypt);
      t.auth == None && t.attempt == s.attempt && (s.auth.Some? ==> t.wire.socket == None)
      && (s.auth.None? ==> t.wire == s.wire)
    ensures Step(s, Select(profile), decrypt) == s.(auth := Some(profile))
    ensures var t := Step(s, SocketClosed, decrypt);
      t == s.(wire := t.wire) && t.wire.socket == None && t.wire.peer == None && t.wire.conns == s.wire.conns
    ensures Inv(s, decrypt) && s.wire.socket.Some?
            && (s.wire.conns[s.wire.socket.value].PairingConn? ==> Live(s.attempt.ticket.value, s.now)) ==>
      var t := Step(s, Arrive(Welcome(false, peer)), decrypt);
      t == s.(wire := t.wire) && t.wire.socket == None
  {
  }

  /** The profile that is saved: the relay's own name for itself, or else the ticket's room. */
  lemma ProfileNames(ticket: Ticket, bundle: Bundle)
    ensures var p := ProfileOf(ticket, bundle);
      && p.site == ticket.payload.site && p.credentials == bundle.credentials
      && (bundle.relayId != "" ==> p.relayId == bundle.relayId)
      && (bundle.relayId == "" ==> p.relayId == ticket.payload.site.room)
  {
  }

  /** Exactly which frame of a pairing socket ends the attempt: any, once its ticket has expired, and a
      terminal problem. */
  lemma FrameRetiresExactly(s: Client, frame: Frame, decrypt: Decrypt)
    requires Inv(s, decrypt) && s.wire.socket.Some? && s.wire.conns[s.wire.socket.value].PairingConn?
    ensures var t := Step(s, Arrive(frame), decrypt);
      t.attempt.retired <==> !Live(s.attempt.ticket.value, s.now) || frame == Problem(true)
  {
  }

  lemma ConnectsPairing(s: Client, usable: bool)
    requires Active(s)
    ensures var conn := PairingConn(s.attempt.id, s.attempt.ticket.value.payload.site);
      Connect(s, SelectionKey(s), usable, true) == s.(wire := Open(CloseSocket(s.wire, false), conn))
  {
  }

  lemma ConnectsDevice(s: Client)
    requires !Active(s) && s.auth.Some?
    ensures var t := RetireUnretired(s);
      Connect(s, SelectionKey(s), true, true)
      == t.(wire := Open(CloseSocket(t.wire, false), DeviceConn(s.auth.value.site)))
  {
  }

  lemma ConnectsNowhere(s: Client, usable: bool)
    requires !Active(s) && !(s.auth.Some? && usable)
    ensures Connect(s, SelectionKey(s), usable, true) == RetireUnretired(s)
  {
  }

  lemma RetireKeepsSockets(s: Client)
    ensures var t := RetireUnretired(s);
      && t.wire.sockets == s.wire.sockets && (t.wire.socket == s.wire.socket || t.wire.socket == None)
      && (s.attempt.ticket.Some? ==> t.attempt.retired)
  {
  }

  /** Exactly when a connect opens a socket: an attempt is active, or a device is selected whose ticket
      is usable. An expired attempt is retired first. */
  lemma ConnectOpensExactly(s: Client, t: Client, usable: bool, decrypt: Decrypt)
    requires Inv(s, decrypt) && t == Step(s, ConnectNow(usable, true), decrypt)
    ensures t.wire.socket == Some(s.wire.sockets) <==> Active(s) || (s.auth.Some? && usable)
    ensures Active(s) ==>
      s.wire.sockets in t.wire.conns
      && t.wire.conns[s.wire.sockets] == PairingConn(s.attempt.id, s.attempt.ticket.value.payload.site)
    ensures !Active(s) && s.auth.Some? && usable ==>
      s.wire.sockets in t.wire.conns && t.wire.conns[s.wire.sockets] == DeviceConn(s.auth.value.site)
    ensures s.attempt.ticket.Some? && !Live(s.attempt.ticket.value, s.now) ==> t.attempt.retired
  {
    assert s.wire.socket.Some? ==> s.wire.socket.value < s.wire.sockets;
    RetireKeepsSockets(s);
    if Active(s) {
      ConnectsPairing(s, usable);
    } else if s.auth.Some? && usable {
      ConnectsDevice(s);
    } else {
      ConnectsNowhere(s, usable);
    }
  }

  /** What a scan leaves: a new attempt with its own ticket, connecting in the ticket's room, or, for a
      code that has expired, retired with its error. */
  lemma ScanMeans(s: Client, t: Client, payload: Payload, usable: bool, decrypt: Decrypt)
    requires t == Step(s, ScanCode(payload, usable, true), decrypt)
    ensures var id := s.attempt.id + 1;
      && t.attempt.id == id && t.attempt.ticket == Some(Ticket(id, payload))
      && (if Live(Ticket(id, payload), s.now)
          then !t.attempt.retired && t.attempt.phase == Connecting && t.wire.socket == Some(s.wire.sockets)
               && s.wire.sockets in t.wire.conns && t.wire.conns[s.wire.sockets] == PairingConn(id, payload.site)
          else t.attempt.retired && t.attempt.phase == Failed)
  {
    var r := Renewed(s, payload);
    if Live(Ticket(s.attempt.id + 1, payload), s.now) {
      ConnectsPairing(r.(attempt := r.attempt.(phase := Connecting)), usable);
    }
  }

  lemma RetireMeans(s: Client, a: nat, decrypt: Decrypt)
    ensures Inv(s, decrypt) && s.attempt.ticket.Some? && !s.attempt.retired ==> Inv(Retire(s, a), decrypt)
    ensures Inv(s, decrypt) && s.wire.socket.Some? ==>
      var conn := s.wire.conns[s.wire.socket.value];
      Retire(s, a).wire.socket == s.wire.socket <==> !(conn.PairingConn? && conn.attempt == a)
  {
    if Inv(s, decrypt) {
      if s.attempt.ticket.Some? && !s.attempt.retired { RetireInv(s, a, decrypt); }
      if s.wire.socket.Some? { RetireClosesExactly(s, a, decrypt); }
    }
  }

  /** A socket that a connect opens is the active attempt's or the selected device's. */
  lemma ConnectOpens(s: Client, selection: Option<Selection>, usable: bool, opens: bool, decrypt: Decrypt)
    requires Inv(s, decrypt)
    ensures var t := Connect(s, selection, usable, opens);
      t.wire.socket.Some? && t.wire.socket != s.wire.socket ==>
        t.wire.socket.value in t.wire.conns && Target(t, true) == Some(t.wire.conns[t.wire.socket.value])
  {
  }

  lemma ScanIsQuiet(s: Client, payload: Payload, usable: bool, opens: bool, decrypt: Decrypt)
    requires Inv(s, decrypt)
    ensures var t := Scan(s, payload, usable, opens);
      t.attempt.id == s.attempt.id + 1 && t.effects == s.effects
  {
    var t := Renewed(s, payload);
    RenewedWire(s, payload);
    if !Live(Ticket(t.attempt.id, payload), s.now) {
      assert !OwnsSocket(t.wire, t.attempt.id);
    } else {
      var u := t.(attempt := t.attempt.(phase := Connecting));
      ConnectActs(u, SelectionKey(u), usable, opens);
    }
  }

  /** Exactly when a scan leaves the live socket alone: it is a device's, and the code has already
      expired. A live code takes the socket over for pairing, and an abandoned attempt's is let go. */
  lemma ScanClosesExactly(s: Client, payload: Payload, usable: bool, opens: bool, decrypt: Decrypt)
    requires Inv(s, decrypt) && s.wire.socket.Some?
    ensures Scan(s, payload, usable, opens).wire.socket == s.wire.socket
            <==> s.wire.conns[s.wire.socket.value].DeviceConn? && !Live(Ticket(s.attempt.id + 1, payload), s.now)
  {
    var t := Renewed(s, payload);
    RenewedWire(s, payload);
    assert !OwnsSocket(t.wire, t.attempt.id);
  }

  lemma RequestActs(s: Client, n: nat, sent: bool)
    requires n in s.requests
    ensures OnlyCurrentActs(s, RequestStep(s, n, sent))
    ensures Ended(s, s.requests[n].attempt) ==> RequestStep(s, n, sent).effects == s.effects
  {
  }

  lemma ResultSaves(s: Client, n: nat, ok: bool, decrypt: Decrypt)
    requires Inv(s, decrypt) && n in s.results
    ensures var t := ResultStep(s, n, ok, decrypt);
      t.auth != s.auth ==> t.attempt.ticket == None && !Ended(s, s.results[n].attempt)
  {
  }

  // ---------------------------------------------------------------- the modules' variables

  /** The pairing fields of `state` and the module variable `currentConnection`, with the functions
      that assign them, each up to its next await. A descriptor's identity is its socket's number,
      so a promotion is seen by whoever kept that number. Every entry point keeps the invariant of
      the run theorems and lets only the current attempt act. */
  class PairingClient {
    const decrypt: Decrypt
    var now: int
    var pairingAttemptId: nat
    var pairingTicket: Option<Ticket>
    var pairingRetired: bool
    var pairingPhase: Phase
    var wire: Wire
    var remoteAuth: Option<Profile>
    var requests: map<nat, Request>
    var results: map<nat, Result>
    var started: nat
    ghost var tickets: map<nat, Ticket>
    ghost var over: set<nat>
    ghost var effects: seq<Effect>

    ghost function Model(): Client
      reads this
    {
      Client(now, Attempt(pairingAttemptId, pairingTicket, pairingRetired, pairingPhase), wire, remoteAuth,
             requests, results, started, tickets, over, effects)
    }

    ghost predicate Valid()
      reads this
    {
      Inv(Model(), decrypt)
    }

    constructor (decrypt: Decrypt, clock: int, saved: Option<Profile>)
      ensures Valid() && Model() == Boot(clock, saved) && this.decrypt == decrypt
    {
      this.decrypt := decrypt;
      now, remoteAuth := clock, saved;
      pairingAttemptId, pairingTicket, pairingRetired, pairingPhase := 0, None, false, NoPhase;
      wire := Wire(None, None, map[], 0, None);
      requests, results, started := map[], map[], 0;
      tickets, over, effects := map[], {}, [];
    }

    method CloseBrokerSocket(reset: bool)
      modifies this`wire
      ensures Model() == old(Model()).(wire := CloseSocket(old(wire), reset))
      ensures wire.socket == None && wire.conns == old(wire).conns && (old(Valid()) ==> Valid())
    {
      ghost var before := Model();
      if Inv(before, decrypt) { CloseInv(before, reset, decrypt); }
      if wire.socket.Some? {
        wire := wire.(socket := None, current := None);
      }
      if reset {
        wire := wire.(peer := None);
      }
    }

    /** A later attempt is left alone, and so is a live socket opened for anything but this one. */
    method RetirePairing(attemptId: nat)
      modifies this
      ensures Model() == Retire(old(Model()), attemptId)
      ensures old(Valid()) && old(pairingTicket).Some? && !old(pairingRetired) ==> Valid()
      ensures attemptId != old(pairingAttemptId) ==> Model() == old(Model())
      ensures old(Valid()) && old(wire).socket.Some? ==>
        var conn := old(wire).conns[old(wire).socket.value];
        wire.socket == old(wire).socket <==> !(conn.PairingConn? && conn.attempt == attemptId)
    {
      ghost var before := Model();
      RetireMeans(before, attemptId, decrypt);
      if attemptId != pairingAttemptId { return; }
      pairingRetired, pairingPhase := true, Failed;
      over := over + {attemptId};
      if wire.current.Some? && wire.current.value in wire.conns {
        var connection := wire.conns[wire.current.value];
        if connection.PairingConn? && connection.attempt == attemptId {
          if wire.socket.Some? && wire.socket.value in wire.conns {
            effects := effects + [Dropped(attemptId, wire.conns[wire.socket.value])];
          }
          CloseBrokerSocket(true);
        }
      }
    }

    /** The live socket stays open, in its room, and is no longer judged as a pairing socket. */
    method PromoteConnectionToDevice()
      modifies this`wire
      ensures Model() == old(Model()).(wire := Promote(old(wire)))
      ensures wire.socket == old(wire).socket
      ensures old(Valid()) && wire.socket.Some? ==>
        wire.socket.value in wire.conns
        && wire.conns[wire.socket.value] == DeviceConn(old(wire).conns[wire.socket.value].site)
    {
      if wire.current.None? || wire.current.value !in wire.conns { return; }
      var connection := wire.conns[wire.current.value];
      if connection.DeviceConn? { return; }
      wire := wire.(conns := wire.conns[wire.current.value := DeviceConn(connection.site)]);
    }

    /** Afterwards no live socket belongs to another attempt, and any other socket is untouched. */
    method ReleaseSupersededPairingSocket()
      requires wire.socket.Some? ==> wire.current == wire.socket && wire.socket.value in wire.conns
      modifies this`wire
      ensures Model() == Release(old(Model()))
      ensures wire.socket.Some? ==> wire.socket == old(wire).socket && !Superseded(wire.conns[wire.socket.value])
      ensures old(wire).socket.Some? && !Superseded(old(wire).conns[old(wire).socket.value]) ==> wire == old(wire)
    {
      if wire.current.None? || wire.current.value !in wire.conns { return; }
      var connection := wire.conns[wire.current.value];
      if connection.PairingConn? && connection.attempt != pairingAttemptId {
        CloseBrokerSocket(true);
      }
    }

    predicate Superseded(conn: Conn)
      reads this`pairingAttemptId
    {
      conn.PairingConn? && conn.attempt != pairingAttemptId
    }

    /** `hasActivePairing` */
    predicate HasActivePairing()
      reads this
      ensures HasActivePairing() == Active(Model())
    {
      pairingTicket.Some? && !pairingRetired && Live(pairingTicket.value, now)
    }

    /** `connectBroker`, from the expiry check on: a socket it opens is the active attempt's, in its
        ticket's room, or the selected device's. */
    method ConnectBroker(selection: Option<Selection>, usable: bool, opens: bool)
      requires Valid()
      modifies this
      ensures Valid() && Model() == Connect(old(Model()), selection, usable, opens)
      ensures OnlyCurrentActs(old(Model()), Model())
      ensures wire.socket.Some? && wire.socket != old(wire).socket ==>
        wire.socket.value in wire.conns && Target(Model(), true) == Some(wire.conns[wire.socket.value])
    {
      ConnectInv(Model(), selection, usable, opens, decrypt);
      ConnectActs(Model(), selection, usable, opens);
      ConnectOpens(Model(), selection, usable, opens, decrypt);
      ReplaceSocket(selection, usable, opens);
    }

    method ReplaceSocket(selection: Option<Selection>, usable: bool, opens: bool)
      modifies this
      ensures Model() == Connect(old(Model()), selection, usable, opens)
    {
      if pairingTicket.Some? && !pairingRetired && !Live(pairingTicket.value, now) {
        RetirePairing(pairingAttemptId);
      }
      var target, key := ChooseTarget(usable);
      if target.None? || key != selection { return; }
      CloseBrokerSocket(false);
      if !opens { return; }
      var socket := wire.sockets;
      wire := Wire(Some(socket), Some(socket), wire.conns[socket := target.value], socket + 1, None);
    }

    /** `connectionTarget` and `currentConnectionSelectionKey` */
    method ChooseTarget(usable: bool) returns (target: Option<Conn>, key: Option<Selection>)
      ensures target == Target(Model(), usable) && key == SelectionKey(Model())
    {
      target, key := None, None;
      if HasActivePairing() {
        target := Some(PairingConn(pairingAttemptId, pairingTicket.value.payload.site));
        key := Some(ForPairing(pairingTicket.value.payload.pairingId));
      } else if remoteAuth.Some? {
        if usable { target := Some(DeviceConn(remoteAuth.value.site)); }
        if remoteAuth.value.relayId != "" { key := Some(ForRelay(remoteAuth.value.relayId)); }
      }
    }

    /** The new identity and its ticket, with the abandoned socket released in between. */
    method StartAttempt(payload: Payload)
      requires wire.socket.Some? ==> wire.current == wire.socket && wire.socket.value in wire.conns
      modifies this
      ensures Model() == Renewed(old(Model()), payload)
    {
      pairingAttemptId := pairingAttemptId + 1;
      ReleaseSupersededPairingSocket();
      var ticket := Ticket(pairingAttemptId, payload);
      pairingTicket, pairingRetired := Some(ticket), false;
      tickets := tickets[pairingAttemptId := ticket];
    }

    /** Every earlier attempt is over, the scan itself publishes and saves nothing, and it leaves a
        live socket open exactly if that is a device's and the scanned code has expired. */
    method BeginPairing(payload: Payload, usable: bool, opens: bool)
      requires Valid()
      modifies this
      ensures Valid() && Model() == Scan(old(Model()), payload, usable, opens)
      ensures pairingAttemptId == old(pairingAttemptId) + 1 && effects == old(effects)
      ensures old(wire).socket.Some? ==>
        (wire.socket == old(wire).socket
         <==> old(wire).conns[old(wire).socket.value].DeviceConn? && !Live(Ticket(pairingAttemptId, payload), now))
      ensures forall a: nat :: a <= old(pairingAttemptId) ==> Ended(Model(), a)
    {
      ScanInv(Model(), payload, usable, opens, decrypt);
      ScanIsQuiet(Model(), payload, usable, opens, decrypt);
      if wire.socket.Some? { ScanClosesExactly(Model(), payload, usable, opens, decrypt); }
      StartScan(payload, usable, opens);
    }

    method StartScan(payload: Payload, usable: bool, opens: bool)
      requires Valid()
      modifies this
      ensures Model() == Scan(old(Model()), payload, usable, opens)
    {
      RenewedInv(Model(), payload, decrypt);
      StartAttempt(payload);
      if !Live(Ticket(pairingAttemptId, payload), now) {
        RetirePairing(pairingAttemptId);
        return;
      }
      PhaseInv(Model(), Connecting, decrypt);
      pairingPhase := Connecting;
      ConnectBroker(Some(ForPairing(payload.pairingId)), usable, opens);
    }

    /** `sendPairingRequest` up to its first await. */
    method SendPairingRequest()
      requires Valid() && wire.socket.Some? && wire.conns[wire.socket.value].PairingConn?
      modifies this
      ensures Valid() && Model() == StartRequest(old(Model()))
    {
      StartRequestInv(Model(), decrypt);
      if !HasActivePairing() {
        if pairingTicket.Some? && !pairingRetired { RetirePairing(pairingAttemptId); }
        return;
      }
      requests := requests[started := Request(pairingAttemptId, wire.socket, pairingTicket.value, false)];
      started := started + 1;
    }

    /** After each await of `sendPairingRequest`: what is published is the current attempt's, and an
        attempt that ended publishes nothing. */
    method PairingRequestContinues(n: nat, sent: bool)
      requires Valid() && n in requests
      modifies this
      ensures Valid() && Model() == RequestStep(old(Model()), n, sent)
      ensures OnlyCurrentActs(old(Model()), Model())
      ensures Ended(old(Model()), old(requests)[n].attempt) ==> effects == old(effects)
      ensures old(requests)[n].identified ==>
        var f := old(requests)[n];
        effects == old(effects) + (if sent && StillItsOwn(old(Model()), f)
          then [Published(f.attempt, f.ticket.payload.pairingId, f.ticket.payload.secret, f.ticket.payload.site)]
          else [])
    {
      RequestStepInv(Model(), n, sent, decrypt);
      RequestActs(Model(), n, sent);
      if requests[n].identified { RequestPublishes(Model(), n, sent, decrypt); }
      ContinueRequest(n, sent);
    }

    method ContinueRequest(n: nat, sent: bool)
      requires n in requests
      modifies this
      ensures Model() == RequestStep(old(Model()), n, sent)
    {
      var f := requests[n];
      var stillOurs := pairingAttemptId == f.attempt && wire.socket == f.socket && pairingTicket.Some?
        && pairingTicket.value.payload.pairingId == f.ticket.payload.pairingId && HasActivePairing();
      if sent && stillOurs && !f.identified {
        pairingPhase := Requesting;
        requests := requests[n := f.(identified := true)];
        return;
      }
      requests := requests - {n};
      if sent && stillOurs {
        effects := effects + [Published(f.attempt, f.ticket.payload.pairingId, f.ticket.payload.secret,
                                        SiteOf(wire, wire.socket))];
      }
    }

    /** `handleEncryptedPairingResult` up to its first await. */
    method HandleEncryptedPairingResult(pairingId: string, targetPeer: Option<string>, envelope: string)
      requires Valid()
      modifies this
      ensures Valid() && Model() == StartResult(old(Model()), pairingId, targetPeer, envelope)
    {
      StartResultInv(Model(), pairingId, targetPeer, envelope, decrypt);
      if !HasActivePairing() { return; }
      if pairingId != pairingTicket.value.payload.pairingId || targetPeer != wire.peer { return; }
      results := results[started := Result(pairingAttemptId, pairingTicket.value, envelope, Decrypting)];
      started := started + 1;
    }

    /** The last stretch of `handleEncryptedPairingResult`. */
    method AdoptResult(f: Result, bundle: Bundle)
      modifies this
      ensures Model() == Adopt(old(Model()), f, bundle)
    {
      if !StillOurs(f) { return; }
      var profile := ProfileOf(f.ticket, bundle);
      remoteAuth := Some(profile);
      effects := effects + [SavedProfile(f.attempt, profile, f.envelope)];
      PromoteConnectionToDevice();
      pairingTicket, pairingPhase := None, NoPhase;
    }

    predicate StillOurs(f: Result)
      reads this
      ensures StillOurs(f) == ResultStillOurs(Model(), f)
    {
      && pairingAttemptId == f.attempt && pairingTicket.Some?
      && pairingTicket.value.serial == f.ticket.serial && !pairingRetired
    }

    method DeviceSessionDone(n: nat, f: Result, bundle: Bundle)
      modifies this
      ensures Model() == AfterDevice(old(Model()), n, f, bundle)
    {
      if !StillOurs(f) { return; }
      if bundle.claimable && bundle.relayId != "" {
        results := results[n := f.(stage := Signing(bundle))];
      } else {
        AdoptResult(f, bundle);
      }
    }

    method ResultDecrypted(n: nat, f: Result, bundle: Bundle)
      modifies this
      ensures Model() == AfterDecrypt(old(Model()), n, f, bundle)
    {
      if !StillOurs(f) { return; }
      if !bundle.ok || !bundle.complete {
        RetirePairing(pairingAttemptId);
      } else if bundle.refreshable {
        results := results[n := f.(stage := DeviceSession(bundle))];
      } else {
        DeviceSessionDone(n, f, bundle);
      }
    }

    /** After each await of `handleEncryptedPairingResult`: an attempt that ended saves nothing, and
        a profile is selected only together with the end of its own attempt's ticket. */
    method PairingResultContinues(n: nat, ok: bool)
      requires Valid() && n in results
      modifies this
      ensures Valid() && Model() == ResultStep(old(Model()), n, ok, decrypt)
      ensures OnlyCurrentActs(old(Model()), Model())
      ensures remoteAuth != old(remoteAuth) ==>
        pairingTicket == None && !Ended(old(Model()), old(results)[n].attempt)
    {
      ResultStepInv(Model(), n, ok, decrypt);
      ResultActs(Model(), n, ok, decrypt);
      ResultSaves(Model(), n, ok, decrypt);
      var f := results[n];
      results := results - {n};
      match f.stage
      case Decrypting =>
        var bundle := decrypt(f.ticket.payload.secret, f.envelope);
        if bundle.Some? { ResultDecrypted(n, f, bundle.value); }
      case DeviceSession(bundle) => DeviceSessionDone(n, f, bundle);
      case Signing(bundle) =>
        if ok { results := results[n := f.(stage := Redeeming(bundle))]; } else { AdoptResult(f, bundle); }
      case Redeeming(bundle) =>
        if !ok {
          AdoptResult(f, bundle);
        } else if StillOurs(f) {
          results := results[n := f.(stage := ClientSession(bundle))];
        }
      case ClientSession(bundle) =>
        if ok {
          if !StillOurs(f) { return; }
          effects := effects + [SavedClient(f.attempt, f.ticket.payload.site.url)];
        }
        AdoptResult(f, bundle);
    }

    /** `handleSocketMessage` for a frame of the live socket: whatever the frame says, only the
        current attempt can end by it, and a device session outlives every frame but a welcome it
        cannot speak. */
    method HandleSocketMessage(frame: Frame)
      requires Valid() && wire.socket.Some?
      modifies this
      ensures Valid() && Model() == OnFrame(old(Model()), frame)
      ensures OnlyCurrentActs(old(Model()), Model())
      ensures old(wire).conns[old(wire).socket.value].DeviceConn? && !(frame.Welcome? && !frame.supported) ==>
        wire.socket == old(wire).socket
    {
      FrameInv(Model(), frame, decrypt);
      FrameActs(Model(), frame, decrypt);
      var connection := wire.conns[wire.socket.value];
      if connection.PairingConn? {
        if connection.attempt != pairingAttemptId { return; }
        if !pairingRetired && !(pairingTicket.Some? && Live(pairingTicket.value, now)) {
          RetirePairing(connection.attempt);
          return;
        }
        if pairingRetired { return; }
      }
      match frame
      case Welcome(supported, peer) =>
        if !supported {
          CloseBrokerSocket(true);
          return;
        }
        PeerInv(Model(), peer, decrypt);
        wire := wire.(peer := peer);
        if connection.PairingConn? { SendPairingRequest(); }
      case Problem(terminal) =>
        if connection.PairingConn? && terminal { RetirePairing(connection.attempt); }
      case ResultFrame(pairingId, targetPeer, envelope) =>
        HandleEncryptedPairingResult(pairingId, targetPeer, envelope);
    }
  }
}
