/** The privileged broker: it admits peers, dispatches their requests to the one lease, and reacts
    to connection errors and to its timer. Every event runs on one serial queue. */
module BrokerMachine {
  import opened Machine
  import opened LeaseMachine

  const VALIDATION_TTL_MS: U64 := 5000
  const RELOCK_INTERVAL_MS := 500

  datatype Role = App | Guardian | Authorization | Validation

  /** `cancelled` peers had a connection error and can only become invalid. */
  datatype Peer = Peer(role: Role, cancelled: bool, validationToken: string)

  datatype Operation =
    | Missing
    | Status
    | PrepareTask(task: Text, synth: Text, ttl: U64)
    | PrepareValidation
    | ValidationState
    | DesktopProtected
    | Heartbeat
    | CancelTask
    | LocalInput
    | ScreenLocked
    | ManualUnlock
    | ConsumePendingUnlock(requestedUid: U64)
    | Unknown

  /** One request, with what the broker reads while it handles it: the kernel-attested credentials of
      the connection, the console user, two clock readings and a freshly generated token. */
  datatype Request = Request(
    replyable: bool, version: U64, op: Operation, token: Text,
    uid: U32, session: U32, console: U32, now: U64, later: U64, issued: string)

  datatype Event =
    | Accept(admitted: bool, role: Role)
    | Message(peer: U64, request: Request)
    | Error(peer: U64, invalid: bool, later: U64)
    | Timer(console: U32, now: U64, later: U64)

  /** A relock-required event, and the peer it is sent to. */
  datatype Notice = Notice(to: U64, token: string)

  /** What a validation peer is told about its own grant. */
  datatype Progress = Progress(isProtected: bool, isConsumed: bool, isFinished: bool, isRevoking: bool)

  datatype Outcome = Outcome(ok: bool, notice: Option<Notice>, progress: Option<Progress>)

  const SILENT := Outcome(false, None, None)

  datatype BrokerState = BrokerState(
    lease: LeaseState, peers: map<U64, Peer>, nextPeer: U64,
    guardianConnection: Option<U64>, relockNotified: U64, validationActive: bool)

  const START := BrokerState(EMPTY, map[], 1, None, 0, false)

  predicate Connected(s: BrokerState, id: U64) {
    id in s.peers && !s.peers[id].cancelled
  }

  /** Which events the transport can deliver. */
  predicate Enabled(s: BrokerState, e: Event) {
    match e
    case Message(id, _) => Connected(s, id)
    case Error(id, invalid, _) => id in s.peers && (s.peers[id].cancelled ==> invalid)
    case _ => true
  }

  /** Before any request or timer acts, a lost console and an expired lease are revoked. */
  function Settled(l: LeaseState, console: U32, now: U64): LeaseState {
    var d := if l.phase != Idle && console != l.uid then AfterDisconnect(l, l.owner).0 else l;
    AfterTick(d, now).0
  }

  function AfterRelock(s: BrokerState, later: U64): (BrokerState, Option<Notice>) {
    if s.lease.phase != Revoking
       || s.relockNotified <= later < s.relockNotified + RELOCK_INTERVAL_MS then (s, None)
    else
      (s.(relockNotified := later),
       if s.guardianConnection.Some? then Some(Notice(s.guardianConnection.value, s.lease.token)) else None)
  }

  function PreparedTask(role: Role, op: Operation): Text {
    if role == Validation then Some("local-roundtrip-validation") else if op.PrepareTask? then op.task else None
  }

  function PreparedSynth(role: Role, op: Operation): Text {
    if role == Validation then Some("local-owner") else if op.PrepareTask? then op.synth else None
  }

  function PreparedTtl(role: Role, op: Operation): U64 {
    if role == Validation then VALIDATION_TTL_MS else if op.PrepareTask? then op.ttl else 0
  }

  function AfterPrepare(s: BrokerState, id: U64, m: Request): (BrokerState, bool)
    requires id in s.peers
  {
    var role := s.peers[id].role;
    if m.uid != m.console then (s, false)
    else
      var (l, ok) := AfterBegin(s.lease, id, m.uid, m.session, Some(m.issued), PreparedTask(role, m.op),
                                PreparedSynth(role, m.op), PreparedTtl(role, m.op), m.now);
      if !ok then (s, false)
      else
        var peer := if role == Validation then s.peers[id].(validationToken := m.issued) else s.peers[id];
        (s.(lease := l, validationActive := role == Validation, peers := s.peers[id := peer]), true)
  }

  function ProgressOf(s: BrokerState, id: U64, token: string): Progress {
    var mine := s.validationActive && s.lease.owner == id && s.lease.token == token;
    Progress(mine && s.lease.phase == Protected, mine && s.lease.phase == Consumed,
             !mine || s.lease.phase == Idle, mine && s.lease.phase == Revoking)
  }

  predicate Preparation(role: Role, op: Operation) {
    (role == App && op.PrepareTask?) || (role == Validation && op.PrepareValidation?)
  }

  function Dispatched(s: BrokerState, id: U64, m: Request): (BrokerState, bool, Option<Progress>)
    requires id in s.peers
  {
    var role := s.peers[id].role;
    if m.op.Status? then (s, true, None)
    else if Preparation(role, m.op) then
      var (s', ok) := AfterPrepare(s, id, m);
      (s', ok, None)
    else if role == Validation && m.op.ValidationState? then
      if m.token.Some? && s.peers[id].validationToken != "" && m.token.value == s.peers[id].validationToken
      then (s, true, Some(ProgressOf(s, id, m.token.value)))
      else (s, false, None)
    else if role == Guardian && m.op.DesktopProtected? then
      if m.uid != m.console then (s, false, None)
      else
        var (l, ok) := AfterProtect(s.lease, id, m.uid, m.session, m.token, m.now);
        (s.(lease := l, guardianConnection := if ok then Some(id) else s.guardianConnection), ok, None)
    else if role != Authorization && m.op.Heartbeat? then
      var (l, ok) := AfterHeartbeat(s.lease, id, m.token, m.now);
      (s.(lease := l), ok, None)
    else if role != Authorization && m.op.CancelTask? then
      var (l, ok) := AfterCancel(s.lease, id, m.token, false);
      (s.(lease := l), ok, None)
    else if role == Guardian && m.op.LocalInput? then
      var (l, ok) := AfterCancel(s.lease, id, m.token, true);
      (s.(lease := l), ok, None)
    else if role == Guardian && m.op.ScreenLocked? then
      var (l, ok) := AfterLocked(s.lease, id, m.token);
      (s.(lease := l, guardianConnection := if ok then None else s.guardianConnection), ok, None)
    else if role == Guardian && m.op.ManualUnlock? then
      if m.uid != m.console then (s, false, None)
      else
        var (l, ok) := AfterManualUnlock(s.lease, m.uid, m.session);
        (s.(lease := l), ok, None)
    else if role == Authorization && m.op.ConsumePendingUnlock? then
      if !s.validationActive || m.op.requestedUid != m.console then (s, false, None)
      else
        var (l, ok) := AfterConsume(s.lease, m.console, m.now);
        (s.(lease := l), ok, None)
    else (s, false, None)
  }

  function AfterRequest(s: BrokerState, id: U64, m: Request): (BrokerState, Outcome)
    requires id in s.peers
  {
    if !m.replyable then (s, SILENT)
    else
      var settled := s.(lease := Settled(s.lease, m.console, m.now));
      var (d, ok, progress) :=
        if m.version != 1 || m.op.Missing? then (settled, false, None) else Dispatched(settled, id, m);
      var (r, notice) := AfterRelock(d, m.later);
      (r, Outcome(ok, notice, progress))
  }

  function AfterError(s: BrokerState, id: U64, invalid: bool, later: U64): (BrokerState, Outcome)
    requires id in s.peers
  {
    var (l, lost) := AfterDisconnect(s.lease, id);
    var (r, notice) := if lost then AfterRelock(s.(lease := l), later) else (s.(lease := l), None);
    var f := if lost && id == r.lease.guardian then r.(guardianConnection := None) else r;
    (f.(peers := if invalid then s.peers - {id} else s.peers[id := s.peers[id].(cancelled := true)]),
     Outcome(false, notice, None))
  }

  function AfterTimer(s: BrokerState, console: U32, now: U64, later: U64): (BrokerState, Outcome) {
    var settled := s.(lease := Settled(s.lease, console, now));
    if settled.lease.phase == Revoking then
      var (r, notice) := AfterRelock(settled, later);
      (r, Outcome(false, notice, None))
    else (settled, SILENT)
  }

  function AfterAccept(s: BrokerState, admitted: bool, role: Role): BrokerState {
    if !admitted || s.nextPeer == 0 then s
    else s.(peers := s.peers[s.nextPeer := Peer(role, false, "")], nextPeer := (s.nextPeer + 1) % U64_SIZE)
  }

  function Step(s: BrokerState, e: Event): (BrokerState, Outcome)
    requires Enabled(s, e)
  {
    match e
    case Accept(admitted, role) => (AfterAccept(s, admitted, role), SILENT)
    case Message(id, m) => AfterRequest(s, id, m)
    case Error(id, invalid, later) => AfterError(s, id, invalid, later)
    case Timer(console, now, later) => AfterTimer(s, console, now, later)
  }

  /** The broker's static state, updated in place. */
  class Broker {
    const lease: Lease
    var peers: map<U64, Peer>
    var nextPeer: U64
    var guardianConnection: Option<U64>
    var relockNotified: U64
    var validationActive: bool

    ghost function State(): BrokerState
      reads this, lease
    {
      BrokerState(lease.State(), peers, nextPeer, guardianConnection, relockNotified, validationActive)
    }

    constructor ()
      ensures State() == START && fresh(lease)
    {
      lease := new Lease();
      peers, nextPeer := map[], 1;
      guardianConnection, relockNotified, validationActive := None, 0, false;
    }

    method RequestRelock(later: U64) returns (notice: Option<Notice>)
      modifies this
      ensures (State(), notice) == AfterRelock(old(State()), later)
    {
      if lease.phase != Revoking {
        return None;
      }
      if relockNotified <= later && later - relockNotified < RELOCK_INTERVAL_MS {
        return None;
      }
      relockNotified := later;
      if guardianConnection.Some? {
        return Some(Notice(guardianConnection.value, lease.token));
      }
      return None;
    }

    method Settle(console: U32, now: U64) returns (revoking: bool)
      modifies lease
      ensures State() == old(State()).(lease := Settled(old(lease.State()), console, now))
      ensures revoking == (lease.phase == Revoking)
    {
      if lease.phase != Idle && console != lease.uid {
        var _ := lease.Disconnect(lease.owner);
      }
      revoking := lease.Tick(now);
    }

    method Prepare(id: U64, m: Request) returns (ok: bool)
      requires id in peers
      modifies this, lease
      ensures (State(), ok) == AfterPrepare(old(State()), id, m)
    {
      ok := false;
      var role := peers[id].role;
      if m.uid == m.console {
        ok := lease.Begin(id, m.uid, m.session, Some(m.issued), PreparedTask(role, m.op),
                          PreparedSynth(role, m.op), PreparedTtl(role, m.op), m.now);
      }
      if ok {
        validationActive := role == Validation;
        if validationActive {
          peers := peers[id := peers[id].(validationToken := m.issued)];
        } else {
          assert peers == peers[id := peers[id]];
        }
      }
    }

    method Dispatch(id: U64, m: Request) returns (ok: bool, progress: Option<Progress>)
      requires id in peers
      modifies this, lease
      ensures (State(), ok, progress) == Dispatched(old(State()), id, m)
    {
      var role := peers[id].role;
      ok, progress := false, None;
      if m.op.Status? {
        ok := true;
      } else if Preparation(role, m.op) {
        ok := Prepare(id, m);
      } else if role == Validation && m.op.ValidationState? {
        var own := peers[id].validationToken;
        if m.token.Some? && own != "" && m.token.value == own {
          ok := true;
          var mine := validationActive && lease.owner == id && lease.token == m.token.value;
          progress := Some(Progress(mine && lease.phase == Protected, mine && lease.phase == Consumed,
                                    !mine || lease.phase == Idle, mine && lease.phase == Revoking));
        }
      } else if role == Guardian && m.op.DesktopProtected? {
        if m.uid == m.console {
          ok := lease.Protect(id, m.uid, m.session, m.token, m.now);
        }
        if ok {
          guardianConnection := Some(id);
        }
      } else if role != Authorization && m.op.Heartbeat? {
        ok := lease.Heartbeat(id, m.token, m.now);
      } else if role != Authorization && m.op.CancelTask? {
        ok := lease.Cancel(id, m.token, false);
      } else if role == Guardian && m.op.LocalInput? {
        ok := lease.Cancel(id, m.token, true);
      } else if role == Guardian && m.op.ScreenLocked? {
        ok := lease.Locked(id, m.token);
        if ok {
          guardianConnection := None;
        }
      } else if role == Guardian && m.op.ManualUnlock? {
        if m.uid == m.console {
          ok := lease.ManualUnlock(m.uid, m.session);
        }
      } else if role == Authorization && m.op.ConsumePendingUnlock? {
        if validationActive && m.op.requestedUid == m.console {
          ok := lease.Consume(m.console, m.now);
        }
      }
    }

    method Handle(id: U64, m: Request) returns (o: Outcome)
      requires id in peers
      modifies this, lease
      ensures (State(), o) == AfterRequest(old(State()), id, m)
    {
      if !m.replyable {
        return SILENT;
      }
      var _ := Settle(m.console, m.now);
      var ok, progress := false, None;
      if m.version == 1 && !m.op.Missing? {
        ok, progress := Dispatch(id, m);
      }
      var notice := RequestRelock(m.later);
      return Outcome(ok, notice, progress);
    }

    method ConnectionError(id: U64, invalid: bool, later: U64) returns (o: Outcome)
      requires id in peers
      modifies this, lease
      ensures (State(), o) == AfterError(old(State()), id, invalid, later)
    {
      var notice := None;
      var lost := lease.Disconnect(id);
      if lost {
        notice := RequestRelock(later);
        if id == lease.guardian {
          guardianConnection := None;
        }
      }
      if invalid {
        peers := peers - {id};
      } else {
        peers := peers[id := peers[id].(cancelled := true)];
      }
      return Outcome(false, notice, None);
    }

    method OnTimer(console: U32, now: U64, later: U64) returns (o: Outcome)
      modifies this, lease
      ensures (State(), o) == AfterTimer(old(State()), console, now, later)
    {
      var revoking := Settle(console, now);
      if revoking {
        var notice := RequestRelock(later);
        return Outcome(false, notice, None);
      }
      return SILENT;
    }

    method AcceptPeer(admitted: bool, role: Role)
      modifies this
      ensures State() == AfterAccept(old(State()), admitted, role)
    {
      if !admitted || nextPeer == 0 {
        return;
      }
      peers := peers[nextPeer := Peer(role, false, "")];
      nextPeer := (nextPeer + 1) % U64_SIZE;
    }
  }
}
