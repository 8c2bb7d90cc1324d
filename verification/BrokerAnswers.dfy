/** When the broker says yes, and what that does: every answer and every new state in plain terms of the lease
    that the event finds, and how long a lease that is kept in touch stays unrevoked. */
module BrokerAnswers {
  import opened Machine
  import opened LeaseMachine
  import opened BrokerMachine
  import opened BrokerRuns

  const NOTHING := LeaseState(Idle, 0, 0, 0, 0, 0, 0, 0, false, "", "", "")

  /** The console changed hands, the deadline passed, or a party was not heard in time. */
  predicate IsStale(l: LeaseState, console: U32, now: U64) {
    || console != l.uid || now >= l.deadline
    || now < l.ownerSeen || now >= l.ownerSeen + 2000
    || (l.guardian != 0 && (now < l.guardianSeen || now >= l.guardianSeen + 2000))
  }

  /** The lease that an event with this console user and clock reading finds. */
  function Found(l: LeaseState, console: U32, now: U64): LeaseState {
    if l.phase == Idle || l.phase == Revoking || !IsStale(l, console, now) then l
    else if l.phase == Preparing then NOTHING
    else l.(phase := Revoking)
  }

  lemma SettledIsFound(s: BrokerState, console: U32, now: U64)
    requires Valid(s)
    ensures Settled(s.lease, console, now) == Found(s.lease, console, now)
  {
  }

  /** The token is that of the held lease. */
  predicate IsTokenOf(l: LeaseState, token: Text) {
    l.phase != Idle && token == Some(l.token)
  }

  predicate IsParty(l: LeaseState, id: U64) {
    id == l.owner || id == l.guardian
  }

  predicate IsLabel(name: Text) {
    name.Some? && 1 <= |name.value| <= 128
  }

  /** A lease can begin for the sender. */
  predicate CanPrepare(v: LeaseState, m: Request) {
    && v.phase == Idle && !v.manual && m.uid == m.console && m.uid >= 501 && m.session != 0 && |m.issued| == 36
  }

  /** The exact condition for an ok answer to a request that finds the lease `v`. */
  predicate IsAllowed(s: BrokerState, id: U64, m: Request, v: LeaseState)
    requires id in s.peers
  {
    var role := s.peers[id].role;
    match m.op
    case Missing => false
    case Unknown => false
    case Status => true
    case PrepareTask(task, synth, ttl) =>
      role == App && CanPrepare(v, m) && IsLabel(task) && IsLabel(synth) && 1 <= ttl <= 30000 && m.now + ttl <= U64_MAX
    case PrepareValidation => role == Validation && CanPrepare(v, m) && m.now + 5000 <= U64_MAX
    case ValidationState =>
      role == Validation && s.peers[id].validationToken != "" && m.token == Some(s.peers[id].validationToken)
    case DesktopProtected =>
      && role == Guardian && v.phase == Preparing && IsTokenOf(v, m.token) && id != v.owner
      && m.uid == m.console == v.uid && m.session == v.session
    case Heartbeat => role != Authorization && v.phase != Revoking && IsTokenOf(v, m.token) && IsParty(v, id)
    case CancelTask => role != Authorization && IsTokenOf(v, m.token) && IsParty(v, id)
    case LocalInput => role == Guardian && IsTokenOf(v, m.token) && id == v.guardian
    case ScreenLocked => role == Guardian && v.phase == Revoking && IsTokenOf(v, m.token) && id == v.guardian
    case ManualUnlock =>
      role == Guardian && v.phase == Idle && v.manual && m.uid == m.console == v.uid && m.session == v.session
    case ConsumePendingUnlock(requestedUid) =>
      role == Authorization && s.validationActive && requestedUid == m.console == v.uid && v.phase == Protected
  }

  /** The lease after a granted request that finds `v`. */
  function LeaseAfter(id: U64, m: Request, v: LeaseState): LeaseState {
    match m.op
    case PrepareTask(task, synth, ttl) =>
      if task.Some? && synth.Some? && m.now + ttl <= U64_MAX then
        LeaseState(Preparing, id, 0, m.uid, m.session, m.now + ttl, m.now, 0, false, m.issued, task.value, synth.value)
      else v
    case PrepareValidation =>
      if m.now + 5000 <= U64_MAX then
        LeaseState(Preparing, id, 0, m.uid, m.session, m.now + 5000, m.now, 0, false, m.issued,
                   "local-roundtrip-validation", "local-owner")
      else v
    case DesktopProtected => v.(phase := Protected, guardian := id, guardianSeen := m.now)
    case Heartbeat => if id == v.owner then v.(ownerSeen := m.now) else v.(guardianSeen := m.now)
    case CancelTask => if v.phase == Preparing then NOTHING else v.(phase := Revoking)
    case LocalInput => v.(phase := Revoking, manual := true)
    case ScreenLocked => if v.manual then NOTHING.(manual := true, uid := v.uid, session := v.session) else NOTHING
    case ManualUnlock => NOTHING
    case ConsumePendingUnlock(_) => v.(phase := Consumed)
    case _ => v
  }

  lemma PrepareAnswer(s: BrokerState, id: U64, m: Request)
    requires id in s.peers && id != 0 && Dispatchable(s.lease, m) && (m.op.PrepareTask? || m.op.PrepareValidation?)
    ensures var (t, ok, _) := Dispatched(s, id, m);
            && (ok <==> IsAllowed(s, id, m, s.lease))
            && t.lease == if ok then LeaseAfter(id, m, s.lease) else s.lease
  {
  }

  lemma ProtectAnswer(s: BrokerState, id: U64, m: Request)
    requires id in s.peers && id != 0 && Dispatchable(s.lease, m) && (m.op.DesktopProtected? || m.op.Heartbeat?)
    ensures var (t, ok, _) := Dispatched(s, id, m);
            && (ok <==> IsAllowed(s, id, m, s.lease))
            && t.lease == if ok then LeaseAfter(id, m, s.lease) else s.lease
  {
    hide AfterPrepare;
  }

  lemma EndingAnswer(s: BrokerState, id: U64, m: Request)
    requires id in s.peers && id != 0 && Dispatchable(s.lease, m)
    requires m.op.CancelTask? || m.op.LocalInput? || m.op.ScreenLocked? || m.op.ManualUnlock?
    ensures var (t, ok, _) := Dispatched(s, id, m);
            && (ok <==> IsAllowed(s, id, m, s.lease))
            && t.lease == if ok then LeaseAfter(id, m, s.lease) else s.lease
  {
    hide AfterPrepare;
  }

  lemma OtherAnswer(s: BrokerState, id: U64, m: Request)
    requires id in s.peers && id != 0 && Dispatchable(s.lease, m)
    requires m.op.Missing? || m.op.Unknown? || m.op.Status? || m.op.ValidationState? || m.op.ConsumePendingUnlock?
    ensures var (t, ok, _) := Dispatched(s, id, m);
            && (ok <==> IsAllowed(s, id, m, s.lease))
            && t.lease == if ok then LeaseAfter(id, m, s.lease) else s.lease
  {
    hide AfterPrepare;
  }

  lemma DispatchAnswer(s: BrokerState, id: U64, m: Request)
    requires id in s.peers && id != 0 && Dispatchable(s.lease, m)
    ensures var (t, ok, _) := Dispatched(s, id, m);
            && (ok <==> IsAllowed(s, id, m, s.lease))
            && t.lease == if ok then LeaseAfter(id, m, s.lease) else s.lease
  {
    hide Dispatched, Dispatchable, IsAllowed, LeaseAfter;
    if m.op.PrepareTask? || m.op.PrepareValidation? {
      PrepareAnswer(s, id, m);
    } else if m.op.DesktopProtected? || m.op.Heartbeat? {
      ProtectAnswer(s, id, m);
    } else if m.op.CancelTask? || m.op.LocalInput? || m.op.ScreenLocked? || m.op.ManualUnlock? {
      EndingAnswer(s, id, m);
    } else {
      OtherAnswer(s, id, m);
    }
  }

  /** A request that wants a reply is answered ok exactly under its operation's condition on what it finds. */
  predicate IsGranted(s: BrokerState, id: U64, m: Request)
    requires id in s.peers
  {
    m.replyable && m.version == 1 && IsAllowed(s, id, m, Found(s.lease, m.console, m.now))
  }

  /** The lease after any event. */
  function LeaseAfterEvent(s: BrokerState, e: Event): LeaseState
    requires Enabled(s, e)
  {
    match e
    case Accept(_, _) => s.lease
    case Message(id, m) =>
      if !m.replyable then s.lease
      else
        var v := Found(s.lease, m.console, m.now);
        if IsGranted(s, id, m) then LeaseAfter(id, m, v) else v
    case Error(id, _, _) =>
      if s.lease.phase == Idle || s.lease.phase == Revoking || !IsParty(s.lease, id) then s.lease
      else if s.lease.phase == Preparing then NOTHING
      else s.lease.(phase := Revoking)
    case Timer(console, now, _) => Found(s.lease, console, now)
  }

  /** For every event: the exact answer, and the exact lease afterwards. */
  lemma AnswerIsExact(s: BrokerState, e: Event)
    requires Valid(s) && Enabled(s, e)
    ensures Step(s, e).1.ok <==> e.Message? && IsGranted(s, e.peer, e.request)
    ensures Step(s, e).0.lease == LeaseAfterEvent(s, e)
  {
    match e
    case Accept(_, _) =>
    case Message(id, m) => RequestIsExact(s, id, m);
    case Error(id, _, _) => ErrorIsExact(s, e);
    case Timer(console, now, _) => SettledIsFound(s, console, now);
  }

  lemma RequestIsExact(s: BrokerState, id: U64, m: Request)
    requires Valid(s) && Connected(s, id)
    ensures AfterRequest(s, id, m).1.ok <==> IsGranted(s, id, m)
    ensures AfterRequest(s, id, m).0.lease == LeaseAfterEvent(s, Message(id, m))
  {
    SeenIsSameOrRevoked(s, Message(id, m));
    SettledIsFound(s, m.console, m.now);
    hide Settled, Dispatched, Dispatchable, Found, LeaseAfter;
    if m.replyable {
      DispatchAnswer(s.(lease := Found(s.lease, m.console, m.now)), id, m);
      MissingIsRefused(s, id, m);
    }
    hide IsAllowed;
  }

  lemma MissingIsRefused(s: BrokerState, id: U64, m: Request)
    requires id in s.peers
    ensures m.op.Missing? ==> forall v :: !IsAllowed(s, id, m, v)
    ensures forall l :: IsAllowed(s.(lease := l), id, m, l) <==> IsAllowed(s, id, m, l)
  {
  }

  lemma ErrorIsExact(s: BrokerState, e: Event)
    requires Valid(s) && Enabled(s, e) && e.Error?
    ensures Step(s, e).0.lease == LeaseAfterEvent(s, e) && !Step(s, e).1.ok
  {
  }

  // ---- The rest of the broker's state ----

  function PeersAfterEvent(s: BrokerState, e: Event): map<U64, Peer>
    requires Enabled(s, e)
  {
    match e
    case Accept(admitted, role) =>
      if admitted && s.nextPeer != 0 then s.peers[s.nextPeer := Peer(role, false, "")] else s.peers
    case Message(id, m) =>
      if IsGranted(s, id, m) && m.op.PrepareValidation? then s.peers[id := s.peers[id].(validationToken := m.issued)]
      else s.peers
    case Error(id, invalid, _) =>
      if invalid then map i | i in s.peers && i != id :: s.peers[i] else s.peers[id := s.peers[id].(cancelled := true)]
    case Timer(_, _, _) => s.peers
  }

  function NextPeerAfterEvent(s: BrokerState, e: Event): U64 {
    if e.Accept? && e.admitted && s.nextPeer != 0 then (if s.nextPeer == U64_MAX then 0 else s.nextPeer + 1)
    else s.nextPeer
  }

  function ConnectionAfterEvent(s: BrokerState, e: Event): Option<U64>
    requires Enabled(s, e)
  {
    if e.Message? && IsGranted(s, e.peer, e.request) && e.request.op.DesktopProtected? then Some(e.peer)
    else if e.Message? && IsGranted(s, e.peer, e.request) && e.request.op.ScreenLocked? then None
    else if e.Error? && s.lease.phase != Idle && e.peer == s.lease.guardian then None
    else s.guardianConnection
  }

  /** The events after which the broker looks whether a re-lock is due, and when they do. */
  function LooksAt(s: BrokerState, e: Event): Option<U64>
    requires Enabled(s, e)
  {
    match e
    case Accept(_, _) => None
    case Message(_, m) => if m.replyable then Some(m.later) else None
    case Error(id, _, later) => if s.lease.phase != Idle && IsParty(s.lease, id) then Some(later) else None
    case Timer(_, _, later) => Some(later)
  }

  predicate RelockIsDue(s: BrokerState, e: Event)
    requires Enabled(s, e)
  {
    && LooksAt(s, e).Some? && LeaseAfterEvent(s, e).phase == Revoking
    && (LooksAt(s, e).value < s.relockNotified || LooksAt(s, e).value >= s.relockNotified + 500)
  }

  /** A re-lock notice goes to the guardian's connection, as it was when the event arrived if that event is its
      loss, with the token of the revoking lease. */
  function NoticeOf(s: BrokerState, e: Event): Option<Notice>
    requires Enabled(s, e)
  {
    var connection := if e.Error? then s.guardianConnection else ConnectionAfterEvent(s, e);
    if RelockIsDue(s, e) && connection.Some? then Some(Notice(connection.value, LeaseAfterEvent(s, e).token)) else None
  }

  /** For every event: peers, identifiers, validation flag, guardian connection, and what is sent to whom. */
  lemma RestIsExact(s: BrokerState, e: Event)
    requires Valid(s) && Enabled(s, e)
    ensures var (t, o) := Step(s, e);
            && t.peers == PeersAfterEvent(s, e) && t.nextPeer == NextPeerAfterEvent(s, e)
            && t.guardianConnection == ConnectionAfterEvent(s, e)
            && t.validationActive == (if o.ok && (e.request.op.PrepareTask? || e.request.op.PrepareValidation?)
                                      then e.request.op.PrepareValidation? else s.validationActive)
            && t.relockNotified == (if RelockIsDue(s, e) then LooksAt(s, e).value else s.relockNotified)
            && o.notice == NoticeOf(s, e)
  {
    AnswerIsExact(s, e);
    hide LeaseAfterEvent, IsGranted;
    match e
    case Accept(_, _) =>
    case Message(id, m) => RequestRest(s, id, m);
    case Error(id, _, _) => ErrorRest(s, e);
    case Timer(_, _, _) =>
  }

  lemma ErrorRest(s: BrokerState, e: Event)
    requires Valid(s) && Enabled(s, e) && e.Error? && Step(s, e).0.lease == LeaseAfterEvent(s, e)
    ensures var (t, o) := Step(s, e);
            && t.peers == PeersAfterEvent(s, e) && t.nextPeer == s.nextPeer
            && t.guardianConnection == ConnectionAfterEvent(s, e) && t.validationActive == s.validationActive
            && t.relockNotified == (if RelockIsDue(s, e) then LooksAt(s, e).value else s.relockNotified)
            && o.notice == NoticeOf(s, e)
  {
    assert s.peers - {e.peer} == map i | i in s.peers && i != e.peer :: s.peers[i];
  }

  /** What one granted request does to the rest of the state. */
  lemma DispatchRest(s: BrokerState, id: U64, m: Request)
    requires id in s.peers
    ensures var (t, ok, progress) := Dispatched(s, id, m);
            && t.relockNotified == s.relockNotified && t.nextPeer == s.nextPeer
            && (m.op.DesktopProtected? && ok ==> t.guardianConnection == Some(id))
            && (m.op.ScreenLocked? && ok ==> t.guardianConnection == None)
            && (!(ok && (m.op.DesktopProtected? || m.op.ScreenLocked?)) ==>
                  t.guardianConnection == s.guardianConnection)
            && (m.op.PrepareValidation? && ok ==> t.peers == s.peers[id := s.peers[id].(validationToken := m.issued)])
            && (!(ok && m.op.PrepareValidation?) ==> t.peers == s.peers)
            && t.validationActive == (if ok && (m.op.PrepareTask? || m.op.PrepareValidation?)
                                      then m.op.PrepareValidation? else s.validationActive)
  {
    hide AfterBegin, AfterProtect, AfterHeartbeat, AfterCancel, AfterLocked, AfterManualUnlock, AfterConsume;
    assert s.peers == s.peers[id := s.peers[id]];
  }

  lemma RequestRest(s: BrokerState, id: U64, m: Request)
    requires Valid(s) && Connected(s, id)
    requires AfterRequest(s, id, m).1.ok <==> IsGranted(s, id, m)
    requires AfterRequest(s, id, m).0.lease == LeaseAfterEvent(s, Message(id, m))
    ensures var (t, o) := AfterRequest(s, id, m);
            var e := Message(id, m);
            && t.peers == PeersAfterEvent(s, e) && t.nextPeer == s.nextPeer
            && t.guardianConnection == ConnectionAfterEvent(s, e)
            && t.validationActive == (if o.ok && (m.op.PrepareTask? || m.op.PrepareValidation?)
                                      then m.op.PrepareValidation? else s.validationActive)
            && t.relockNotified == (if RelockIsDue(s, e) then LooksAt(s, e).value else s.relockNotified)
            && o.notice == NoticeOf(s, e)
  {
    hide LeaseAfterEvent, IsGranted, Settled, Dispatched, Valid;
    DispatchRest(s.(lease := Settled(s.lease, m.console, m.now)), id, m);
  }

  /** A validation peer that shows its token is told exactly where its own grant stands, and nobody else is told
      anything. */
  lemma ReportIsExact(s: BrokerState, e: Event)
    requires Valid(s) && Enabled(s, e) && e.Message?
    ensures var m, l := e.request, LeaseAfterEvent(s, e);
            var mine := s.validationActive && l.owner == e.peer && Some(l.token) == m.token;
            Step(s, e).1.progress
            == if IsGranted(s, e.peer, m) && m.op.ValidationState? then
                 Some(Progress(mine && l.phase == Protected, mine && l.phase == Consumed,
                               !mine || l.phase == Idle, mine && l.phase == Revoking))
               else None
  {
    AnswerIsExact(s, e);
    SettledIsFound(s, e.request.console, e.request.now);
    hide AfterPrepare, AfterProtect, AfterHeartbeat, AfterCancel, AfterLocked, AfterManualUnlock, AfterConsume, Found,
         Settled;
  }

  // ---- Runs in touch ----

  /** The console user and the clock that an event brings. */
  function Reading(e: Event): Option<(U32, U64)> {
    match e
    case Message(_, m) => if m.replyable then Some((m.console, m.now)) else None
    case Timer(console, now, _) => Some((console, now))
    case _ => None
  }

  /** The event ends or endangers the lease `l`: a cancellation or a report of local input by a party with the
      token, or the loss of a party. */
  predicate Ends(e: Event, l: LeaseState) {
    || (e.Error? && IsParty(l, e.peer))
    || (e.Message? && (e.request.op.CancelTask? || e.request.op.LocalInput?)
        && IsParty(l, e.peer) && e.request.token == Some(l.token))
  }

  /** At event `j` the guarded lease is in touch: its console user is there, its deadline has not passed, and
      both parties made contact less than two seconds before. */
  ghost predicate InTouch(ss: seq<BrokerState>, es: seq<Event>, j: nat)
    requires Run(ss, es) && j < |es|
  {
    var r, l := Reading(es[j]), ss[j].lease;
    var o, g := Last(ss, es, j, OwnerContact), Last(ss, es, j, GuardianContact);
    r.Some? ==>
      && r.value.0 == l.uid && r.value.1 < l.deadline
      && o >= 0 && es[o].request.now <= r.value.1 < es[o].request.now + 2000
      && g >= 0 && es[g].request.now <= r.value.1 < es[g].request.now + 2000
  }

  lemma InTouchIsFresh(ss: seq<BrokerState>, es: seq<Event>, j: nat)
    requires Run(ss, es) && j < |es| && InTouch(ss, es, j)
    requires ss[j].lease.phase == Protected || ss[j].lease.phase == Consumed
    ensures Valid(ss[j])
    ensures Reading(es[j]).Some? ==> !IsStale(ss[j].lease, Reading(es[j]).value.0, Reading(es[j]).value.1)
  {
    ReachableIsValid(ss, es, j);
    EveryLeaseIsAccounted(ss, es, j);
    hide Step, BeganWith, GuardedWith;
  }

  lemma FreshStays(s: BrokerState, e: Event)
    requires Valid(s) && Enabled(s, e) && !Ends(e, s.lease)
    requires s.lease.phase == Protected || s.lease.phase == Consumed
    requires Reading(e).Some? ==> !IsStale(s.lease, Reading(e).value.0, Reading(e).value.1)
    ensures var l' := Step(s, e).0.lease;
            (l'.phase == Protected || l'.phase == Consumed) && SameLease(s.lease, l')
  {
    AnswerIsExact(s, e);
    hide Step;
  }

  /** A guarded lease whose parties both stay in touch, whose console user stays, and which nobody cancels, is
      not revoked before its deadline: over every run it stays the same lease, protected or consumed. */
  lemma {:induction false} StaysGuarded(ss: seq<BrokerState>, es: seq<Event>, i: nat, k: nat)
    requires Run(ss, es) && i <= k <= |es| && (ss[i].lease.phase == Protected || ss[i].lease.phase == Consumed)
    requires forall j | i <= j < k :: InTouch(ss, es, j) && !Ends(es[j], ss[j].lease)
    ensures (ss[k].lease.phase == Protected || ss[k].lease.phase == Consumed) && SameLease(ss[i].lease, ss[k].lease)
  {
    if i < k {
      StaysGuarded(ss, es, i, k - 1);
      ReachableIsValid(ss, es, i);
      InTouchIsFresh(ss, es, k - 1);
      FreshStays(ss[k - 1], es[k - 1]);
      assert ss[k] == Step(ss[k - 1], es[k - 1]).0;
      hide Step, InTouch, Ends;
    }
  }

  /** A heartbeat of either party that finds the lease in touch is answered ok and counts as its contact. */
  lemma HeartbeatIsContact(ss: seq<BrokerState>, es: seq<Event>, k: nat)
    requires Run(ss, es) && k < |es| && InTouch(ss, es, k)
    requires ss[k].lease.phase == Protected || ss[k].lease.phase == Consumed
    requires es[k].Message? && es[k].request.op.Heartbeat? && es[k].request.replyable && es[k].request.version == 1
    requires es[k].request.token == Some(ss[k].lease.token) && IsParty(ss[k].lease, es[k].peer)
    requires ss[k].peers[es[k].peer].role != Authorization
    ensures Marks(ss[k], es[k], if es[k].peer == ss[k].lease.owner then OwnerContact else GuardianContact)
    ensures var l, l' := ss[k].lease, ss[k + 1].lease;
            var now := es[k].request.now;
            l' == if es[k].peer == l.owner then l.(ownerSeen := now) else l.(guardianSeen := now)
  {
    InTouchIsFresh(ss, es, k);
    AnswerIsExact(ss[k], es[k]);
    assert ss[k + 1] == Step(ss[k], es[k]).0;
    hide Step, InTouch;
  }

  // ---- The round trip ----

  /** From every idle, unlatched state with the three parties connected: a prepare-validation, its protection by
      the guardian and the consumption by the authorization host, each less than two seconds after the first,
      all succeed and grant the unlock. */
  lemma RoundTripSucceeds(s: BrokerState, v: U64, g: U64, a: U64, m1: Request, m2: Request, m3: Request)
    requires Valid(s) && s.lease.phase == Idle && !s.lease.manual
    requires Connected(s, v) && Connected(s, g) && Connected(s, a)
    requires s.peers[v].role == Validation && s.peers[g].role == Guardian && s.peers[a].role == Authorization
    requires m1.op == PrepareValidation && m2.op == DesktopProtected && m3.op == ConsumePendingUnlock(m1.uid)
    requires m1.replyable && m2.replyable && m3.replyable && m1.version == m2.version == m3.version == 1
    requires m1.uid == m1.console == m2.uid == m2.console == m3.console && m1.uid >= 501
    requires m1.session == m2.session != 0 && |m1.issued| == 36 && m2.token == Some(m1.issued)
    requires m1.now <= m2.now <= m3.now < m1.now + 2000 && m1.now + 5000 <= U64_MAX
    ensures var (s1, o1) := Step(s, Message(v, m1));
            && o1.ok && Enabled(s1, Message(g, m2))
            && var (s2, o2) := Step(s1, Message(g, m2));
               && o2.ok && s2.lease.phase == Protected && Enabled(s2, Message(a, m3))
               && var (s3, o3) := Step(s2, Message(a, m3));
                  o3.ok && s3.lease.phase == Consumed
  {
    hide Step;
    PreparationSucceeds(s, v, m1);
    var s1 := Step(s, Message(v, m1)).0;
    assert s1.peers[g].role == Guardian && s1.peers[a].role == Authorization && Connected(s1, g) && Connected(s1, a);
    ProtectionSucceeds(s1, g, m2);
    var s2 := Step(s1, Message(g, m2)).0;
    StepKeepsValid(s1, Message(g, m2));
    AnswerIsExact(s2, Message(a, m3));
  }

  lemma PreparationSucceeds(s: BrokerState, v: U64, m: Request)
    requires Valid(s) && s.lease.phase == Idle && !s.lease.manual && Connected(s, v) && s.peers[v].role == Validation
    requires m.op == PrepareValidation && m.replyable && m.version == 1 && m.uid == m.console && m.uid >= 501
    requires m.session != 0 && |m.issued| == 36 && m.now + 5000 <= U64_MAX
    ensures var (t, o) := Step(s, Message(v, m));
            && o.ok && Valid(t) && t.validationActive
            && t.lease == LeaseState(Preparing, v, 0, m.uid, m.session, m.now + 5000, m.now, 0, false, m.issued,
                                     "local-roundtrip-validation", "local-owner")
            && t.peers == s.peers[v := s.peers[v].(validationToken := m.issued)]
  {
    AnswerIsExact(s, Message(v, m));
    RestIsExact(s, Message(v, m));
    StepKeepsValid(s, Message(v, m));
    hide Step, Valid;
  }

  lemma ProtectionSucceeds(s: BrokerState, g: U64, m: Request)
    requires Valid(s) && s.lease.phase == Preparing && Connected(s, g) && s.peers[g].role == Guardian
    requires m.op == DesktopProtected && m.replyable && m.version == 1 && m.uid == m.console == s.lease.uid
    requires m.session == s.lease.session && m.token == Some(s.lease.token) && g != s.lease.owner
    requires m.now < s.lease.deadline && s.lease.ownerSeen <= m.now < s.lease.ownerSeen + 2000
    ensures var (t, o) := Step(s, Message(g, m));
            && o.ok && t.lease == s.lease.(phase := Protected, guardian := g, guardianSeen := m.now)
            && t.peers == s.peers && t.validationActive == s.validationActive
  {
    AnswerIsExact(s, Message(g, m));
    RestIsExact(s, Message(g, m));
    hide Step, Valid;
  }
}
