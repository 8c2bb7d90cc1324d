/** Safety of the broker over whole runs: who can be granted an unlock, how a protected lease ends,
    and how long the manual-unlock latch holds. */
module BrokerRuns {
  import opened Machine
  import opened LeaseMachine
  import opened BrokerMachine

  /** `ss[i]` is the state before event `es[i]`. */
  ghost predicate Run(ss: seq<BrokerState>, es: seq<Event>) {
    && |ss| == |es| + 1
    && ss[0] == START
    && forall i | 0 <= i < |es| :: Enabled(ss[i], es[i]) && ss[i + 1] == Step(ss[i], es[i]).0
  }

  /** The successful requests that the properties speak about. */
  datatype Mark = Begun | Guarded | OwnerContact | GuardianContact | Granted | Latched | Relocked | Released

  predicate Marks(s: BrokerState, e: Event, mark: Mark)
    requires Enabled(s, e)
  {
    && e.Message?
    && Step(s, e).1.ok
    && var op := e.request.op;
       match mark
       case Begun => op.PrepareTask? || op.PrepareValidation?
       case Guarded => op.DesktopProtected?
       case OwnerContact => op.PrepareTask? || op.PrepareValidation? || (op.Heartbeat? && e.peer == s.lease.owner)
       case GuardianContact => op.DesktopProtected? || (op.Heartbeat? && e.peer != s.lease.owner)
       case Granted => op.ConsumePendingUnlock?
       case Latched => op.LocalInput?
       case Relocked => op.ScreenLocked?
       case Released => op.ManualUnlock?
  }

  /** The last event before position `k` that carries the mark, or -1. */
  ghost function Last(ss: seq<BrokerState>, es: seq<Event>, k: nat, mark: Mark): (i: int)
    requires Run(ss, es) && k <= |es|
    ensures -1 <= i < k
    ensures i >= 0 ==> Marks(ss[i], es[i], mark)
  {
    if k == 0 then -1
    else if Marks(ss[k - 1], es[k - 1], mark) then k - 1
    else Last(ss, es, k - 1, mark)
  }

  lemma {:induction false} LastIsLast(ss: seq<BrokerState>, es: seq<Event>, k: nat, mark: Mark, i: nat)
    requires Run(ss, es) && i < k <= |es| && Marks(ss[i], es[i], mark)
    ensures i <= Last(ss, es, k, mark)
  {
    if !Marks(ss[k - 1], es[k - 1], mark) {
      LastIsLast(ss, es, k - 1, mark, i);
    }
  }

  predicate IsGuarded(l: LeaseState) {
    l.phase == Protected || l.phase == Consumed || l.phase == Revoking
  }

  /** Identifiers handed out so far; accepting stops for good when the counter wraps to zero. */
  predicate Assigned(s: BrokerState, id: U64) {
    s.nextPeer == 0 || id < s.nextPeer
  }

  predicate Valid(s: BrokerState) {
    && Consistent(s.lease)
    && Assigned(s, s.lease.owner) && Assigned(s, s.lease.guardian)
    && (forall id | id in s.peers :: id != 0 && Assigned(s, id))
    && (s.guardianConnection.Some? ==> IsGuarded(s.lease) && s.guardianConnection.value == s.lease.guardian)
    && (IsGuarded(s.lease) && Connected(s, s.lease.guardian) ==> s.guardianConnection.Some?)
  }

  /** The lease an event's handler sees after revoking a lost console or an expired lease. */
  function Seen(s: BrokerState, e: Event): LeaseState {
    match e
    case Message(_, m) => if m.replyable then Settled(s.lease, m.console, m.now) else s.lease
    case Timer(console, now, _) => Settled(s.lease, console, now)
    case _ => s.lease
  }

  lemma SeenIsSameOrRevoked(s: BrokerState, e: Event)
    requires Consistent(s.lease)
    ensures Seen(s, e) == s.lease || Seen(s, e) == Revoked(s.lease)
    ensures Consistent(Seen(s, e))
    ensures e.Message? && e.request.replyable ==> Dispatchable(Seen(s, e), e.request)
  {
  }

  /** What an event does to the lease `v` its handler sees, given whether the broker answered "ok". */
  predicate Effect(s: BrokerState, e: Event, v: LeaseState, ok: bool, l': LeaseState)
    requires Enabled(s, e)
  {
    if e.Message? && ok then
      var m := e.request;
      var role := s.peers[e.peer].role;
      match m.op
      case PrepareTask(_, _, _) =>
        role == App && Began(e, MAX_MS, v, l')
      case PrepareValidation =>
        role == Validation && Began(e, VALIDATION_TTL_MS, v, l') && l'.deadline == m.now + VALIDATION_TTL_MS
      case DesktopProtected =>
        && role == Guardian && v.phase == Preparing && e.peer != v.owner && m.uid == v.uid && m.session == v.session
        && l' == v.(guardian := e.peer, guardianSeen := m.now, phase := Protected)
      case Heartbeat =>
        && Party(v, e.peer) && v.phase != Idle && v.phase != Revoking && Live(v, m.now)
        && l' == if e.peer == v.owner then v.(ownerSeen := m.now) else v.(guardianSeen := m.now)
      case CancelTask => v.phase != Idle && l' == Revoked(v)
      case LocalInput =>
        role == Guardian && IsGuarded(v) && v.guardian == e.peer && l' == v.(phase := Revoking, manual := true)
      case ScreenLocked =>
        && role == Guardian && v.phase == Revoking && v.guardian == e.peer && m.token == Some(v.token)
        && l' == if v.manual then EMPTY.(manual := true, uid := v.uid, session := v.session) else EMPTY
      case ManualUnlock =>
        && role == Guardian && v.phase == Idle && v.manual && m.uid == v.uid == m.console && m.session == v.session
        && l' == EMPTY
      case ConsumePendingUnlock(_) =>
        && role == Authorization && v.phase == Protected && s.validationActive && m.console == v.uid && Live(v, m.now)
        && l' == v.(phase := Consumed)
      case _ => l' == v
    else if e.Error? then l' == if Party(v, e.peer) then Revoked(v) else v
    else l' == v
  }

  predicate Began(e: Event, maxTtl: U64, v: LeaseState, l': LeaseState)
    requires e.Message?
  {
    var m := e.request;
    && v.phase == Idle && !v.manual && m.uid == m.console
    && l'.phase == Preparing && l'.owner == e.peer && l'.guardian == 0 && l'.uid == m.uid && l'.session == m.session
    && l'.token == m.issued && |m.issued| == TOKEN_LENGTH && l'.ownerSeen == m.now && !l'.manual
    && m.now < l'.deadline <= m.now + maxTtl
  }

  /** The rest of the broker's state. */
  predicate Frame(s: BrokerState, e: Event, ok: bool, t: BrokerState)
    requires Enabled(s, e)
  {
    && t.validationActive == (if e.Message? && ok && (e.request.op.PrepareTask? || e.request.op.PrepareValidation?)
                              then e.request.op.PrepareValidation? else s.validationActive)
    && t.guardianConnection ==
         (if e.Message? && ok && e.request.op.DesktopProtected? then Some(e.peer)
          else if e.Message? && ok && e.request.op.ScreenLocked? then None
          else if e.Error? && s.lease.phase != Idle && Party(s.lease, e.peer) && e.peer == t.lease.guardian then None
          else s.guardianConnection)
    && match e
       case Accept(_, _) => t == AfterAccept(s, e.admitted, e.role)
       case Message(_, _) =>
         && t.nextPeer == s.nextPeer && t.peers.Keys == s.peers.Keys
         && forall id | id in s.peers :: t.peers[id].cancelled == s.peers[id].cancelled
       case Error(id, _, _) =>
         && t.nextPeer == s.nextPeer && !Connected(t, id) && t.peers.Keys <= s.peers.Keys
         && forall i | i in t.peers && i != id :: t.peers[i] == s.peers[i]
       case Timer(_, _, _) => t.nextPeer == s.nextPeer && t.peers == s.peers
  }

  /** A lease as requests find it: whatever is held and not revoking has not expired. */
  predicate Dispatchable(v: LeaseState, m: Request) {
    Consistent(v) && (v.phase == Preparing || v.phase == Protected || v.phase == Consumed ==> Live(v, m.now))
  }

  lemma PrepareEffect(s: BrokerState, id: U64, m: Request, v: LeaseState)
    requires Connected(s, id) && Dispatchable(v, m)
    requires m.op.PrepareTask? || m.op.PrepareValidation?
    ensures var (t, ok, _) := Dispatched(s.(lease := v), id, m);
            Effect(s, Message(id, m), v, ok, t.lease)
  {
  }

  lemma GuardianEffect(s: BrokerState, id: U64, m: Request, v: LeaseState)
    requires Connected(s, id) && Dispatchable(v, m)
    requires m.op.DesktopProtected? || m.op.LocalInput? || m.op.ScreenLocked? || m.op.ManualUnlock?
    ensures var (t, ok, _) := Dispatched(s.(lease := v), id, m);
            Effect(s, Message(id, m), v, ok, t.lease)
  {
    hide AfterPrepare;
  }

  lemma OtherEffect(s: BrokerState, id: U64, m: Request, v: LeaseState)
    requires Connected(s, id) && Dispatchable(v, m)
    requires !(m.op.PrepareTask? || m.op.PrepareValidation?)
    requires !(m.op.DesktopProtected? || m.op.LocalInput? || m.op.ScreenLocked? || m.op.ManualUnlock?)
    ensures var (t, ok, _) := Dispatched(s.(lease := v), id, m);
            Effect(s, Message(id, m), v, ok, t.lease)
  {
    hide AfterPrepare;
  }

  lemma DispatchFrame(s: BrokerState, id: U64, m: Request, v: LeaseState)
    requires Connected(s, id) && Dispatchable(v, m)
    ensures var (t, ok, _) := Dispatched(s.(lease := v), id, m);
            Frame(s, Message(id, m), ok, t)
  {
    hide AfterBegin, AfterProtect, AfterHeartbeat, AfterCancel, AfterLocked, AfterManualUnlock, AfterConsume;
  }

  lemma DispatchEffect(s: BrokerState, id: U64, m: Request, v: LeaseState)
    requires Connected(s, id) && Dispatchable(v, m)
    ensures var (t, ok, _) := Dispatched(s.(lease := v), id, m);
            Effect(s, Message(id, m), v, ok, t.lease) && Frame(s, Message(id, m), ok, t)
  {
    hide *;
    DispatchFrame(s, id, m, v);
    if m.op.PrepareTask? || m.op.PrepareValidation? {
      PrepareEffect(s, id, m, v);
    } else if m.op.DesktopProtected? || m.op.LocalInput? || m.op.ScreenLocked? || m.op.ManualUnlock? {
      GuardianEffect(s, id, m, v);
    } else {
      OtherEffect(s, id, m, v);
    }
  }

  lemma StepEffect(s: BrokerState, e: Event)
    requires Consistent(s.lease) && Enabled(s, e)
    ensures Effect(s, e, Seen(s, e), Step(s, e).1.ok, Step(s, e).0.lease)
    ensures Frame(s, e, Step(s, e).1.ok, Step(s, e).0)
  {
    hide Dispatched, Settled;
    if e.Message? {
      hide Effect, Frame, Seen;
      RequestEffect(s, e.peer, e.request);
    } else {
      hide AfterRequest;
    }
  }

  lemma RequestEffect(s: BrokerState, id: U64, m: Request)
    requires Consistent(s.lease) && Connected(s, id)
    ensures var (t, o) := AfterRequest(s, id, m);
            && Effect(s, Message(id, m), Seen(s, Message(id, m)), o.ok, t.lease)
            && Frame(s, Message(id, m), o.ok, t)
  {
    hide Dispatched, Settled;
    SeenIsSameOrRevoked(s, Message(id, m));
    if m.replyable {
      DispatchEffect(s, id, m, Seen(s, Message(id, m)));
    }
  }

  lemma StepKeepsConsistent(s: BrokerState, e: Event)
    requires Valid(s) && Enabled(s, e)
    ensures Consistent(Step(s, e).0.lease)
  {
    hide Step, Seen, Frame, Live;
    StepEffect(s, e);
    SeenIsSameOrRevoked(s, e);
  }

  lemma StepKeepsValid(s: BrokerState, e: Event)
    requires Valid(s) && Enabled(s, e)
    ensures Valid(Step(s, e).0)
  {
    hide Step, Seen, Live, Matches;
    StepKeepsConsistent(s, e);
    StepKeepsAssigned(s, e);
    StepEffect(s, e);
    SeenIsSameOrRevoked(s, e);
    hide Began;
  }

  /** Identifiers in use were handed out. */
  lemma StepKeepsAssigned(s: BrokerState, e: Event)
    requires Valid(s) && Enabled(s, e)
    ensures var t := Step(s, e).0;
            && Assigned(t, t.lease.owner) && Assigned(t, t.lease.guardian)
            && forall id | id in t.peers :: id != 0 && Assigned(t, id)
  {
    hide Step, Seen, Live, Matches;
    StepEffect(s, e);
    SeenIsSameOrRevoked(s, e);
  }

  lemma {:induction false} ReachableIsValid(ss: seq<BrokerState>, es: seq<Event>, k: nat)
    requires Run(ss, es) && k <= |es|
    ensures Valid(ss[k])
  {
    if k > 0 {
      ReachableIsValid(ss, es, k - 1);
      StepKeepsValid(ss[k - 1], es[k - 1]);
    }
  }

  /** Two values of one lease: what identifies it never changes, and it is never unprotected again. */
  predicate SameLease(a: LeaseState, b: LeaseState) {
    && a.owner == b.owner && a.uid == b.uid && a.session == b.session && a.deadline == b.deadline
    && a.token == b.token && (a.guardian != 0 ==> a.guardian == b.guardian)
  }

  /** Only a begin makes an idle broker hold a lease or replaces the lease it holds. */
  lemma StepKeepsLease(s: BrokerState, e: Event)
    requires Valid(s) && Enabled(s, e) && !Marks(s, e, Begun)
    ensures var l, l' := s.lease, Step(s, e).0.lease;
            && (l'.phase == Idle || (l.phase != Idle && SameLease(l, l')))
            && (l'.phase == Preparing ==> l.phase == Preparing)
            && (l'.phase == Protected ==> l.phase == Protected || Marks(s, e, Guarded))
            && (l'.phase == Consumed ==> l.phase == Consumed || Marks(s, e, Granted))
            && (l'.phase != Idle ==> Step(s, e).0.validationActive == s.validationActive)
  {
    hide Step, Seen;
    StepEffect(s, e);
    SeenIsSameOrRevoked(s, e);
  }

  /** Contact times: the lease remembers the clock reading of the last accepted contact of each party. */
  lemma StepKeepsContacts(s: BrokerState, e: Event)
    requires Valid(s) && Enabled(s, e) && Step(s, e).0.lease.phase != Idle
    ensures var l, l' := s.lease, Step(s, e).0.lease;
            && l'.ownerSeen == (if Marks(s, e, OwnerContact) then e.request.now else l.ownerSeen)
            && (l'.guardian != 0 ==>
                 l'.guardianSeen == if Marks(s, e, GuardianContact) then e.request.now else l.guardianSeen)
            && (Marks(s, e, OwnerContact) && !Marks(s, e, Begun) ==>
                 l.ownerSeen <= e.request.now && e.peer == l'.owner)
            && (Marks(s, e, GuardianContact) ==> e.peer == l'.guardian)
  {
    hide Step, Seen;
    StepEffect(s, e);
    SeenIsSameOrRevoked(s, e);
  }

  lemma BeginShape(s: BrokerState, e: Event)
    requires Valid(s) && Enabled(s, e) && Marks(s, e, Begun)
    ensures BeganWith(s, e, Step(s, e).0)
    ensures var l' := Step(s, e).0.lease;
            l'.phase == Preparing && l'.owner == e.peer && l'.ownerSeen == e.request.now && l'.guardian == 0
  {
    hide Step, Seen;
    StepEffect(s, e);
    SeenIsSameOrRevoked(s, e);
  }

  /** Event `e` in state `s` began the lease that state `t` holds. */
  predicate BeganWith(s: BrokerState, e: Event, t: BrokerState)
    requires Enabled(s, e)
  {
    && Marks(s, e, Begun)
    && t.lease.owner == e.peer && t.lease.uid == e.request.uid && t.lease.session == e.request.session
    && t.lease.token == e.request.issued && e.request.uid == e.request.console
    && t.validationActive == e.request.op.PrepareValidation?
    && s.peers[e.peer].role == (if t.validationActive then Validation else App)
    && e.request.now < t.lease.deadline <= e.request.now + MAX_MS
    && (t.validationActive ==> t.lease.deadline == e.request.now + VALIDATION_TTL_MS)
  }

  /** Event `e` in state `s` put the lease of state `t` under its guardian. */
  predicate GuardedWith(s: BrokerState, e: Event, t: BrokerState)
    requires Enabled(s, e)
  {
    && Marks(s, e, Guarded)
    && t.lease.guardian == e.peer && s.peers[e.peer].role == Guardian
    && e.request.uid == t.lease.uid && e.request.session == t.lease.session && e.peer != t.lease.owner
  }

  /** What the trace up to `k` says about a lease held in state `k`. */
  ghost predicate Accounted(ss: seq<BrokerState>, es: seq<Event>, k: nat)
    requires Run(ss, es) && k <= |es|
  {
    var l := ss[k].lease;
    var j, p := Last(ss, es, k, Begun), Last(ss, es, k, Guarded);
    var o, g, c := Last(ss, es, k, OwnerContact), Last(ss, es, k, GuardianContact), Last(ss, es, k, Granted);
    l.phase != Idle ==>
      && 0 <= j <= o && BeganWith(ss[j], es[j], ss[k])
      && es[o].peer == l.owner && es[o].request.now == l.ownerSeen && es[j].request.now <= l.ownerSeen
      && (l.guardian != 0 ==>
           && j < p <= g && GuardedWith(ss[p], es[p], ss[k])
           && es[g].peer == l.guardian && es[g].request.now == l.guardianSeen)
      && (l.phase == Preparing || l.phase == Protected ==> c < j)
      && (l.phase == Consumed ==> j < c)
  }

  lemma GuardShape(s: BrokerState, e: Event)
    requires Valid(s) && Enabled(s, e) && Marks(s, e, Guarded)
    ensures GuardedWith(s, e, Step(s, e).0)
    ensures Step(s, e).0.lease.phase == Protected && Seen(s, e) == s.lease && s.lease.phase == Preparing
  {
    hide Step, Seen;
    StepEffect(s, e);
    SeenIsSameOrRevoked(s, e);
  }

  lemma GrantShape(s: BrokerState, e: Event)
    requires Valid(s) && Enabled(s, e) && Marks(s, e, Granted)
    ensures Seen(s, e) == s.lease && s.lease.phase == Protected && Live(s.lease, e.request.now)
    ensures s.validationActive && e.request.console == s.lease.uid && s.peers[e.peer].role == Authorization
    ensures Step(s, e).0.lease.phase == Consumed
  {
    hide Step, Seen;
    StepEffect(s, e);
    SeenIsSameOrRevoked(s, e);
  }

  lemma {:induction false} EveryLeaseIsAccounted(ss: seq<BrokerState>, es: seq<Event>, k: nat)
    requires Run(ss, es) && k <= |es|
    ensures Accounted(ss, es, k)
  {
    hide Step, Valid, Live, BeganWith, GuardedWith, Seen, Accounted;
    if k > 0 && ss[k].lease.phase != Idle {
      ReachableIsValid(ss, es, k - 1);
      if Marks(ss[k - 1], es[k - 1], Begun) {
        BeginIsAccounted(ss, es, k);
      } else {
        StepKeepsLease(ss[k - 1], es[k - 1]);
        EveryLeaseIsAccounted(ss, es, k - 1);
        HeldIsAccounted(ss, es, k);
      }
    } else {
      IdleIsAccounted(ss, es, k);
    }
  }

  lemma IdleIsAccounted(ss: seq<BrokerState>, es: seq<Event>, k: nat)
    requires Run(ss, es) && k <= |es| && ss[k].lease.phase == Idle
    ensures Accounted(ss, es, k)
  {
  }

  lemma BeginIsAccounted(ss: seq<BrokerState>, es: seq<Event>, k: nat)
    requires Run(ss, es) && 0 < k <= |es| && Valid(ss[k - 1]) && Marks(ss[k - 1], es[k - 1], Begun)
    ensures Accounted(ss, es, k)
  {
    hide Step, Valid, Live, BeganWith, GuardedWith, Seen;
    BeginShape(ss[k - 1], es[k - 1]);
  }

  lemma HeldIsAccounted(ss: seq<BrokerState>, es: seq<Event>, k: nat)
    requires Run(ss, es) && 0 < k <= |es| && Valid(ss[k - 1]) && Accounted(ss, es, k - 1)
    requires !Marks(ss[k - 1], es[k - 1], Begun) && ss[k].lease.phase != Idle
    ensures Accounted(ss, es, k)
  {
    hide Step, Valid, Live, BeganWith, GuardedWith, Seen;
    var s, e := ss[k - 1], es[k - 1];
    StepKeepsLease(s, e);
    StepKeepsContacts(s, e);
    if Marks(s, e, Guarded) {
      GuardShape(s, e);
    } else {
      if Marks(s, e, Granted) {
        GrantShape(s, e);
      }
      StepKeepsGuardian(s, e);
    }
    StepKeepsOrigin(ss, es, k);
  }

  /** The begin and the protection of a lease stay those of the lease while it is held. */
  lemma StepKeepsOrigin(ss: seq<BrokerState>, es: seq<Event>, k: nat)
    requires Run(ss, es) && 0 < k <= |es| && !Marks(ss[k - 1], es[k - 1], Begun)
    requires ss[k - 1].lease.phase != Idle && SameLease(ss[k - 1].lease, ss[k].lease)
    requires ss[k].validationActive == ss[k - 1].validationActive
    ensures forall j | 0 <= j < k - 1 && BeganWith(ss[j], es[j], ss[k - 1]) :: BeganWith(ss[j], es[j], ss[k])
    ensures ss[k - 1].lease.guardian == ss[k].lease.guardian ==>
              forall p | 0 <= p < k - 1 && GuardedWith(ss[p], es[p], ss[k - 1]) :: GuardedWith(ss[p], es[p], ss[k])
  {
    hide Step;
  }

  lemma StepKeepsGuardian(s: BrokerState, e: Event)
    requires Valid(s) && Enabled(s, e) && !Marks(s, e, Begun) && !Marks(s, e, Guarded)
    requires Step(s, e).0.lease.phase != Idle
    ensures Step(s, e).0.lease.guardian == s.lease.guardian
  {
    hide Step, Seen;
    StepEffect(s, e);
    SeenIsSameOrRevoked(s, e);
  }

  /** Every granted unlock belongs to one prepare-validation less than five seconds old, which a
      different guardian peer of the same user and audit session protected; both parties were heard
      within the last two seconds, and the console user is the one the lease was begun for. */
  lemma GrantIsJustified(ss: seq<BrokerState>, es: seq<Event>, k: nat)
    requires Run(ss, es) && k < |es| && Marks(ss[k], es[k], Granted)
    ensures var j, p := Last(ss, es, k, Begun), Last(ss, es, k, Guarded);
            var o, g := Last(ss, es, k, OwnerContact), Last(ss, es, k, GuardianContact);
            var t := es[k].request.now;
            && 0 <= j < p <= g < k && j <= o < k
            && es[j].request.op.PrepareValidation? && ss[j].peers[es[j].peer].role == Validation
            && es[j].request.now <= t < es[j].request.now + 5000
            && ss[p].peers[es[p].peer].role == Guardian && es[p].peer != es[j].peer
            && es[p].request.uid == es[j].request.uid && es[p].request.session == es[j].request.session
            && es[o].peer == es[j].peer && es[o].request.now <= t < es[o].request.now + 2000
            && es[g].peer == es[p].peer && es[g].request.now <= t < es[g].request.now + 2000
            && es[k].request.console == es[j].request.uid && ss[k].peers[es[k].peer].role == Authorization
  {
    ReachableIsValid(ss, es, k);
    EveryLeaseIsAccounted(ss, es, k);
    GrantShape(ss[k], es[k]);
  }

  /** One-shot consumption: two grants never come from the same begin. */
  lemma GrantsHaveDistinctBegins(ss: seq<BrokerState>, es: seq<Event>, k1: nat, k2: nat)
    requires Run(ss, es) && k1 < k2 < |es| && Marks(ss[k1], es[k1], Granted) && Marks(ss[k2], es[k2], Granted)
    ensures Last(ss, es, k1, Begun) < k1 < Last(ss, es, k2, Begun)
  {
    ReachableIsValid(ss, es, k2);
    EveryLeaseIsAccounted(ss, es, k2);
    GrantShape(ss[k2], es[k2]);
    LastIsLast(ss, es, k2, Granted, k1);
  }

  /** A validation peer that is told its grant was consumed really is the owner of a granted begin. */
  lemma ConsumedReportIsTrue(ss: seq<BrokerState>, es: seq<Event>, k: nat)
    requires Run(ss, es) && k < |es|
    requires var p := Step(ss[k], es[k]).1.progress; p.Some? && p.value.isConsumed
    ensures var j, c := Last(ss, es, k, Begun), Last(ss, es, k, Granted);
            && 0 <= j < c < k && es[j].request.op.PrepareValidation?
            && es[j].peer == es[k].peer && Some(es[j].request.issued) == es[k].request.token
  {
    hide Step, Valid, Seen;
    ReachableIsValid(ss, es, k);
    ConsumedReportShape(ss[k], es[k]);
    EveryLeaseIsAccounted(ss, es, k);
  }

  lemma ConsumedReportShape(s: BrokerState, e: Event)
    requires Valid(s) && Enabled(s, e)
    requires var p := Step(s, e).1.progress; p.Some? && p.value.isConsumed
    ensures s.lease.phase == Consumed && s.validationActive
    ensures e.Message? && e.peer == s.lease.owner && e.request.token == Some(s.lease.token)
  {
    hide AfterPrepare, AfterProtect, AfterHeartbeat, AfterCancel, AfterLocked, AfterManualUnlock, AfterConsume;
  }

  /** Event `m` is the re-lock confirmation, by its own guardian, of the guarded lease `l`. */
  predicate Confirms(s: BrokerState, e: Event, l: LeaseState)
    requires Enabled(s, e)
  {
    && Marks(s, e, Relocked) && s.peers[e.peer].role == Guardian
    && e.peer == l.guardian && e.request.token == Some(l.token)
    && SameLease(l, s.lease) && Seen(s, e) == s.lease.(phase := Revoking)
  }

  lemma GuardedStep(s: BrokerState, e: Event)
    requires Valid(s) && Enabled(s, e) && IsGuarded(s.lease)
    ensures var l' := Step(s, e).0.lease;
            if Confirms(s, e, s.lease) then l'.phase == Idle
            else IsGuarded(l') && SameLease(s.lease, l') && (s.lease.manual ==> l'.manual)
                 && (s.lease.phase == Revoking ==> l'.phase == Revoking)
    ensures !Marks(s, e, Begun)
  {
    hide Step, Seen;
    StepEffect(s, e);
    SeenIsSameOrRevoked(s, e);
  }

  /** A guarded lease stays the held lease, never to be replaced, until its own guardian confirms the
      re-lock of the revoked lease with the lease's token. */
  lemma {:induction false} GuardedUntilConfirmed(ss: seq<BrokerState>, es: seq<Event>, i: nat, k: nat)
    requires Run(ss, es) && i <= k <= |es| && IsGuarded(ss[i].lease)
    ensures || (IsGuarded(ss[k].lease) && SameLease(ss[i].lease, ss[k].lease)
                && (ss[i].lease.manual ==> ss[k].lease.manual))
            || exists m | i <= m < k :: Confirms(ss[m], es[m], ss[i].lease)
  {
    hide Step, Valid, Confirms, Marks, Seen, IsGuarded, SameLease;
    LeaseIsItself(ss[i].lease);
    if i < k {
      GuardedUntilConfirmed(ss, es, i, k - 1);
      var s, e := ss[k - 1], es[k - 1];
      if m :| i <= m < k - 1 && Confirms(ss[m], es[m], ss[i].lease) {
      } else {
        ReachableIsValid(ss, es, i);
        ReachableIsValid(ss, es, k - 1);
        GuardedStep(s, e);
        GuardedLater(ss[i], s, e, ss[k]);
        assert ss[k] == Step(s, e).0;
      }
    }
  }

  lemma LeaseIsItself(l: LeaseState)
    ensures SameLease(l, l)
  {
  }

  /** A guarded lease keeps its identity over two spans, and a confirmation of it is one of the first state. */
  lemma GuardedLater(s0: BrokerState, s: BrokerState, e: Event, t: BrokerState)
    requires Valid(s0) && IsGuarded(s0.lease) && SameLease(s0.lease, s.lease) && Enabled(s, e)
    ensures SameLease(s.lease, t.lease) ==> SameLease(s0.lease, t.lease)
    ensures Confirms(s, e, s.lease) ==> Confirms(s, e, s0.lease)
  {
    ConfirmsSame(s, e, s0.lease);
    hide Confirms;
  }

  /** A confirmation of the held lease confirms every earlier state of it that was guarded. */
  lemma ConfirmsSame(s: BrokerState, e: Event, l: LeaseState)
    requires Enabled(s, e) && SameLease(l, s.lease) && l.guardian == s.lease.guardian
    ensures Confirms(s, e, s.lease) ==> Confirms(s, e, l)
  {
    hide Step, Seen, Marks;
  }

  lemma LostGuardianStep(s: BrokerState, e: Event)
    requires Valid(s) && Enabled(s, e) && IsGuarded(s.lease) && e.Error? && e.peer == s.lease.guardian
    ensures var t := Step(s, e).0;
            && t.lease.phase == Revoking && t.lease.guardian == e.peer
            && !Connected(t, e.peer) && Assigned(t, e.peer)
  {
    hide Step;
    StepEffect(s, e);
  }

  /** A peer that is gone stays gone: its identifier is never handed out again. */
  lemma StepKeepsAbsent(s: BrokerState, e: Event, id: U64)
    requires Valid(s) && Enabled(s, e) && id != 0 && Assigned(s, id) && !Connected(s, id)
    ensures var t := Step(s, e).0; Assigned(t, id) && !Connected(t, id)
  {
    hide Step, Effect;
    StepEffect(s, e);
  }

  /** Losing the guardian is final: the lease stays revoking and nothing is begun or granted again. */
  lemma {:induction false} LostGuardianIsFinal(ss: seq<BrokerState>, es: seq<Event>, m: nat, k: nat)
    requires Run(ss, es) && m < k <= |es|
    requires IsGuarded(ss[m].lease) && es[m].Error? && es[m].peer == ss[m].lease.guardian
    ensures ss[k].lease.phase == Revoking && ss[k].lease.guardian == es[m].peer
    ensures !Connected(ss[k], es[m].peer) && Assigned(ss[k], es[m].peer)
    ensures k < |es| ==> !Marks(ss[k], es[k], Begun) && !Marks(ss[k], es[k], Granted)
  {
    hide Step, Seen;
    ReachableIsValid(ss, es, m);
    ReachableIsValid(ss, es, k);
    if k == m + 1 {
      LostGuardianStep(ss[m], es[m]);
    } else {
      LostGuardianIsFinal(ss, es, m, k - 1);
      ReachableIsValid(ss, es, k - 1);
      GuardedStep(ss[k - 1], es[k - 1]);
      StepKeepsAbsent(ss[k - 1], es[k - 1], es[m].peer);
    }
    if k < |es| {
      GuardedStep(ss[k], es[k]);
      if Marks(ss[k], es[k], Granted) {
        GrantShape(ss[k], es[k]);
      }
    }
  }

  /** Event `e` is a manual unlock by the user and audit session of lease `l`. */
  predicate Unlatches(s: BrokerState, e: Event, l: LeaseState)
    requires Enabled(s, e)
  {
    Marks(s, e, Released) && s.peers[e.peer].role == Guardian
    && e.request.uid == l.uid == e.request.console && e.request.session == l.session
  }

  lemma LatchedIdleStep(s: BrokerState, e: Event)
    requires Valid(s) && Enabled(s, e) && s.lease.phase == Idle && s.lease.manual
    ensures Unlatches(s, e, s.lease) || Step(s, e).0.lease == s.lease
    ensures !Marks(s, e, Begun)
  {
    hide Step, Seen;
    StepEffect(s, e);
    SeenIsSameOrRevoked(s, e);
  }

  lemma ConfirmKeepsLatch(s: BrokerState, e: Event)
    requires Valid(s) && Enabled(s, e) && s.lease.manual && Confirms(s, e, s.lease)
    ensures var l' := Step(s, e).0.lease;
            l'.phase == Idle && l'.manual && l'.uid == s.lease.uid && l'.session == s.lease.session
  {
    hide Step, Seen;
    StepEffect(s, e);
    SeenIsSameOrRevoked(s, e);
  }

  lemma LatchShape(s: BrokerState, e: Event)
    requires Valid(s) && Enabled(s, e) && Marks(s, e, Latched)
    ensures var l' := Step(s, e).0.lease;
            && l'.phase == Revoking && l'.manual && SameLease(s.lease, l') && l'.guardian == e.peer
            && s.peers[e.peer].role == Guardian
  {
    hide Step, Seen;
    StepEffect(s, e);
    SeenIsSameOrRevoked(s, e);
  }

  /** The guardian of `l` confirmed its re-lock at `a`, and its user unlocked by hand at a later `b`. */
  ghost predicate Cleared(ss: seq<BrokerState>, es: seq<Event>, from: nat, k: nat, l: LeaseState)
    requires Run(ss, es) && k <= |es|
  {
    exists a, b | from <= a < b < k :: Confirms(ss[a], es[a], l) && Unlatches(ss[b], es[b], l)
  }

  /** The three stages of a latched lease: guarded, idle and still latched, or cleared. */
  ghost predicate LatchStage(ss: seq<BrokerState>, es: seq<Event>, from: nat, k: nat)
    requires Run(ss, es) && from <= k <= |es|
  {
    var l, l' := ss[from].lease, ss[k].lease;
    || (IsGuarded(l') && SameLease(l, l') && l'.manual)
    || (l'.phase == Idle && l'.manual && l'.uid == l.uid && l'.session == l.session
        && exists a | from <= a < k :: Confirms(ss[a], es[a], l))
    || Cleared(ss, es, from, k, l)
  }

  lemma {:induction false} LatchStages(ss: seq<BrokerState>, es: seq<Event>, from: nat, k: nat)
    requires Run(ss, es) && from <= k <= |es| && IsGuarded(ss[from].lease) && ss[from].lease.manual
    ensures LatchStage(ss, es, from, k)
  {
    hide Step, Valid, Confirms, Unlatches, Marks, Seen, IsGuarded, SameLease, Cleared;
    LeaseIsItself(ss[from].lease);
    if from < k {
      LatchStages(ss, es, from, k - 1);
      ReachableIsValid(ss, es, from);
      ReachableIsValid(ss, es, k - 1);
      var l, s, e := ss[from].lease, ss[k - 1], es[k - 1];
      assert ss[k] == Step(s, e).0;
      if Cleared(ss, es, from, k - 1, l) {
        ClearedStays(ss, es, from, k - 1, l);
      } else if IsGuarded(s.lease) && SameLease(l, s.lease) && s.lease.manual {
        GuardedStep(s, e);
        GuardedLater(ss[from], s, e, ss[k]);
        if Confirms(s, e, s.lease) {
          ConfirmKeepsLatch(s, e);
          SameIdentity(l, s.lease);
        }
      } else {
        LatchedIdleStep(s, e);
        var a :| from <= a < k - 1 && Confirms(ss[a], es[a], l);
        if Unlatches(s, e, s.lease) {
          ClearedNow(ss, es, from, a, k - 1, l);
        }
      }
    }
  }

  lemma SameIdentity(l: LeaseState, l': LeaseState)
    requires SameLease(l, l')
    ensures l.uid == l'.uid && l.session == l'.session
  {
  }

  lemma ClearedStays(ss: seq<BrokerState>, es: seq<Event>, from: nat, k: nat, l: LeaseState)
    requires Run(ss, es) && k < |es| && Cleared(ss, es, from, k, l)
    ensures Cleared(ss, es, from, k + 1, l)
  {
    hide Step, Confirms, Unlatches;
  }

  lemma ClearedNow(ss: seq<BrokerState>, es: seq<Event>, from: nat, a: nat, b: nat, l: LeaseState)
    requires Run(ss, es) && from <= a < b < |es| && Confirms(ss[a], es[a], l)
    requires Unlatches(ss[b], es[b], ss[b].lease) && ss[b].lease.uid == l.uid && ss[b].lease.session == l.session
    ensures Cleared(ss, es, from, b + 1, l)
  {
    hide Step, Confirms;
    assert Unlatches(ss[b], es[b], l);
  }

  /** Once the guardian reported local input, a lease begins again only after that guardian confirmed
      the re-lock and then a manual unlock arrived for the same user and audit session. */
  lemma LatchHoldsUntilCleared(ss: seq<BrokerState>, es: seq<Event>, m: nat, k: nat)
    requires Run(ss, es) && m < k < |es| && Marks(ss[m], es[m], Latched) && Marks(ss[k], es[k], Begun)
    ensures Cleared(ss, es, m + 1, k, ss[m + 1].lease)
    ensures ss[m + 1].lease.guardian == es[m].peer && SameLease(ss[m].lease, ss[m + 1].lease)
  {
    ReachableIsValid(ss, es, m);
    LatchShape(ss[m], es[m]);
    LatchStages(ss, es, m + 1, k);
    ReachableIsValid(ss, es, k);
    if IsGuarded(ss[k].lease) {
      GuardedStep(ss[k], es[k]);
    } else if ss[k].lease.phase == Idle && ss[k].lease.manual {
      LatchedIdleStep(ss[k], es[k]);
    }
  }

  /** A relock notice goes to the guardian of the revoking lease, carries that lease's token, and is
      never repeated within half a second; it is sent as soon as those conditions allow it. */
  lemma NoticeIsExact(s: BrokerState, e: Event)
    requires Valid(s) && Enabled(s, e) && e.Timer?
    ensures var (t, o) := Step(s, e);
            o.notice == if t.lease.phase == Revoking && s.guardianConnection.Some?
                           && !(s.relockNotified <= e.later < s.relockNotified + 500)
                        then Some(Notice(t.lease.guardian, t.lease.token)) else None
    ensures var (t, o) := Step(s, e); o.notice.Some? ==> t.relockNotified == e.later
  {
    SeenIsSameOrRevoked(s, e);
  }
}
