/** The locked-use lease: a memory-only state machine owned by the privileged broker.

    `LeaseState` is the value of the lease, the `After…` functions are its transitions, and
    class `Lease` is the record that the broker updates in place, proved against them. */
module LeaseMachine {
  import opened Machine

  const MAX_MS := 30000
  const HEARTBEAT_MS := 2000
  const TOKEN_LENGTH := 36
  const LABEL_SIZE := 129
  const FIRST_USER_UID := 501

  datatype Phase = Idle | Preparing | Protected | Consumed | Revoking

  datatype LeaseState = LeaseState(
    phase: Phase, owner: U64, guardian: U64, uid: U32, session: U32,
    deadline: U64, ownerSeen: U64, guardianSeen: U64, manual: bool,
    token: string, task: string, synth: string)

  const EMPTY := LeaseState(Idle, 0, 0, 0, 0, 0, 0, 0, false, "", "", "")

  /** A C string argument: `None` is the null pointer. */
  type Text = Option<string>

  predicate Matches(l: LeaseState, token: Text) {
    l.phase != Idle && token.Some? && |token.value| == TOKEN_LENGTH && token.value == l.token
  }

  predicate Recent(now: U64, then_: U64) {
    then_ <= now < then_ + HEARTBEAT_MS
  }

  predicate Live(l: LeaseState, now: U64) {
    now < l.deadline && Recent(now, l.ownerSeen) && (l.guardian != 0 ==> Recent(now, l.guardianSeen))
  }

  predicate Party(l: LeaseState, peer: U64) {
    peer != 0 && (peer == l.owner || peer == l.guardian)
  }

  predicate ValidLabel(name: Text) {
    name.Some? && 0 < |name.value| < LABEL_SIZE
  }

  function Revoked(l: LeaseState): LeaseState {
    if l.phase == Idle || l.phase == Revoking then l
    else if l.guardian == 0 && l.phase == Preparing then EMPTY
    else l.(phase := Revoking)
  }

  predicate CanBegin(l: LeaseState, peer: U64, uid: U32, session: U32,
                     token: Text, task: Text, synth: Text, ttl: U64, now: U64) {
    && l.phase == Idle && !l.manual && peer != 0 && uid >= FIRST_USER_UID && session != 0
    && token.Some? && |token.value| == TOKEN_LENGTH
    && ValidLabel(task) && ValidLabel(synth)
    && 0 < ttl <= MAX_MS && now <= U64_MAX - ttl
  }

  function AfterBegin(l: LeaseState, peer: U64, uid: U32, session: U32,
                      token: Text, task: Text, synth: Text, ttl: U64, now: U64): (LeaseState, bool) {
    if CanBegin(l, peer, uid, session, token, task, synth, ttl, now) then
      (EMPTY.(phase := Preparing, owner := peer, uid := uid, session := session, deadline := now + ttl,
              ownerSeen := now, token := token.value, task := task.value, synth := synth.value), true)
    else (l, false)
  }

  function AfterProtect(l: LeaseState, peer: U64, uid: U32, session: U32, token: Text, now: U64): (LeaseState, bool) {
    if l.phase != Preparing || !Matches(l, token) || peer == 0 || peer == l.owner
       || uid != l.uid || session != l.session then (l, false)
    else if !Live(l, now) then (Revoked(l), false)
    else (l.(guardian := peer, guardianSeen := now, phase := Protected), true)
  }

  function AfterHeartbeat(l: LeaseState, peer: U64, token: Text, now: U64): (LeaseState, bool) {
    if l.phase == Revoking || !Matches(l, token) || !Party(l, peer) then (l, false)
    else if !Live(l, now) then (Revoked(l), false)
    else if peer == l.owner then (l.(ownerSeen := now), true)
    else (l.(guardianSeen := now), true)
  }

  function AfterConsume(l: LeaseState, console: U32, now: U64): (LeaseState, bool) {
    if l.phase != Protected || console != l.uid then (l, false)
    else if !Live(l, now) then (Revoked(l), false)
    else (l.(phase := Consumed), true)
  }

  function AfterCancel(l: LeaseState, peer: U64, token: Text, localInput: bool): (LeaseState, bool) {
    if !Matches(l, token) || !Party(l, peer) || (localInput && peer != l.guardian) then (l, false)
    else (Revoked(if localInput then l.(manual := true) else l), true)
  }

  function AfterDisconnect(l: LeaseState, peer: U64): (LeaseState, bool) {
    if l.phase == Idle || !Party(l, peer) then (l, false) else (Revoked(l), true)
  }

  function AfterTick(l: LeaseState, now: U64): (r: (LeaseState, bool)) {
    var l' := if l.phase != Idle && l.phase != Revoking && !Live(l, now) then Revoked(l) else l;
    (l', l'.phase == Revoking)
  }

  function AfterLocked(l: LeaseState, peer: U64, token: Text): (LeaseState, bool) {
    if l.phase != Revoking || !Matches(l, token) || peer == 0 || peer != l.guardian then (l, false)
    else (if l.manual then EMPTY.(manual := true, uid := l.uid, session := l.session) else EMPTY, true)
  }

  function AfterManualUnlock(l: LeaseState, uid: U32, session: U32): (LeaseState, bool) {
    if l.phase == Idle && l.manual && uid == l.uid && session == l.session then (EMPTY, true) else (l, false)
  }

  /** What every transition keeps: a lease has an owner exactly while it is held, a guardian exactly
      once it was protected, and only a guarded or idle lease can carry the manual-unlock latch. */
  predicate Consistent(l: LeaseState) {
    match l.phase
    case Idle => l.owner == 0 && l.guardian == 0
    case Preparing => l.owner != 0 && l.guardian == 0 && !l.manual && |l.token| == TOKEN_LENGTH
    case _ => l.owner != 0 && l.guardian != 0 && l.guardian != l.owner && |l.token| == TOKEN_LENGTH
  }

  class Lease {
    var phase: Phase
    var owner: U64
    var guardian: U64
    var uid: U32
    var session: U32
    var deadline: U64
    var ownerSeen: U64
    var guardianSeen: U64
    var manual: bool
    var token: string
    var task: string
    var synth: string

    ghost function State(): LeaseState
      reads this
    {
      LeaseState(phase, owner, guardian, uid, session, deadline, ownerSeen, guardianSeen, manual, token, task, synth)
    }

    constructor ()
      ensures State() == EMPTY
    {
      phase, owner, guardian, uid, session := Idle, 0, 0, 0, 0;
      deadline, ownerSeen, guardianSeen, manual := 0, 0, 0, false;
      token, task, synth := "", "", "";
    }

    method Clear()
      modifies this
      ensures State() == EMPTY
    {
      phase, owner, guardian, uid, session := Idle, 0, 0, 0, 0;
      deadline, ownerSeen, guardianSeen, manual := 0, 0, 0, false;
      token, task, synth := "", "", "";
    }

    method Revoke()
      modifies this
      ensures State() == Revoked(old(State()))
    {
      if phase == Idle || phase == Revoking {
        return;
      }
      if guardian == 0 && phase == Preparing {
        Clear();
      } else {
        phase := Revoking;
      }
    }

    method IsLive(now: U64) returns (b: bool)
      ensures b == Live(State(), now)
    {
      b := now < deadline && Recent(now, ownerSeen) && (guardian == 0 || Recent(now, guardianSeen));
    }

    method TokenMatches(text: Text) returns (b: bool)
      ensures b == Matches(State(), text)
    {
      b := phase != Idle && text.Some? && |text.value| == TOKEN_LENGTH && text.value == token;
    }

    method Admits(peer: U64, uid': U32, session': U32, text: Text, task': Text, synth': Text, ttl: U64, now: U64)
      returns (ok: bool)
      ensures ok == CanBegin(State(), peer, uid', session', text, task', synth', ttl, now)
    {
      ok := !(phase != Idle || manual || peer == 0 || uid' < FIRST_USER_UID || session' == 0
              || text.None? || |text.value| != TOKEN_LENGTH || !ValidLabel(task') || !ValidLabel(synth')
              || ttl == 0 || ttl > MAX_MS || now > U64_MAX - ttl);
    }

    method Begin(peer: U64, uid': U32, session': U32, text: Text, task': Text, synth': Text, ttl: U64, now: U64)
      returns (ok: bool)
      modifies this
      ensures (State(), ok) == AfterBegin(old(State()), peer, uid', session', text, task', synth', ttl, now)
    {
      var admitted := Admits(peer, uid', session', text, task', synth', ttl, now);
      if !admitted {
        return false;
      }
      hide ValidLabel;
      Clear();
      phase, owner, uid, session := Preparing, peer, uid', session';
      deadline, ownerSeen := now + ttl, now;
      token, task, synth := text.value, task'.value, synth'.value;
      return true;
    }

    method Protect(peer: U64, uid': U32, session': U32, text: Text, now: U64) returns (ok: bool)
      modifies this
      ensures (State(), ok) == AfterProtect(old(State()), peer, uid', session', text, now)
    {
      var matches := TokenMatches(text);
      if phase != Preparing || !matches || peer == 0 || peer == owner || uid' != uid || session' != session {
        return false;
      }
      var live := IsLive(now);
      if !live {
        Revoke();
        return false;
      }
      guardian, guardianSeen, phase := peer, now, Protected;
      return true;
    }

    method Heartbeat(peer: U64, text: Text, now: U64) returns (ok: bool)
      modifies this
      ensures (State(), ok) == AfterHeartbeat(old(State()), peer, text, now)
    {
      var matches := TokenMatches(text);
      if peer == 0 || phase == Revoking || !matches || (peer != owner && peer != guardian) {
        return false;
      }
      var live := IsLive(now);
      if !live {
        Revoke();
        return false;
      }
      if peer == owner {
        ownerSeen := now;
      } else {
        guardianSeen := now;
      }
      return true;
    }

    method Consume(console: U32, now: U64) returns (ok: bool)
      modifies this
      ensures (State(), ok) == AfterConsume(old(State()), console, now)
    {
      if phase != Protected || console != uid {
        return false;
      }
      var live := IsLive(now);
      if !live {
        Revoke();
        return false;
      }
      phase := Consumed;
      return true;
    }

    method Cancel(peer: U64, text: Text, localInput: bool) returns (ok: bool)
      modifies this
      ensures (State(), ok) == AfterCancel(old(State()), peer, text, localInput)
    {
      var matches := TokenMatches(text);
      if peer == 0 || !matches || (peer != owner && peer != guardian) {
        return false;
      }
      if localInput && peer != guardian {
        return false;
      }
      if localInput {
        manual := true;
      }
      Revoke();
      return true;
    }

    method Disconnect(peer: U64) returns (ok: bool)
      modifies this
      ensures (State(), ok) == AfterDisconnect(old(State()), peer)
    {
      if phase == Idle || peer == 0 || (peer != owner && peer != guardian) {
        return false;
      }
      Revoke();
      return true;
    }

    method Tick(now: U64) returns (revoking: bool)
      modifies this
      ensures (State(), revoking) == AfterTick(old(State()), now)
    {
      if phase == Idle {
        return false;
      }
      var live := IsLive(now);
      if phase != Revoking && !live {
        Revoke();
      }
      return phase == Revoking;
    }

    method Locked(peer: U64, text: Text) returns (ok: bool)
      modifies this
      ensures (State(), ok) == AfterLocked(old(State()), peer, text)
    {
      var matches := TokenMatches(text);
      if phase != Revoking || !matches || peer == 0 || peer != guardian {
        return false;
      }
      var latched, uid0, session0 := manual, uid, session;
      Clear();
      if latched {
        manual, uid, session := true, uid0, session0;
      }
      return true;
    }

    method ManualUnlock(uid': U32, session': U32) returns (ok: bool)
      modifies this
      ensures (State(), ok) == AfterManualUnlock(old(State()), uid', session')
    {
      if phase != Idle || !manual || uid' != uid || session' != session {
        return false;
      }
      Clear();
      return true;
    }
  }
}
