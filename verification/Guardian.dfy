/** The guardian's own deadline machine: it revokes on any doubt and never re-arms. */
module GuardianMachine {
  import opened Machine
  import LeaseMachine

  const MAX_MS := LeaseMachine.MAX_MS
  const HEARTBEAT_MS := LeaseMachine.HEARTBEAT_MS

  datatype LockState = Unknown | Locked | Unlocked

  datatype GuardianState = GuardianState(
    started: bool, revoking: bool, localInput: bool, drained: bool,
    deadline: U64, brokerSeen: U64, lastTick: U64)

  const FRESH := GuardianState(false, false, false, false, 0, 0, 0)

  /** `Drain` is the user interface's report that the broker acknowledged the end of the grant. */
  datatype Event =
    | Start(lock: LockState, now: U64)
    | Revoke(localInput: bool)
    | Reply(ok: bool, now: U64)
    | Tick(lock: LockState, healthy: bool, now: U64)
    | Drain(drained: bool)

  predicate Late(s: GuardianState, now: U64) {
    now < s.brokerSeen || now - s.brokerSeen >= HEARTBEAT_MS || now >= s.deadline
  }

  function AfterRevoke(s: GuardianState, localInput: bool): GuardianState {
    if s.started then s.(revoking := true, localInput := s.localInput || localInput) else s
  }

  function Step(s: GuardianState, e: Event): GuardianState {
    match e
    case Start(lock, now) =>
      if s.started || lock != Locked || now > U64_MAX - MAX_MS then s
      else GuardianState(true, false, false, false, now + MAX_MS, now, now)
    case Revoke(localInput) => AfterRevoke(s, localInput)
    case Reply(ok, now) =>
      if !s.started || s.revoking then s
      else if !ok || Late(s, now) then AfterRevoke(s, false)
      else s.(brokerSeen := now)
    case Tick(lock, healthy, now) =>
      if !s.started then s
      else
        var t := if !healthy || lock == Unknown || now < s.lastTick || Late(s, now) then AfterRevoke(s, false) else s;
        t.(lastTick := now)
    case Drain(drained) => s.(drained := drained)
  }

  predicate CanUncover(s: GuardianState, lock: LockState) {
    s.started && s.revoking && s.drained && lock == Locked
  }

  class Guardian {
    var started: bool
    var revoking: bool
    var localInput: bool
    var drained: bool
    var deadline: U64
    var brokerSeen: U64
    var lastTick: U64

    ghost function State(): GuardianState
      reads this
    {
      GuardianState(started, revoking, localInput, drained, deadline, brokerSeen, lastTick)
    }

    constructor ()
      ensures State() == FRESH
    {
      started, revoking, localInput, drained := false, false, false, false;
      deadline, brokerSeen, lastTick := 0, 0, 0;
    }

    method Start(lock: LockState, now: U64) returns (ok: bool)
      modifies this
      ensures State() == Step(old(State()), Event.Start(lock, now))
      ensures ok == (!old(started) && started)
    {
      if started || lock != Locked || now > U64_MAX - MAX_MS {
        return false;
      }
      started, revoking, localInput, drained := true, false, false, false;
      deadline, brokerSeen, lastTick := now + MAX_MS, now, now;
      return true;
    }

    method Revoke(local: bool)
      modifies this
      ensures State() == AfterRevoke(old(State()), local)
    {
      if !started {
        return;
      }
      revoking := true;
      localInput := localInput || local;
    }

    method Reply(ok: bool, now: U64)
      modifies this
      ensures State() == Step(old(State()), Event.Reply(ok, now))
    {
      if !started || revoking {
        return;
      }
      if !ok || now < brokerSeen || now - brokerSeen >= HEARTBEAT_MS || now >= deadline {
        Revoke(false);
      } else {
        brokerSeen := now;
      }
    }

    method Tick(lock: LockState, healthy: bool, now: U64)
      modifies this
      ensures State() == Step(old(State()), Event.Tick(lock, healthy, now))
    {
      if !started {
        return;
      }
      if !healthy || lock == Unknown || now < lastTick || now < brokerSeen
         || now - brokerSeen >= HEARTBEAT_MS || now >= deadline {
        Revoke(false);
      }
      lastTick := now;
    }
  }

  ghost predicate Run(ss: seq<GuardianState>, es: seq<Event>) {
    && |ss| == |es| + 1 && ss[0] == FRESH
    && forall i | 0 <= i < |es| :: ss[i + 1] == Step(ss[i], es[i])
  }

  /** A start that is accepted when nothing was started before. */
  predicate Starts(e: Event) {
    e.Start? && e.lock == Locked && e.now <= U64_MAX - MAX_MS
  }

  /** The first accepted start among the first `k` events, or `k`. */
  function StartOf(es: seq<Event>, k: nat): (i: nat)
    requires k <= |es|
    ensures i <= k && (i < k ==> Starts(es[i]))
  {
    if k == 0 then 0
    else
      var i := StartOf(es, k - 1);
      if i < k - 1 then i else if Starts(es[k - 1]) then k - 1 else k
  }

  /** The last moment before `k` at which the broker was heard, or at which the clock was read. */
  function LastTime(es: seq<Event>, k: nat, ticks: bool): U64
    requires k <= |es| && StartOf(es, k) < k
  {
    var e := es[k - 1];
    if StartOf(es, k) == k - 1 then e.now
    else if (if ticks then e.Tick? else e.Reply?) then e.now
    else LastTime(es, k - 1, ticks)
  }

  /** Event `i` gives a reason to revoke, judged from the events alone. */
  predicate Trips(es: seq<Event>, i: nat)
    requires i < |es| && StartOf(es, i) < i
  {
    var heard, end := LastTime(es, i, false), es[StartOf(es, i)].now + MAX_MS;
    match es[i]
    case Revoke(_) => true
    case Reply(ok, now) => !ok || !(heard <= now < heard + HEARTBEAT_MS) || now >= end
    case Tick(lock, healthy, now) =>
      !healthy || lock == Unknown || now < LastTime(es, i, true)
      || !(heard <= now < heard + HEARTBEAT_MS) || now >= end
    case _ => false
  }

  ghost predicate Tripped(es: seq<Event>, k: nat)
    requires k <= |es|
  {
    exists i | 0 <= i < k :: StartOf(es, i) < i && Trips(es, i)
  }

  lemma {:induction false} StartOfIsStable(es: seq<Event>, i: nat, k: nat)
    requires i <= k <= |es| && StartOf(es, i) < i
    ensures StartOf(es, k) == StartOf(es, i)
  {
    if i < k {
      StartOfIsStable(es, i, k - 1);
    }
  }

  lemma {:induction false} NotTrippedBeforeStart(es: seq<Event>, k: nat)
    requires k <= |es| && Tripped(es, k)
    ensures StartOf(es, k) < k
  {
    var i :| 0 <= i < k && StartOf(es, i) < i && Trips(es, i);
    StartOfIsStable(es, i, k);
  }

  /** State `s` is what the first `k` events say it is. */
  predicate Tracks(s: GuardianState, es: seq<Event>, k: nat, tripped: bool)
    requires k <= |es|
  {
    && (s.started <==> StartOf(es, k) < k)
    && s.revoking == tripped
    && (s.started ==>
         && s.deadline == es[StartOf(es, k)].now + MAX_MS
         && s.lastTick == LastTime(es, k, true)
         && (!tripped ==> s.brokerSeen == LastTime(es, k, false)))
  }

  lemma {:induction false} StepKeepsTrack(s: GuardianState, es: seq<Event>, k: nat, tripped: bool)
    requires k < |es| && Tracks(s, es, k, tripped) && (tripped ==> s.started)
    ensures Tracks(Step(s, es[k]), es, k + 1, tripped || (StartOf(es, k) < k && Trips(es, k)))
  {
  }

  /** The state is determined by the events: the session runs for thirty seconds from its first accepted
      start, and it is revoking exactly when some later event gave a reason to revoke. */
  lemma {:induction false} RevokingIffTripped(ss: seq<GuardianState>, es: seq<Event>, k: nat)
    requires Run(ss, es) && k <= |es|
    ensures Tracks(ss[k], es, k, Tripped(es, k))
  {
    if k > 0 {
      RevokingIffTripped(ss, es, k - 1);
      if Tripped(es, k - 1) {
        NotTrippedBeforeStart(es, k - 1);
        TrackedIsStarted(ss[k - 1], es, k - 1);
      }
      StepKeepsTrack(ss[k - 1], es, k - 1, Tripped(es, k - 1));
      TrippedSoFar(es, k);
      hide Step, Trips, Tripped, Tracks;
    } else {
      assert !Tripped(es, 0);
    }
  }

  lemma TrackedIsStarted(s: GuardianState, es: seq<Event>, k: nat)
    requires k <= |es| && StartOf(es, k) < k && Tracks(s, es, k, Tripped(es, k))
    ensures s.started
  {
    hide Tripped, Step;
  }

  lemma TrippedSoFar(es: seq<Event>, k: nat)
    requires 0 < k <= |es|
    ensures Tripped(es, k) <==> Tripped(es, k - 1) || (StartOf(es, k - 1) < k - 1 && Trips(es, k - 1))
  {
    hide Trips, StartOf;
  }

  /** A guardian that is not revoking after a tick is inside its thirty seconds, saw a known lock state and a
      healthy protection, and heard a good broker reply (or its own start) less than two seconds ago. */
  lemma ArmedAfterTick(ss: seq<GuardianState>, es: seq<Event>, k: nat)
    requires Run(ss, es) && k < |es| && es[k].Tick? && ss[k + 1].started && !ss[k + 1].revoking
    ensures StartOf(es, k) < k
    ensures var now, heard := es[k].now, LastTime(es, k, false);
            && now < es[StartOf(es, k)].now + 30000
            && heard <= now < heard + 2000
            && es[k].healthy && es[k].lock != Unknown
  {
    RevokingIffTripped(ss, es, k);
    RevokingIffTripped(ss, es, k + 1);
  }

  /** Revocation and the local-input flag are final, whatever arrives later. */
  lemma {:induction false} RevocationIsFinal(ss: seq<GuardianState>, es: seq<Event>, i: nat, k: nat)
    requires Run(ss, es) && i <= k <= |es|
    ensures ss[i].started ==> ss[k].started && ss[k].deadline == ss[i].deadline
    ensures ss[i].revoking ==> ss[k].revoking
    ensures ss[i].localInput ==> ss[k].localInput
  {
    if i < k {
      RevocationIsFinal(ss, es, i, k - 1);
      if !ss[k - 1].started {
        NothingBeforeStart(ss, es, k - 1);
      }
    }
  }

  lemma {:induction false} NothingBeforeStart(ss: seq<GuardianState>, es: seq<Event>, k: nat)
    requires Run(ss, es) && k <= |es| && !ss[k].started
    ensures !ss[k].revoking && !ss[k].localInput
  {
    if k > 0 {
      NothingBeforeStart(ss, es, k - 1);
    }
  }

  /** The cover comes off only after a reason to revoke, a drained grant and a positively observed lock. */
  lemma UncoverIsSafe(ss: seq<GuardianState>, es: seq<Event>, k: nat, lock: LockState)
    requires Run(ss, es) && k <= |es|
    ensures CanUncover(ss[k], lock) <==> Tripped(es, k) && ss[k].drained && lock == Locked
  {
    RevokingIffTripped(ss, es, k);
    if Tripped(es, k) {
      NotTrippedBeforeStart(es, k);
    }
  }

  /** Some accepted report of local input lies after the start. */
  ghost predicate Reported(es: seq<Event>, k: nat)
    requires k <= |es|
  {
    exists i | 0 <= i < k :: StartOf(es, i) < i && es[i] == Event.Revoke(true)
  }

  lemma ReportedSoFar(es: seq<Event>, k: nat)
    requires 0 < k <= |es|
    ensures Reported(es, k) <==> Reported(es, k - 1) || (StartOf(es, k - 1) < k - 1 && es[k - 1] == Event.Revoke(true))
  {
    hide StartOf;
  }

  /** Local input is recorded exactly if it was reported after the start. */
  lemma {:induction false} LocalInputIffReported(ss: seq<GuardianState>, es: seq<Event>, k: nat)
    requires Run(ss, es) && k <= |es|
    ensures ss[k].localInput <==> Reported(es, k)
  {
    hide Reported, Tripped, Step, Trips, LastTime, StartOf;
    if k == 0 {
      NothingReported(es);
    } else {
      LocalInputIffReported(ss, es, k - 1);
      RevokingIffTripped(ss, es, k - 1);
      NothingBeforeStartOrStarted(ss, es, k - 1);
      ReportedSoFar(es, k);
      LocalInputStep(ss[k - 1], es[k - 1]);
      assert ss[k] == Step(ss[k - 1], es[k - 1]);
    }
  }

  lemma NothingReported(es: seq<Event>)
    ensures !Reported(es, 0)
  {
  }

  lemma LocalInputStep(s: GuardianState, e: Event)
    requires s.started || !s.localInput
    ensures Step(s, e).localInput <==> s.localInput || (s.started && e == Event.Revoke(true))
  {
  }

  lemma NothingBeforeStartOrStarted(ss: seq<GuardianState>, es: seq<Event>, k: nat)
    requires Run(ss, es) && k <= |es|
    ensures ss[k].started || !ss[k].localInput
  {
    if !ss[k].started {
      NothingBeforeStart(ss, es, k);
    }
  }

  /** The last report on draining since the start, or false. */
  function LastDrained(es: seq<Event>, k: nat): bool
    requires k <= |es|
  {
    if k == 0 then false
    else if es[k - 1].Drain? then es[k - 1].drained
    else if StartOf(es, k - 1) == k - 1 && Starts(es[k - 1]) then false
    else LastDrained(es, k - 1)
  }

  lemma {:induction false} DrainedIsLast(ss: seq<GuardianState>, es: seq<Event>, k: nat)
    requires Run(ss, es) && k <= |es|
    ensures ss[k].drained == LastDrained(es, k)
  {
    if k > 0 {
      DrainedIsLast(ss, es, k - 1);
      RevokingIffTripped(ss, es, k - 1);
      hide Tripped;
    }
  }
}
