/** Terminal events of tasks: posted with bounded retry, stored in the workspace when that fails, and flushed
    later, while other deliveries and flushes go on.

    A workspace belongs to a task, not to a run. So a task that runs twice shares one pending file and, for
    equal outcomes, one idempotency key. */
module TaskTerminals {
  const ATTEMPTS := 3

  type TaskId = string
  type RunId = nat
  type FlushId = nat

  datatype Terminal = Terminal(task: TaskId, newState: string, kind: string, payload: string)

  /** The idempotency key that every delivery of the event carries. */
  function Key(e: Terminal): string {
    e.task + ":" + e.newState
  }

  predicate IsOutcome(e: Terminal) {
    e.newState == "done" || e.newState == "error"
  }

  /** Two outcome keys are equal only for the same task and the same state, whatever the task id holds. */
  lemma KeyIsInjective(a: Terminal, b: Terminal)
    requires IsOutcome(a) && IsOutcome(b) && Key(a) == Key(b)
    ensures a.task == b.task && a.newState == b.newState
  {
    var k := Key(a);
    assert k[|k| - 1] == a.newState[|a.newState| - 1];
    assert k[|k| - 1] == b.newState[|b.newState| - 1];
    assert k[..|k| - |a.newState| - 1] == a.task;
    assert k[..|k| - |b.newState| - 1] == b.task;
  }

  /** What one post comes to. The worker sees success only for `Acknowledged`. */
  datatype Fate = Lost | Refused | AppliedUnheard | Acknowledged

  function Applied(applied: map<string, Terminal>, e: Terminal, fate: Fate): map<string, Terminal> {
    if (fate.Acknowledged? || fate.AppliedUnheard?) && Key(e) !in applied then applied[Key(e) := e] else applied
  }

  // ---- Every interleaving ----

  /** The program points of a delivery; `left` attempts remain. */
  datatype Pc = Posting(left: nat) | Clearing | Storing | Returned

  /** One file of a flush: read, and acknowledged but not yet removed. */
  datatype Flush = Holding(run: RunId) | Removing(run: RunId)

  /** `files` says whose event is in the pending file of a workspace. `applied` is the hub's side. */
  datatype State = State(
    decided: map<RunId, Terminal>, pcs: map<RunId, Pc>, files: map<TaskId, RunId>,
    flushes: map<FlushId, Flush>, acknowledged: set<RunId>, applied: map<string, Terminal>)

  const START := State(map[], map[], map[], map[], {}, map[])

  datatype Event =
    | Decide(r: RunId, e: Terminal)
    | Post(r: RunId, fate: Fate)
    | Clear(r: RunId)
    | Store(r: RunId)
    | FlushRead(f: FlushId, task: TaskId)
    | FlushPost(f: FlushId, fate: Fate)
    | FlushRemove(f: FlushId)

  predicate IsAt(s: State, r: RunId, pc: Pc) {
    r in s.decided && r in s.pcs && s.pcs[r] == pc
  }

  predicate Flushes(s: State, f: FlushId) {
    f in s.flushes && s.flushes[f].run in s.decided
  }

  predicate Enabled(s: State, e: Event) {
    match e
    case Decide(r, t) => r !in s.decided && IsOutcome(t)
    case Post(r, _) => r in s.decided && r in s.pcs && s.pcs[r].Posting? && s.pcs[r].left > 0
    case Clear(r) => IsAt(s, r, Clearing)
    case Store(r) => IsAt(s, r, Storing)
    case FlushRead(f, task) => f !in s.flushes && task in s.files
    case FlushPost(f, _) => Flushes(s, f) && s.flushes[f].Holding?
    case FlushRemove(f) => Flushes(s, f) && s.flushes[f].Removing?
  }

  function AfterPost(s: State, r: RunId, fate: Fate): Pc
    requires Enabled(s, Post(r, fate))
  {
    if fate.Acknowledged? then Clearing
    else if s.pcs[r].left == 1 then Storing
    else Posting(s.pcs[r].left - 1)
  }

  function Step(s: State, e: Event): State
    requires Enabled(s, e)
  {
    match e
    case Decide(r, t) => s.(decided := s.decided[r := t], pcs := s.pcs[r := Posting(ATTEMPTS)])
    case Post(r, fate) =>
      s.(pcs := s.pcs[r := AfterPost(s, r, fate)], applied := Applied(s.applied, s.decided[r], fate),
         acknowledged := if fate.Acknowledged? then s.acknowledged + {r} else s.acknowledged)
    case Clear(r) => s.(pcs := s.pcs[r := Returned], files := s.files - {s.decided[r].task})
    case Store(r) => s.(pcs := s.pcs[r := Returned], files := s.files[s.decided[r].task := r])
    case FlushRead(f, task) => s.(flushes := s.flushes[f := Holding(s.files[task])])
    case FlushPost(f, fate) =>
      var r := s.flushes[f].run;
      var t := s.(applied := Applied(s.applied, s.decided[r], fate));
      if fate.Acknowledged? then t.(acknowledged := s.acknowledged + {r}, flushes := s.flushes[f := Removing(r)])
      else t.(flushes := s.flushes - {f})
    case FlushRemove(f) =>
      s.(files := s.files - {s.decided[s.flushes[f].run].task}, flushes := s.flushes - {f})
  }

  ghost predicate IsTrace(s: State, es: seq<Event>)
    decreases |es|, 0
  {
    es == [] || (IsTrace(s, es[..|es| - 1]) && Enabled(After(s, es[..|es| - 1]), es[|es| - 1]))
  }

  ghost function After(s: State, es: seq<Event>): State
    requires IsTrace(s, es)
    decreases |es|, 1
  {
    if es == [] then s else Step(After(s, es[..|es| - 1]), es[|es| - 1])
  }

  lemma Extend(s: State, es: seq<Event>, e: Event)
    requires IsTrace(s, es) && Enabled(After(s, es), e)
    ensures IsTrace(s, es + [e]) && After(s, es + [e]) == Step(After(s, es), e)
  {
    assert (es + [e])[..|es|] == es;
    hide Step, Enabled;
  }

  lemma LastStep(s: State, es: seq<Event>)
    requires IsTrace(s, es) && es != []
    ensures var front := es[..|es| - 1];
            && IsTrace(s, front) && Enabled(After(s, front), es[|es| - 1])
            && After(s, es) == Step(After(s, front), es[|es| - 1])
  {
    hide Step, Enabled;
  }

  // ---- What every step keeps ----

  ghost predicate FilesGood(s: State) {
    forall task | task in s.files ::
      IsAt(s, s.files[task], Returned) && s.decided[s.files[task]].task == task
  }

  ghost predicate PcsGood(s: State) {
    && s.pcs.Keys == s.decided.Keys
    && (forall r | r in s.decided :: IsOutcome(s.decided[r]) && (s.pcs[r].Posting? ==> s.pcs[r].left > 0))
    && (forall r | r in s.decided && s.pcs[r] == Clearing :: r in s.acknowledged)
  }

  ghost predicate FlushesGood(s: State) {
    forall f | f in s.flushes ::
      Flushes(s, f) && IsAt(s, s.flushes[f].run, Returned)
      && (s.flushes[f].Removing? ==> s.flushes[f].run in s.acknowledged)
  }

  ghost predicate AcksGood(s: State) {
    forall r | r in s.acknowledged ::
      r in s.decided && r in s.pcs && !s.pcs[r].Posting? && !s.pcs[r].Storing? && Key(s.decided[r]) in s.applied
  }

  ghost predicate Good(s: State) {
    PcsGood(s) && FlushesGood(s) && AcksGood(s)
  }

  lemma StepKeepsPcs(s: State, e: Event)
    requires PcsGood(s) && Enabled(s, e)
    ensures PcsGood(Step(s, e))
  {
    hide Key, IsOutcome, Applied;
  }

  lemma StepKeepsFlushes(s: State, e: Event)
    requires FlushesGood(s) && FilesGood(s) && Enabled(s, e)
    ensures FlushesGood(Step(s, e))
  {
    hide Key, IsOutcome, Applied;
  }

  lemma StepKeepsAcks(s: State, e: Event)
    requires AcksGood(s) && FlushesGood(s) && Enabled(s, e)
    ensures AcksGood(Step(s, e))
  {
    hide Key, IsOutcome;
  }

  /** What the hub applied was decided, and stands under its own key. */
  ghost predicate HubGood(s: State) {
    forall key | key in s.applied ::
      Key(s.applied[key]) == key && exists r :: r in s.decided && s.decided[r] == s.applied[key]
  }

  lemma StepKeepsGood(s: State, e: Event)
    requires Good(s) && Enabled(s, e) && FilesGood(s)
    ensures Good(Step(s, e))
  {
    StepKeepsPcs(s, e);
    StepKeepsFlushes(s, e);
    StepKeepsAcks(s, e);
    hide PcsGood, FlushesGood, AcksGood, FilesGood, Step, Enabled;
  }

  lemma StepKeepsFiles(s: State, e: Event)
    requires Good(s) && Enabled(s, e) && FilesGood(s)
    ensures FilesGood(Step(s, e))
  {
    hide Key, IsOutcome;
  }

  lemma StepKeepsHub(s: State, e: Event)
    requires HubGood(s) && Enabled(s, e)
    ensures HubGood(Step(s, e))
  {
    var t := Step(s, e);
    forall key | key in t.applied
      ensures Key(t.applied[key]) == key && exists r :: r in t.decided && t.decided[r] == t.applied[key]
    {
      if key in s.applied {
        var r :| r in s.decided && s.decided[r] == s.applied[key];
        assert r in t.decided && t.decided[r] == t.applied[key];
      } else {
        var r := if e.Post? then e.r else s.flushes[e.f].run;
        assert r in t.decided && t.decided[r] == t.applied[key];
      }
    }
  }

  lemma {:induction false} ReachableIsGood(es: seq<Event>)
    requires IsTrace(START, es)
    ensures Good(After(START, es)) && FilesGood(After(START, es)) && HubGood(After(START, es))
    decreases |es|
  {
    if es != [] {
      var s, e := After(START, es[..|es| - 1]), es[|es| - 1];
      ReachableIsGood(es[..|es| - 1]);
      StepKeepsGood(s, e);
      StepKeepsFiles(s, e);
      StepKeepsHub(s, e);
      hide Good, FilesGood, HubGood, Step;
    }
  }

  // ---- When an event survives ----

  /** The event was acknowledged, is stored, or is still being delivered. */
  predicate IsKept(s: State, r: RunId)
    requires r in s.decided && r in s.pcs
  {
    || r in s.acknowledged
    || (s.decided[r].task in s.files && s.files[s.decided[r].task] == r)
    || s.pcs[r].Posting? || s.pcs[r].Storing?
  }

  predicate IsLost(s: State, r: RunId) {
    r in s.decided && r in s.pcs && !IsKept(s, r)
  }

  predicate IsStored(s: State, r: RunId) {
    r in s.decided && s.decided[r].task in s.files && s.files[s.decided[r].task] == r
  }

  /** The run whose delivery or flush a step acts for. */
  function ActsFor(s: State, e: Event): RunId
    requires Enabled(s, e) && !e.FlushRead?
  {
    match e
    case Decide(r, _) => r
    case Post(r, _) => r
    case Clear(r) => r
    case Store(r) => r
    case FlushPost(f, _) => s.flushes[f].run
    case FlushRemove(f) => s.flushes[f].run
  }

  /** The event acts on the pending file for another run of `r`'s task. */
  predicate Takes(s: State, e: Event, r: RunId) {
    && Enabled(s, e) && (e.Clear? || e.Store? || e.FlushRemove?)
    && r in s.decided && ActsFor(s, e) in s.decided
    && ActsFor(s, e) != r && s.decided[ActsFor(s, e)].task == s.decided[r].task
  }

  /** A stored, unacknowledged event leaves its file exactly with a step for another run of its task. */
  lemma DisplacedByOther(s: State, e: Event, r: RunId)
    requires Good(s) && FilesGood(s) && Enabled(s, e) && IsStored(s, r) && r !in s.acknowledged
    ensures !IsStored(Step(s, e), r) <==> Takes(s, e, r)
  {
    hide Key, IsOutcome;
  }

  /** While an event is not acknowledged, only its own Store stores it and ends its delivery. */
  lemma OnlyStoreStores(s: State, e: Event, r: RunId)
    requires Good(s) && Enabled(s, e) && r in s.decided && r !in Step(s, e).acknowledged
    ensures !IsStored(s, r) ==> (IsStored(Step(s, e), r) <==> e == Store(r))
    ensures IsAt(Step(s, e), r, Returned) <==> IsAt(s, r, Returned) || e == Store(r)
  {
    hide Key, IsOutcome;
  }

  /** Step `m` acted on the file of run `r`'s task for another run, after the event of `r` was stored. */
  ghost predicate TakenAt(es: seq<Event>, m: int, r: RunId) {
    0 <= m < |es| && Store(r) in es[..m] && IsTrace(START, es[..m]) && Takes(After(START, es[..m]), es[m], r)
  }

  ghost predicate WasTaken(es: seq<Event>, r: RunId) {
    exists m :: TakenAt(es, m, r)
  }

  lemma TakenInFront(es: seq<Event>, m: int, r: RunId)
    requires es != [] && 0 <= m < |es| - 1
    ensures TakenAt(es, m, r) <==> TakenAt(es[..|es| - 1], m, r)
  {
    assert es[..|es| - 1][..m] == es[..m];
    hide IsTrace, After, Takes;
  }

  lemma TakenSoFar(es: seq<Event>, r: RunId)
    requires IsTrace(START, es) && es != []
    ensures var front := es[..|es| - 1];
            && IsTrace(START, front)
            && (WasTaken(es, r) <==>
                  || WasTaken(front, r)
                  || (Store(r) in front && Takes(After(START, front), es[|es| - 1], r)))
  {
    LastStep(START, es);
    var n := |es| - 1;
    assert TakenAt(es, n, r) <==> Store(r) in es[..n] && Takes(After(START, es[..n]), es[n], r);
    forall m: int
      ensures m != n ==> (TakenAt(es, m, r) <==> TakenAt(es[..n], m, r))
      ensures !TakenAt(es[..n], n, r)
    {
      if 0 <= m < n {
        TakenInFront(es, m, r);
      }
    }
    hide IsTrace, After, Takes, TakenAt;
  }

  /** Where an event that was never acknowledged is, by the events alone. */
  ghost predicate Placed(es: seq<Event>, r: RunId)
    requires IsTrace(START, es)
  {
    var s := After(START, es);
    && (IsAt(s, r, Returned) <==> Store(r) in es)
    && (IsStored(s, r) <==> Store(r) in es && !WasTaken(es, r))
    && (WasTaken(es, r) ==> Store(r) in es)
  }

  lemma PlacedAfterStep(es: seq<Event>, r: RunId)
    requires IsTrace(START, es) && es != [] && r !in After(START, es).acknowledged
    requires var front := es[..|es| - 1];
             IsTrace(START, front) && r in After(START, front).decided && Placed(front, r)
    ensures Placed(es, r)
  {
    var front, e := es[..|es| - 1], es[|es| - 1];
    var s := After(START, front);
    LastStep(START, es);
    ReachableIsGood(front);
    TakenSoFar(es, r);
    OnlyStoreStores(s, e, r);
    AcknowledgedStays(s, e, r);
    assert e == Store(r) ==> IsAt(s, r, Storing) && !Takes(s, e, r);
    if IsStored(s, r) {
      DisplacedByOther(s, e, r);
    }
    hide IsTrace, After, Step, Enabled, Takes, Good, FilesGood, HubGood, WasTaken, IsStored;
    assert es == front + [e];
  }

  lemma {:induction false} UnackedIsPlaced(es: seq<Event>, r: RunId)
    requires IsTrace(START, es) && r !in After(START, es).acknowledged
    ensures Placed(es, r)
    decreases |es|
  {
    if es != [] {
      LastStep(START, es);
      var front, e := es[..|es| - 1], es[|es| - 1];
      AcknowledgedStays(After(START, front), e, r);
      UnackedIsPlaced(front, r);
      if r in After(START, front).decided {
        PlacedAfterStep(es, r);
      } else {
        UndecidedIsPlaced(es, r);
      }
      hide IsTrace, After, Step, Enabled, Placed;
    }
  }

  lemma UndecidedIsPlaced(es: seq<Event>, r: RunId)
    requires IsTrace(START, es) && es != []
    requires var front := es[..|es| - 1];
             IsTrace(START, front) && r !in After(START, front).decided && Placed(front, r)
    ensures Placed(es, r)
  {
    var front, e := es[..|es| - 1], es[|es| - 1];
    var s := After(START, front);
    LastStep(START, es);
    ReachableIsGood(front);
    TakenSoFar(es, r);
    NewIsNotStored(s, e, r);
    assert !IsAt(s, r, Returned) && Store(r) !in front;
    hide IsTrace, After, Step, Enabled, Takes, Good, FilesGood, HubGood, WasTaken, IsStored;
    assert es == front + [e];
  }

  lemma NewIsNotStored(s: State, e: Event, r: RunId)
    requires Good(s) && FilesGood(s) && Enabled(s, e) && r !in s.decided
    ensures !IsStored(Step(s, e), r) && !IsAt(Step(s, e), r, Returned) && e != Store(r)
  {
    hide Key, IsOutcome;
  }

  /** In every interleaving: an event is lost exactly if it was never acknowledged and, after it was stored, a
      delivery or a flush of another run of its task cleared, overwrote or removed the shared file. */
  lemma LostIffTaken(es: seq<Event>, r: RunId)
    requires IsTrace(START, es) && r in After(START, es).decided
    ensures IsLost(After(START, es), r) <==> r !in After(START, es).acknowledged && WasTaken(es, r)
  {
    ReachableIsGood(es);
    if r !in After(START, es).acknowledged {
      UnackedIsPlaced(es, r);
    }
    hide IsTrace, After, WasTaken, HubGood, FilesGood;
  }

  lemma AcknowledgedStays(s: State, e: Event, r: RunId)
    requires Enabled(s, e)
    ensures r in s.acknowledged ==> r in Step(s, e).acknowledged
    ensures r in s.decided ==> r in Step(s, e).decided && Step(s, e).decided[r] == s.decided[r]
  {
  }

  /** Every task ran once, so that no workspace is used twice. */
  ghost predicate OneRunPerTask(s: State) {
    forall q, r | q in s.decided && r in s.decided && s.decided[q].task == s.decided[r].task :: q == r
  }

  lemma {:induction false} NothingTaken(es: seq<Event>, r: RunId)
    requires IsTrace(START, es) && OneRunPerTask(After(START, es))
    ensures !WasTaken(es, r)
    decreases |es|
  {
    if es != [] {
      LastStep(START, es);
      var front := es[..|es| - 1];
      var s, e := After(START, front), es[|es| - 1];
      TakenSoFar(es, r);
      EarlierHasOneRun(s, e);
      NothingTaken(front, r);
      hide IsTrace, After, Step, Enabled, WasTaken;
    }
  }

  lemma EarlierHasOneRun(s: State, e: Event)
    requires Enabled(s, e) && OneRunPerTask(Step(s, e))
    ensures OneRunPerTask(s)
  {
    var t := Step(s, e);
    assert forall r | r in s.decided :: r in t.decided && t.decided[r] == s.decided[r];
    hide Step;
  }

  /** With one run per task, in every interleaving of deliveries and flushes: an event whose delivery returned
      is acknowledged or stored, and an acknowledged one is what the hub applied under its key. */
  lemma NothingIsLost(es: seq<Event>, r: RunId)
    requires IsTrace(START, es) && OneRunPerTask(After(START, es)) && r in After(START, es).decided
    ensures var s := After(START, es);
            && !IsLost(s, r)
            && (IsAt(s, r, Returned) ==> r in s.acknowledged || IsStored(s, r))
            && (r in s.acknowledged ==> Key(s.decided[r]) in s.applied && s.applied[Key(s.decided[r])] == s.decided[r])
  {
    ReachableIsGood(es);
    LostIffTaken(es, r);
    NothingTaken(es, r);
    var s := After(START, es);
    hide WasTaken, IsTrace, After, Key, IsOutcome;
    if r in s.acknowledged {
      var q :| q in s.decided && s.decided[q] == s.applied[Key(s.decided[r])];
      KeyIsInjective(s.decided[q], s.decided[r]);
    }
  }

  // ---- What the hub holds ----

  /** The run whose event a post brings to the hub, whether or not the hub then answers. */
  function Arrives(s: State, e: Event): set<RunId> {
    if !Enabled(s, e) then {}
    else
      match e
      case Post(r, fate) => if fate.Acknowledged? || fate.AppliedUnheard? then {r} else {}
      case FlushPost(f, fate) => if fate.Acknowledged? || fate.AppliedUnheard? then {s.flushes[f].run} else {}
      case _ => {}
  }

  /** What the step brings for the outcome of a task. */
  function Brought(s: State, e: Event, task: TaskId, newState: string): set<Terminal> {
    set q | q in Arrives(s, e) && q in s.decided && s.decided[q].task == task && s.decided[q].newState == newState ::
      s.decided[q]
  }

  /** What the first post of this outcome that arrived brought, if one did. */
  ghost function FirstArrived(es: seq<Event>, task: TaskId, newState: string): set<Terminal>
    requires IsTrace(START, es)
    decreases |es|
  {
    if es == [] then {}
    else
      var front := es[..|es| - 1];
      var first := FirstArrived(front, task, newState);
      if first != {} then first else Brought(After(START, front), es[|es| - 1], task, newState)
  }

  /** What the hub holds for an outcome, as a set of at most one event. */
  function Held(s: State, task: TaskId, newState: string): set<Terminal> {
    var key := task + ":" + newState;
    if key in s.applied then {s.applied[key]} else {}
  }

  lemma HeldAfterStep(s: State, e: Event, task: TaskId, newState: string)
    requires Good(s) && Enabled(s, e) && (newState == "done" || newState == "error")
    ensures Held(Step(s, e), task, newState)
            == if Held(s, task, newState) != {} then Held(s, task, newState) else Brought(s, e, task, newState)
  {
    hide Step, Enabled, Arrives, Good, Applied, IsOutcome, Key;
    if Arrives(s, e) == {} {
      NothingArrives(s, e);
    } else {
      var q := OneArrives(s, e);
      AppliedHolds(s.applied, s.decided[q], task, newState);
      assert Brought(s, e, task, newState)
          == if s.decided[q].task == task && s.decided[q].newState == newState then {s.decided[q]} else {};
    }
  }

  lemma OneArrives(s: State, e: Event) returns (q: RunId)
    requires Good(s) && Enabled(s, e) && Arrives(s, e) != {}
    ensures Arrives(s, e) == {q} && q in s.decided && IsOutcome(s.decided[q])
    ensures Step(s, e).applied == Applied(s.applied, s.decided[q], Acknowledged)
  {
    q := if e.Post? then e.r else s.flushes[e.f].run;
    hide Key, IsOutcome;
  }

  /** What the hub holds for an outcome after one event arrived. */
  lemma AppliedHolds(applied: map<string, Terminal>, e: Terminal, task: TaskId, newState: string)
    requires IsOutcome(e) && (newState == "done" || newState == "error")
    ensures var key, after := task + ":" + newState, Applied(applied, e, Acknowledged);
            if key in applied then key in after && after[key] == applied[key]
            else if e.task == task && e.newState == newState then key in after && after[key] == e
            else key !in after
  {
    KeyIsOutcome(e, task, newState);
    hide Key, IsOutcome;
  }

  lemma NothingArrives(s: State, e: Event)
    requires Enabled(s, e) && Arrives(s, e) == {}
    ensures Step(s, e).applied == s.applied
  {
    if e.Post? {
      assert e.r in {e.r};
    } else if e.FlushPost? {
      assert s.flushes[e.f].run in {s.flushes[e.f].run};
    }
  }

  lemma KeyIsOutcome(e: Terminal, task: TaskId, newState: string)
    requires IsOutcome(e) && (newState == "done" || newState == "error")
    ensures Key(e) == task + ":" + newState <==> e.task == task && e.newState == newState
  {
    var probe := Terminal(task, newState, "", "");
    assert Key(probe) == task + ":" + newState;
    if Key(e) == Key(probe) {
      KeyIsInjective(e, probe);
    }
  }

  /** The hub holds what arrived first under each key. */
  lemma {:induction false} HubKeepsFirst(es: seq<Event>, task: TaskId, newState: string)
    requires IsTrace(START, es) && (newState == "done" || newState == "error")
    ensures Held(After(START, es), task, newState) == FirstArrived(es, task, newState)
    decreases |es|
  {
    if es != [] {
      LastStep(START, es);
      var front := es[..|es| - 1];
      ReachableIsGood(front);
      HubKeepsFirst(front, task, newState);
      HeldAfterStep(After(START, front), es[|es| - 1], task, newState);
      hide IsTrace, After, Step, Enabled, Held, Good, FilesGood, HubGood, Brought;
    }
  }

  /** In every interleaving: an acknowledged event is what the hub holds exactly if the first post of its task's
      same outcome that arrived, answered or not, brought the same content. Else the hub dropped it. */
  lemma AcknowledgedIsHeldIff(es: seq<Event>, r: RunId)
    requires IsTrace(START, es) && r in After(START, es).acknowledged
    ensures r in After(START, es).decided && Key(After(START, es).decided[r]) in After(START, es).applied
    ensures var s := After(START, es);
            var e := s.decided[r];
            s.applied[Key(e)] == e <==> FirstArrived(es, e.task, e.newState) == {e}
  {
    ReachableIsGood(es);
    var e := After(START, es).decided[r];
    HubKeepsFirst(es, e.task, e.newState);
    hide IsTrace, After, FirstArrived, HubGood, FilesGood;
  }

  // ---- What reuse of a task does ----

  /** A delivery that fails three times. */
  lemma FailedDelivery(es: seq<Event>, r: RunId, e: Terminal) returns (es': seq<Event>)
    requires IsTrace(START, es) && IsOutcome(e) && r !in After(START, es).decided
    ensures IsTrace(START, es')
    ensures var s := After(START, es);
            After(START, es') == s.(decided := s.decided[r := e], pcs := s.pcs[r := Storing])
  {
    hide After, IsTrace;
    Extend(START, es, Decide(r, e));
    es' := es + [Decide(r, e)];
    Extend(START, es', Post(r, Lost));
    es' := es' + [Post(r, Lost)];
    Extend(START, es', Post(r, Lost));
    es' := es' + [Post(r, Lost)];
    Extend(START, es', Post(r, Lost));
    es' := es' + [Post(r, Lost)];
  }

  /** A flush that read the event of run `q`, and hears the acknowledgement after a later run `r` of the task
      stored its own event, removes that one: it is neither acknowledged nor stored. */
  lemma LateFlushLoses(es: seq<Event>, q: RunId, r: RunId, f: FlushId) returns (es': seq<Event>)
    requires IsTrace(START, es)
    requires var s := After(START, es);
             && IsStored(s, q) && IsAt(s, r, Storing) && r !in s.acknowledged && f !in s.flushes
             && s.decided[q].task == s.decided[r].task && q != r
    ensures IsTrace(START, es') && IsLost(After(START, es'), r) && IsAt(After(START, es'), r, Returned)
  {
    hide After, IsTrace, Applied;
    var task := After(START, es).decided[r].task;
    Extend(START, es, FlushRead(f, task));
    es' := es + [FlushRead(f, task)];
    Extend(START, es', Store(r));
    es' := es' + [Store(r)];
    Extend(START, es', FlushPost(f, Acknowledged));
    es' := es' + [FlushPost(f, Acknowledged)];
    Extend(START, es', FlushRemove(f));
    es' := es' + [FlushRemove(f)];
  }

  lemma LostEventExample() returns (es: seq<Event>)
    ensures IsTrace(START, es) && IsLost(After(START, es), 1) && IsAt(After(START, es), 1, Returned)
  {
    var first, second := Terminal("t", "error", "k", "first"), Terminal("t", "done", "k", "second");
    assert IsTrace(START, []) && After(START, []) == START;
    es := FailedDelivery([], 0, first);
    hide After, IsTrace, Applied;
    Extend(START, es, Store(0));
    es := es + [Store(0)];
    es := FailedDelivery(es, 1, second);
    es := LateFlushLoses(es, 0, 1, 0);
  }

  /** A second run of a task with the same outcome has the same key: its event is acknowledged, and the hub
      keeps the first one's content. */
  lemma DroppedOutcomeExample() returns (es: seq<Event>)
    ensures IsTrace(START, es) && 1 in After(START, es).acknowledged
    ensures var s := After(START, es);
            1 in s.decided && Key(s.decided[1]) in s.applied && s.applied[Key(s.decided[1])] != s.decided[1]
  {
    var first, second := Terminal("t", "done", "k", "first"), Terminal("t", "done", "k", "second");
    assert Key(first) == Key(second);
    assert IsTrace(START, []) && After(START, []) == START;
    hide After, IsTrace, Key;
    Extend(START, [], Decide(0, first));
    es := [] + [Decide(0, first)];
    Extend(START, es, Post(0, Acknowledged));
    es := es + [Post(0, Acknowledged)];
    Extend(START, es, Decide(1, second));
    es := es + [Decide(1, second)];
    Extend(START, es, Post(1, Acknowledged));
    es := es + [Post(1, Acknowledged)];
  }

  // ---- The code ----

  /** The hub, de-duplicating by key. */
  class Hub {
    var applied: map<string, Terminal>

    constructor ()
      ensures applied == map[]
    {
      applied := map[];
    }

    method Post(e: Terminal, fate: Fate) returns (ok: bool)
      modifies this
      ensures ok == fate.Acknowledged? && applied == Applied(old(applied), e, fate)
    {
      if (fate.Acknowledged? || fate.AppliedUnheard?) && Key(e) !in applied {
        applied := applied[Key(e) := e];
      }
      ok := fate.Acknowledged?;
    }
  }

  /** The worker's side: the pending file of each workspace. Each method performs a run of steps of the model
      in every state that shows the object; `net` says what each post comes to. */
  class Courier {
    const hub: Hub
    var files: map<TaskId, Terminal>

    constructor ()
      ensures ShownBy(START) && fresh(hub)
    {
      hub := new Hub();
      files := map[];
    }

    ghost predicate ShownBy(s: State)
      reads this, hub
    {
      && hub.applied == s.applied && files.Keys == s.files.Keys
      && forall task | task in files :: s.files[task] in s.decided && files[task] == s.decided[s.files[task]]
    }

    /** One attempt of a delivery. */
    method Attempt(e: Terminal, fate: Fate, ghost s: State, ghost r: RunId) returns (ok: bool)
      requires ShownBy(s) && Enabled(s, Post(r, fate)) && s.decided[r] == e
      modifies this, hub
      ensures ok == fate.Acknowledged? && ShownBy(Step(s, Post(r, fate))) && files == old(files)
    {
      hide Applied;
      ok := hub.Post(e, fate);
    }

    /** Removes a stored copy after a delivery was acknowledged. */
    method ClearFile(e: Terminal, ghost s: State, ghost r: RunId)
      requires ShownBy(s) && Enabled(s, Clear(r)) && s.decided[r] == e
      modifies this`files
      ensures ShownBy(Step(s, Clear(r))) && files == old(files) - {e.task}
    {
      files := files - {e.task};
    }

    method StoreFile(e: Terminal, ghost s: State, ghost r: RunId)
      requires ShownBy(s) && Enabled(s, Store(r)) && s.decided[r] == e
      modifies this`files
      ensures ShownBy(Step(s, Store(r))) && files == old(files)[e.task := e]
    {
      files := files[e.task := e];
    }

    /** Delivers the terminal event of a run, trying three times and then storing it. */
    method PostTerminal(e: Terminal, net: nat -> Fate, clock: nat, ghost s: State, ghost r: RunId)
      returns (clock': nat, ghost es: seq<Event>)
      requires ShownBy(s) && Good(s) && IsAt(s, r, Posting(ATTEMPTS)) && s.decided[r] == e
      modifies this, hub
      ensures IsTrace(s, es) && ShownBy(After(s, es)) && IsAt(After(s, es), r, Returned)
      ensures forall x | x in es :: (x.Post? || x.Clear? || x.Store?) && x.r == r
      ensures r in After(s, es).acknowledged <==> exists i | clock <= i < clock + ATTEMPTS :: net(i).Acknowledged?
      ensures files == if r in After(s, es).acknowledged then old(files) - {e.task} else old(files)[e.task := e]
    {
      hide Trying, ShownBy, IsTrace, After, Good, Step, Enabled, IsAt, Applied;
      TryingStarts(s, r, e);
      clock', es := clock, [];
      for attempt := 0 to ATTEMPTS
        invariant clock' == clock + attempt
        invariant forall i | clock <= i < clock' :: !net(i).Acknowledged?
        invariant files == old(files) && IsTrace(s, es) && Trying(s, es, r, e, attempt) && ShownBy(After(s, es))
      {
        var fate := net(clock');
        clock' := clock' + 1;
        TryOnce(s, es, r, e, attempt, fate);
        ghost var t := After(s, es);
        es := es + [Post(r, fate)];
        var ok := Attempt(e, fate, t, r);
        if ok {
          t := After(s, es);
          es := es + [Clear(r)];
          ClearFile(e, t, r);
          return;
        }
      }
      StoreAtLast(s, es, r, e);
      ghost var t := After(s, es);
      es := es + [Store(r)];
      StoreFile(e, t, r);
    }

    /** Offers one stored event to the hub and removes it when the hub acknowledges it. */
    method FlushFile(task: TaskId, fate: Fate, ghost s: State, ghost es: seq<Event>, ghost f: FlushId)
      requires IsTrace(s, es) && Flushed(s, After(s, es), f) && ShownBy(After(s, es)) && task in files
      modifies this`files, hub
      ensures var es' := es + FlushOf(f, task, fate);
              IsTrace(s, es') && Flushed(s, After(s, es'), f) && ShownBy(After(s, es'))
      ensures files == if fate.Acknowledged? then old(files) - {task} else old(files)
    {
      hide IsTrace, After, Flushed, FlushOf, Applied;
      FlushRun(s, es, f, task, fate);
      var ok := hub.Post(files[task], fate);
      if ok {
        files := files - {task};
      }
    }

    /** Offers every stored event to the hub again and removes it exactly when the hub acknowledged it. */
    method FlushPending(net: nat -> Fate, clock: nat, ghost s: State, ghost f: FlushId)
      returns (clock': nat, ghost es: seq<Event>)
      requires ShownBy(s) && FilesGood(s) && f !in s.flushes
      modifies this`files, hub
      ensures IsTrace(s, es) && ShownBy(After(s, es)) && f !in After(s, es).flushes
      ensures forall x | x in es :: (x.FlushRead? || x.FlushPost? || x.FlushRemove?) && x.f == f
      ensures files.Keys <= old(files).Keys && forall task | task in files :: files[task] == old(files)[task]
      ensures forall task | task in old(files) ::
                s.files[task] in After(s, es).acknowledged <==> task !in files || s.files[task] in s.acknowledged
      ensures (forall i | clock <= i :: net(i).Acknowledged?) ==> files == map[]
    {
      clock', es := clock, [];
      var left := files.Keys;
      while left != {}
        invariant clock <= clock' && IsTrace(s, es) && Flushed(s, After(s, es), f) && ShownBy(After(s, es))
        invariant forall x | x in es :: (x.FlushRead? || x.FlushPost? || x.FlushRemove?) && x.f == f
        invariant left <= files.Keys <= old(files).Keys
        invariant forall task | task in files :: files[task] == old(files)[task]
        invariant (forall i | clock <= i :: net(i).Acknowledged?) ==> files.Keys <= left
        decreases left
      {
        hide IsTrace, After, Flushed, FlushOf, ShownBy;
        var task :| task in left;
        var fate := net(clock');
        clock' := clock' + 1;
        FlushFile(task, fate, s, es, f);
        FlushSteps(f, task, fate);
        es := es + FlushOf(f, task, fate);
        left := left - {task};
      }
      hide IsTrace, After;
    }
  }

  /** The delivery of `e` by run `r` has failed `attempt` times. */
  ghost predicate Trying(s: State, es: seq<Event>, r: RunId, e: Terminal, attempt: nat) {
    && attempt <= ATTEMPTS && IsTrace(s, es) && (forall x | x in es :: x.Post? && x.r == r)
    && r !in After(s, es).acknowledged && r in After(s, es).decided && After(s, es).decided[r] == e
    && IsAt(After(s, es), r, if attempt < ATTEMPTS then Posting(ATTEMPTS - attempt) else Storing)
  }

  lemma TryingStarts(s: State, r: RunId, e: Terminal)
    requires Good(s) && IsAt(s, r, Posting(ATTEMPTS)) && s.decided[r] == e
    ensures IsTrace(s, []) && After(s, []) == s && Trying(s, [], r, e, 0)
  {
  }

  lemma TryOnce(s: State, es: seq<Event>, r: RunId, e: Terminal, attempt: nat, fate: Fate)
    requires Trying(s, es, r, e, attempt) && attempt < ATTEMPTS
    ensures var t, es' := After(s, es), es + [Post(r, fate)];
            && Enabled(t, Post(r, fate)) && t.decided[r] == e
            && IsTrace(s, es') && After(s, es') == Step(t, Post(r, fate))
            && (!fate.Acknowledged? ==> Trying(s, es', r, e, attempt + 1))
            && (fate.Acknowledged? ==> Delivered(s, es', Clear(r), e) && r in After(s, es').acknowledged)
  {
    hide IsTrace, After, Applied;
    Extend(s, es, Post(r, fate));
    if fate.Acknowledged? {
      Extend(s, es + [Post(r, fate)], Clear(r));
    }
  }

  lemma StoreAtLast(s: State, es: seq<Event>, r: RunId, e: Terminal)
    requires Trying(s, es, r, e, ATTEMPTS)
    ensures Delivered(s, es, Store(r), e) && r !in After(s, es + [Store(r)]).acknowledged
  {
    hide IsTrace, After;
    Extend(s, es, Store(r));
  }

  /** The step `last` ends the delivery of its run. */
  ghost predicate Delivered(s: State, es: seq<Event>, last: Event, e: Terminal) {
    && (last.Clear? || last.Store?)
    && IsTrace(s, es) && Enabled(After(s, es), last) && After(s, es).decided[last.r] == e
    && IsTrace(s, es + [last]) && After(s, es + [last]) == Step(After(s, es), last)
    && IsAt(After(s, es + [last]), last.r, Returned)
    && (last.r in After(s, es + [last]).acknowledged <==> last.r in After(s, es).acknowledged)
    && forall x | x in es + [last] :: (x.Post? || x.Clear? || x.Store?) && x.r == last.r
  }

  /** `t` comes from `s` by whole flushes of `f`. */
  ghost predicate Flushed(s: State, t: State, f: FlushId) {
    && t.decided == s.decided && t.pcs == s.pcs && t.flushes == s.flushes && f !in t.flushes && FilesGood(t)
    && (forall task | task in t.files :: task in s.files && t.files[task] == s.files[task])
    && (forall task | task in s.files ::
          s.files[task] in t.acknowledged <==> task !in t.files || s.files[task] in s.acknowledged)
  }

  /** The steps that flush one file. */
  function FlushOf(f: FlushId, task: TaskId, fate: Fate): seq<Event> {
    [FlushRead(f, task), FlushPost(f, fate)] + if fate.Acknowledged? then [FlushRemove(f)] else []
  }

  lemma FlushSteps(f: FlushId, task: TaskId, fate: Fate)
    ensures forall x | x in FlushOf(f, task, fate) :: (x.FlushRead? || x.FlushPost? || x.FlushRemove?) && x.f == f
  {
  }

  lemma FlushRun(s: State, es: seq<Event>, f: FlushId, task: TaskId, fate: Fate)
    requires IsTrace(s, es) && Flushed(s, After(s, es), f) && task in After(s, es).files
    ensures var t := After(s, es);
            var es' := es + FlushOf(f, task, fate);
            && IsTrace(s, es') && After(s, es') == AfterFlush(t, task, fate) && Flushed(s, After(s, es'), f)
  {
    hide IsTrace, After, Applied;
    var t := After(s, es);
    Extend(s, es, FlushRead(f, task));
    var es1 := es + [FlushRead(f, task)];
    Extend(s, es1, FlushPost(f, fate));
    var es2 := es1 + [FlushPost(f, fate)];
    FlushedMore(s, t, f, task, fate);
    hide Flushed;
    if fate.Acknowledged? {
      Extend(s, es2, FlushRemove(f));
      assert es2 + [FlushRemove(f)] == es + FlushOf(f, task, fate);
      assert After(s, es2 + [FlushRemove(f)]).flushes == t.flushes;
    } else {
      assert es2 == es + FlushOf(f, task, fate);
      assert After(s, es2).flushes == t.flushes;
    }
  }

  /** What one whole flush of a file comes to. */
  function AfterFlush(t: State, task: TaskId, fate: Fate): State
    requires task in t.files && t.files[task] in t.decided
  {
    var u := t.(applied := Applied(t.applied, t.decided[t.files[task]], fate));
    if fate.Acknowledged? then u.(files := t.files - {task}, acknowledged := t.acknowledged + {t.files[task]}) else u
  }

  lemma FlushedMore(s: State, t: State, f: FlushId, task: TaskId, fate: Fate)
    requires Flushed(s, t, f) && task in t.files
    ensures Flushed(s, AfterFlush(t, task, fate), f)
  {
    hide Applied;
    assert forall other | other in t.files && other != task :: t.files[other] != t.files[task];
  }
}
