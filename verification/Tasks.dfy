/** The task worker: run slots shared by concurrent ticks, spawns and monitors, and an approval gate. */
module TaskSlots {
  type TaskId = string
  type RunId = nat

  /** The program points of one run: a spawn that may turn into a monitor. */
  datatype Pc =
    | Entering
    | Held             // the slot is reserved, nothing was asked yet
    | Asking
    | Consented        // the user said yes, not yet remembered
    | Cleared          // approved: hooks may run from here on
    | Created          // past the after_create hook
    | Ready            // past the before_run hook
    | Started          // the sub-agent runs, the slot is not yet rewritten
    | Monitoring
    | Ending           // the monitor decided to end
    | Leaving          // past the after_run hook
    | Releasing        // failed or declined
    | Finished

  datatype Run = Run(task: TaskId, pc: Pc, spawned: bool)

  datatype Verdict = Yes | No | Failed

  datatype Event =
    | Spawn(r: RunId, task: TaskId)
    | TryReserve(r: RunId)
    | CheckApproved(r: RunId)
    | Answer(r: RunId, verdict: Verdict)
    | RememberYes(r: RunId)
    | AfterCreate(r: RunId, hook: bool)
    | BeforeRun(r: RunId, hook: bool)
    | StartAgent(r: RunId)
    | Fail(r: RunId)
    | EnlistRun(r: RunId)
    | Decide(r: RunId)
    | AfterRun(r: RunId, hook: bool)
    | ReleaseSlot(r: RunId)

  datatype State = State(running: set<TaskId>, approved: set<TaskId>, runs: map<RunId, Run>)

  function Source(e: Event): set<Pc> {
    match e
    case Spawn(_, _) => {}
    case TryReserve(_) => {Entering}
    case CheckApproved(_) => {Held}
    case Answer(_, _) => {Asking}
    case RememberYes(_) => {Consented}
    case AfterCreate(_, _) => {Cleared}
    case BeforeRun(_, _) => {Created}
    case StartAgent(_) => {Ready}
    case Fail(_) => {Held, Cleared, Created, Ready}
    case EnlistRun(_) => {Started}
    case Decide(_) => {Monitoring}
    case AfterRun(_, _) => {Ending}
    case ReleaseSlot(_) => {Leaving, Releasing}
  }

  /** A reattached run has no hooks. */
  predicate Enabled(s: State, e: Event) {
    if e.Spawn? then e.r !in s.runs
    else e.r in s.runs && s.runs[e.r].pc in Source(e) && (e.AfterRun? && e.hook ==> s.runs[e.r].spawned)
  }

  function Target(s: State, e: Event): Pc
    requires Enabled(s, e)
  {
    match e
    case Spawn(_, _) => Entering
    case TryReserve(r) => if s.runs[r].task in s.running then Finished else Held
    case CheckApproved(r) => if s.runs[r].task in s.approved then Cleared else Asking
    case Answer(_, verdict) => if verdict == Yes then Consented else Releasing
    case RememberYes(_) => Cleared
    case AfterCreate(_, _) => Created
    case BeforeRun(_, _) => Ready
    case StartAgent(_) => Started
    case Fail(_) => Releasing
    case EnlistRun(_) => Monitoring
    case Decide(_) => Ending
    case AfterRun(_, _) => Leaving
    case ReleaseSlot(_) => Finished
  }

  function Step(s: State, e: Event): State
    requires Enabled(s, e)
  {
    var task := if e.Spawn? then e.task else s.runs[e.r].task;
    var spawned := if e.Spawn? then true else s.runs[e.r].spawned;
    State(
      if e.TryReserve? || e.EnlistRun? then s.running + {task}
      else if e.ReleaseSlot? then s.running - {task} else s.running,
      if e.RememberYes? then s.approved + {task} else s.approved,
      s.runs[e.r := Run(task, Target(s, e), spawned)])
  }

  /** The two maps that the goroutines share. Each method is one critical section, and performs the step of
      the model in every state that shows the object. */
  class Worker {
    var running: set<TaskId>
    var approved: set<TaskId>

    constructor ()
      ensures ShownBy(State({}, {}, map[]))
    {
      running, approved := {}, {};
    }

    ghost predicate ShownBy(s: State)
      reads this
    {
      running == s.running && approved == s.approved
    }

    /** Look-up and reservation in one section, before any other work of a spawn. */
    method Reserve(task: TaskId, ghost s: State, ghost r: RunId) returns (ok: bool)
      requires ShownBy(s) && Enabled(s, TryReserve(r)) && s.runs[r].task == task
      modifies this`running
      ensures ShownBy(Step(s, TryReserve(r)))
      ensures Step(s, TryReserve(r)).runs[r].pc == if ok then Held else Finished
    {
      ok := task !in running;
      if ok {
        running := running + {task};
      } else {
        assert running == running + {task};
      }
    }

    method IsApproved(task: TaskId, ghost s: State, ghost r: RunId) returns (ok: bool)
      requires ShownBy(s) && Enabled(s, CheckApproved(r)) && s.runs[r].task == task
      ensures ShownBy(Step(s, CheckApproved(r)))
      ensures Step(s, CheckApproved(r)).runs[r].pc == if ok then Cleared else Asking
    {
      ok := task in approved;
    }

    method Remember(task: TaskId, ghost s: State, ghost r: RunId)
      requires ShownBy(s) && Enabled(s, RememberYes(r)) && s.runs[r].task == task
      modifies this`approved
      ensures ShownBy(Step(s, RememberYes(r)))
    {
      approved := approved + {task};
    }

    /** The slot is rewritten when the agent has started. */
    method Enlist(task: TaskId, ghost s: State, ghost r: RunId)
      requires ShownBy(s) && Enabled(s, EnlistRun(r)) && s.runs[r].task == task
      modifies this`running
      ensures ShownBy(Step(s, EnlistRun(r)))
    {
      running := running + {task};
    }

    method Release(task: TaskId, ghost s: State, ghost r: RunId)
      requires ShownBy(s) && Enabled(s, ReleaseSlot(r)) && s.runs[r].task == task
      modifies this`running
      ensures ShownBy(Step(s, ReleaseSlot(r)))
    {
      running := running - {task};
    }
  }

  /** A session starts with the runs it reattached: still alive, one per task, with no hooks to run. */
  ghost predicate Initial(s: State) {
    && s.approved == {}
    && (forall r | r in s.runs :: s.runs[r].pc == Monitoring && !s.runs[r].spawned && s.runs[r].task in s.running)
    && (forall q, r | q in s.runs && r in s.runs && s.runs[q].task == s.runs[r].task :: q == r)
    && (forall task | task in s.running :: exists r :: r in s.runs && s.runs[r].task == task)
  }

  ghost predicate Trace(ss: seq<State>, es: seq<Event>) {
    && |ss| == |es| + 1 && Initial(ss[0])
    && forall i | 0 <= i < |es| :: Enabled(ss[i], es[i]) && ss[i + 1] == Step(ss[i], es[i])
  }

  predicate Holds(run: Run, task: TaskId) {
    run.task == task && run.pc != Entering && run.pc != Finished
  }

  /** Past the approval gate. */
  predicate Approved(pc: Pc) {
    pc in {Cleared, Created, Ready, Started, Monitoring, Ending, Leaving}
  }

  /** A slot is taken exactly while one run holds it, and only approved tasks get past the gate. */
  ghost predicate Good(s: State) {
    && (forall r | r in s.runs && Holds(s.runs[r], s.runs[r].task) :: s.runs[r].task in s.running)
    && (forall q, r | q in s.runs && r in s.runs && Holds(s.runs[q], s.runs[r].task)
                      && Holds(s.runs[r], s.runs[r].task) :: q == r)
    && (forall task | task in s.running :: exists r :: r in s.runs && Holds(s.runs[r], task))
    && (forall r | r in s.runs && s.runs[r].spawned && Approved(s.runs[r].pc) :: s.runs[r].task in s.approved)
  }

  lemma InitialIsGood(s: State)
    requires Initial(s)
    ensures Good(s)
  {
  }

  lemma StepKeepsHolders(s: State, e: Event)
    requires Good(s) && Enabled(s, e)
    ensures var t := Step(s, e);
            forall task | task in t.running :: exists r :: r in t.runs && Holds(t.runs[r], task)
  {
    var t := Step(s, e);
    forall task | task in t.running
      ensures exists r :: r in t.runs && Holds(t.runs[r], task)
    {
      if task in s.running {
        var r :| r in s.runs && Holds(s.runs[r], task);
        assert r in t.runs;
        assert r != e.r ==> t.runs[r] == s.runs[r];
        if r == e.r {
          assert t.runs[e.r].task == task;
        }
      } else {
        assert Holds(t.runs[e.r], task);
      }
    }
  }

  lemma StepKeepsSlots(s: State, e: Event, r: RunId)
    requires Good(s) && Enabled(s, e) && r in Step(s, e).runs
    ensures var t := Step(s, e); Holds(t.runs[r], t.runs[r].task) ==> t.runs[r].task in t.running
  {
    if r != e.r {
      assert Step(s, e).runs[r] == s.runs[r];
      if e.ReleaseSlot? {
        assert Holds(s.runs[e.r], s.runs[e.r].task);
      }
    } else if r in s.runs {
      assert Holds(s.runs[r], s.runs[r].task) ==> s.runs[r].task in s.running;
    }
  }

  /** A run that holds a slot after a step held it before, or has just reserved it. */
  lemma HoldsBefore(s: State, e: Event, r: RunId, task: TaskId)
    requires Enabled(s, e) && r in Step(s, e).runs && Holds(Step(s, e).runs[r], task)
    ensures r in s.runs && (Holds(s.runs[r], task) || (e.TryReserve? && r == e.r && task !in s.running))
  {
    assert r != e.r ==> Step(s, e).runs[r] == s.runs[r];
  }

  lemma StepKeepsExclusion(s: State, e: Event, q: RunId, r: RunId)
    requires Good(s) && Enabled(s, e) && q in Step(s, e).runs && r in Step(s, e).runs && q != r
    ensures var t := Step(s, e); !(Holds(t.runs[q], t.runs[r].task) && Holds(t.runs[r], t.runs[r].task))
  {
    hide Step, Enabled;
    var t := Step(s, e);
    var task := t.runs[r].task;
    if Holds(t.runs[q], task) && Holds(t.runs[r], task) {
      HoldsBefore(s, e, q, task);
      HoldsBefore(s, e, r, task);
    }
  }

  lemma StepKeepsApproval(s: State, e: Event, r: RunId)
    requires Good(s) && Enabled(s, e) && r in Step(s, e).runs
    ensures var t := Step(s, e); t.runs[r].spawned && Approved(t.runs[r].pc) ==> t.runs[r].task in t.approved
  {
    assert r != e.r ==> Step(s, e).runs[r] == s.runs[r];
  }

  lemma StepKeepsGood(s: State, e: Event)
    requires Good(s) && Enabled(s, e)
    ensures Good(Step(s, e))
  {
    hide Step, Enabled, Approved, Holds;
    StepKeepsHolders(s, e);
    var t := Step(s, e);
    forall r | r in t.runs
      ensures Holds(t.runs[r], t.runs[r].task) ==> t.runs[r].task in t.running
      ensures t.runs[r].spawned && Approved(t.runs[r].pc) ==> t.runs[r].task in t.approved
    {
      StepKeepsSlots(s, e, r);
      StepKeepsApproval(s, e, r);
    }
    forall q, r | q in t.runs && r in t.runs && Holds(t.runs[q], t.runs[r].task) && Holds(t.runs[r], t.runs[r].task)
      ensures q == r
    {
      if q != r {
        StepKeepsExclusion(s, e, q, r);
      }
    }
  }

  lemma {:induction false} ReachableIsGood(ss: seq<State>, es: seq<Event>, k: nat)
    requires Trace(ss, es) && k <= |es|
    ensures Good(ss[k])
  {
    if k == 0 {
      InitialIsGood(ss[0]);
    } else {
      ReachableIsGood(ss, es, k - 1);
      StepKeepsGood(ss[k - 1], es[k - 1]);
    }
    hide Good, Step;
  }

  /** In every interleaving a task's slot is taken exactly while one run holds it. */
  lemma SlotIsExclusive(ss: seq<State>, es: seq<Event>, k: nat, task: TaskId)
    requires Trace(ss, es) && k <= |es|
    ensures task in ss[k].running <==> exists r :: r in ss[k].runs && Holds(ss[k].runs[r], task)
    ensures forall q, r | q in ss[k].runs && r in ss[k].runs && Holds(ss[k].runs[q], task)
                          && Holds(ss[k].runs[r], task) :: q == r
  {
    ReachableIsGood(ss, es, k);
  }

  predicate Starts(s: State, e: Event, task: TaskId) {
    e.StartAgent? && e.r in s.runs && s.runs[e.r].task == task
  }

  predicate Frees(s: State, e: Event, task: TaskId) {
    e.ReleaseSlot? && e.r in s.runs && s.runs[e.r].task == task
  }

  /** The run that started an agent keeps the slot, past its start, until it releases it. */
  predicate Working(s: State, r: RunId, task: TaskId) {
    r in s.runs && s.runs[r].task == task && s.runs[r].pc in {Started, Monitoring, Ending, Leaving}
  }

  lemma {:induction false} WorkingUntilFreed(ss: seq<State>, es: seq<Event>, i: nat, k: nat, r: RunId, task: TaskId)
    requires Trace(ss, es) && i <= k <= |es| && Working(ss[i], r, task)
    ensures Working(ss[k], r, task) || exists m | i <= m < k :: Frees(ss[m], es[m], task)
  {
    if i < k {
      WorkingUntilFreed(ss, es, i, k - 1, r, task);
      if Working(ss[k - 1], r, task) {
        var e := es[k - 1];
        assert ss[k] == Step(ss[k - 1], e);
        assert e.r != r ==> ss[k].runs[r] == ss[k - 1].runs[r];
        assert Working(ss[k], r, task) || Frees(ss[k - 1], e, task);
      }
    }
  }

  /** Between two sub-agent starts for one task its slot was released: never two while it is held. */
  lemma OneAgentPerSlot(ss: seq<State>, es: seq<Event>, i: nat, k: nat, task: TaskId)
    requires Trace(ss, es) && i < k < |es| && Starts(ss[i], es[i], task) && Starts(ss[k], es[k], task)
    ensures exists m | i < m < k :: Frees(ss[m], es[m], task)
  {
    assert ss[i + 1] == Step(ss[i], es[i]) && Enabled(ss[k], es[k]);
    var r := es[i].r;
    assert Working(ss[i + 1], r, task);
    WorkingUntilFreed(ss, es, i + 1, k, r, task);
    ReachableIsGood(ss, es, k);
    if Working(ss[k], r, task) {
      assert Holds(ss[k].runs[r], task) && Holds(ss[k].runs[es[k].r], task);
    }
  }

  /** Runs code of the task on this machine: a hook, or a freshly spawned sub-agent. */
  predicate Executes(e: Event) {
    e.StartAgent? || ((e.AfterCreate? || e.BeforeRun? || e.AfterRun?) && e.hook)
  }

  lemma {:induction false} ApprovalWasAnswered(ss: seq<State>, es: seq<Event>, k: nat, task: TaskId)
    requires Trace(ss, es) && k <= |es|
    requires task in ss[k].approved || exists r :: r in ss[k].runs && ss[k].runs[r] == Run(task, Consented, true)
    ensures exists i | 0 <= i < k ::
              es[i].Answer? && es[i].verdict == Yes && es[i].r in ss[i].runs && ss[i].runs[es[i].r].task == task
  {
    FreshnessHolds(ss, es, k);
    if k > 0 {
      var s, e := ss[k - 1], es[k - 1];
      FreshnessHolds(ss, es, k - 1);
      assert ss[k] == Step(s, e);
      if task in s.approved || exists r :: r in s.runs && s.runs[r] == Run(task, Consented, true) {
        ApprovalWasAnswered(ss, es, k - 1, task);
      } else if task !in ss[k].approved {
        var r :| r in ss[k].runs && ss[k].runs[r] == Run(task, Consented, true);
        assert r == e.r;
      }
    }
  }

  /** Reattached runs never pass through the gate. */
  lemma {:induction false} FreshnessHolds(ss: seq<State>, es: seq<Event>, k: nat)
    requires Trace(ss, es) && k <= |es|
    ensures forall r | r in ss[k].runs && !ss[k].runs[r].spawned ::
              ss[k].runs[r].pc in {Monitoring, Ending, Leaving, Finished}
  {
    if k > 0 {
      FreshnessHolds(ss, es, k - 1);
      assert ss[k] == Step(ss[k - 1], es[k - 1]);
    }
  }

  /** No hook and no freshly spawned sub-agent of a task runs unless the user approved that task earlier in
      this session. */
  lemma NothingRunsUnapproved(ss: seq<State>, es: seq<Event>, k: nat)
    requires Trace(ss, es) && k < |es| && Executes(es[k])
    ensures es[k].r in ss[k].runs
    ensures var task := ss[k].runs[es[k].r].task;
            exists i | 0 <= i < k ::
              es[i].Answer? && es[i].verdict == Yes && es[i].r in ss[i].runs && ss[i].runs[es[i].r].task == task
  {
    ReachableIsGood(ss, es, k);
    FreshnessHolds(ss, es, k);
    assert Enabled(ss[k], es[k]);
    ApprovalWasAnswered(ss, es, k, ss[k].runs[es[k].r].task);
  }

  // ---- What is granted ----

  /** A run gets the slot exactly if no other run holds it; else it ends at once. */
  lemma ReservedIff(ss: seq<State>, es: seq<Event>, k: nat)
    requires Trace(ss, es) && k < |es| && es[k].TryReserve?
    ensures es[k].r in ss[k].runs && es[k].r in ss[k + 1].runs
    ensures var task, pc := ss[k].runs[es[k].r].task, ss[k + 1].runs[es[k].r].pc;
            && (pc == Held || pc == Finished)
            && (pc == Held <==> forall q | q in ss[k].runs :: !Holds(ss[k].runs[q], task))
  {
    SlotIsExclusive(ss, es, k, ss[k].runs[es[k].r].task);
    assert ss[k + 1] == Step(ss[k], es[k]);
    hide Good;
  }

  /** Some run remembered a yes for the task. */
  ghost predicate Remembered(ss: seq<State>, es: seq<Event>, k: nat, task: TaskId)
    requires k <= |es| && |ss| == |es| + 1
  {
    exists i | 0 <= i < k :: es[i].RememberYes? && es[i].r in ss[i].runs && ss[i].runs[es[i].r].task == task
  }

  lemma RememberedSoFar(ss: seq<State>, es: seq<Event>, k: nat, task: TaskId)
    requires 0 < k <= |es| && |ss| == |es| + 1
    ensures Remembered(ss, es, k, task)
            <==> || Remembered(ss, es, k - 1, task)
                 || (es[k - 1].RememberYes? && es[k - 1].r in ss[k - 1].runs
                     && ss[k - 1].runs[es[k - 1].r].task == task)
  {
  }

  lemma {:induction false} ApprovedIff(ss: seq<State>, es: seq<Event>, k: nat, task: TaskId)
    requires Trace(ss, es) && k <= |es|
    ensures task in ss[k].approved <==> Remembered(ss, es, k, task)
  {
    if k > 0 {
      ApprovedIff(ss, es, k - 1, task);
      RememberedSoFar(ss, es, k, task);
      assert ss[k] == Step(ss[k - 1], es[k - 1]) && Enabled(ss[k - 1], es[k - 1]);
      hide Remembered;
    }
  }

  /** The gate opens without a question exactly if a yes for the task was remembered in this session. */
  lemma GateIff(ss: seq<State>, es: seq<Event>, k: nat)
    requires Trace(ss, es) && k < |es| && es[k].CheckApproved?
    ensures es[k].r in ss[k].runs && es[k].r in ss[k + 1].runs
    ensures ss[k + 1].runs[es[k].r].pc
            == if Remembered(ss, es, k, ss[k].runs[es[k].r].task) then Cleared else Asking
  {
    ApprovedIff(ss, es, k, ss[k].runs[es[k].r].task);
    assert ss[k + 1] == Step(ss[k], es[k]) && Enabled(ss[k], es[k]);
    hide Remembered;
  }

  /** The way of a run, from one program point to the next. */
  predicate Goes(s: State, e: Event, r: RunId, pc: Pc) {
    Enabled(s, e) && var t := Step(s, e); r in t.runs && t.runs[r].pc == pc
  }

  /** A yes lets the run past the gate, for good; a no or an error releases its slot. */
  lemma AnswerDecides(s: State, r: RunId)
    requires r in s.runs && s.runs[r].pc == Asking
    ensures Goes(s, Answer(r, Yes), r, Consented) && Goes(s, Answer(r, No), r, Releasing)
    ensures Goes(s, Answer(r, Failed), r, Releasing)
    ensures Goes(Step(s, Answer(r, Yes)), RememberYes(r), r, Cleared)
    ensures s.runs[r].task in Step(Step(s, Answer(r, Yes)), RememberYes(r)).approved
    ensures Goes(Step(s, Answer(r, No)), ReleaseSlot(r), r, Finished)
    ensures s.runs[r].task !in Step(Step(s, Answer(r, No)), ReleaseSlot(r)).running
  {
  }

  /** Past the gate nothing but a failure of its own keeps a run from its agent: hooks, start, monitoring and end
      are enabled one after the other, and the end frees the slot. */
  lemma ClearedRunCompletes(s: State, r: RunId, h1: bool, h2: bool, h3: bool)
    requires r in s.runs && s.runs[r].pc == Cleared && s.runs[r].spawned
    ensures Goes(s, AfterCreate(r, h1), r, Created)
    ensures var s1 := Step(s, AfterCreate(r, h1));
            && Goes(s1, BeforeRun(r, h2), r, Ready)
            && var s2 := Step(s1, BeforeRun(r, h2));
               && Goes(s2, StartAgent(r), r, Started)
               && var s3 := Step(s2, StartAgent(r));
                  && Goes(s3, EnlistRun(r), r, Monitoring)
                  && MonitoredRunEnds(Step(s3, EnlistRun(r)), r, h3)
  {
    var s3 := Step(Step(Step(s, AfterCreate(r, h1)), BeforeRun(r, h2)), StartAgent(r));
    var s4 := Step(s3, EnlistRun(r));
    var s5 := Step(s4, Decide(r));
    var s6 := Step(s5, AfterRun(r, h3));
  }

  predicate MonitoredRunEnds(s: State, r: RunId, hook: bool) {
    && Goes(s, Decide(r), r, Ending)
    && Goes(Step(s, Decide(r)), AfterRun(r, hook), r, Leaving)
    && var t := Step(Step(s, Decide(r)), AfterRun(r, hook));
       Goes(t, ReleaseSlot(r), r, Finished) && r in s.runs && s.runs[r].task !in Step(t, ReleaseSlot(r)).running
  }
}
