/** The listen session: Start and Stop race with the goroutines of any number of earlier runs, which are
    told apart by a generation counter. */
module Listen {
  import opened Machine
  import opened Strings

  type RunId = nat

  datatype Status = Idle | Starting | Listening | Stopped | Broken

  /** The counter is a 64-bit word. */
  function Bump(gen: U64): U64 {
    (gen + 1) % U64_SIZE
  }

  // ---- Every interleaving ----

  /** A run's generation, and whether its cleanup has happened. */
  datatype Run = Run(gen: U64, finished: bool)

  datatype State = State(running: bool, status: Status, finals: seq<string>, partial: string, gen: U64,
                         runs: map<RunId, Run>)

  datatype Event =
    | Start(r: RunId, isPaired: bool)
    | Stop
    | SetStatus(r: RunId, status: Status)
    | Transcript(r: RunId, text: string, isFinal: bool)
    | Finish(r: RunId)

  const FRESH := State(false, Idle, [], "", 0, map[])

  predicate Accepted(s: State, e: Event) {
    e.Start? && !s.running && e.isPaired
  }

  /** A run sets statuses and finishes once; its reader can go on after that. */
  predicate Enabled(s: State, e: Event) {
    match e
    case Start(r, _) => r !in s.runs
    case Stop => true
    case SetStatus(r, st) => r in s.runs && !s.runs[r].finished && st != Idle
    case Transcript(r, _, _) => r in s.runs
    case Finish(r) => r in s.runs && !s.runs[r].finished
  }

  function Step(s: State, e: Event): State
    requires Enabled(s, e)
  {
    match e
    case Start(r, _) =>
      if !Accepted(s, e) then s
      else State(true, Starting, [], "", Bump(s.gen), s.runs[r := Run(Bump(s.gen), false)])
    case Stop => s.(gen := Bump(s.gen), running := false, status := Stopped)
    case SetStatus(r, st) => if s.gen == s.runs[r].gen then s.(status := st) else s
    case Transcript(r, text, isFinal) =>
      if s.gen != s.runs[r].gen then s
      else if !isFinal then s.(partial := text)
      else s.(partial := "", finals := if TrimSpace(text) != "" then s.finals + [text] else s.finals)
    case Finish(r) =>
      var t := s.(runs := s.runs[r := s.runs[r].(finished := true)]);
      if s.gen != s.runs[r].gen then t
      else t.(running := false, status := if s.status == Listening || s.status == Starting then Stopped else s.status)
  }

  /** The mutex-guarded session. Each method is one critical section, and performs the step of the model in
      every state that shows the object. */
  class Connector {
    var running: bool
    var status: Status
    var finals: seq<string>
    var partial: string
    var gen: U64

    constructor ()
      ensures ShownBy(FRESH)
    {
      running, status, finals, partial, gen := false, Idle, [], "", 0;
    }

    ghost predicate ShownBy(s: State)
      reads this
    {
      running == s.running && status == s.status && finals == s.finals && partial == s.partial && gen == s.gen
    }

    method Start(isPaired: bool, ghost s: State, ghost r: RunId) returns (ok: bool, own: U64)
      requires ShownBy(s) && r !in s.runs
      modifies this
      ensures ShownBy(Step(s, Event.Start(r, isPaired))) && ok == Accepted(s, Event.Start(r, isPaired))
      ensures ok ==> Step(s, Event.Start(r, isPaired)).runs[r].gen == own
    {
      own := gen;
      if running || !isPaired {
        return false, own;
      }
      gen := Bump(gen);
      running, status, finals, partial := true, Starting, [], "";
      return true, gen;
    }

    method Stop(ghost s: State)
      requires ShownBy(s)
      modifies this`gen, this`running, this`status
      ensures ShownBy(Step(s, Event.Stop))
    {
      gen := Bump(gen);
      running, status := false, Stopped;
    }

    method SetStatus(own: U64, st: Status, ghost s: State, ghost r: RunId)
      requires ShownBy(s) && Enabled(s, Event.SetStatus(r, st)) && s.runs[r].gen == own
      modifies this`status
      ensures ShownBy(Step(s, Event.SetStatus(r, st)))
    {
      if gen == own {
        status := st;
      }
    }

    method FinishRun(own: U64, ghost s: State, ghost r: RunId)
      requires ShownBy(s) && Enabled(s, Finish(r)) && s.runs[r].gen == own
      modifies this`running, this`status
      ensures ShownBy(Step(s, Finish(r)))
    {
      if gen == own {
        running := false;
        if status == Listening || status == Starting {
          status := Stopped;
        }
      }
    }

    method Append(own: U64, text: string, isFinal: bool, ghost s: State, ghost r: RunId)
      requires ShownBy(s) && Enabled(s, Transcript(r, text, isFinal)) && s.runs[r].gen == own
      modifies this`finals, this`partial
      ensures ShownBy(Step(s, Transcript(r, text, isFinal)))
    {
      if gen == own {
        if isFinal {
          if TrimSpace(text) != "" {
            finals := finals + [text];
          }
          partial := "";
        } else {
          partial := text;
        }
      }
    }
  }

  /** A trace short enough that the counter has not wrapped. */
  ghost predicate Trace(ss: seq<State>, es: seq<Event>) {
    && |ss| == |es| + 1 && ss[0] == FRESH && |es| < U64_SIZE
    && forall i | 0 <= i < |es| :: Enabled(ss[i], es[i]) && ss[i + 1] == Step(ss[i], es[i])
  }

  /** The run that owns the session: started by the last accepted Start, with no Stop since. */
  ghost function Owner(ss: seq<State>, es: seq<Event>, k: nat): Option<RunId>
    requires Trace(ss, es) && k <= |es|
  {
    if k == 0 then None
    else if Accepted(ss[k - 1], es[k - 1]) then Some(es[k - 1].r)
    else if es[k - 1].Stop? then None
    else Owner(ss, es, k - 1)
  }

  /** The transcript by the trace alone: the non-blank finals that owners delivered since the last accepted
      Start, in arrival order. */
  ghost function SessionFinals(ss: seq<State>, es: seq<Event>, k: nat): seq<string>
    requires Trace(ss, es) && k <= |es|
  {
    if k == 0 || Accepted(ss[k - 1], es[k - 1]) then []
    else
      var e, before := es[k - 1], SessionFinals(ss, es, k - 1);
      if e.Transcript? && e.isFinal && TrimSpace(e.text) != "" && Owner(ss, es, k - 1) == Some(e.r)
      then before + [e.text] else before
  }

  /** Generations count up and single out the owner. */
  ghost predicate Good(s: State, owner: Option<RunId>, k: nat) {
    && s.gen <= k
    && (forall r | r in s.runs :: 1 <= s.runs[r].gen <= s.gen)
    && (forall q, r | q in s.runs && r in s.runs && s.runs[q].gen == s.runs[r].gen :: q == r)
    && (forall r | r in s.runs :: s.runs[r].gen == s.gen <==> owner == Some(r))
    && (owner.Some? ==> owner.value in s.runs)
    && (s.running <==> owner.Some? && !s.runs[owner.value].finished)
    && (s.status == Starting || s.status == Listening ==> s.running)
  }

  function NextOwner(s: State, e: Event, owner: Option<RunId>): Option<RunId> {
    if Accepted(s, e) then Some(e.r) else if e.Stop? then None else owner
  }

  lemma TransitionKeepsGood(s: State, e: Event, owner: Option<RunId>, k: nat)
    requires Good(s, owner, k) && Enabled(s, e) && k + 1 < U64_SIZE && (e.Start? || e.Stop?)
    ensures Good(Step(s, e), NextOwner(s, e, owner), k + 1)
  {
    assert Bump(s.gen) == s.gen + 1;
    hide Bump;
  }

  /** Steps that leave the runs alone keep the invariant if they keep its part of the status. */
  lemma RunKeepsGood(s: State, e: Event, owner: Option<RunId>, k: nat)
    requires Good(s, owner, k) && Enabled(s, e) && !e.Start? && !e.Stop?
    ensures Good(Step(s, e), owner, k + 1)
  {
    hide Bump, Accepted, TrimSpace;
    if e.Finish? {
      FinishKeepsGood(s, e.r, owner, k);
    } else {
      assert Step(s, e).runs == s.runs && Step(s, e).gen == s.gen && Step(s, e).running == s.running;
      if e.SetStatus? {
        StatusNeedsOwner(s, e.r, owner, k);
      }
    }
  }

  lemma StatusNeedsOwner(s: State, r: RunId, owner: Option<RunId>, k: nat)
    requires Good(s, owner, k) && r in s.runs && !s.runs[r].finished
    ensures s.gen == s.runs[r].gen ==> s.running
  {
  }

  lemma FinishKeepsGood(s: State, r: RunId, owner: Option<RunId>, k: nat)
    requires Good(s, owner, k) && Enabled(s, Finish(r))
    ensures Good(Step(s, Finish(r)), owner, k + 1)
  {
    var t := Step(s, Finish(r));
    assert forall q | q in s.runs :: t.runs[q].gen == s.runs[q].gen;
    assert forall q | q in s.runs && q != r :: t.runs[q] == s.runs[q];
    assert s.gen == s.runs[r].gen <==> owner == Some(r);
  }

  lemma StepKeepsFinals(s: State, e: Event, owner: Option<RunId>, k: nat)
    requires Good(s, owner, k) && Enabled(s, e)
    ensures Step(s, e).finals
            == if Accepted(s, e) then []
               else if e.Transcript? && e.isFinal && TrimSpace(e.text) != "" && owner == Some(e.r) then
                 s.finals + [e.text]
               else s.finals
  {
    hide Bump, TrimSpace;
  }

  /** In every interleaving: at most one run owns the current generation, the session counts as running
      exactly while its owner has not finished, and the transcript is the session's own. */
  lemma {:induction false} SessionIsOwned(ss: seq<State>, es: seq<Event>, k: nat)
    requires Trace(ss, es) && k <= |es|
    ensures Good(ss[k], Owner(ss, es, k), k)
    ensures ss[k].finals == SessionFinals(ss, es, k)
  {
    if k > 0 {
      hide Good, Step, TrimSpace;
      SessionIsOwned(ss, es, k - 1);
      var s, e, owner := ss[k - 1], es[k - 1], Owner(ss, es, k - 1);
      if e.Start? || e.Stop? {
        TransitionKeepsGood(s, e, owner, k - 1);
      } else {
        RunKeepsGood(s, e, owner, k - 1);
      }
      StepKeepsFinals(s, e, owner, k - 1);
    } else {
      StartIsGood();
    }
  }

  lemma StartIsGood()
    ensures Good(FRESH, None, 0)
  {
  }

  /** A stale run changes nothing in the newer session: not its state, its status or its transcript. */
  lemma StaleRunIsHarmless(ss: seq<State>, es: seq<Event>, k: nat)
    requires Trace(ss, es) && k < |es|
    requires es[k].SetStatus? || es[k].Transcript? || es[k].Finish?
    requires Owner(ss, es, k) != Some(es[k].r)
    ensures ss[k + 1].(runs := ss[k].runs) == ss[k]
  {
    SessionIsOwned(ss, es, k);
    assert ss[k + 1] == Step(ss[k], es[k]);
  }

  /** A start is accepted exactly if the companion is paired and no owner is still running. Then it owns the
      session, which starts empty; a refused start changes nothing. */
  lemma StartedIff(ss: seq<State>, es: seq<Event>, k: nat)
    requires Trace(ss, es) && k < |es| && es[k].Start?
    ensures var owner := Owner(ss, es, k);
            var alive := owner.Some? && owner.value in ss[k].runs && !ss[k].runs[owner.value].finished;
            if es[k].isPaired && !alive then
              && Owner(ss, es, k + 1) == Some(es[k].r) && es[k].r in ss[k + 1].runs
              && ss[k + 1].running && ss[k + 1].status == Starting && ss[k + 1].finals == [] && ss[k + 1].partial == ""
            else ss[k + 1] == ss[k] && Owner(ss, es, k + 1) == owner
  {
    SessionIsOwned(ss, es, k);
    assert ss[k + 1] == Step(ss[k], es[k]);
    hide Bump, TrimSpace;
  }

  /** Every step of the owner counts, and a stop always does: statuses are set, partial texts kept until the final
      one, and the end of the run ends the session, as stopped unless it had failed. */
  lemma OwnerActs(ss: seq<State>, es: seq<Event>, k: nat)
    requires Trace(ss, es) && k < |es|
    requires es[k].Stop? || (!es[k].Start? && Owner(ss, es, k) == Some(es[k].r))
    ensures var s, t := ss[k], ss[k + 1];
            match es[k]
            case Stop => !t.running && t.status == Stopped && Owner(ss, es, k + 1) == None && t.finals == s.finals
            case SetStatus(_, st) => t == s.(status := st)
            case Transcript(_, text, isFinal) =>
              && t.partial == (if isFinal then "" else text) && t.status == s.status && t.running == s.running
              && t.finals == if isFinal && TrimSpace(text) != "" then s.finals + [text] else s.finals
            case Finish(r) =>
              && !t.running && r in t.runs && t.runs[r].finished && t.finals == s.finals
              && t.status == if s.status == Starting || s.status == Listening then Stopped else s.status
            case Start(_, _) => true
  {
    SessionIsOwned(ss, es, k);
    assert ss[k + 1] == Step(ss[k], es[k]);
    hide Bump, TrimSpace;
  }
}
