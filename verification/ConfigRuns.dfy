/** The pair list over whole runs: edits from concurrent requests, saves that overlap, restarts, and files
    from before the list existed.

    A save takes its snapshot under the lock, but writes it to the one temporary file, and renames that over
    the configuration file, after it released the lock. So the two file steps of one save can fall between
    any steps of another. */
module PairConfigRuns {
  import opened Machine
  import opened PairConfig

  /** One call of Save. */
  type SaveId = nat

  datatype Stage = Marshalled | Written

  /** The configuration file: the one the companion started with, or one that a save wrote. */
  datatype File = Original(c: ConfigState) | Saved(save: SaveId)

  /** `snaps` are the snapshots of all saves so far, `flight` the saves that have not returned, and `temp` is
      whose snapshot is in the temporary file. */
  datatype State = State(
    mem: ConfigState, disk: File, temp: Option<SaveId>,
    snaps: map<SaveId, ConfigState>, flight: map<SaveId, Stage>)

  datatype Event =
    | Add(pair: Pair, now: int)
    | Activate(id: string)
    | Remove(id: string)
    | Marshal(k: SaveId)
    | WriteTemp(k: SaveId)
    | Rename(k: SaveId)
    | Fail(k: SaveId)      // a save gives up before its next file step
    | Restart(now: int)

  predicate Enabled(s: State, e: Event) {
    match e
    case Add(p, _) => p.id != ""
    case Marshal(k) => k !in s.snaps
    case WriteTemp(k) => k in s.flight && s.flight[k] == Marshalled
    case Rename(k) => k in s.flight && s.flight[k] == Written
    case Fail(k) => k in s.flight
    case _ => true
  }

  function OnDisk(s: State): ConfigState {
    match s.disk
    case Original(c) => c
    case Saved(k) => if k in s.snaps then s.snaps[k] else EMPTY
  }

  /** A rename moves whatever is in the temporary file, and fails if there is none. */
  function Step(s: State, e: Event): State
    requires Enabled(s, e)
  {
    match e
    case Add(p, now) => s.(mem := AfterAdd(s.mem, p, now))
    case Activate(id) => s.(mem := AfterSetActive(s.mem, id).0)
    case Remove(id) => s.(mem := AfterRemove(s.mem, id))
    case Marshal(k) =>
      s.(mem := Synced(s.mem), snaps := s.snaps[k := Synced(s.mem)], flight := s.flight[k := Marshalled])
    case WriteTemp(k) => s.(temp := Some(k), flight := s.flight[k := Written])
    case Rename(k) =>
      var t := s.(flight := s.flight - {k});
      if s.temp.Some? then t.(disk := Saved(s.temp.value), temp := None) else t
    case Fail(k) => s.(flight := s.flight - {k})
    case Restart(now) => s.(mem := Loaded(OnDisk(s), now), flight := map[])
  }

  /** What the file may hold at first: nothing, the scalars from before the list existed, or a saved list. */
  ghost predicate Readable(c: ConfigState) {
    (c.pairs == [] && c.active == "") || (Good(c) && Projected(c))
  }

  /** A run starts with the load of a file; the load writes nothing back. */
  ghost predicate Initial(s: State) {
    && s.disk.Original? && Readable(s.disk.c) && s.temp == None && s.snaps == map[] && s.flight == map[]
    && exists now :: s.mem == Loaded(s.disk.c, now)
  }

  ghost predicate Run(ss: seq<State>, es: seq<Event>) {
    && |ss| == |es| + 1 && Initial(ss[0])
    && forall i | 0 <= i < |es| :: Enabled(ss[i], es[i]) && ss[i + 1] == Step(ss[i], es[i])
  }

  ghost predicate GoodState(s: State) {
    && Good(s.mem) && Readable(OnDisk(s))
    && (forall k | k in s.snaps :: Good(s.snaps[k]) && Projected(s.snaps[k]))
    && (s.disk.Saved? ==> s.disk.save in s.snaps)
    && (s.temp.Some? ==> s.temp.value in s.snaps)
    && s.flight.Keys <= s.snaps.Keys
  }

  lemma LoadedIsGood(c: ConfigState, now: int)
    requires Readable(c)
    ensures Good(Loaded(c, now)) && Projected(Loaded(c, now))
  {
    if c.pairs == [] && c.active == "" {
      assert c == ConfigState([], "", c.scalars);
      LegacyIsPromoted(c.scalars, now);
    } else {
      LoadedIsSaved(c, now);
    }
  }

  lemma EditKeepsGood(s: State, e: Event)
    requires GoodState(s) && Enabled(s, e) && (e.Add? || e.Activate? || e.Remove?)
    ensures GoodState(Step(s, e))
  {
    match e
    case Add(p, now) => AddKeepsGood(s.mem, p, now);
    case Remove(id) => RemoveKeepsGood(s.mem, id);
    case _ =>
  }

  lemma SaveKeepsGood(s: State, e: Event)
    requires GoodState(s) && Enabled(s, e) && !e.Add? && !e.Activate? && !e.Remove?
    ensures GoodState(Step(s, e))
  {
    if e.Marshal? {
      LoadedIsSaved(s.mem, 0);
    } else if e.Restart? {
      LoadedIsGood(OnDisk(s), e.now);
    }
    hide Good, Projected, Synced;
  }

  lemma StepKeepsGood(s: State, e: Event)
    requires GoodState(s) && Enabled(s, e)
    ensures GoodState(Step(s, e))
  {
    hide GoodState, Step, Enabled;
    if e.Add? || e.Activate? || e.Remove? {
      EditKeepsGood(s, e);
    } else {
      SaveKeepsGood(s, e);
    }
  }

  /** In every run the list and the active id are consistent, in memory, in every snapshot and on disk. The
      file on disk is the untouched first one, or its scalars are those of its active pair. */
  lemma {:induction false} RunsStayGood(ss: seq<State>, es: seq<Event>, k: nat)
    requires Run(ss, es) && k <= |es|
    ensures GoodState(ss[k])
    ensures ss[k].disk == ss[0].disk || (Good(OnDisk(ss[k])) && Projected(OnDisk(ss[k])))
  {
    if k == 0 {
      var now: int :| ss[0].mem == Loaded(ss[0].disk.c, now);
      LoadedIsGood(ss[0].disk.c, now);
      hide Good, Projected;
    } else {
      hide GoodState, Good, Projected, Readable, Initial;
      RunsStayGood(ss, es, k - 1);
      StepKeepsGood(ss[k - 1], es[k - 1]);
      FileIsFirstOrSaved(ss[k - 1], es[k - 1]);
    }
  }

  lemma FileIsFirstOrSaved(s: State, e: Event)
    requires GoodState(s) && Enabled(s, e)
    ensures var t := Step(s, e);
            || (t.disk == s.disk && OnDisk(t) == OnDisk(s))
            || (Good(OnDisk(t)) && Projected(OnDisk(t)))
  {
    hide Good, Projected, Readable, Synced, Loaded, AfterAdd, AfterRemove, AfterSetActive;
  }

  /** The scalars in memory are projected after a step exactly as this says; in particular only an update of
      the active pair makes them stale, and a save or a restart always repairs them. */
  predicate ProjectedAfter(s: State, e: Event) {
    match e
    case Add(p, _) =>
      || s.mem.active == ""
      || (if p.id == s.mem.active then Scalars(p.id, p.url, p.token, p.hub) == s.mem.scalars else Projected(s.mem))
    case Activate(id) => Has(s.mem.pairs, id) || Projected(s.mem)
    case Remove(id) => id == s.mem.active || Projected(s.mem)
    case Marshal(_) => true
    case Restart(_) => true
    case _ => Projected(s.mem)
  }

  lemma StepProjectsIff(ss: seq<State>, es: seq<Event>, k: nat)
    requires Run(ss, es) && k < |es|
    ensures Projected(ss[k + 1].mem) <==> ProjectedAfter(ss[k], es[k])
  {
    RunsStayGood(ss, es, k);
    var s := ss[k];
    match es[k]
    case Add(p, now) => AddProjectsIff(s.mem, p, now);
    case Activate(id) => ActivateProjectsIff(s.mem, id);
    case Remove(id) => RemoveProjectsIff(s.mem, id);
    case Marshal(_) => LoadedIsSaved(s.mem, 0);
    case Restart(now) => LoadedIsGood(OnDisk(s), now);
    case _ =>
  }

  // ---- Removal ----

  /** Loading the configuration, migration included, lists the id. */
  predicate Revives(c: ConfigState, id: string) {
    Has(Loaded(c, 0).pairs, id)
  }

  lemma RevivesAtAnyTime(c: ConfigState, id: string, now: int)
    ensures Has(Loaded(c, now).pairs, id) <==> Revives(c, id)
  {
    HasIff(Loaded(c, now).pairs, id);
    HasIff(Loaded(c, 0).pairs, id);
  }

  lemma SavedRevivesItself(c: ConfigState, id: string)
    requires Good(c) && Projected(c)
    ensures Revives(c, id) <==> Has(c.pairs, id)
  {
    LoadedIsSaved(c, 0);
  }

  /** Not in memory, and not to come back with a restart. */
  predicate Gone(s: State, id: string) {
    !Has(s.mem.pairs, id) && !Revives(OnDisk(s), id)
  }

  /** The event puts a snapshot on disk; whose. */
  function Lands(s: State, e: Event): Option<SaveId> {
    if e.Rename? then s.temp else None
  }

  /** The event puts on disk a snapshot that was taken by `s0` and lists the id. */
  predicate LandsStale(s0: State, s: State, e: Event, id: string) {
    var x := Lands(s, e);
    x.Some? && x.value in s0.snaps && Has(s0.snaps[x.value].pairs, id)
  }

  /** Since `s0` the id was in no memory state and in no new snapshot. */
  ghost predicate Cleared(s0: State, s: State, id: string) {
    && !Has(s.mem.pairs, id)
    && (forall x | x in s0.snaps :: x in s.snaps && s.snaps[x] == s0.snaps[x])
    && (forall x | x in s.snaps && x !in s0.snaps :: !Has(s.snaps[x].pairs, id))
  }

  predicate ReAdds(e: Event, id: string) {
    e.Add? && e.pair.id == id
  }

  lemma AddKeepsAbsent(c: ConfigState, p: Pair, now: int, id: string)
    requires !Has(c.pairs, id) && p.id != id
    ensures !Has(AfterAdd(c, p, now).pairs, id)
  {
    HasIff(c.pairs, id);
    HasIff(AfterAdd(c, p, now).pairs, id);
  }

  lemma MemoryStaysCleared(s: State, e: Event, id: string)
    requires GoodState(s) && Enabled(s, e) && !Has(s.mem.pairs, id) && !ReAdds(e, id)
    requires e.Restart? ==> !Revives(OnDisk(s), id)
    ensures !Has(Step(s, e).mem.pairs, id)
  {
    match e
    case Add(p, now) => AddKeepsAbsent(s.mem, p, now, id);
    case Remove(other) => RemoveKeepsGood(s.mem, other);
    case Restart(now) => RevivesAtAnyTime(OnDisk(s), id, now);
    case _ =>
  }

  lemma StepKeepsCleared(s0: State, s: State, e: Event, id: string)
    requires GoodState(s) && Enabled(s, e) && Cleared(s0, s, id) && !ReAdds(e, id)
    requires e.Restart? ==> !Revives(OnDisk(s), id)
    ensures Cleared(s0, Step(s, e), id)
  {
    hide GoodState, Has, Revives, AfterAdd, AfterRemove, AfterSetActive, Loaded, Synced, OnDisk, Readable, Good;
    MemoryStaysCleared(s, e, id);
  }

  /** Between a removal and the first landing of a snapshot taken after it. */
  lemma {:induction false} ClearedUntilLanding(ss: seq<State>, es: seq<Event>, i: nat, k: nat, id: string)
    requires Run(ss, es) && i < k <= |es| && es[i] == Remove(id)
    requires forall j | i < j < k :: !ReAdds(es[j], id) && !es[j].Restart?
    ensures Cleared(ss[i], ss[k], id)
  {
    hide Good, Step, Cleared, GoodState, Initial;
    RunsStayGood(ss, es, k - 1);
    assert ss[k] == Step(ss[k - 1], es[k - 1]);
    if k == i + 1 {
      RemovalClears(ss[i], id);
    } else {
      ClearedUntilLanding(ss, es, i, k - 1, id);
      StepKeepsCleared(ss[i], ss[k - 1], es[k - 1], id);
    }
  }

  lemma RemovalClears(s: State, id: string)
    requires GoodState(s)
    ensures Cleared(s, Step(s, Remove(id)), id)
  {
    RemoveKeepsGood(s.mem, id);
  }

  lemma LandingClears(s0: State, s: State, e: Event, id: string)
    requires GoodState(s) && Enabled(s, e) && Cleared(s0, s, id)
    requires Lands(s, e).Some? && Lands(s, e).value !in s0.snaps
    ensures Cleared(s0, Step(s, e), id) && Gone(Step(s, e), id)
  {
    SavedRevivesItself(s.snaps[s.temp.value], id);
  }

  lemma StepKeepsGone(s0: State, s: State, e: Event, id: string)
    requires GoodState(s) && Enabled(s, e) && Cleared(s0, s, id) && Gone(s, id) && !ReAdds(e, id)
    ensures Cleared(s0, Step(s, e), id)
    ensures Gone(Step(s, e), id) <==> !LandsStale(s0, s, e, id)
  {
    StepKeepsCleared(s0, s, e, id);
    if Lands(s, e).Some? {
      SavedRevivesItself(s.snaps[s.temp.value], id);
    }
  }

  /** The removal reaches the disk: event `n` lands a snapshot taken after it. */
  ghost predicate RemovalLands(ss: seq<State>, es: seq<Event>, i: nat, n: nat, id: string)
    requires Run(ss, es)
  {
    && i < n < |es| && es[i] == Remove(id)
    && (forall j | i < j < n :: !es[j].Restart?)
    && Lands(ss[n], es[n]).Some? && Lands(ss[n], es[n]).value !in ss[i].snaps
  }

  lemma {:induction false} GoneUntilStale(ss: seq<State>, es: seq<Event>, i: nat, n: nat, k: nat, id: string)
    requires Run(ss, es) && RemovalLands(ss, es, i, n, id) && n < k <= |es|
    requires forall j | i < j < k :: !ReAdds(es[j], id)
    requires forall t | n < t < k :: !LandsStale(ss[i], ss[t], es[t], id)
    ensures Cleared(ss[i], ss[k], id) && Gone(ss[k], id)
  {
    hide Good, Step, Cleared, Gone, GoodState, Initial, LandsStale;
    RunsStayGood(ss, es, k - 1);
    assert ss[k] == Step(ss[k - 1], es[k - 1]);
    if k == n + 1 {
      ClearedUntilLanding(ss, es, i, n, id);
      LandingClears(ss[i], ss[n], es[n], id);
    } else {
      GoneUntilStale(ss, es, i, n, k - 1, id);
      StepKeepsGone(ss[i], ss[k - 1], es[k - 1], id);
    }
  }

  /** A pair that was removed, with the removal on disk, and is not added again, stays gone from memory, disk
      and every restart exactly as long as no save lands a snapshot that was taken before the removal and
      still lists it. Anything may happen between the removal and the landing, except a restart. */
  lemma RemovedStaysGoneIff(ss: seq<State>, es: seq<Event>, i: nat, n: nat, k: nat, id: string)
    requires Run(ss, es) && RemovalLands(ss, es, i, n, id) && n < k <= |es|
    requires forall j | i < j < k :: !ReAdds(es[j], id)
    ensures (forall t | n < t <= k :: Gone(ss[t], id))
            <==> (forall t | n < t < k :: !LandsStale(ss[i], ss[t], es[t], id))
  {
    if forall t | n < t < k :: !LandsStale(ss[i], ss[t], es[t], id) {
      forall t | n < t <= k
        ensures Gone(ss[t], id)
      {
        GoneUntilStale(ss, es, i, n, t, id);
      }
    } else {
      var t := FirstStale(ss, es, i, n, k, id);
      GoneUntilStale(ss, es, i, n, t, id);
      RunsStayGood(ss, es, t);
      StepKeepsGone(ss[i], ss[t], es[t], id);
      assert ss[t + 1] == Step(ss[t], es[t]);
    }
  }

  lemma {:induction false} FirstStale(ss: seq<State>, es: seq<Event>, i: nat, n: nat, k: nat, id: string)
    returns (t: nat)
    requires Run(ss, es) && i < n < k <= |es|
    requires exists j | n < j < k :: LandsStale(ss[i], ss[j], es[j], id)
    ensures n < t < k && LandsStale(ss[i], ss[t], es[t], id)
    ensures forall j | n < j < t :: !LandsStale(ss[i], ss[j], es[j], id)
  {
    if exists j | n < j < k - 1 :: LandsStale(ss[i], ss[j], es[j], id) {
      t := FirstStale(ss, es, i, n, k - 1, id);
    } else {
      t := k - 1;
    }
  }

  /** The file is one from before `s0`, and loading it lists the id. */
  predicate IsOldFile(s0: State, s: State, id: string) {
    (s.disk.Original? || s.disk.save in s0.snaps) && Revives(OnDisk(s), id)
  }

  lemma OnlyOldFilesRevive(s0: State, s: State, id: string)
    requires GoodState(s) && Cleared(s0, s, id) && !IsOldFile(s0, s, id)
    ensures !Revives(OnDisk(s), id)
  {
    if s.disk.Saved? {
      SavedRevivesItself(s.snaps[s.disk.save], id);
    }
  }

  lemma {:induction false} ClearedWithoutOldFile(ss: seq<State>, es: seq<Event>, i: nat, k: nat, id: string)
    requires Run(ss, es) && i < k <= |es| && es[i] == Remove(id)
    requires forall j | i < j < k :: !ReAdds(es[j], id)
    requires forall t | i < t < k && es[t].Restart? :: !IsOldFile(ss[i], ss[t], id)
    ensures Cleared(ss[i], ss[k], id)
  {
    hide Good, Step, Cleared, GoodState, Initial, IsOldFile, Revives;
    RunsStayGood(ss, es, k - 1);
    assert ss[k] == Step(ss[k - 1], es[k - 1]);
    if k == i + 1 {
      RemovalClears(ss[i], id);
    } else {
      ClearedWithoutOldFile(ss, es, i, k - 1, id);
      if es[k - 1].Restart? {
        OnlyOldFilesRevive(ss[i], ss[k - 1], id);
      }
      StepKeepsCleared(ss[i], ss[k - 1], es[k - 1], id);
    }
  }

  lemma RestartRevives(s: State, e: Event, id: string)
    requires e.Restart? && Revives(OnDisk(s), id)
    ensures Has(Step(s, e).mem.pairs, id)
  {
    RevivesAtAnyTime(OnDisk(s), id, e.now);
  }

  /** A pair that was removed and is not added again comes back exactly with a restart that finds a file from
      before the removal, one that still lists the pair or whose scalars migrate into it: the first file, or one
      that a save wrote from an older snapshot. Whatever else happens before and after. */
  lemma RemovedStaysRemovedIff(ss: seq<State>, es: seq<Event>, i: nat, k: nat, id: string)
    requires Run(ss, es) && i < k <= |es| && es[i] == Remove(id)
    requires forall j | i < j < k :: !ReAdds(es[j], id)
    ensures (forall t | i < t <= k :: !Has(ss[t].mem.pairs, id))
            <==> (forall t | i < t < k && es[t].Restart? :: !IsOldFile(ss[i], ss[t], id))
  {
    hide Good, Initial, Has, Revives;
    if forall t | i < t < k && es[t].Restart? :: !IsOldFile(ss[i], ss[t], id) {
      forall t | i < t <= k
        ensures !Has(ss[t].mem.pairs, id)
      {
        ClearedWithoutOldFile(ss, es, i, t, id);
      }
    } else {
      var t :| i < t < k && es[t].Restart? && IsOldFile(ss[i], ss[t], id);
      assert ss[t + 1] == Step(ss[t], es[t]);
      RestartRevives(ss[t], es[t], id);
    }
    hide Step;
  }

  /** No save that started by `s0` is still under way, and none of their snapshots can land any more. */
  ghost predicate Quiet(s0: State, s: State) {
    && (forall x | x in s0.snaps :: x in s.snaps && x !in s.flight)
    && ((exists x | x in s.flight :: s.flight[x] == Written) ==> s.temp.None? || s.temp.value !in s0.snaps)
  }

  lemma StepKeepsQuiet(s0: State, s: State, e: Event)
    requires Enabled(s, e) && Quiet(s0, s)
    ensures Quiet(s0, Step(s, e))
    ensures Lands(s, e).Some? ==> Lands(s, e).value !in s0.snaps
  {
    if e.Rename? {
      assert s.flight[e.k] == Written;
    }
    var t := Step(s, e);
    if x :| x in t.flight && t.flight[x] == Written && !e.WriteTemp? {
      assert x in s.flight && s.flight[x] == Written;
    }
  }

  lemma {:induction false} StaysQuiet(ss: seq<State>, es: seq<Event>, i: nat, k: nat)
    requires Run(ss, es) && i <= k <= |es| && ss[i].flight == map[]
    ensures Quiet(ss[i], ss[k])
    ensures forall t | i <= t < k && Lands(ss[t], es[t]).Some? :: Lands(ss[t], es[t]).value !in ss[i].snaps
  {
    hide Step, Initial, Lands;
    if i < k {
      StaysQuiet(ss, es, i, k - 1);
      hide Quiet;
      assert ss[k] == Step(ss[k - 1], es[k - 1]);
      StepKeepsQuiet(ss[i], ss[k - 1], es[k - 1]);
    }
  }

  /** If no save was under way at the removal, the first rename after it that moves a file persists it, and the
      pair never comes back unless it is added again. */
  lemma RemovedStaysGoneWhenQuiet(ss: seq<State>, es: seq<Event>, i: nat, n: nat, k: nat, id: string)
    requires Run(ss, es) && i < n < k <= |es| && es[i] == Remove(id) && ss[i].flight == map[]
    requires forall j | i < j < n :: !es[j].Restart?
    requires Lands(ss[n], es[n]).Some?
    requires forall j | i < j < k :: !ReAdds(es[j], id)
    ensures Gone(ss[k], id)
  {
    StaysQuiet(ss, es, i, k);
    GoneUntilStale(ss, es, i, n, k, id);
  }

  /** A save that nothing interrupts puts what is in memory on disk, projected, and a restart loads exactly that. */
  lemma SaveSurvivesRestart(ss: seq<State>, es: seq<Event>, i: nat, now: int)
    requires Run(ss, es) && i + 4 <= |es| && es[i].Marshal?
    requires es[i + 1] == WriteTemp(es[i].k) && es[i + 2] == Rename(es[i].k) && es[i + 3] == Restart(now)
    ensures var saved := OnDisk(ss[i + 3]);
            && saved.pairs == ss[i].mem.pairs && saved.active == ss[i].mem.active && Shows(saved)
            && ss[i + 3].mem == saved && ss[i + 4].mem == saved
  {
    RunsStayGood(ss, es, i);
    ProjectedShows(ss[i].mem);
    LoadedIsSaved(ss[i].mem, now);
    hide Good, Projected, Shows, Synced, Loaded, Initial, Readable;
    FourSteps(ss, es, i, now);
  }

  lemma FourSteps(ss: seq<State>, es: seq<Event>, i: nat, now: int)
    requires Run(ss, es) && i + 4 <= |es| && es[i].Marshal?
    requires es[i + 1] == WriteTemp(es[i].k) && es[i + 2] == Rename(es[i].k) && es[i + 3] == Restart(now)
    ensures OnDisk(ss[i + 3]) == Synced(ss[i].mem) && ss[i + 3].mem == Synced(ss[i].mem)
    ensures ss[i + 4].mem == Loaded(Synced(ss[i].mem), now)
  {
    hide Synced, Loaded, Initial;
    RunStep(ss, es, i);
    RunStep(ss, es, i + 1);
    RunStep(ss, es, i + 2);
    RunStep(ss, es, i + 3);
    hide Run;
  }

  // ---- Whose snapshot a save puts on disk ----

  predicate UsesTemp(e: Event) {
    e.WriteTemp? || e.Rename?
  }

  /** The save has written and not yet renamed. */
  predicate HasWritten(s: State, k: SaveId) {
    k in s.snaps && (k in s.flight ==> s.flight[k] == Written)
  }

  predicate HasReturned(s: State, k: SaveId) {
    k in s.snaps && k !in s.flight
  }

  lemma TempAfterStep(s: State, e: Event, k: SaveId)
    requires Enabled(s, e) && HasWritten(s, k) && e != Rename(k)
    ensures HasWritten(Step(s, e), k)
    ensures Step(s, e).temp == Some(k) <==> s.temp == Some(k) && !UsesTemp(e)
  {
    hide OnDisk, AfterAdd, AfterRemove, AfterSetActive, Loaded, Synced;
  }

  lemma ReturnedStays(s: State, e: Event, k: SaveId)
    requires Enabled(s, e) && HasReturned(s, k)
    ensures HasReturned(Step(s, e), k)
  {
    hide OnDisk, AfterAdd, AfterRemove, AfterSetActive, Loaded, Synced;
  }

  lemma FileStepDone(s: State, k: SaveId)
    requires GoodState(s)
    ensures Enabled(s, WriteTemp(k)) ==>
              HasWritten(Step(s, WriteTemp(k)), k) && Step(s, WriteTemp(k)).temp == Some(k)
    ensures Enabled(s, Rename(k)) ==> HasReturned(Step(s, Rename(k)), k)
  {
    hide Good, Projected, OnDisk;
  }

  lemma RunStep(ss: seq<State>, es: seq<Event>, k: nat)
    requires Run(ss, es) && k < |es|
    ensures |ss| == |es| + 1 && Enabled(ss[k], es[k]) && ss[k + 1] == Step(ss[k], es[k])
  {
    hide Step, Enabled, Initial;
  }

  /** The temporary file holds a save's snapshot exactly until another save writes or renames it. */
  lemma {:induction false} TempIsOwnIff(ss: seq<State>, es: seq<Event>, w: nat, n: nat, k: SaveId)
    requires Run(ss, es) && |ss| == |es| + 1 && w < n <= |es| && es[w] == WriteTemp(k)
    requires forall j | w < j < n :: es[j] != Rename(k)
    ensures HasWritten(ss[n], k) && (ss[n].temp == Some(k) <==> forall j | w < j < n :: !UsesTemp(es[j]))
  {
    hide Run, Step, Enabled, GoodState, HasWritten, UsesTemp, Good, Projected, OnDisk, Readable, Initial;
    RunStep(ss, es, n - 1);
    if n == w + 1 {
      RunsStayGood(ss, es, w);
      FileStepDone(ss[w], k);
    } else {
      TempIsOwnIff(ss, es, w, n - 1, k);
      TempAfterStep(ss[n - 1], es[n - 1], k);
    }
  }

  /** A save whose rename succeeds puts its own snapshot on disk exactly if no other save used the temporary file
      between its write and its rename. */
  lemma SaveLandsItsOwnIff(ss: seq<State>, es: seq<Event>, w: nat, n: nat, k: SaveId)
    requires Run(ss, es) && |ss| == |es| + 1 && w < n < |es| && es[w] == WriteTemp(k) && es[n] == Rename(k)
    ensures Lands(ss[n], es[n]) == Some(k) <==> forall j | w < j < n :: !UsesTemp(es[j])
  {
    hide Run, Step, UsesTemp;
    RunStep(ss, es, n);
    if j :| w < j < n && es[j] == Rename(k) {
      RenamedReturns(ss, es, j, n, k);
    } else {
      TempIsOwnIff(ss, es, w, n, k);
    }
  }

  /** A save renames once. */
  lemma {:induction false} RenamedReturns(ss: seq<State>, es: seq<Event>, j: nat, n: nat, k: SaveId)
    requires Run(ss, es) && |ss| == |es| + 1 && j < n <= |es| && es[j] == Rename(k)
    ensures HasReturned(ss[n], k)
  {
    hide Run, Step, Enabled, GoodState, HasReturned, Good, Projected, OnDisk, Readable, Initial;
    RunStep(ss, es, n - 1);
    if n == j + 1 {
      RunsStayGood(ss, es, j);
      FileStepDone(ss[j], k);
    } else {
      RenamedReturns(ss, es, j, n - 1, k);
      ReturnedStays(ss[n - 1], es[n - 1], k);
    }
  }

  // ---- How a removed pair does come back ----

  const EXAMPLE := ConfigState([Pair("a", "u", "t", "h", PRIMARY, 1)], "a", Scalars("a", "u", "t", "h"))

  lemma ExampleFacts()
    ensures Good(EXAMPLE) && Projected(EXAMPLE) && Loaded(EXAMPLE, 0) == EXAMPLE
    ensures AfterRemove(EXAMPLE, "a") == EMPTY && Synced(EMPTY) == EMPTY && Synced(EXAMPLE) == EXAMPLE
    ensures Has(EXAMPLE.pairs, "a") && !Has(EMPTY.pairs, "a")
  {
    assert Find(EXAMPLE.pairs, "a") == 0;
    assert EXAMPLE.pairs[1..] == [];
    assert Without(EXAMPLE.pairs, "a") == Without([], "a") == [];
  }

  predicate Links(s: State, e: Event, t: State) {
    Enabled(s, e) && t == Step(s, e)
  }

  const TAKEN: map<SaveId, ConfigState> := map[0 := EXAMPLE, 1 := EMPTY]

  /** Save 0 takes its snapshot, the pair is removed, and save 1 gets as far as the temporary file. */
  const BEGUN := [
    State(EXAMPLE, Original(EXAMPLE), None, map[], map[]),
    State(EXAMPLE, Original(EXAMPLE), None, map[0 := EXAMPLE], map[0 := Marshalled]),
    State(EMPTY, Original(EXAMPLE), None, map[0 := EXAMPLE], map[0 := Marshalled]),
    State(EMPTY, Original(EXAMPLE), None, TAKEN, map[0 := Marshalled, 1 := Marshalled]),
    State(EMPTY, Original(EXAMPLE), Some(1), TAKEN, map[0 := Marshalled, 1 := Written])]

  const BEGUN_EVENTS := [Marshal(0), Remove("a"), Marshal(1), WriteTemp(1)]

  lemma ExampleBegins()
    ensures Run(BEGUN, BEGUN_EVENTS)
  {
    ExampleFacts();
    assert Initial(BEGUN[0]) by { hide EMPTY, AfterRemove; }
    hide EXAMPLE, EMPTY, Good, Projected, Loaded, Synced, AfterRemove, Has, Initial;
    assert Links(BEGUN[0], Marshal(0), BEGUN[1]) && Links(BEGUN[1], Remove("a"), BEGUN[2]);
    assert Links(BEGUN[2], Marshal(1), BEGUN[3]) && Links(BEGUN[3], WriteTemp(1), BEGUN[4]);
    hide Links, Step, Enabled;
    forall i | 0 <= i < 4
      ensures Links(BEGUN[i], BEGUN_EVENTS[i], BEGUN[i + 1])
    {
    }
    LinksRun(BEGUN, BEGUN_EVENTS);
  }

  lemma LinksRun(ss: seq<State>, es: seq<Event>)
    requires |ss| == |es| + 1 && Initial(ss[0])
    requires forall i | 0 <= i < |es| :: Links(ss[i], es[i], ss[i + 1])
    ensures Run(ss, es)
  {
    forall i | 0 <= i < |es|
      ensures Enabled(ss[i], es[i]) && ss[i + 1] == Step(ss[i], es[i])
    {
      assert Links(ss[i], es[i], ss[i + 1]);
    }
    hide Step, Enabled, Links;
  }

  lemma Extended(ss: seq<State>, es: seq<Event>, e: Event, t: State)
    requires Run(ss, es) && Links(ss[|es|], e, t)
    ensures Run(ss + [t], es + [e])
  {
    hide Enabled, Step;
    forall i | 0 <= i < |es| + 1
      ensures Links((ss + [t])[i], (es + [e])[i], (ss + [t])[i + 1])
    {
    }
    hide Links;
    LinksRun(ss + [t], es + [e]);
  }

  const LATE := BEGUN + [State(EMPTY, Saved(1), None, TAKEN, map[0 := Marshalled])]
                      + [State(EMPTY, Saved(1), Some(0), TAKEN, map[0 := Written])]
                      + [State(EMPTY, Saved(0), None, TAKEN, map[])]
                      + [State(EXAMPLE, Saved(0), None, TAKEN, map[])]

  const LATE_EVENTS := BEGUN_EVENTS + [Rename(1)] + [WriteTemp(0)] + [Rename(0)] + [Restart(0)]

  lemma LateWriteRuns()
    ensures Run(LATE, LATE_EVENTS)
  {
    ExampleBegins();
    ExampleFacts();
    hide EXAMPLE, EMPTY, Good, Projected, Loaded, Synced, AfterRemove, Has, Revives, Run;
    assert Links(BEGUN[4], Rename(1), LATE[5]) && Links(LATE[5], WriteTemp(0), LATE[6]);
    assert Links(LATE[6], Rename(0), LATE[7]) && Links(LATE[7], Restart(0), LATE[8]);
    hide Links, Step, Enabled;
    var s5, s6, s7, s8 := LATE[5], LATE[6], LATE[7], LATE[8];
    Extended(BEGUN, BEGUN_EVENTS, Rename(1), s5);
    Extended(BEGUN + [s5], BEGUN_EVENTS + [Rename(1)], WriteTemp(0), s6);
    Extended(BEGUN + [s5] + [s6], BEGUN_EVENTS + [Rename(1)] + [WriteTemp(0)], Rename(0), s7);
    Extended(BEGUN + [s5] + [s6] + [s7], BEGUN_EVENTS + [Rename(1)] + [WriteTemp(0)] + [Rename(0)], Restart(0), s8);
    assert LATE == BEGUN + [s5] + [s6] + [s7] + [s8];
  }

  /** A save that took its snapshot before the removal writes it after the removal's own save returned: the
      pair is back on disk, and with the next start in memory. */
  lemma LateWriteExample()
    ensures Run(LATE, LATE_EVENTS) && RemovalLands(LATE, LATE_EVENTS, 1, 4, "a")
    ensures forall j | 1 < j < 8 :: !ReAdds(LATE_EVENTS[j], "a")
    ensures Gone(LATE[5], "a") && 1 !in LATE[5].flight && LandsStale(LATE[1], LATE[6], LATE_EVENTS[6], "a")
    ensures Has(LATE[8].mem.pairs, "a")
  {
    LateWriteRuns();
    ExampleFacts();
    EmptyRevivesNothing("a");
    hide EXAMPLE, EMPTY, Has, Revives, Run;
  }

  lemma EmptyRevivesNothing(id: string)
    ensures !Revives(EMPTY, id)
  {
  }

  /** The temporary file is shared: the removal's own save returns without an error, and what it put on disk is
      the older snapshot. The save that owned that snapshot is the one whose rename fails. */
  lemma SharedTempExample() returns (ss: seq<State>, es: seq<Event>)
    ensures Run(ss, es) && |es| == 6 && es[1] == Remove("a") && es[5] == Rename(1)
    ensures Lands(ss[5], es[5]) == Some(0) && 1 !in ss[6].flight && Revives(OnDisk(ss[6]), "a")
    ensures Enabled(ss[6], Rename(0)) && Lands(ss[6], Rename(0)) == None
  {
    ExampleBegins();
    ExampleFacts();
    hide EXAMPLE, EMPTY, Good, Projected, Loaded, Synced, AfterRemove, Has, Run;
    var s5 := State(EMPTY, Original(EXAMPLE), Some(0), TAKEN, map[0 := Written, 1 := Written]);
    var s6 := State(EMPTY, Saved(0), None, TAKEN, map[0 := Written]);
    assert Links(BEGUN[4], WriteTemp(0), s5) && Links(s5, Rename(1), s6);
    hide Links, Step;
    Extended(BEGUN, BEGUN_EVENTS, WriteTemp(0), s5);
    Extended(BEGUN + [s5], BEGUN_EVENTS + [WriteTemp(0)], Rename(1), s6);
    ss, es := BEGUN + [s5] + [s6], BEGUN_EVENTS + [WriteTemp(0)] + [Rename(1)];
  }

  /** Before any save, a restart migrates the removed pair back from the scalars of the first file. */
  lemma UnsavedRemovalExample() returns (ss: seq<State>, es: seq<Event>)
    ensures Run(ss, es) && es == [Remove("a"), Restart(1)]
    ensures ss[0].disk == Original(ConfigState([], "", EXAMPLE.scalars))
    ensures Has(ss[0].mem.pairs, "a") && !Has(ss[1].mem.pairs, "a") && Has(ss[2].mem.pairs, "a")
  {
    ExampleFacts();
    var legacy := ConfigState([], "", EXAMPLE.scalars);
    assert Loaded(legacy, 1) == EXAMPLE by {
      assert Migrated(legacy, 1) == EXAMPLE.(scalars := legacy.scalars);
    }
    var s0 := State(EXAMPLE, Original(legacy), None, map[], map[]);
    es := [Remove("a"), Restart(1)];
    var s1 := Step(s0, es[0]);
    var s2 := Step(s1, es[1]);
    ss := [s0, s1, s2];
  }
}
