/** The pair list with its legacy projection: list edits, a derived copy of the active pair, saving, and
    migration on reload. */
module PairConfig {
  import opened Machine

  const PRIMARY := "primary"

  /** Creation time 0 is the zero time; a pair without a role gets the primary one. */
  datatype Pair = Pair(id: string, url: string, token: string, hub: string, role: string, createdAt: int)

  /** The legacy scalars. */
  datatype Scalars = Scalars(id: string, url: string, token: string, hub: string)

  const NONE := Scalars("", "", "", "")

  datatype ConfigState = ConfigState(pairs: seq<Pair>, active: string, scalars: Scalars)

  const EMPTY := ConfigState([], "", NONE)

  // ---- Specification ----

  /** The position of the first pair with the id, or the length. */
  function Find(ps: seq<Pair>, id: string): (i: nat)
    ensures i <= |ps| && (i < |ps| ==> ps[i].id == id) && (forall j | 0 <= j < i :: ps[j].id != id)
  {
    if ps == [] || ps[0].id == id then 0 else 1 + Find(ps[1..], id)
  }

  /** One turn of the filter loop. */
  lemma FilterStep(ps: seq<Pair>, list: seq<Pair>, kept: nat, i: nat, id: string)
    requires kept <= i < |list| == |ps| && list[i..] == ps[i..]
    requires list[..kept] + Without(ps[i..], id) == Without(ps, id)
    ensures list[i] == ps[i] && list[i + 1..] == ps[i + 1..]
    ensures if ps[i].id == id then list[..kept] + Without(ps[i + 1..], id) == Without(ps, id)
            else
              var list' := list[kept := ps[i]];
              list'[i + 1..] == ps[i + 1..] && list'[..kept + 1] + Without(ps[i + 1..], id) == Without(ps, id)
  {
    WithoutNext(ps, i, id);
    assert list[i] == list[i..][0] == ps[i..][0] && list[i..][1..] == list[i + 1..] && ps[i..][1..] == ps[i + 1..];
    var rest := Without(ps[i + 1..], id);
    if ps[i].id != id {
      var list' := list[kept := ps[i]];
      assert list'[i + 1..] == list[i + 1..] && list'[..kept + 1] == list[..kept] + [ps[i]];
      assert list[..kept] + ([ps[i]] + rest) == list[..kept] + [ps[i]] + rest;
    } else {
      assert [] + rest == rest;
    }
  }

  lemma WithoutNothing(ps: seq<Pair>, id: string)
    requires ps == []
    ensures Without(ps, id) == []
  {
  }

  lemma WithoutNext(ps: seq<Pair>, i: nat, id: string)
    requires i < |ps|
    ensures Without(ps[i..], id) == (if ps[i].id == id then [] else [ps[i]]) + Without(ps[i + 1..], id)
  {
    assert ps[i..][0] == ps[i] && ps[i..][1..] == ps[i + 1..];
  }

  predicate Has(ps: seq<Pair>, id: string) {
    Find(ps, id) < |ps|
  }

  function ActivePair(c: ConfigState): Option<Pair> {
    if c.active != "" && Has(c.pairs, c.active) then Some(c.pairs[Find(c.pairs, c.active)]) else None
  }

  function ScalarsOf(p: Option<Pair>): Scalars {
    if p.None? then NONE else Scalars(p.value.id, p.value.url, p.value.token, p.value.hub)
  }

  function Synced(c: ConfigState): ConfigState {
    c.(scalars := ScalarsOf(ActivePair(c)))
  }

  function Normal(p: Pair, now: int): Pair {
    p.(role := if p.role == "" then PRIMARY else p.role, createdAt := if p.createdAt == 0 then now else p.createdAt)
  }

  function AfterAdd(c: ConfigState, p: Pair, now: int): ConfigState {
    var q, i := Normal(p, now), Find(c.pairs, p.id);
    var ps := if i < |c.pairs| then c.pairs[i := q.(createdAt := c.pairs[i].createdAt)] else c.pairs + [q];
    if c.active == "" then Synced(ConfigState(ps, p.id, c.scalars)) else c.(pairs := ps)
  }

  function AfterSetActive(c: ConfigState, id: string): (ConfigState, bool) {
    if Has(c.pairs, id) then (Synced(c.(active := id)), true) else (c, false)
  }

  function Without(ps: seq<Pair>, id: string): seq<Pair> {
    if ps == [] then []
    else if ps[0].id == id then Without(ps[1..], id)
    else [ps[0]] + Without(ps[1..], id)
  }

  function AfterRemove(c: ConfigState, id: string): ConfigState {
    var ps := Without(c.pairs, id);
    if c.active == id then Synced(ConfigState(ps, if ps == [] then "" else ps[0].id, c.scalars))
    else c.(pairs := ps)
  }

  function Migrated(c: ConfigState, now: int): ConfigState {
    var s := c.scalars;
    if c.pairs != [] || s.url == "" || s.id == "" || s.token == "" then c
    else ConfigState([Pair(s.id, s.url, s.token, s.hub, PRIMARY, now)], s.id, s)
  }

  function Loaded(c: ConfigState, now: int): ConfigState {
    Synced(Migrated(c, now))
  }

  // ---- The object ----

  class Config {
    var pairs: seq<Pair>
    var active: string
    var scalars: Scalars

    ghost function State(): ConfigState
      reads this
    {
      ConfigState(pairs, active, scalars)
    }

    constructor (c: ConfigState)
      ensures State() == c
    {
      pairs, active, scalars := c.pairs, c.active, c.scalars;
    }

    method Locate(id: string) returns (i: nat)
      ensures i == Find(pairs, id)
    {
      i := 0;
      while i < |pairs| && pairs[i].id != id
        invariant i <= |pairs|
        invariant Find(pairs, id) == i + Find(pairs[i..], id)
      {
        i := i + 1;
      }
    }

    method SyncLegacyFromActive()
      modifies this`scalars
      ensures State() == Synced(old(State()))
    {
      var i := Locate(active);
      if active == "" || i == |pairs| {
        scalars := NONE;
      } else {
        scalars := Scalars(pairs[i].id, pairs[i].url, pairs[i].token, pairs[i].hub);
      }
    }

    method AddOrUpdatePair(pair: Pair, now: int)
      modifies this
      ensures State() == AfterAdd(old(State()), pair, now)
    {
      var p := pair;
      if p.role == "" {
        p := p.(role := PRIMARY);
      }
      if p.createdAt == 0 {
        p := p.(createdAt := now);
      }
      var i := Locate(p.id);
      if i < |pairs| {
        pairs := pairs[i := p.(createdAt := pairs[i].createdAt)];
      } else {
        pairs := pairs + [p];
      }
      if active == "" {
        active := p.id;
        SyncLegacyFromActive();
      }
    }

    method SetActive(id: string) returns (ok: bool)
      modifies this
      ensures (State(), ok) == AfterSetActive(old(State()), id)
    {
      var i := Locate(id);
      if i == |pairs| {
        return false;
      }
      active := id;
      SyncLegacyFromActive();
      return true;
    }

    /** The filter writes the kept pairs over the front of the same list. */
    method FilterOut(id: string)
      modifies this`pairs
      ensures pairs == Without(old(pairs), id)
    {
      var list, kept, i := pairs, 0, 0;
      assert pairs[0..] == pairs && list[..0] + Without(pairs, id) == Without(pairs, id);
      while i < |list|
        invariant pairs == old(pairs) && 0 <= kept <= i <= |list| == |pairs|
        invariant list[i..] == pairs[i..]
        invariant list[..kept] + Without(pairs[i..], id) == Without(pairs, id)
      {
        FilterStep(pairs, list, kept, i, id);
        var p := list[i];
        if p.id != id {
          list := list[kept := p];
          kept := kept + 1;
        }
        i := i + 1;
      }
      WithoutNothing(pairs[i..], id);
      assert list[..kept] + Without(pairs[i..], id) == list[..kept];
      pairs := list[..kept];
    }

    method RemovePair(id: string)
      modifies this
      ensures State() == AfterRemove(old(State()), id)
    {
      FilterOut(id);
      if active == id {
        active := "";
        if |pairs| > 0 {
          active := pairs[0].id;
        }
        SyncLegacyFromActive();
      }
    }

    /** What Save does under the lock: project, and take a snapshot. */
    method Marshal() returns (snapshot: ConfigState)
      modifies this`scalars
      ensures State() == Synced(old(State())) && snapshot == State()
    {
      SyncLegacyFromActive();
      snapshot := ConfigState(pairs, active, scalars);
    }

    method Load(now: int)
      modifies this
      ensures State() == Loaded(old(State()), now)
    {
      if pairs == [] && scalars.url != "" && scalars.id != "" && scalars.token != "" {
        pairs := [Pair(scalars.id, scalars.url, scalars.token, scalars.hub, PRIMARY, now)];
        active := scalars.id;
      }
      SyncLegacyFromActive();
    }
  }

  // ---- Invariants ----

  /** Ids are distinct and non-empty, and the active id is empty exactly when the list is, else listed. */
  ghost predicate Good(c: ConfigState) {
    && (forall i, j | 0 <= i < j < |c.pairs| :: c.pairs[i].id != c.pairs[j].id)
    && (forall i | 0 <= i < |c.pairs| :: c.pairs[i].id != "")
    && (if c.pairs == [] then c.active == "" else Has(c.pairs, c.active))
  }

  predicate Projected(c: ConfigState) {
    c == Synced(c)
  }

  lemma AddKeepsGood(c: ConfigState, p: Pair, now: int)
    requires Good(c) && p.id != ""
    ensures Good(AfterAdd(c, p, now)) && Has(AfterAdd(c, p, now).pairs, p.id)
  {
    var ps, i := AfterAdd(c, p, now).pairs, Find(c.pairs, p.id);
    assert i < |ps| && ps[i].id == p.id;
    if c.active != "" {
      assert ps[Find(c.pairs, c.active)].id == c.active;
    }
  }

  lemma {:induction false} WithoutIsFilter(ps: seq<Pair>, id: string)
    ensures |Without(ps, id)| <= |ps|
    ensures forall q :: q in Without(ps, id) <==> q in ps && q.id != id
    ensures (forall i, j | 0 <= i < j < |ps| :: ps[i].id != ps[j].id) ==>
              forall i, j | 0 <= i < j < |Without(ps, id)| :: Without(ps, id)[i].id != Without(ps, id)[j].id
  {
    if ps != [] {
      WithoutIsFilter(ps[1..], id);
      var rest := Without(ps[1..], id);
      assert forall q :: q in ps <==> q == ps[0] || q in ps[1..];
      if ps[0].id != id {
        assert forall q :: q in [ps[0]] + rest <==> q == ps[0] || q in rest;
        if forall i, j | 0 <= i < j < |ps| :: ps[i].id != ps[j].id {
          forall j | 0 <= j < |rest|
            ensures rest[j].id != ps[0].id
          {
            assert rest[j] in ps[1..];
          }
        }
      }
    }
  }

  lemma HasIff(ps: seq<Pair>, id: string)
    ensures Has(ps, id) <==> exists q :: q in ps && q.id == id
  {
    if Has(ps, id) {
      assert ps[Find(ps, id)] in ps;
    }
  }

  lemma RemoveKeepsGood(c: ConfigState, id: string)
    requires Good(c)
    ensures Good(AfterRemove(c, id)) && !Has(AfterRemove(c, id).pairs, id)
    ensures forall other | other != id :: Has(AfterRemove(c, id).pairs, other) <==> Has(c.pairs, other)
  {
    var d := AfterRemove(c, id);
    WithoutIsFilter(c.pairs, id);
    forall other
      ensures Has(d.pairs, other) <==> other != id && Has(c.pairs, other)
    {
      HasIff(d.pairs, other);
      HasIff(c.pairs, other);
    }
    forall i | 0 <= i < |d.pairs|
      ensures d.pairs[i].id != ""
    {
      assert d.pairs[i] in c.pairs;
    }
    if d.pairs != [] {
      assert Find(d.pairs, d.pairs[0].id) == 0;
      if c.active != id {
        assert c.pairs != [] by { assert d.pairs[0] in c.pairs; }
      }
    } else if c.pairs != [] {
      assert Has(c.pairs, c.active);
    }
  }

  /** A saved configuration is loaded back unchanged: the migration finds nothing to revive. */
  lemma LoadedIsSaved(c: ConfigState, now: int)
    requires Good(c)
    ensures Loaded(Synced(c), now) == Synced(c) && Projected(Synced(c)) && Good(Synced(c))
  {
  }

  /** The first load of a file from before the list existed promotes its scalars, if they are complete. */
  lemma LegacyIsPromoted(s: Scalars, now: int)
    ensures var c := Loaded(ConfigState([], "", s), now);
            && Good(c) && Projected(c)
            && (s.url != "" && s.id != "" && s.token != "" ==> c.scalars == s && |c.pairs| == 1)
            && (s.url == "" || s.id == "" || s.token == "" ==> c == EMPTY)
  {
    var c := Migrated(ConfigState([], "", s), now);
    if c.pairs != [] {
      assert Find(c.pairs, s.id) == 0;
    }
  }

  /** Adding leaves the scalars out of date exactly when it changes the coordinates of the active pair; the
      next save repairs that. */
  lemma AddKeepsProjectionIff(c: ConfigState, p: Pair, now: int)
    requires Good(c) && Projected(c) && p.id != ""
    ensures Projected(AfterAdd(c, p, now))
            <==> !(p.id == c.active && Scalars(p.id, p.url, p.token, p.hub) != c.scalars)
  {
    AddProjectsIff(c, p, now);
  }

  lemma AddKeepsPositions(ps: seq<Pair>, qs: seq<Pair>, id: string)
    requires |ps| <= |qs| && (forall i | 0 <= i < |ps| :: ps[i].id == qs[i].id) && Has(ps, id)
    ensures Find(qs, id) == Find(ps, id)
  {
  }

  /** A configuration whose active pair was just updated, with the scalars still showing the old token. */
  lemma StaleExample(now: int)
    ensures var p := Pair("a", "u", "old", "h", PRIMARY, 1);
            var c := ConfigState([p], "a", Scalars("a", "u", "old", "h"));
            var d := AfterAdd(c, p.(token := "new"), now);
            && Good(c) && Projected(c)
            && d.active == "a" && d.pairs[0].token == "new" && d.scalars.token == "old" && !Projected(d)
  {
    var p := Pair("a", "u", "old", "h", PRIMARY, 1);
    assert Find([p], "a") == 0;
    var d := AfterAdd(ConfigState([p], "a", Scalars("a", "u", "old", "h")), p.(token := "new"), now);
    assert d.pairs[0].id == "a" && Find(d.pairs, "a") == 0;
  }

  /** After adding, for projected and for stale scalars alike. */
  lemma AddProjectsIff(c: ConfigState, p: Pair, now: int)
    requires Good(c) && p.id != ""
    ensures Projected(AfterAdd(c, p, now))
            <==> || c.active == ""
                 || (if p.id == c.active then Scalars(p.id, p.url, p.token, p.hub) == c.scalars else Projected(c))
  {
    var d := AfterAdd(c, p, now);
    AddKeepsGood(c, p, now);
    if c.active != "" {
      assert d.pairs[Find(c.pairs, c.active)].id == c.active;
      assert Find(d.pairs, c.active) == Find(c.pairs, c.active) by { AddKeepsPositions(c.pairs, d.pairs, c.active); }
    }
  }

  /** After removing: the active pair's removal projects anew, any other leaves the scalars as they are. */
  lemma RemoveProjectsIff(c: ConfigState, id: string)
    requires Good(c)
    ensures Projected(AfterRemove(c, id)) <==> id == c.active || Projected(c)
  {
    var d := AfterRemove(c, id);
    if id != c.active {
      RemoveKeepsGood(c, id);
      WithoutIsFilter(c.pairs, id);
      if c.pairs != [] {
        var p, q := c.pairs[Find(c.pairs, c.active)], d.pairs[Find(d.pairs, c.active)];
        assert q in d.pairs && q in c.pairs && p in c.pairs && p.id == q.id;
        assert p == q;
      }
    }
  }

  /** After selecting: a listed id projects anew, an unlisted one changes nothing. */
  lemma ActivateProjectsIff(c: ConfigState, id: string)
    ensures Projected(AfterSetActive(c, id).0) <==> Has(c.pairs, id) || Projected(c)
  {
  }

  // ---- What each edit means ----

  /** The pair is listed under its id, and is the first that is. */
  predicate IsListed(ps: seq<Pair>, p: Pair) {
    exists i :: 0 <= i < |ps| && ps[i] == p && forall j | 0 <= j < i :: ps[j].id != p.id
  }

  /** The scalars are the fields of the listed active pair, or all empty when there is none. */
  ghost predicate Shows(c: ConfigState) {
    if exists p :: IsListed(c.pairs, p) && p.id == c.active && c.active != "" then
      forall p | IsListed(c.pairs, p) && p.id == c.active ::
        c.scalars.id == p.id && c.scalars.url == p.url && c.scalars.token == p.token && c.scalars.hub == p.hub
    else c.scalars.id == "" && c.scalars.url == "" && c.scalars.token == "" && c.scalars.hub == ""
  }

  lemma FoundIsListed(ps: seq<Pair>, p: Pair)
    ensures IsListed(ps, p) <==> Has(ps, p.id) && ps[Find(ps, p.id)] == p
  {
    if IsListed(ps, p) {
      var i :| 0 <= i < |ps| && ps[i] == p && forall j | 0 <= j < i :: ps[j].id != p.id;
      assert Find(ps, p.id) == i;
    }
  }

  /** A configuration is projected exactly if its scalars show the active pair; projecting changes them only. */
  lemma ProjectedShows(c: ConfigState)
    ensures Projected(c) <==> Shows(c)
    ensures Synced(c).pairs == c.pairs && Synced(c).active == c.active && Shows(Synced(c))
  {
    forall p
      ensures IsListed(c.pairs, p) <==> Has(c.pairs, p.id) && c.pairs[Find(c.pairs, p.id)] == p
    {
      FoundIsListed(c.pairs, p);
    }
    if c.active != "" && Has(c.pairs, c.active) {
      var p := c.pairs[Find(c.pairs, c.active)];
      assert IsListed(c.pairs, p) && p.id == c.active;
    }
    hide IsListed;
  }

  lemma HasMeans(ps: seq<Pair>, id: string)
    ensures Has(ps, id) <==> exists p :: IsListed(ps, p) && p.id == id
  {
    if Has(ps, id) {
      FoundIsListed(ps, ps[Find(ps, id)]);
    }
    if p :| IsListed(ps, p) && p.id == id {
      FoundIsListed(ps, p);
    }
    hide IsListed;
  }

  /** Selecting succeeds exactly for a listed id; then that id is active, the scalars show its pair, and the list is
      as before. Otherwise nothing changes. */
  lemma SetActiveSelects(c: ConfigState, id: string)
    ensures var (d, ok) := AfterSetActive(c, id);
            && (ok <==> exists p :: IsListed(c.pairs, p) && p.id == id)
            && d.pairs == c.pairs && (ok ==> d.active == id && Shows(d)) && (!ok ==> d == c)
  {
    HasMeans(c.pairs, id);
    ProjectedShows(c.(active := id));
    hide Synced, Shows, IsListed;
  }

  /** The pair that is listed after adding: the given coordinates, the primary role if none was given, and the
      creation time it had before, or the given one, or now. */
  predicate IsAdded(c: ConfigState, p: Pair, now: int, q: Pair) {
    && q.id == p.id && q.url == p.url && q.token == p.token && q.hub == p.hub
    && q.role == (if p.role == "" then "primary" else p.role)
    && (if Has(c.pairs, p.id) then q.createdAt == c.pairs[Find(c.pairs, p.id)].createdAt
        else q.createdAt == if p.createdAt == 0 then now else p.createdAt)
  }

  /** Adding lists the given pair under its id, in the place the id had or else at the end; every other pair and its
      place stay. The active id changes only from none to this one, and then the scalars show it. */
  lemma AddLists(c: ConfigState, p: Pair, now: int)
    ensures var d, i := AfterAdd(c, p, now), Find(c.pairs, p.id);
            && i < |d.pairs| && IsAdded(c, p, now, d.pairs[i]) && IsListed(d.pairs, d.pairs[i])
            && |d.pairs| == (if i < |c.pairs| then |c.pairs| else |c.pairs| + 1)
            && (forall j | 0 <= j < |c.pairs| && j != i :: d.pairs[j] == c.pairs[j])
            && d.active == (if c.active == "" then p.id else c.active)
            && (c.active == "" ==> Shows(d)) && (c.active != "" ==> d.scalars == c.scalars)
  {
    var d, i := AfterAdd(c, p, now), Find(c.pairs, p.id);
    ProjectedShows(d.(active := p.id));
    ProjectedShows(d);
    assert d.pairs[i].id == p.id && forall j | 0 <= j < i :: d.pairs[j] == c.pairs[j];
    hide Shows;
  }

  /** Removing keeps exactly the pairs with other ids, in their order. If the removed one was active, the first that
      remains is, or none, and the scalars show it; else active id and scalars stay. */
  lemma RemoveDrops(c: ConfigState, id: string)
    ensures var d := AfterRemove(c, id);
            && (forall q :: q in d.pairs <==> q in c.pairs && q.id != id)
            && InOrder(d.pairs, c.pairs)
            && d.active == (if c.active != id then c.active else if d.pairs == [] then "" else d.pairs[0].id)
            && (if c.active == id then Shows(d) else d.scalars == c.scalars)
  {
    var d := AfterRemove(c, id);
    WithoutIsFilter(c.pairs, id);
    WithoutInOrder(c.pairs, id);
    ProjectedShows(d);
    ProjectedShows(ConfigState(d.pairs, d.active, c.scalars));
    hide Shows, Without;
  }

  /** One list is what remains of another after dropping some of its elements. */
  predicate InOrder(part: seq<Pair>, all: seq<Pair>) {
    if part == [] then true
    else if all == [] then false
    else if part[0] == all[0] then InOrder(part[1..], all[1..])
    else InOrder(part, all[1..])
  }

  lemma {:induction false} WithoutInOrder(ps: seq<Pair>, id: string)
    ensures InOrder(Without(ps, id), ps)
  {
    if ps != [] {
      WithoutInOrder(ps[1..], id);
      var rest := Without(ps[1..], id);
      if ps[0].id == id {
        if rest != [] {
          WithoutIsFilter(ps[1..], id);
          assert rest[0] in rest;
        }
      } else {
        assert ([ps[0]] + rest)[1..] == rest;
      }
    }
  }

  /** Loading promotes complete scalars of a file without a list to one active, primary pair created now; any other
      file keeps its list. The scalars show the active pair afterwards. */
  lemma LoadPromotes(c: ConfigState, now: int)
    ensures var d := Loaded(c, now);
            && Shows(d)
            && if c.pairs == [] && c.scalars.url != "" && c.scalars.id != "" && c.scalars.token != "" then
                 d.pairs == [Pair(c.scalars.id, c.scalars.url, c.scalars.token, c.scalars.hub, "primary", now)]
                 && d.active == c.scalars.id
               else d.pairs == c.pairs && d.active == c.active
  {
    ProjectedShows(Migrated(c, now));
    hide Shows;
  }
}
