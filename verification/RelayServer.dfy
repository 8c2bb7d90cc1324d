/** The relay server: which extension connection is the active one, and how callers that wait for one get it. */
module RelayServer {
  import opened Machine

  /** One accepted WebSocket, with its handler and the client built over it. */
  type Conn = nat

  /** One call of WaitForClient that found no usable client, and with it the channel it made. */
  type Waiter = nat

  /** A channel of capacity one. */
  datatype Channel = Channel(buffer: Option<Conn>, closed: bool)

  /** The mutex-guarded fields, and the clients whose closed flag is set. */
  datatype Guarded = Guarded(client: Option<Conn>, waiters: seq<Waiter>, closed: set<Conn>)

  function Usable(g: Guarded): Option<Conn> {
    if g.client.Some? && g.client.value !in g.closed then g.client else None
  }

  function Awaited(g: Guarded, w: Waiter): Guarded {
    if Usable(g).Some? then g else g.(waiters := g.waiters + [w])
  }

  function Installed(g: Guarded, c: Conn): Guarded {
    Guarded(Some(c), [], if g.client.Some? then g.closed + {g.client.value} else g.closed)
  }

  function Removed(g: Guarded, c: Conn): Guarded {
    if g.client == Some(c) then g.(client := None) else g
  }

  class Server {
    var client: Option<Conn>
    var waiters: seq<Waiter>
    var closed: set<Conn>

    ghost function State(): Guarded
      reads this
    {
      Guarded(client, waiters, closed)
    }

    constructor ()
      ensures State() == Guarded(None, [], {})
    {
      client, waiters, closed := None, [], {};
    }

    /** The critical section of WaitForClient. */
    method Await(w: Waiter) returns (r: Option<Conn>)
      modifies this
      ensures State() == Awaited(old(State()), w) && r == Usable(old(State()))
    {
      if client.Some? && client.value !in closed {
        return client;
      }
      waiters := waiters + [w];
      r := None;
    }

    method Client() returns (r: Option<Conn>)
      ensures r == Usable(State())
    {
      r := if client.Some? && client.value !in closed then client else None;
    }

    /** The first critical section of the handler: displace, install, take the waiters. */
    method Install(c: Conn) returns (served: seq<Waiter>)
      modifies this
      ensures State() == Installed(old(State()), c) && served == old(waiters)
    {
      if client.Some? {
        closed := closed + {client.value};
      }
      client, served, waiters := Some(c), waiters, [];
    }

    /** The last critical section of the handler. */
    method Remove(c: Conn)
      modifies this
      ensures State() == Removed(old(State()), c)
    {
      if client == Some(c) {
        client := None;
      }
    }
  }

  // ---- Runs ----

  datatype Wait = Waiting | Got(conn: Conn) | Cancelled | RelayClosed

  /** The program points of a handler after it installed its client. */
  datatype Handler =
    | Serving(rest: seq<Waiter>)
    | Closing(rest: seq<Waiter>)  // has sent to rest[0], will close its channel
    | Reading
    | Ended
    | Done

  datatype System = System(
    guarded: Guarded, chans: map<Waiter, Channel>, waits: map<Waiter, Wait>, handlers: map<Conn, Handler>,
    panicked: bool)

  const START := System(Guarded(None, [], {}), map[], map[], map[], false)

  datatype Event =
    | Await(w: Waiter)
    | Receive(w: Waiter)
    | GiveUp(w: Waiter)
    | Install(c: Conn)
    | Offer(c: Conn)       // the handler's next send to a waiter, or the end of that loop
    | CloseChannel(c: Conn)
    | ReadFails(c: Conn)   // the read loop ends and marks the client closed
    | CloseClient(c: Conn) // any holder of the client closes it
    | Remove(c: Conn)

  predicate Enabled(s: System, e: Event) {
    match e
    case Await(w) => w !in s.waits
    case Receive(w) =>
      w in s.waits && s.waits[w].Waiting? && w in s.chans && (s.chans[w].buffer.Some? || s.chans[w].closed)
    case GiveUp(w) => w in s.waits && s.waits[w].Waiting?
    case Install(c) => c !in s.handlers && c !in s.guarded.closed
    case Offer(c) =>
      c in s.handlers && s.handlers[c].Serving? && (s.handlers[c].rest == [] || s.handlers[c].rest[0] in s.chans)
    case CloseChannel(c) =>
      c in s.handlers && s.handlers[c].Closing? && s.handlers[c].rest != [] && s.handlers[c].rest[0] in s.chans
    case ReadFails(c) => c in s.handlers && s.handlers[c].Reading?
    case CloseClient(c) => c in s.handlers
    case Remove(c) => c in s.handlers && s.handlers[c].Ended?
  }

  function At(s: System, c: Conn, h: Handler): System {
    s.(handlers := s.handlers[c := h])
  }

  function Step(s: System, e: Event): System
    requires Enabled(s, e)
  {
    match e
    case Await(w) =>
      var found := Usable(s.guarded);
      if found.Some? then s.(waits := s.waits[w := Got(found.value)])
      else
        s.(guarded := Awaited(s.guarded, w), waits := s.waits[w := Waiting],
           chans := s.chans[w := Channel(None, false)])
    case Receive(w) =>
      var b := s.chans[w].buffer;
      if b.Some? then
        s.(waits := s.waits[w := Got(b.value)], chans := s.chans[w := s.chans[w].(buffer := None)])
      else s.(waits := s.waits[w := RelayClosed])
    case GiveUp(w) => s.(waits := s.waits[w := Cancelled])
    case Install(c) => At(s, c, Serving(s.guarded.waiters)).(guarded := Installed(s.guarded, c))
    case Offer(c) =>
      var rest := s.handlers[c].rest;
      if rest == [] then At(s, c, Reading)
      else
        var ch := s.chans[rest[0]];
        At(s, c, Closing(rest))
          .(panicked := s.panicked || ch.closed,
            chans := if ch.closed || ch.buffer.Some? then s.chans else s.chans[rest[0] := ch.(buffer := Some(c))])
    case CloseChannel(c) =>
      var rest := s.handlers[c].rest;
      var ch := s.chans[rest[0]];
      At(s, c, Serving(rest[1..]))
        .(panicked := s.panicked || ch.closed, chans := s.chans[rest[0] := ch.(closed := true)])
    case ReadFails(c) => At(s, c, Ended).(guarded := s.guarded.(closed := s.guarded.closed + {c}))
    case CloseClient(c) => s.(guarded := s.guarded.(closed := s.guarded.closed + {c}))
    case Remove(c) => At(s, c, Done).(guarded := Removed(s.guarded, c))
  }

  // ---- The invariant ----

  /** The waiters still to be dealt with at a place: the server's own list, or a handler's. */
  function Queue(s: System, place: Option<Conn>): seq<Waiter> {
    if place.None? then s.guarded.waiters
    else if place.value in s.handlers && (s.handlers[place.value].Serving? || s.handlers[place.value].Closing?) then
      s.handlers[place.value].rest
    else []
  }

  predicate QueuedAt(s: System, place: Option<Conn>, i: int) {
    0 <= i < |Queue(s, place)|
  }

  /** Already sent to, about to be closed. */
  predicate Offered(s: System, place: Option<Conn>, i: int) {
    place.Some? && place.value in s.handlers && s.handlers[place.value].Closing? && i == 0
  }

  ghost predicate QueuesDisjoint(s: System) {
    forall p, q, i, j | QueuedAt(s, p, i) && QueuedAt(s, q, j) && Queue(s, p)[i] == Queue(s, q)[j] :: p == q && i == j
  }

  ghost predicate QueuesOpen(s: System) {
    forall p, i | QueuedAt(s, p, i) ::
      var w := Queue(s, p)[i];
      && w in s.chans && w in s.waits && !s.chans[w].closed
      && (!Offered(s, p, i) ==> s.chans[w].buffer.None? && (s.waits[w].Waiting? || s.waits[w].Cancelled?))
  }

  ghost predicate Pending(s: System, w: Waiter) {
    exists p, i :: QueuedAt(s, p, i) && Queue(s, p)[i] == w && !Offered(s, p, i)
  }

  /** A call that waits with nothing in its channel is still in some queue. */
  ghost predicate NobodyForgotten(s: System) {
    forall w | w in s.waits && s.waits[w].Waiting? :: w in s.chans && (s.chans[w].buffer.None? ==> Pending(s, w))
  }

  ghost predicate ClientsGood(s: System) {
    && (s.guarded.client.Some? ==> s.guarded.client.value in s.handlers && !s.handlers[s.guarded.client.value].Done?)
    && (forall c | c in s.handlers && c !in s.guarded.closed :: s.guarded.client == Some(c))
    && (forall c | c in s.handlers && (s.handlers[c].Ended? || s.handlers[c].Done?) :: c in s.guarded.closed)
    && (s.guarded.waiters != [] ==> Usable(s.guarded).None?)
  }

  ghost predicate ResultsGood(s: System) {
    && s.chans.Keys <= s.waits.Keys
    && (forall w | w in s.chans && s.chans[w].buffer.Some? :: s.chans[w].buffer.value in s.handlers)
    && (forall w | w in s.waits ::
          s.waits[w] != RelayClosed && (s.waits[w].Got? ==> s.waits[w].conn in s.handlers))
    && (forall c | c in s.handlers && s.handlers[c].Closing? :: s.handlers[c].rest != [])
    && !s.panicked
  }

  ghost predicate Good(s: System) {
    ResultsGood(s) && QueuesDisjoint(s) && QueuesOpen(s) && NobodyForgotten(s) && ClientsGood(s)
  }

  lemma StepKeepsClients(s: System, e: Event)
    requires Good(s) && Enabled(s, e)
    ensures ClientsGood(Step(s, e))
  {
    hide QueuesDisjoint, QueuesOpen, NobodyForgotten;
  }

  lemma StepKeepsResults(s: System, e: Event)
    requires Good(s) && Enabled(s, e)
    ensures ResultsGood(Step(s, e))
  {
    hide QueuesDisjoint;
    if e.Offer? || e.CloseChannel? {
      if s.handlers[e.c].rest != [] {
        assert QueuedAt(s, Some(e.c), 0) && Queue(s, Some(e.c))[0] == s.handlers[e.c].rest[0];
      }
    }
  }

  /** The queue at a place before the step: the same waiters, one position further when the step drops the head. */
  lemma QueueAfter(s: System, e: Event, p: Option<Conn>, i: int)
    requires Good(s) && Enabled(s, e) && QueuedAt(Step(s, e), p, i)
    ensures var w := Queue(Step(s, e), p)[i];
            || (e == Await(w) && p == None && i == |s.guarded.waiters|)
            || (exists q, j :: QueuedAt(s, q, j) && Queue(s, q)[j] == w
                               && q == (if e.Install? && p == Some(e.c) then None else p)
                               && j == (if e.CloseChannel? && p == Some(e.c) then i + 1 else i))
  {
    hide QueuesDisjoint, QueuesOpen, NobodyForgotten, ClientsGood, ResultsGood;
    var q := if e.Install? && p == Some(e.c) then None else p;
    var j := if e.CloseChannel? && p == Some(e.c) then i + 1 else i;
    if !(e.Await? && p == None && i == |s.guarded.waiters|) {
      assert QueuedAt(s, q, j) && Queue(s, q)[j] == Queue(Step(s, e), p)[i];
    }
  }

  lemma StepKeepsDisjoint(s: System, e: Event)
    requires Good(s) && Enabled(s, e)
    ensures QueuesDisjoint(Step(s, e))
  {
    var t := Step(s, e);
    forall p, q, i, j | QueuedAt(t, p, i) && QueuedAt(t, q, j) && Queue(t, p)[i] == Queue(t, q)[j]
      ensures p == q && i == j
    {
      QueueAfter(s, e, p, i);
      QueueAfter(s, e, q, j);
      hide ClientsGood, ResultsGood, NobodyForgotten;
      if e.Install? {
        assert Queue(t, None) == [];
      }
    }
  }

  /** What QueuesOpen says of one position. */
  predicate OpenAt(s: System, p: Option<Conn>, i: int)
    requires QueuedAt(s, p, i)
  {
    var w := Queue(s, p)[i];
    && w in s.chans && w in s.waits && !s.chans[w].closed
    && (!Offered(s, p, i) ==> s.chans[w].buffer.None? && (s.waits[w].Waiting? || s.waits[w].Cancelled?))
  }

  /** A waiter that was queued at `q`, `j` and is now at `p`, `i`. */
  lemma StaysOpen(s: System, e: Event, q: Option<Conn>, j: int, p: Option<Conn>, i: int)
    requires Enabled(s, e) && QueuedAt(s, q, j) && OpenAt(s, q, j) && QueuedAt(Step(s, e), p, i)
    requires Queue(s, q)[j] == Queue(Step(s, e), p)[i]
    requires q == (if e.Install? && p == Some(e.c) then None else p)
    requires j == (if e.CloseChannel? && p == Some(e.c) then i + 1 else i)
    requires (e.CloseChannel? || e.Offer?) && s.handlers[e.c].rest != []
               && s.handlers[e.c].rest[0] == Queue(s, q)[j] ==>
               q == Some(e.c) && j == 0
    requires e.Await? ==> Queue(s, q)[j] != e.w
    ensures OpenAt(Step(s, e), p, i)
  {
    hide Usable, Awaited, Installed, Removed;
  }

  lemma StepKeepsOpen(s: System, e: Event)
    requires Good(s) && Enabled(s, e)
    ensures QueuesOpen(Step(s, e))
  {
    var t := Step(s, e);
    forall p, i | QueuedAt(t, p, i)
      ensures OpenAt(t, p, i)
    {
      QueueAfter(s, e, p, i);
      hide ClientsGood, NobodyForgotten, ResultsGood, Step;
      if e == Await(Queue(t, p)[i]) {
        NewWaiterIsOpen(s, e.w, p, i);
      } else {
        var q := if e.Install? && p == Some(e.c) then None else p;
        var j := if e.CloseChannel? && p == Some(e.c) then i + 1 else i;
        assert QueuedAt(s, q, j) && OpenAt(s, q, j);
        if (e.CloseChannel? || e.Offer?) && s.handlers[e.c].rest != [] {
          assert QueuedAt(s, Some(e.c), 0) && Queue(s, Some(e.c))[0] == s.handlers[e.c].rest[0];
        }
        StaysOpen(s, e, q, j, p, i);
      }
    }
  }

  lemma NewWaiterIsOpen(s: System, w: Waiter, p: Option<Conn>, i: int)
    requires Good(s) && Enabled(s, Await(w))
    requires QueuedAt(Step(s, Await(w)), p, i) && Queue(Step(s, Await(w)), p)[i] == w
    ensures OpenAt(Step(s, Await(w)), p, i)
  {
    QueueAfter(s, Await(w), p, i);
    hide ClientsGood, NobodyForgotten, QueuesDisjoint;
  }

  lemma StepKeepsPending(s: System, e: Event, w: Waiter)
    requires Good(s) && Enabled(s, e) && Pending(s, w)
    requires !(e.Offer? && s.handlers[e.c].rest != [] && s.handlers[e.c].rest[0] == w)
    ensures Pending(Step(s, e), w)
  {
    hide ClientsGood, NobodyForgotten, QueuesDisjoint, QueuesOpen, ResultsGood;
    var t := Step(s, e);
    var p, i :| QueuedAt(s, p, i) && Queue(s, p)[i] == w && !Offered(s, p, i);
    var q := if e.Install? && p == None then Some(e.c) else p;
    var j := if e.CloseChannel? && p == Some(e.c) then i - 1 else i;
    assert QueuedAt(t, q, j) && Queue(t, q)[j] == w && !Offered(t, q, j);
  }

  lemma StepForgetsNobody(s: System, e: Event)
    requires Good(s) && Enabled(s, e)
    ensures NobodyForgotten(Step(s, e))
  {
    var t := Step(s, e);
    forall w | w in t.waits && t.waits[w].Waiting?
      ensures w in t.chans && (t.chans[w].buffer.None? ==> Pending(t, w))
    {
      if e == Await(w) {
        assert QueuedAt(t, None, |s.guarded.waiters|) && Queue(t, None)[|s.guarded.waiters|] == w;
      } else {
        if e.Offer? && s.handlers[e.c].rest != [] {
          assert QueuedAt(s, Some(e.c), 0) && Queue(s, Some(e.c))[0] == s.handlers[e.c].rest[0];
        }
        hide ClientsGood, QueuesDisjoint;
        if Pending(s, w) && !(e.Offer? && s.handlers[e.c].rest != [] && s.handlers[e.c].rest[0] == w) {
          StepKeepsPending(s, e, w);
        }
      }
    }
  }

  ghost predicate IsTrace(s: System, es: seq<Event>)
    decreases |es|
  {
    es == [] || (Enabled(s, es[0]) && IsTrace(Step(s, es[0]), es[1..]))
  }

  ghost function Run(s: System, es: seq<Event>): System
    requires IsTrace(s, es)
    decreases |es|
  {
    if es == [] then s else Run(Step(s, es[0]), es[1..])
  }

  lemma {:induction false} RunKeepsGood(s: System, es: seq<Event>)
    requires Good(s) && IsTrace(s, es)
    ensures Good(Run(s, es))
    decreases |es|
  {
    if es != [] {
      StepKeepsGood(s, es[0]);
      RunKeepsGood(Step(s, es[0]), es[1..]);
    }
  }

  /** In every run: no channel is closed twice or sent on when closed, at most one connection is open, and
      it is the one in the server's client field; no call is told that the relay closed. What a waiting call
      is handed may be another connection, see `ReceivedIsUsableIff`. */
  lemma OneOpenConnection(es: seq<Event>)
    requires IsTrace(START, es)
    ensures var s := Run(START, es);
            && !s.panicked
            && (forall c | c in s.handlers :: c !in s.guarded.closed <==> Usable(s.guarded) == Some(c))
            && (forall w | w in s.waits :: s.waits[w] != RelayClosed)
            && (forall w | w in s.waits && s.waits[w].Got? :: s.waits[w].conn in s.handlers)
  {
    assert Good(START);
    RunKeepsGood(START, es);
  }

  /** In every run: a call that waits has its client in its channel, or is in exactly one list, and it is in the
      server's own list only while no usable client exists; else a handler that has yet to serve it holds it. */
  lemma WaitersAreNotForgotten(es: seq<Event>, w: Waiter)
    requires IsTrace(START, es)
    requires w in Run(START, es).waits && Run(START, es).waits[w].Waiting?
    ensures var s := Run(START, es);
            || (w in s.chans && s.chans[w].buffer.Some?)
            || (w in s.guarded.waiters && Usable(s.guarded).None?)
            || (exists c :: c in s.handlers && (s.handlers[c].Serving? || s.handlers[c].Closing?)
                            && w in s.handlers[c].rest)
  {
    assert Good(START);
    RunKeepsGood(START, es);
    var s := Run(START, es);
    if s.chans[w].buffer.None? {
      var p, i :| QueuedAt(s, p, i) && Queue(s, p)[i] == w && !Offered(s, p, i);
      assert Queue(s, p)[i] in Queue(s, p);
      if p.Some? {
        assert w in s.handlers[p.value].rest;
      }
    }
  }

  /** A handler serves every waiter that it took: its next step gives the first of them this client and closes
      the channel, whoever else moves in between. */
  lemma OfferReaches(es: seq<Event>, c: Conn)
    requires IsTrace(START, es) && Enabled(Run(START, es), Offer(c)) && Run(START, es).handlers[c].rest != []
    ensures var s := Run(START, es);
            var w := s.handlers[c].rest[0];
            Step(s, Offer(c)).chans[w] == Channel(Some(c), false)
  {
    assert Good(START);
    RunKeepsGood(START, es);
    var s := Run(START, es);
    assert QueuedAt(s, Some(c), 0) && Queue(s, Some(c))[0] == s.handlers[c].rest[0];
  }

  /** The active client changes only when a new connection is installed, or when its own handler, whose
      connection has closed, removes it: a displaced handler that ends late leaves its successor in place. */
  lemma ClientChangesOnlyBy(es: seq<Event>, e: Event)
    requires IsTrace(START, es) && Enabled(Run(START, es), e)
    ensures var s := Run(START, es);
            var before, after := s.guarded.client, Step(s, e).guarded.client;
            before != after ==>
              || (e.Install? && after == Some(e.c) && (before.Some? ==> before.value in Step(s, e).guarded.closed))
              || (e.Remove? && before == Some(e.c) && after == None && e.c in s.guarded.closed)
  {
    assert Good(START);
    RunKeepsGood(START, es);
  }

  // ---- Which connection a waiting call gets ----

  /** From this event on the connection is no longer the usable one. */
  predicate Retires(e: Event, c: Conn) {
    e.Install? || e == CloseClient(c) || e == ReadFails(c)
  }

  lemma StepUsable(s: System, e: Event, c: Conn)
    requires ClientsGood(s) && Enabled(s, e) && c in s.handlers
    ensures Usable(Step(s, e).guarded) == Some(c) <==> Usable(s.guarded) == Some(c) && !Retires(e, c)
    ensures c in Step(s, e).handlers
  {
  }

  lemma StepKeepsGood(s: System, e: Event)
    requires Good(s) && Enabled(s, e)
    ensures Good(Step(s, e))
  {
    StepKeepsResults(s, e);
    StepKeepsDisjoint(s, e);
    StepKeepsOpen(s, e);
    StepForgetsNobody(s, e);
    StepKeepsClients(s, e);
    hide Step, Enabled, ResultsGood, QueuesDisjoint, QueuesOpen, NobodyForgotten, ClientsGood;
  }

  lemma {:induction false} UsableAfterRun(s: System, es: seq<Event>, c: Conn)
    requires Good(s) && IsTrace(s, es) && c in s.handlers
    ensures Usable(Run(s, es).guarded) == Some(c)
            <==> Usable(s.guarded) == Some(c) && forall m | 0 <= m < |es| :: !Retires(es[m], c)
    decreases |es|
  {
    if es != [] {
      var t, rest := Step(s, es[0]), es[1..];
      StepUsable(s, es[0], c);
      StepKeepsGood(s, es[0]);
      UsableAfterRun(t, rest, c);
      hide Step, Enabled, Good, ClientsGood, Usable, Retires;
      assert forall m | 0 <= m < |rest| :: rest[m] == es[m + 1];
      assert forall m | 1 <= m < |es| :: es[m] == rest[m - 1];
    }
  }

  /** No event after the installation of the connection retired it. */
  ghost predicate NeverRetired(es: seq<Event>, c: Conn) {
    forall n, m | 0 <= n < m < |es| && es[n] == Install(c) :: !Retires(es[m], c)
  }

  lemma InstallIsUsable(s: System, c: Conn)
    requires Good(s) && Enabled(s, Install(c))
    ensures Usable(Step(s, Install(c)).guarded) == Some(c) && c in Step(s, Install(c)).handlers
    ensures !Enabled(Step(s, Install(c)), Install(c))
  {
    hide ResultsGood, QueuesDisjoint, QueuesOpen, NobodyForgotten;
  }

  lemma OnlyInstallAdds(s: System, e: Event, c: Conn)
    requires Enabled(s, e) && c !in s.handlers && e != Install(c)
    ensures c !in Step(s, e).handlers
  {
  }

  lemma {:induction false} UsableSinceInstall(s: System, es: seq<Event>, c: Conn)
    requires Good(s) && IsTrace(s, es) && c !in s.handlers && c in Run(s, es).handlers
    ensures Usable(Run(s, es).guarded) == Some(c) <==> NeverRetired(es, c)
    decreases |es|
  {
    var t, rest := Step(s, es[0]), es[1..];
    StepKeepsGood(s, es[0]);
    if es[0] == Install(c) {
      InstallIsUsable(s, c);
      UsableAfterRun(t, rest, c);
    } else {
      OnlyInstallAdds(s, es[0], c);
      UsableSinceInstall(t, rest, c);
    }
    hide Step, Enabled, Good, Usable, Retires, IsTrace, Run;
    assert forall m | 1 <= m < |es| :: es[m] == rest[m - 1];
    assert forall m | 0 <= m < |rest| :: rest[m] == es[m + 1];
    if es[0] == Install(c) && forall m | 0 <= m < |rest| :: !Retires(rest[m], c) {
      assert NeverRetired(es, c);
    }
  }

  /** In every run, for every connection: it is the usable one exactly if, since its installation, no other was
      installed, nobody closed its client and its read loop did not end. */
  lemma UsableIff(es: seq<Event>, c: Conn)
    requires IsTrace(START, es) && c in Run(START, es).handlers
    ensures Usable(Run(START, es).guarded) == Some(c) <==> NeverRetired(es, c)
  {
    assert Good(START);
    UsableSinceInstall(START, es, c);
  }

  /** A call that finds a client at once gets the usable one. */
  lemma AwaitedIsUsable(es: seq<Event>, w: Waiter)
    requires IsTrace(START, es) && Enabled(Run(START, es), Await(w))
    ensures var s := Run(START, es);
            Step(s, Await(w)).waits[w].Got? ==> Usable(s.guarded) == Some(Step(s, Await(w)).waits[w].conn)
  {
  }

  /** A call that waited gets the connection that took it from the list, and that is the usable one exactly if
      nothing retired it since its installation. */
  lemma ReceivedIsUsableIff(es: seq<Event>, w: Waiter)
    requires IsTrace(START, es) && Enabled(Run(START, es), Receive(w))
    ensures var s := Run(START, es);
            var t := Step(s, Receive(w));
            && t.waits[w].Got? && s.chans[w].buffer == Some(t.waits[w].conn)
            && (Usable(s.guarded) == Some(t.waits[w].conn) <==> NeverRetired(es, t.waits[w].conn))
  {
    assert Good(START);
    RunKeepsGood(START, es);
    var s := Run(START, es);
    StepKeepsResults(s, Receive(w));
    assert s.chans[w].buffer.Some?;
    UsableIff(es, s.chans[w].buffer.value);
  }

  /** The same when a handler offers its connection. */
  lemma OfferedIsUsableIff(es: seq<Event>, c: Conn)
    requires IsTrace(START, es) && Enabled(Run(START, es), Offer(c)) && Run(START, es).handlers[c].rest != []
    ensures var s := Run(START, es);
            && Step(s, Offer(c)).chans[s.handlers[c].rest[0]] == Channel(Some(c), false)
            && (Usable(s.guarded) == Some(c) <==> NeverRetired(es, c))
  {
    OfferReaches(es, c);
    UsableIff(es, c);
    hide Step, Usable, Good;
  }

  /** A waiting call that is handed a connection which was displaced before the offer: the client it gets is
      closed, and another one is active. */
  lemma DisplacedHandoverExample() returns (es: seq<Event>)
    ensures IsTrace(START, es)
    ensures var s := Run(START, es);
            0 in s.waits && s.waits[0] == Got(1) && 1 in s.guarded.closed && Usable(s.guarded) == Some(2)
  {
    var s1 := Step(START, Await(0));
    var s2 := Step(s1, Install(1));
    var s3 := Step(s2, Install(2));
    var s4 := Step(s3, Offer(1));
    var s5 := Step(s4, Receive(0));
    assert s5.waits[0] == Got(1) && 1 in s5.guarded.closed && Usable(s5.guarded) == Some(2);
    Single(s4, Receive(0));
    hide Step, Enabled;
    Prepended(s3, Offer(1), [Receive(0)]);
    Prepended(s2, Install(2), [Offer(1), Receive(0)]);
    Prepended(s1, Install(1), [Install(2), Offer(1), Receive(0)]);
    Prepended(START, Await(0), [Install(1), Install(2), Offer(1), Receive(0)]);
    es := [Await(0), Install(1), Install(2), Offer(1), Receive(0)];
  }

  lemma Single(s: System, e: Event)
    requires Enabled(s, e)
    ensures IsTrace(s, [e]) && Run(s, [e]) == Step(s, e)
  {
  }

  lemma Prepended(s: System, e: Event, es: seq<Event>)
    requires Enabled(s, e) && IsTrace(Step(s, e), es)
    ensures IsTrace(s, [e] + es) && Run(s, [e] + es) == Run(Step(s, e), es)
  {
    assert ([e] + es)[1..] == es;
    hide Step, Enabled;
  }

  // ---- Handlers get through ----

  /** A handler always has its next step: it offers to its first waiter, closes that channel, goes on to the next, and
      reads when none is left; after its read loop it removes its client, which is then no longer the active one. */
  lemma HandlerMoves(es: seq<Event>, c: Conn)
    requires IsTrace(START, es) && c in Run(START, es).handlers
    ensures var s := Run(START, es);
            match s.handlers[c]
            case Serving(rest) =>
              && Enabled(s, Offer(c))
              && Step(s, Offer(c)).handlers[c] == (if rest == [] then Handler.Reading else Closing(rest))
            case Closing(rest) =>
              && rest != [] && Enabled(s, CloseChannel(c)) && Step(s, CloseChannel(c)).handlers[c] == Serving(rest[1..])
              && rest[0] in Step(s, CloseChannel(c)).chans && Step(s, CloseChannel(c)).chans[rest[0]].closed
            case Reading =>
              && Enabled(s, ReadFails(c)) && Step(s, ReadFails(c)).handlers[c] == Ended
              && c in Step(s, ReadFails(c)).guarded.closed
            case Ended =>
              && Enabled(s, Remove(c)) && Step(s, Remove(c)).handlers[c] == Done
              && Step(s, Remove(c)).guarded.client != Some(c)
            case Done => s.guarded.client != Some(c)
  {
    assert Good(START);
    RunKeepsGood(START, es);
    var s := Run(START, es);
    if (s.handlers[c].Serving? || s.handlers[c].Closing?) && s.handlers[c].rest != [] {
      assert QueuedAt(s, Some(c), 0) && Queue(s, Some(c))[0] == s.handlers[c].rest[0];
    }
    hide NobodyForgotten, QueuesDisjoint;
  }

  /** A new connection takes over: it is the active one and holds everybody who waited. */
  lemma InstallTakesOver(es: seq<Event>, c: Conn)
    requires IsTrace(START, es) && Enabled(Run(START, es), Install(c))
    ensures var s := Run(START, es);
            var t := Step(s, Install(c));
            && Usable(t.guarded) == Some(c) && t.guarded.waiters == [] && t.handlers[c] == Serving(s.guarded.waiters)
            && (s.guarded.client.Some? ==> s.guarded.client.value in t.guarded.closed)
  {
    assert Good(START);
    RunKeepsGood(START, es);
    InstallIsUsable(Run(START, es), c);
    hide Good;
  }

  /** A call waits exactly while no client is usable; then it joins the end of the list with an empty channel. */
  lemma AwaitIff(es: seq<Event>, w: Waiter)
    requires IsTrace(START, es) && Enabled(Run(START, es), Await(w))
    ensures var s := Run(START, es);
            var t := Step(s, Await(w));
            if Usable(s.guarded).Some? then t.waits[w] == Got(Usable(s.guarded).value) && t.guarded == s.guarded
            else
              && t.waits[w] == Waiting && t.chans[w] == Channel(None, false)
              && t.guarded.waiters == s.guarded.waiters + [w]
  {
  }
}
