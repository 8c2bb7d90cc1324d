/** Request/response correlation over one socket, as both browser clients do it: callers register a reply
    channel under a fresh id, one reader hands replies over, and a close drains what is pending.

    `Shared` is the state of a connection that the goroutines share, with one function per atomic section;
    class `Connection` performs those sections in place. `Correlation` runs the goroutines. */
module ConnectionState {
  import opened Machine

  /** Identifies one call of Send, and with it the reply channel that the call makes. */
  type Call = nat

  datatype Reply = Reply(id: int, body: string)

  /** A channel of capacity one. */
  datatype Channel = Channel(buffer: Option<Reply>, closed: bool)

  /** How far the one winning close has come; only the CDP client has a close signal. */
  datatype Closing = Open | Swapped | Signalled | SocketClosed | Drained

  /** `panicked` records what Go would panic on: closing a closed channel or sending on one. */
  datatype Shared = Shared(
    closing: Closing, nextId: int, pending: map<int, Call>, chans: map<Call, Channel>, panicked: bool)

  const FRESH := Shared(Open, 0, map[], map[], false)

  /** The atomic swap of the closed flag. */
  function SwapClosed(s: Shared): Shared {
    if s.closing == Open then s.(closing := Swapped) else s
  }

  function Numbered(s: Shared, c: Call): Shared {
    s.(nextId := s.nextId + 1, chans := s.chans[c := Channel(None, false)])
  }

  function Registered(s: Shared, id: int, c: Call): Shared {
    s.(pending := s.pending[id := c])
  }

  function Unregistered(s: Shared, id: int): Shared {
    s.(pending := s.pending - {id})
  }

  /** The reader's non-blocking send. */
  function Sent(s: Shared, c: Call, r: Reply): Shared
    requires c in s.chans
  {
    var ch := s.chans[c];
    if ch.closed then s.(panicked := true)
    else if ch.buffer.Some? then s
    else s.(chans := s.chans[c := ch.(buffer := Some(r))])
  }

  function Emptied(s: Shared, c: Call): Shared
    requires c in s.chans
  {
    s.(chans := s.chans[c := s.chans[c].(buffer := None)])
  }

  /** The calls whose channel is pending. */
  function PendingCalls(s: Shared): (r: set<Call>)
    ensures forall c :: c in r <==> exists id :: id in s.pending && s.pending[id] == c
  {
    set id | id in s.pending :: s.pending[id]
  }

  /** Some pending channel would be closed twice by a drain. */
  ghost predicate DoubleClose(s: Shared)
    requires PendingCalls(s) <= s.chans.Keys
  {
    || (exists id | id in s.pending :: s.chans[s.pending[id]].closed)
    || (exists i, j | i in s.pending && j in s.pending && i != j :: s.pending[i] == s.pending[j])
  }

  ghost function DrainedState(s: Shared): Shared
    requires PendingCalls(s) <= s.chans.Keys
  {
    s.(closing := Drained, pending := map[],
       chans := map c | c in s.chans :: if c in PendingCalls(s) then s.chans[c].(closed := true) else s.chans[c],
       panicked := s.panicked || DoubleClose(s))
  }

  class Connection {
    var closing: Closing
    var nextId: int
    var pending: map<int, Call>
    var chans: map<Call, Channel>
    var panicked: bool

    ghost function State(): Shared
      reads this
    {
      Shared(closing, nextId, pending, chans, panicked)
    }

    constructor ()
      ensures State() == FRESH
    {
      closing, nextId, pending, chans, panicked := Open, 0, map[], map[], false;
    }

    /** The atomic swap of the closed flag; only the first caller goes on to close. */
    method Swap() returns (won: bool)
      modifies this`closing
      ensures State() == SwapClosed(old(State())) && won == (old(closing) == Open)
    {
      won := closing == Open;
      if won {
        closing := Swapped;
      }
    }

    method Number(c: Call) returns (id: int)
      modifies this
      ensures State() == Numbered(old(State()), c) && id == old(nextId) + 1
    {
      nextId := nextId + 1;
      id := nextId;
      chans := chans[c := Channel(None, false)];
    }

    method Register(id: int, c: Call)
      modifies this
      ensures State() == Registered(old(State()), id, c)
    {
      pending := pending[id := c];
    }

    method Unregister(id: int)
      modifies this
      ensures State() == Unregistered(old(State()), id)
    {
      pending := pending - {id};
    }

    /** The reader's critical section: look the id up and delete it. */
    method Take(id: int) returns (c: Option<Call>)
      modifies this
      ensures State() == Unregistered(old(State()), id)
      ensures c == if id in old(pending) then Some(old(pending)[id]) else None
    {
      c := if id in pending then Some(pending[id]) else None;
      pending := pending - {id};
    }

    method Send(c: Call, r: Reply)
      requires c in chans
      modifies this
      ensures State() == Sent(old(State()), c, r)
    {
      if chans[c].closed {
        panicked := true;
      } else if chans[c].buffer.None? {
        chans := chans[c := chans[c].(buffer := Some(r))];
      }
    }

    method CloseAndForget(id: int)
      requires id in pending && pending[id] in chans
      modifies this`pending, this`chans, this`panicked
      ensures pending == old(pending) - {id}
      ensures chans == old(chans)[old(pending)[id] := old(chans)[old(pending)[id]].(closed := true)]
      ensures panicked == (old(panicked) || old(chans)[old(pending)[id]].closed)
    {
      var c := pending[id];
      panicked := panicked || chans[c].closed;
      chans := chans[c := chans[c].(closed := true)];
      pending := pending - {id};
    }

    /** The drain: close and forget every pending channel, one by one, in any order. */
    method Drain()
      requires PendingCalls(State()) <= chans.Keys && !DoubleClose(State())
      modifies this
      ensures State() == DrainedState(old(State()))
    {
      ghost var s := State();
      while pending.Keys != {}
        invariant nextId == s.nextId && closing == s.closing && panicked == s.panicked
        invariant PartlyDrained(s, pending, chans)
        decreases pending.Keys
      {
        var id := AnyOf(pending.Keys);
        DrainStep(s, pending, chans, id);
        CloseAndForget(id);
      }
      closing := Drained;
      FullyDrained(s, pending, chans);
    }
  }

  /** A drain that started in `s` and still has `pending` to close. */
  ghost predicate PartlyDrained(s: Shared, pending: map<int, Call>, chans: map<Call, Channel>)
    requires PendingCalls(s) <= s.chans.Keys
  {
    && pending.Keys <= s.pending.Keys && chans.Keys == s.chans.Keys
    && (forall id | id in pending :: pending[id] == s.pending[id])
    && (forall id | id in s.pending :: s.pending[id] in chans && chans[s.pending[id]].closed == (id !in pending))
    && (forall c | c in chans :: chans[c].buffer == s.chans[c].buffer)
    && (forall c | c in chans && c !in PendingCalls(s) :: chans[c] == s.chans[c])
  }

  lemma DrainStep(s: Shared, pending: map<int, Call>, chans: map<Call, Channel>, id: int)
    requires PendingCalls(s) <= s.chans.Keys && !DoubleClose(s) && PartlyDrained(s, pending, chans) && id in pending
    ensures pending[id] in chans && !chans[pending[id]].closed
    ensures PartlyDrained(s, pending - {id}, chans[pending[id] := chans[pending[id]].(closed := true)])
  {
    assert s.pending[id] in PendingCalls(s);
  }

  lemma FullyDrained(s: Shared, pending: map<int, Call>, chans: map<Call, Channel>)
    requires PendingCalls(s) <= s.chans.Keys && !DoubleClose(s) && PartlyDrained(s, pending, chans)
    requires pending.Keys == {}
    ensures pending == map[] && chans == DrainedState(s).chans
  {
    forall c | c in chans
      ensures chans[c] == DrainedState(s).chans[c]
    {
      if c in PendingCalls(s) {
        var id: int :| id in s.pending && s.pending[id] == c;
      }
    }
  }

  method AnyOf<T(==)>(keys: set<T>) returns (key: T)
    requires keys != {}
    ensures key in keys
  {
    key :| key in keys;
  }
}
