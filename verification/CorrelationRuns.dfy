/** Every interleaving of senders, the reader, cancellations and closes over one connection. */
module CorrelationRuns {
  import opened Machine
  import opened ConnectionState

  /** The direct CDP client and the client behind the extension relay. */
  datatype Variant = Cdp | Relay

  datatype Result =
    | Refused                    // the connection was already closed
    | WriteFailed(id: int)
    | Cancelled(id: int)
    | ConnectionClosed(id: int)
    | Got(id: int, reply: Reply)

  /** The program points of one call of Send. */
  datatype Pc =
    | Entered
    | Checked
    | Unregistered(id: int)
    | Registered(id: int)
    | Unwritten(id: int)
    | Waiting(id: int)
    | Cancelling(id: int)
    | Returned(result: Result)

  datatype Reader = Top | Reading | Taking(reply: Reply) | Delivering(call: Call, reply: Reply) | Failing | Done

  datatype System = System(variant: Variant, shared: Shared, calls: map<Call, Pc>, reader: Reader, signals: nat)

  datatype Event =
    | Enter(c: Call)
    | Check(c: Call)
    | Number(c: Call)
    | Register(c: Call)
    | Write(c: Call, ok: bool)
    | Forget(c: Call)             // delete the pending entry after a failed write or a cancellation
    | Cancel(c: Call)
    | Receive(c: Call)
    | ReaderTop
    | ReadReply(reply: Reply)
    | ReadEvent
    | ReadError
    | Take
    | Send
    | ReaderClose
    | Close                       // anyone calls Close
    | Signal
    | CloseSocket
    | Drain

  function Start(variant: Variant): System {
    System(variant, ConnectionState.FRESH, map[], Top, 0)
  }

  predicate At(s: System, c: Call, pc: Pc) {
    c in s.calls && s.calls[c] == pc
  }

  predicate SocketOpen(s: System) {
    s.shared.closing == Open || s.shared.closing == Swapped || s.shared.closing == Signalled
  }

  /** A write can succeed only while the socket is open; a read can return anything. */
  predicate Enabled(s: System, e: Event) {
    match e
    case Enter(c) => c !in s.calls
    case Check(c) => At(s, c, Entered)
    case Number(c) => At(s, c, Checked)
    case Register(c) => c in s.calls && s.calls[c].Unregistered?
    case Write(c, ok) => c in s.calls && s.calls[c].Registered? && (ok ==> SocketOpen(s))
    case Forget(c) => c in s.calls && (s.calls[c].Unwritten? || s.calls[c].Cancelling?)
    case Cancel(c) => c in s.calls && s.calls[c].Waiting?
    case Receive(c) =>
      c in s.calls && s.calls[c].Waiting? && c in s.shared.chans
      && (s.shared.chans[c].buffer.Some? || s.shared.chans[c].closed)
    case ReaderTop => s.reader.Top?
    case ReadReply(_) => s.reader.Reading?
    case ReadEvent => s.reader.Reading?
    case ReadError => s.reader.Reading?
    case Take => s.reader.Taking?
    case Send => s.reader.Delivering? && s.reader.call in s.shared.chans
    case ReaderClose => s.reader.Failing?
    case Close => true
    case Signal => s.variant == Cdp && s.shared.closing == Swapped
    case CloseSocket => s.shared.closing == (if s.variant == Cdp then Signalled else Swapped)
    case Drain => s.shared.closing == SocketClosed && PendingCalls(s.shared) <= s.shared.chans.Keys
  }

  function Move(s: System, c: Call, pc: Pc): System {
    s.(calls := s.calls[c := pc])
  }

  ghost function Step(s: System, e: Event): System
    requires Enabled(s, e)
  {
    match e
    case Enter(c) => Move(s, c, Entered)
    case Check(c) => Move(s, c, if s.shared.closing == Open then Checked else Returned(Refused))
    case Number(c) =>
      Move(s, c, Unregistered(s.shared.nextId + 1)).(shared := ConnectionState.Numbered(s.shared, c))
    case Register(c) =>
      var id := s.calls[c].id;
      Move(s, c, Registered(id)).(shared := ConnectionState.Registered(s.shared, id, c))
    case Write(c, ok) => Move(s, c, if ok then Waiting(s.calls[c].id) else Unwritten(s.calls[c].id))
    case Forget(c) =>
      var id := s.calls[c].id;
      Move(s, c, Returned(if s.calls[c].Unwritten? then WriteFailed(id) else Cancelled(id)))
        .(shared := ConnectionState.Unregistered(s.shared, id))
    case Cancel(c) => Move(s, c, Cancelling(s.calls[c].id))
    case Receive(c) =>
      var id, b := s.calls[c].id, s.shared.chans[c].buffer;
      if b.Some? then Move(s, c, Returned(Got(id, b.value))).(shared := Emptied(s.shared, c))
      else Move(s, c, Returned(ConnectionClosed(id)))
    case ReaderTop => s.(reader := if s.variant == Cdp && s.shared.closing != Open then Done else Reading)
    case ReadReply(reply) => s.(reader := if s.variant == Relay && reply.id == 0 then Top else Taking(reply))
    case ReadEvent => s.(reader := Top)
    case ReadError => s.(reader := Failing)
    case Take =>
      var r := s.reader.reply;
      s.(shared := ConnectionState.Unregistered(s.shared, r.id),
         reader := if r.id in s.shared.pending then Delivering(s.shared.pending[r.id], r) else Top)
    case Send => s.(shared := Sent(s.shared, s.reader.call, s.reader.reply), reader := Top)
    case ReaderClose => s.(shared := SwapClosed(s.shared), reader := Done)
    case Close => s.(shared := SwapClosed(s.shared))
    case Signal => s.(shared := s.shared.(closing := Signalled), signals := s.signals + 1)
    case CloseSocket => s.(shared := s.shared.(closing := SocketClosed))
    case Drain => s.(shared := DrainedState(s.shared))
  }

  function IdOf(pc: Pc): Option<int> {
    match pc
    case Entered => None
    case Checked => None
    case Unregistered(id) => Some(id)
    case Registered(id) => Some(id)
    case Unwritten(id) => Some(id)
    case Waiting(id) => Some(id)
    case Cancelling(id) => Some(id)
    case Returned(r) => if r.Refused? then None else Some(r.id)
  }

  predicate HasId(s: System, c: Call, id: int) {
    c in s.calls && IdOf(s.calls[c]) == Some(id)
  }

  /** The call may have an entry in the pending map. */
  predicate MayPend(pc: Pc) {
    pc.Registered? || pc.Unwritten? || pc.Waiting? || pc.Cancelling?
  }

  predicate BeingDelivered(s: System, c: Call) {
    s.reader.Delivering? && s.reader.call == c
  }

  /** Ids are never shared between calls. */
  ghost predicate IdsUnique(s: System) {
    && (forall c | c in s.calls && IdOf(s.calls[c]).Some? ::
          c in s.shared.chans && 1 <= IdOf(s.calls[c]).value <= s.shared.nextId)
    && (forall c, d | c in s.calls && d in s.calls && IdOf(s.calls[c]).Some? && IdOf(s.calls[c]) == IdOf(s.calls[d]) ::
          c == d)
    && (forall c | c in s.shared.chans :: c in s.calls && IdOf(s.calls[c]).Some?)
    && s.shared.nextId >= 0
  }

  ghost predicate PendingGood(s: System) {
    forall id | id in s.shared.pending ::
      var c := s.shared.pending[id];
      && HasId(s, c, id) && MayPend(s.calls[c])
      && (s.shared.closing == Drained ==> s.calls[c].Registered? || s.calls[c].Unwritten?)
  }

  /** A channel is in one place: pending, in the reader's hands, filled, or closed. */
  predicate ChannelGood(s: System, c: Call)
    requires c in s.shared.chans && c in s.calls && IdOf(s.calls[c]).Some?
  {
    var ch, pc, id := s.shared.chans[c], s.calls[c], IdOf(s.calls[c]).value;
    && (ch.buffer.Some? ==> ch.buffer.value.id == id && !ch.closed)
    && (ch.buffer.Some? || ch.closed ==> id !in s.shared.pending && !BeingDelivered(s, c))
    && (BeingDelivered(s, c) ==> id !in s.shared.pending && s.reader.reply.id == id)
    && (pc.Unregistered? ==> ch == Channel(None, false) && !BeingDelivered(s, c))
    && (pc.Registered? || pc.Waiting? ==>
          id in s.shared.pending || ch.buffer.Some? || ch.closed || BeingDelivered(s, c))
    && (pc.Returned? && pc.result.Got? ==> pc.result.reply.id == id)
  }

  ghost predicate Good(s: System) {
    && IdsUnique(s) && PendingGood(s)
    && (forall c | c in s.shared.chans :: ChannelGood(s, c))
    && (s.reader.Delivering? ==> s.reader.call in s.shared.chans)
    && !s.shared.panicked
    && (s.shared.closing == Signalled ==> s.variant == Cdp)
    && s.signals == if s.variant == Cdp && s.shared.closing != Open && s.shared.closing != Swapped then 1 else 0
  }

  lemma PendingAreChannels(s: System)
    requires Good(s)
    ensures PendingCalls(s.shared) <= s.shared.chans.Keys && !DoubleClose(s.shared)
  {
  }

  /** A sender's step moves its own call only; the reader and the close move none. */
  lemma StepMovesOneCall(s: System, e: Event)
    requires Enabled(s, e)
    ensures var t := Step(s, e);
            if BySender(e) then e.c in t.calls && t.calls == s.calls[e.c := t.calls[e.c]] else t.calls == s.calls
  {
  }

  lemma StepKeepsChannelSet(s: System, e: Event)
    requires Enabled(s, e) && !e.Number? && s.shared.chans.Keys <= s.calls.Keys
    requires PendingCalls(s.shared) <= s.shared.chans.Keys
    ensures var t := Step(s, e); t.shared.nextId == s.shared.nextId && t.shared.chans.Keys == s.shared.chans.Keys
  {
  }

  lemma OwnStepKeepsId(s: System, e: Event)
    requires Enabled(s, e) && BySender(e) && !e.Number?
    ensures var t := Step(s, e); IdOf(t.calls[e.c]) == if e.c in s.calls then IdOf(s.calls[e.c]) else None
  {
  }

  /** Only numbering gives a call an id; every other step keeps all ids. */
  lemma StepKeepsIdOf(s: System, e: Event)
    requires Good(s) && Enabled(s, e) && !e.Number?
    ensures var t := Step(s, e);
            && (forall c | c in s.calls :: c in t.calls && IdOf(t.calls[c]) == IdOf(s.calls[c]))
            && (forall c | c in t.calls && c !in s.calls :: IdOf(t.calls[c]).None?)
            && t.shared.nextId == s.shared.nextId && t.shared.chans.Keys == s.shared.chans.Keys
  {
    hide Step, IdOf, Enabled;
    PendingAreChannels(s);
    StepKeepsChannelSet(s, e);
    StepMovesOneCall(s, e);
    if BySender(e) {
      OwnStepKeepsId(s, e);
    }
  }

  predicate BySender(e: Event) {
    e.Enter? || e.Check? || e.Number? || e.Register? || e.Write? || e.Forget? || e.Cancel? || e.Receive?
  }

  lemma StepKeepsIds(s: System, e: Event)
    requires Good(s) && Enabled(s, e)
    ensures IdsUnique(Step(s, e))
  {
    if e.Number? {
      NumberKeepsIds(s, e.c);
    } else {
      StepKeepsIdOf(s, e);
      SameIds(s, Step(s, e));
    }
    hide Step, IdsUnique;
  }

  lemma NumberKeepsIds(s: System, c: Call)
    requires IdsUnique(s) && At(s, c, Checked)
    ensures IdsUnique(Step(s, Number(c)))
  {
    NumberFacts(s, c);
    hide Step, IdOf, Enabled;
  }

  lemma NumberFacts(s: System, c: Call)
    requires IdsUnique(s) && At(s, c, Checked)
    ensures var t := Step(s, Number(c));
            && (forall d | d in s.calls && d != c :: t.calls[d] == s.calls[d])
            && t.calls.Keys == s.calls.Keys && t.shared.chans.Keys == s.shared.chans.Keys + {c}
            && t.shared.nextId == s.shared.nextId + 1
            && IdOf(t.calls[c]) == Some(s.shared.nextId + 1) && IdOf(s.calls[c]) == None
  {
    hide IdsUnique;
  }

  lemma SameIds(s: System, t: System)
    requires IdsUnique(s)
    requires forall c | c in s.calls :: c in t.calls && IdOf(t.calls[c]) == IdOf(s.calls[c])
    requires forall c | c in t.calls && c !in s.calls :: IdOf(t.calls[c]).None?
    requires t.shared.nextId == s.shared.nextId && t.shared.chans.Keys == s.shared.chans.Keys
    ensures IdsUnique(t)
  {
  }

  lemma SenderKeepsPending(s: System, e: Event)
    requires Good(s) && Enabled(s, e) && BySender(e)
    ensures PendingGood(Step(s, e))
  {
    StepMovesOneCall(s, e);
    if e.Register? {
      RegisterKeepsPending(s, e.c);
    } else if e.Receive? {
      ReceiverIsNotPending(s, e.c);
      SenderPends(s, e);
      hide ChannelGood, Step, Enabled;
    } else {
      SenderPends(s, e);
      hide ChannelGood;
    }
  }

  lemma RegisterKeepsPending(s: System, c: Call)
    requires Good(s) && Enabled(s, Register(c))
    ensures PendingGood(Step(s, Register(c)))
  {
    hide ChannelGood;
  }

  /** A call that has something to receive has no pending entry any more. */
  lemma ReceiverIsNotPending(s: System, c: Call)
    requires Good(s) && Enabled(s, Receive(c))
    ensures s.calls[c].id !in s.shared.pending
    ensures forall id | id in s.shared.pending :: s.shared.pending[id] != c
  {
    ChannelIsGood(s, c);
    assert IdOf(s.calls[c]) == Some(s.calls[c].id);
    forall id | id in s.shared.pending
      ensures s.shared.pending[id] != c
    {
      assert HasId(s, s.shared.pending[id], id);
    }
  }

  /** What a sender's step does to the pending map. */
  lemma SenderPends(s: System, e: Event)
    requires Enabled(s, e) && BySender(e)
    ensures var t := Step(s, e);
            && t.shared.closing == s.shared.closing
            && t.shared.pending == (if e.Register? then s.shared.pending[s.calls[e.c].id := e.c]
                                    else if e.Forget? then s.shared.pending - {s.calls[e.c].id}
                                    else s.shared.pending)
  {
  }

  lemma ConnectionKeepsPending(s: System, e: Event)
    requires Good(s) && Enabled(s, e) && !BySender(e)
    ensures PendingGood(Step(s, e))
  {
  }

  lemma PendingIffIdPending(s: System, c: Call)
    requires Good(s) && c in s.shared.chans
    ensures c in PendingCalls(s.shared) <==> IdOf(s.calls[c]).value in s.shared.pending
    ensures IdOf(s.calls[c]).value in s.shared.pending ==> MayPend(s.calls[c])
  {
    var id := IdOf(s.calls[c]).value;
    if id in s.shared.pending {
      assert HasId(s, s.shared.pending[id], id);
    }
  }

  lemma OwnStepKeepsChannel(s: System, e: Event, c: Call)
    requires Good(s) && Enabled(s, e) && BySender(e) && e.c == c && c in Step(s, e).shared.chans
    ensures ChannelGood(Step(s, e), c)
  {
    if e.Number? {
      NumberKeepsChannel(s, c);
    } else {
      PendingAreChannels(s);
      StepKeepsChannelSet(s, e);
      ChannelIsGood(s, c);
      OldChannelStaysGood(s, e, c);
    }
    hide Good, Step, Enabled, ChannelGood;
  }

  lemma NumberKeepsChannel(s: System, c: Call)
    requires Good(s) && Enabled(s, Number(c))
    ensures ChannelGood(Step(s, Number(c)), c)
  {
    hide ChannelGood;
    assert c !in s.shared.chans;
    assert !BeingDelivered(s, c);
    NewChannelIsGood(s, c);
  }

  lemma NewChannelIsGood(s: System, c: Call)
    requires Enabled(s, Number(c)) && !BeingDelivered(s, c)
    ensures ChannelGood(Step(s, Number(c)), c)
  {
  }

  lemma OldChannelStaysGood(s: System, e: Event, c: Call)
    requires Enabled(s, e) && BySender(e) && !e.Number? && e.c == c && c in s.shared.chans
    requires c in s.calls && IdOf(s.calls[c]).Some? && ChannelGood(s, c)
    requires c in Step(s, e).shared.chans
    ensures ChannelGood(Step(s, e), c)
  {
  }

  /** What is known about one channel. */
  lemma ChannelIsGood(s: System, c: Call)
    requires Good(s) && c in s.shared.chans
    ensures c in s.calls && IdOf(s.calls[c]).Some? && ChannelGood(s, c)
  {
  }

  lemma OtherStepKeepsChannel(s: System, e: Event, c: Call)
    requires Good(s) && Enabled(s, e) && BySender(e) && e.c != c && c in s.shared.chans
    ensures c in Step(s, e).shared.chans && ChannelGood(Step(s, e), c)
  {
    assert ChannelGood(s, c);
    assert Step(s, e).calls[c] == s.calls[c];
  }

  lemma ConnectionKeepsChannel(s: System, e: Event, c: Call)
    requires Good(s) && Enabled(s, e) && !BySender(e) && c in s.shared.chans
    ensures ChannelGood(Step(s, e), c)
  {
    hide Good, Step, Enabled, ChannelGood, IdOf, PendingCalls;
    ChannelIsGood(s, c);
    PendingIffIdPending(s, c);
    if e.Drain? {
      DrainKeepsChannel(s, c);
    } else if e.Take? {
      TakenIsReaders(s, c);
      TakeKeepsChannel(s, c);
    } else {
      ReaderKeepsChannel(s, e, c);
    }
  }

  lemma DrainKeepsChannel(s: System, c: Call)
    requires Enabled(s, Drain) && c in s.shared.chans && c in s.calls && IdOf(s.calls[c]).Some? && ChannelGood(s, c)
    requires c in PendingCalls(s.shared) <==> IdOf(s.calls[c]).value in s.shared.pending
    requires IdOf(s.calls[c]).value in s.shared.pending ==> MayPend(s.calls[c])
    ensures ChannelGood(Step(s, Drain), c)
  {
    hide PendingCalls, IdOf;
  }

  /** The reader takes a call's channel exactly if the reply has the call's pending id. */
  lemma TakenIsReaders(s: System, c: Call)
    requires Good(s) && Enabled(s, Take) && c in s.shared.chans && c in s.calls && IdOf(s.calls[c]).Some?
    ensures var id := s.reader.reply.id;
            id in s.shared.pending && s.shared.pending[id] == c
            <==> id in s.shared.pending && id == IdOf(s.calls[c]).value
  {
    var id := s.reader.reply.id;
    if id in s.shared.pending {
      assert HasId(s, s.shared.pending[id], id);
    }
  }

  lemma TakeKeepsChannel(s: System, c: Call)
    requires Enabled(s, Take) && c in s.shared.chans && c in s.calls && IdOf(s.calls[c]).Some? && ChannelGood(s, c)
    requires var id := s.reader.reply.id;
             id in s.shared.pending && s.shared.pending[id] == c
             <==> id in s.shared.pending && id == IdOf(s.calls[c]).value
    requires IdOf(s.calls[c]).value in s.shared.pending ==> MayPend(s.calls[c])
    ensures ChannelGood(Step(s, Take), c)
  {
    hide IdOf;
  }

  lemma ReaderKeepsChannel(s: System, e: Event, c: Call)
    requires Enabled(s, e) && !BySender(e) && !e.Drain? && !e.Take?
    requires c in s.shared.chans && c in s.calls && IdOf(s.calls[c]).Some? && ChannelGood(s, c)
    ensures ChannelGood(Step(s, e), c)
  {
    hide IdOf, PendingCalls;
  }

  lemma StepKeepsGood(s: System, e: Event)
    requires Good(s) && Enabled(s, e)
    ensures Good(Step(s, e))
  {
    StepKeepsIds(s, e);
    if BySender(e) {
      SenderKeepsPending(s, e);
    } else {
      ConnectionKeepsPending(s, e);
    }
    PendingAreChannels(s);
    var t := Step(s, e);
    forall c | c in t.shared.chans
      ensures ChannelGood(t, c)
    {
      if BySender(e) && e.c == c {
        OwnStepKeepsChannel(s, e, c);
      } else if BySender(e) {
        OtherStepKeepsChannel(s, e, c);
      } else {
        ConnectionKeepsChannel(s, e, c);
      }
    }
    StepKeepsRest(s, e);
  }

  /** No step panics, the reader only holds known channels, and the close signal is given once. */
  lemma StepKeepsRest(s: System, e: Event)
    requires Good(s) && Enabled(s, e)
    ensures var t := Step(s, e);
            && (t.reader.Delivering? ==> t.reader.call in t.shared.chans)
            && !t.shared.panicked
            && (t.shared.closing == Signalled ==> t.variant == Cdp)
            && t.signals == if t.variant == Cdp && t.shared.closing != Open && t.shared.closing != Swapped then 1 else 0
  {
    PendingAreChannels(s);
  }

  ghost predicate Run(ss: seq<System>, es: seq<Event>) {
    && |ss| == |es| + 1 && ss[0] == Start(ss[0].variant)
    && forall i | 0 <= i < |es| :: Enabled(ss[i], es[i]) && ss[i + 1] == Step(ss[i], es[i])
  }

  lemma {:induction false} ReachableIsGood(ss: seq<System>, es: seq<Event>, k: nat)
    requires Run(ss, es) && k <= |es|
    ensures Good(ss[k])
  {
    if k > 0 {
      ReachableIsGood(ss, es, k - 1);
      StepKeepsGood(ss[k - 1], es[k - 1]);
      hide Good;
    }
  }

  /** In every interleaving: nothing panics (no channel is closed twice or sent on after it was closed), the
      close signal is given at most once, no reply is dropped at the channel, ids are unique, and a caller
      only ever gets a reply with its own id. */
  lemma Safety(ss: seq<System>, es: seq<Event>, k: nat)
    requires Run(ss, es) && k <= |es|
    ensures !ss[k].shared.panicked && ss[k].signals <= 1
    ensures Enabled(ss[k], Send) ==> ss[k].shared.chans[ss[k].reader.call] == Channel(None, false)
    ensures forall c, id, r | At(ss[k], c, Returned(Got(id, r))) :: r.id == id
    ensures forall c, d, id | HasId(ss[k], c, id) && HasId(ss[k], d, id) :: c == d
  {
    ReachableIsGood(ss, es, k);
    if Enabled(ss[k], Send) {
      assert ChannelGood(ss[k], ss[k].reader.call);
    }
    forall c, id, r | At(ss[k], c, Returned(Got(id, r)))
      ensures r.id == id
    {
      assert ChannelGood(ss[k], c);
    }
  }

  /** A call returns once: its result never changes, and its id never changes. */
  lemma ReturnIsFinal(ss: seq<System>, es: seq<Event>, i: nat, k: nat, c: Call)
    requires Run(ss, es) && i <= k <= |es| && c in ss[i].calls
    ensures c in ss[k].calls
    ensures ss[i].calls[c].Returned? ==> ss[k].calls[c] == ss[i].calls[c]
    ensures IdOf(ss[i].calls[c]).Some? ==> IdOf(ss[k].calls[c]) == IdOf(ss[i].calls[c])
  {
    assert |ss| == |es| + 1;
    hide Run, Step, Enabled, IdOf, Continues;
    ContinuesUntil(ss, es, i, k, c);
    ContinuesMeans(ss[i], ss[k], c);
  }

  /** The call goes on from `s` to `t`: with its id, once it has one, and with its result. */
  predicate Continues(s: System, t: System, c: Call) {
    && c in s.calls && c in t.calls && (s.calls[c].Returned? ==> t.calls[c] == s.calls[c])
    && (IdOf(s.calls[c]).Some? ==> IdOf(t.calls[c]) == IdOf(s.calls[c]))
  }

  lemma ContinuesMeans(s: System, t: System, c: Call)
    requires Continues(s, t, c)
    ensures c in t.calls && (s.calls[c].Returned? ==> t.calls[c] == s.calls[c])
    ensures IdOf(s.calls[c]).Some? ==> IdOf(t.calls[c]) == IdOf(s.calls[c])
  {
    hide IdOf;
  }

  lemma ContinuesSelf(s: System, c: Call)
    requires c in s.calls
    ensures Continues(s, s, c)
  {
  }

  lemma ContinuesTrans(s: System, t: System, u: System, c: Call)
    requires Continues(s, t, c) && Continues(t, u, c)
    ensures Continues(s, u, c)
  {
    hide IdOf;
  }

  lemma {:induction false} ContinuesUntil(ss: seq<System>, es: seq<Event>, i: nat, k: nat, c: Call)
    requires Run(ss, es) && i <= k <= |es| && |ss| == |es| + 1 && c in ss[i].calls
    ensures Continues(ss[i], ss[k], c)
  {
    hide Step, Enabled, Continues;
    if i == k {
      ContinuesSelf(ss[i], c);
    } else {
      RunStep(ss, es, k - 1);
      hide Run;
      ContinuesUntil(ss, es, i, k - 1, c);
      ContinuesMeans(ss[i], ss[k - 1], c);
      StepKeepsReturn(ss[k - 1], es[k - 1], c);
      ContinuesTrans(ss[i], ss[k - 1], ss[k], c);
    }
  }

  lemma RunStep(ss: seq<System>, es: seq<Event>, k: nat)
    requires Run(ss, es) && k < |es|
    ensures |ss| == |es| + 1 && Enabled(ss[k], es[k]) && ss[k + 1] == Step(ss[k], es[k])
  {
    hide Step, Enabled;
  }

  lemma StepKeepsReturn(s: System, e: Event, c: Call)
    requires Enabled(s, e) && c in s.calls
    ensures Continues(s, Step(s, e), c)
  {
    StepMovesOneCall(s, e);
  }

  /** Every reply in the system was read from the socket. */
  ghost predicate WasRead(es: seq<Event>, k: nat, r: Reply)
    requires k <= |es|
  {
    exists i | 0 <= i < k :: es[i] == ReadReply(r)
  }

  predicate Holds(s: System, r: Reply, c: Call) {
    || (s.reader.Taking? && s.reader.reply == r)
    || (s.reader.Delivering? && s.reader.reply == r)
    || (c in s.shared.chans && s.shared.chans[c].buffer == Some(r))
    || (c in s.calls && s.calls[c].Returned? && s.calls[c].result.Got? && s.calls[c].result.reply == r)
  }

  lemma StepBringsOnlyRead(s: System, e: Event, r: Reply, c: Call)
    requires Enabled(s, e) && Holds(Step(s, e), r, c)
    ensures Holds(s, r, c) || e == ReadReply(r)
  {
  }

  lemma {:induction false} RepliesWereRead(ss: seq<System>, es: seq<Event>, k: nat, r: Reply, c: Call)
    requires Run(ss, es) && k <= |es| && Holds(ss[k], r, c)
    ensures WasRead(es, k, r)
  {
    if k > 0 {
      StepBringsOnlyRead(ss[k - 1], es[k - 1], r, c);
      if Holds(ss[k - 1], r, c) {
        RepliesWereRead(ss, es, k - 1, r, c);
      }
      hide Holds;
    }
  }

  /** The next step of a call that needs neither the network nor a cancellation. */
  function NextStep(pc: Pc, c: Call): Event {
    match pc
    case Entered => Check(c)
    case Checked => Number(c)
    case Unregistered(_) => Register(c)
    case Registered(_) => Write(c, false)
    case Waiting(_) => Receive(c)
    case _ => Forget(c)
  }

  function StepsLeft(pc: Pc): nat {
    match pc
    case Entered => 5
    case Checked => 4
    case Unregistered(_) => 3
    case Registered(_) => 2
    case Unwritten(_) => 1
    case Cancelling(_) => 1
    case Waiting(_) => 1
    case Returned(_) => 0
  }

  /** What the goroutine that won the swap does next. */
  function ClosingStep(s: System): Event {
    if s.shared.closing == SocketClosed then Drain
    else if s.shared.closing == Swapped && s.variant == Cdp then Signal
    else CloseSocket
  }

  function ClosingLeft(closing: Closing): nat {
    match closing
    case Open => 4
    case Swapped => 3
    case Signalled => 2
    case SocketClosed => 1
    case Drained => 0
  }

  /** The call's own next step is enabled and brings it closer to returning. */
  ghost predicate MovesOn(s: System, c: Call)
    requires c in s.calls
  {
    var e := NextStep(s.calls[c], c);
    Enabled(s, e) && StepsLeft(Step(s, e).calls[c]) < StepsLeft(s.calls[c])
  }

  /** The reader holds the call's reply, and handing it over makes the call return with it. */
  ghost predicate IsHandedOver(s: System, c: Call)
    requires c in s.calls
  {
    var e := NextStep(s.calls[c], c);
    && BeingDelivered(s, c) && Enabled(s, Send) && Enabled(Step(s, Send), e) && s.calls[c].Waiting?
    && At(Step(Step(s, Send), e), c, Returned(Got(s.calls[c].id, s.reader.reply)))
  }

  /** The close that won the swap has an enabled step that brings it closer to its drain. */
  ghost predicate CloseMovesOn(s: System) {
    var e := ClosingStep(s);
    Enabled(s, e) && ClosingLeft(Step(s, e).shared.closing) < ClosingLeft(s.shared.closing)
  }

  /** From the moment the closed flag is swapped no caller is stuck, not even one that registers after the
      drain: its own next step is enabled and brings it closer to returning, or the reader holds its reply and
      the hand-over lets it return, or it waits and the close that will end its wait has a step to make. Once
      the socket is closed no write succeeds. */
  lemma NobodyIsStuck(ss: seq<System>, es: seq<Event>, k: nat, c: Call)
    requires Run(ss, es) && k <= |es| && ss[k].shared.closing != Open
    requires c in ss[k].calls && !ss[k].calls[c].Returned?
    ensures || MovesOn(ss[k], c) || IsHandedOver(ss[k], c)
            || (ss[k].calls[c].Waiting? && ss[k].shared.closing != Drained && CloseMovesOn(ss[k]))
    ensures ss[k].shared.closing in {SocketClosed, Drained} ==> !Enabled(ss[k], Write(c, true))
  {
    ReachableIsGood(ss, es, k);
    var s := ss[k];
    PendingAreChannels(s);
    if !s.calls[c].Waiting? {
      OthersMove(s, c);
    } else if s.shared.closing == Drained {
      WaiterIsServed(s, c);
      WaiterMoves(s, c);
    } else {
      CloseCanMove(s);
    }
    hide Good, MovesOn, IsHandedOver, CloseMovesOn;
  }

  lemma CloseCanMove(s: System)
    requires s.shared.closing != Open && s.shared.closing != Drained && PendingCalls(s.shared) <= s.shared.chans.Keys
    requires s.shared.closing == Signalled ==> s.variant == Cdp
    ensures CloseMovesOn(s)
  {
  }

  lemma OthersMove(s: System, c: Call)
    requires c in s.calls && !s.calls[c].Returned? && !s.calls[c].Waiting?
    ensures MovesOn(s, c)
  {
  }

  lemma WaiterMoves(s: System, c: Call)
    requires c in s.calls && s.calls[c].Waiting? && c in s.shared.chans
    requires Enabled(s, Receive(c)) || (BeingDelivered(s, c) && s.shared.chans[c] == Channel(None, false))
    ensures MovesOn(s, c) || IsHandedOver(s, c)
  {
  }

  lemma WaiterIsServed(s: System, c: Call)
    requires Good(s) && s.shared.closing == Drained && c in s.calls && s.calls[c].Waiting?
    ensures Enabled(s, Receive(c)) || (BeingDelivered(s, c) && s.shared.chans[c] == Channel(None, false))
    ensures c in s.shared.chans
  {
    assert ChannelGood(s, c);
  }

  /** The common specification of both clients: a call is issued under a fresh id, then answered with a reply
      for that id or failed, and after that nothing changes. */
  datatype View = Fresh | InFlight(id: int) | Answered(id: int, reply: Reply) | Failed(used: Option<int>)

  function ViewOf(pc: Pc): View {
    match pc
    case Entered => Fresh
    case Checked => Fresh
    case Returned(Refused) => Failed(None)
    case Returned(Got(id, r)) => Answered(id, r)
    case Returned(r) => Failed(Some(r.id))
    case pc => InFlight(pc.id)
  }

  function Used(v: View): Option<int> {
    match v
    case Fresh => None
    case Failed(used) => used
    case v => Some(v.id)
  }

  function Abstract(s: System): map<Call, View> {
    map c | c in s.calls :: ViewOf(s.calls[c])
  }

  ghost predicate SpecNext(v: map<Call, View>, w: map<Call, View>) {
    v == w || exists c, x {:trigger v[c := x]} :: w == v[c := x] && SpecMove(v, c, x)
  }

  ghost predicate SpecMove(v: map<Call, View>, c: Call, x: View) {
    if c !in v then x == Fresh
    else
      match (v[c], x)
      case (Fresh, InFlight(id)) => forall d | d in v :: Used(v[d]) != Some(id)
      case (Fresh, Failed(used)) => used.None?
      case (InFlight(id), Answered(id', r)) => id == id' == r.id
      case (InFlight(id), Failed(used)) => used == Some(id)
      case _ => false
  }

  /** Every step of either client is a step of the common specification, or changes nothing in it. */
  lemma StepRefines(s: System, e: Event)
    requires Good(s) && Enabled(s, e)
    ensures SpecNext(Abstract(s), Abstract(Step(s, e)))
  {
    if BySender(e) {
      SenderRefines(s, e);
    } else {
      StepMovesOneCall(s, e);
    }
    hide Step, Good;
  }

  /** What a sender's step does to its own call, in the common specification. */
  ghost predicate OwnMove(s: System, c: Call, x: View) {
    if c in s.calls then x == ViewOf(s.calls[c]) || SpecMove(Abstract(s), c, x) else x == Fresh
  }

  lemma NumberMoves(s: System, c: Call)
    requires Good(s) && Enabled(s, Number(c))
    ensures OwnMove(s, c, ViewOf(Step(s, Number(c)).calls[c]))
  {
    UsedIsId(s);
  }

  lemma ReceiveMoves(s: System, c: Call)
    requires Good(s) && Enabled(s, Receive(c))
    ensures OwnMove(s, c, ViewOf(Step(s, Receive(c)).calls[c]))
  {
    assert ChannelGood(s, c);
  }

  lemma SenderMoves(s: System, e: Event)
    requires Good(s) && Enabled(s, e) && BySender(e)
    ensures OwnMove(s, e.c, ViewOf(Step(s, e).calls[e.c]))
  {
    hide Good, IdOf;
    if e.Number? {
      NumberMoves(s, e.c);
    } else if e.Receive? {
      ReceiveMoves(s, e.c);
    }
  }

  lemma UsedIsId(s: System)
    ensures forall c | c in s.calls :: Used(ViewOf(s.calls[c])) == IdOf(s.calls[c])
  {
  }

  lemma SenderRefines(s: System, e: Event)
    requires Good(s) && Enabled(s, e) && BySender(e)
    ensures SpecNext(Abstract(s), Abstract(Step(s, e)))
  {
    SenderMoves(s, e);
    StepMovesOneCall(s, e);
    hide Step, Good, Enabled, ViewOf;
    var v, x := Abstract(s), ViewOf(Step(s, e).calls[e.c]);
    assert Abstract(Step(s, e)) == v[e.c := x];
    if e.c in v && v[e.c] == x {
      assert v[e.c := x] == v;
    } else {
      assert SpecMove(v, e.c, x);
    }
  }

  lemma RunsRefine(ss: seq<System>, es: seq<Event>, k: nat)
    requires Run(ss, es) && k < |es|
    ensures Abstract(ss[0]) == map[] && SpecNext(Abstract(ss[k]), Abstract(ss[k + 1]))
  {
    ReachableIsGood(ss, es, k);
    StepRefines(ss[k], es[k]);
  }
}
