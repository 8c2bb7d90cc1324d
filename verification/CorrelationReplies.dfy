/** Replies reach their callers: what a call returns, by the events of the run, and that a reply read for a
    pending call gets to it, on an open connection as on a closing one. */
module CorrelationReplies {
  import opened Machine
  import opened ConnectionState
  import opened CorrelationRuns

  // ---- The reader keeps going ----

  /** Whatever the connection does, the reader's next step is enabled, and brings it back to reading or, once the
      connection closes, to its end. A reply that was read is looked up; one that was found is handed over. */
  lemma ReaderMoves(ss: seq<System>, es: seq<Event>, k: nat)
    requires Run(ss, es) && k <= |es|
    ensures var s := ss[k];
            match s.reader
            case Top =>
              Enabled(s, ReaderTop)
              && (s.shared.closing == Open || s.variant == Relay ==> Step(s, ReaderTop).reader == Reading)
            case Reading =>
              && Enabled(s, ReadEvent) && Step(s, ReadEvent).reader == Top
              && Enabled(s, ReadError) && Step(s, ReadError).reader == Failing
              && forall r {:trigger ReadReply(r)} :: Enabled(s, ReadReply(r))
                   && (r.id != 0 ==> Step(s, ReadReply(r)).reader == Taking(r))
            case Taking(r) =>
              Enabled(s, Take)
              && Step(s, Take).reader == if r.id in s.shared.pending then Delivering(s.shared.pending[r.id], r) else Top
            case Delivering(c, r) =>
              Enabled(s, Send) && Step(s, Send).reader == Top && c in Step(s, Send).shared.chans
              && Step(s, Send).shared.chans[c] == Channel(Some(r), false)
            case Failing =>
              Enabled(s, ReaderClose) && Step(s, ReaderClose).reader == Done
              && Step(s, ReaderClose).shared.closing != Open
            case Done => true
  {
    ReachableIsGood(ss, es, k);
    var s := ss[k];
    if s.reader.Delivering? {
      ChannelIsGood(s, s.reader.call);
    }
  }

  /** Only the reader's own step moves it. */
  predicate ByReader(e: Event) {
    e.ReaderTop? || e.ReadReply? || e.ReadEvent? || e.ReadError? || e.Take? || e.Send? || e.ReaderClose?
  }

  lemma OthersKeepReader(s: System, e: Event)
    requires Enabled(s, e) && !ByReader(e)
    ensures Step(s, e).reader == s.reader
  {
  }

  // ---- From the socket to the call ----

  /** At step `m` the reader takes the reply for call `c` out of the pending map. */
  ghost predicate TakenFor(ss: seq<System>, es: seq<Event>, m: int, c: Call, r: Reply) {
    && 0 <= m < |es| && m < |ss| && es[m] == Take && ss[m].reader == Taking(r)
    && r.id in ss[m].shared.pending && ss[m].shared.pending[r.id] == c
  }

  /** A pending entry goes only with the call's own failed write or cancellation, with the reader's look-up of its
      id, or with the drain. */
  lemma StaysPending(s: System, e: Event, id: int, c: Call)
    requires Good(s) && Enabled(s, e) && id in s.shared.pending && s.shared.pending[id] == c
    requires e != Forget(c) && e != Drain && !e.Take?
    ensures var t := Step(s, e); id in t.shared.pending && t.shared.pending[id] == c
  {
    assert HasId(s, c, id);
    if e.Register? || e.Forget? {
      assert IdOf(s.calls[e.c]) == Some(s.calls[e.c].id);
    }
  }

  /** Until the reader looks the reply up, nothing but the call's own failed write or cancellation, or the drain,
      comes between. */
  lemma {:induction false} StaysPendingUntil(ss: seq<System>, es: seq<Event>, m: nat, n: nat, c: Call, r: Reply)
    requires Run(ss, es) && m < n <= |es| && es[m] == ReadReply(r)
    requires r.id in ss[m].shared.pending && ss[m].shared.pending[r.id] == c
    requires forall j | m < j < n :: !ByReader(es[j]) && es[j] != Forget(c) && es[j] != Drain
    ensures ss[n].reader == Taking(r) && r.id in ss[n].shared.pending && ss[n].shared.pending[r.id] == c
  {
    hide Run, Good, Step, Enabled;
    RunStep(ss, es, n - 1);
    ReachableIsGood(ss, es, n - 1);
    if n == m + 1 {
      ReadingTakes(ss[m], c, r);
    } else {
      StaysPendingUntil(ss, es, m, n - 1, c, r);
      StaysPending(ss[n - 1], es[n - 1], r.id, c);
      OthersKeepReader(ss[n - 1], es[n - 1]);
    }
  }

  lemma ReadingTakes(s: System, c: Call, r: Reply)
    requires Good(s) && Enabled(s, ReadReply(r)) && r.id in s.shared.pending && s.shared.pending[r.id] == c
    ensures var t := Step(s, ReadReply(r));
            t.reader == Taking(r) && r.id in t.shared.pending && t.shared.pending[r.id] == c
  {
    IdsArePositive(s, r.id);
    hide Good;
  }

  lemma IdsArePositive(s: System, id: int)
    requires Good(s) && id in s.shared.pending
    ensures id >= 1
  {
    assert HasId(s, s.shared.pending[id], id);
  }

  /** The reply is on its way to the call, in its channel, or returned. */
  predicate HasReply(s: System, c: Call, r: Reply) {
    || s.reader == Delivering(c, r)
    || (c in s.shared.chans && s.shared.chans[c].buffer == Some(r))
    || At(s, c, Returned(Got(r.id, r)))
  }

  lemma TakenIsHad(s: System, c: Call, r: Reply)
    requires Enabled(s, Take) && s.reader == Taking(r) && r.id in s.shared.pending && s.shared.pending[r.id] == c
    ensures HasReply(Step(s, Take), c, r)
  {
  }

  /** No step loses a reply on its way: not even a close. */
  lemma ReplyStays(s: System, e: Event, c: Call, r: Reply)
    requires Good(s) && Enabled(s, e) && HasReply(s, c, r)
    ensures HasReply(Step(s, e), c, r)
  {
    if c in s.shared.chans {
      ChannelIsGood(s, c);
      PendingIffIdPending(s, c);
      PendingAreChannels(s);
    }
    if At(s, c, Returned(Got(r.id, r))) {
      StepKeepsReturn(s, e, c);
    } else if e.Send? {
      SendKeepsReply(s, c, r);
    } else {
      OtherKeepsReply(s, e, c, r);
    }
    hide Good, Step, Enabled, ChannelGood, PendingCalls;
  }

  lemma SendKeepsReply(s: System, c: Call, r: Reply)
    requires Good(s) && Enabled(s, Send) && HasReply(s, c, r) && !At(s, c, Returned(Got(r.id, r)))
    ensures HasReply(Step(s, Send), c, r)
  {
    ChannelIsGood(s, s.reader.call);
    hide Good;
  }

  lemma OtherKeepsReply(s: System, e: Event, c: Call, r: Reply)
    requires Enabled(s, e) && !e.Send? && HasReply(s, c, r) && !At(s, c, Returned(Got(r.id, r)))
    requires c in s.shared.chans ==>
               && c in s.calls && IdOf(s.calls[c]).Some? && ChannelGood(s, c)
               && (c in PendingCalls(s.shared) <==> IdOf(s.calls[c]).value in s.shared.pending)
    ensures HasReply(Step(s, e), c, r)
  {
    hide PendingCalls;
  }

  lemma {:induction false} ReplyStaysUntil(ss: seq<System>, es: seq<Event>, m: nat, k: nat, c: Call, r: Reply)
    requires Run(ss, es) && m < k <= |es| && TakenFor(ss, es, m, c, r)
    ensures HasReply(ss[k], c, r)
  {
    hide HasReply, Good, Run, Step, Enabled;
    RunStep(ss, es, k - 1);
    ReachableIsGood(ss, es, k - 1);
    if k == m + 1 {
      TakenIsHad(ss[m], c, r);
    } else {
      ReplyStaysUntil(ss, es, m, k - 1, c, r);
      ReplyStays(ss[k - 1], es[k - 1], c, r);
    }
  }

  /** A reply that is on its way to a call was taken for it. */
  lemma NewReplyIsTaken(s: System, e: Event, c: Call, r: Reply)
    requires Good(s) && Enabled(s, e) && HasReply(Step(s, e), c, r) && !HasReply(s, c, r)
    ensures e == Take && s.reader == Taking(r) && r.id in s.shared.pending && s.shared.pending[r.id] == c
  {
    if e.Drain? {
      PendingAreChannels(s);
      DrainBringsNothing(s, c, r);
    } else if BySender(e) {
      SenderBringsNothing(s, e, c, r);
    } else {
      ReaderBrings(s, e, c, r);
    }
    hide Good, Step, Enabled, HasReply;
  }

  lemma DrainBringsNothing(s: System, c: Call, r: Reply)
    requires Enabled(s, Drain) && HasReply(Step(s, Drain), c, r)
    ensures HasReply(s, c, r)
  {
  }

  lemma SenderBringsNothing(s: System, e: Event, c: Call, r: Reply)
    requires Good(s) && Enabled(s, e) && BySender(e) && HasReply(Step(s, e), c, r)
    ensures HasReply(s, c, r)
  {
    StepMovesOneCall(s, e);
    if e.Receive? {
      ChannelIsGood(s, e.c);
    }
    hide Good;
  }

  lemma ReaderBrings(s: System, e: Event, c: Call, r: Reply)
    requires Good(s) && Enabled(s, e) && !BySender(e) && !e.Drain? && HasReply(Step(s, e), c, r) && !HasReply(s, c, r)
    ensures e == Take && s.reader == Taking(r) && r.id in s.shared.pending && s.shared.pending[r.id] == c
  {
    hide Good;
  }

  lemma NothingAtStart(variant: Variant, c: Call, r: Reply)
    ensures !HasReply(Start(variant), c, r)
  {
  }

  lemma {:induction false} HadWasTaken(ss: seq<System>, es: seq<Event>, k: nat, c: Call, r: Reply) returns (m: nat)
    requires Run(ss, es) && k <= |es| && HasReply(ss[k], c, r)
    ensures m < k && TakenFor(ss, es, m, c, r)
  {
    hide Good, Step, Enabled, HasReply;
    if k == 0 {
      NothingAtStart(ss[0].variant, c, r);
    } else {
      RunStep(ss, es, k - 1);
      ReachableIsGood(ss, es, k - 1);
      if HasReply(ss[k - 1], c, r) {
        m := HadWasTaken(ss, es, k - 1, c, r);
      } else {
        NewReplyIsTaken(ss[k - 1], es[k - 1], c, r);
        m := k - 1;
      }
    }
  }

  /** What a call receives: the reply that was taken for it, if one was; else the news that the connection
      closed. */
  lemma ReceivesIff(ss: seq<System>, es: seq<Event>, n: nat, c: Call)
    requires Run(ss, es) && n < |es| && es[n] == Receive(c)
    ensures c in ss[n].calls && ss[n].calls[c].Waiting?
    ensures forall r :: At(ss[n + 1], c, Returned(Got(ss[n].calls[c].id, r)))
                        <==> exists m :: m < n && TakenFor(ss, es, m, c, r)
    ensures (forall r, m | m < n :: !TakenFor(ss, es, m, c, r)) ==>
              At(ss[n + 1], c, Returned(ConnectionClosed(ss[n].calls[c].id)))
  {
    ReachableIsGood(ss, es, n);
    RunStep(ss, es, n);
    var s := ss[n];
    ChannelIsGood(s, c);
    forall r
      ensures At(ss[n + 1], c, Returned(Got(s.calls[c].id, r))) <==> exists m :: m < n && TakenFor(ss, es, m, c, r)
    {
      if m :| m < n && TakenFor(ss, es, m, c, r) {
        ReplyStaysUntil(ss, es, m, n, c, r);
        ReceiverGets(s, c, r);
      }
      if At(ss[n + 1], c, Returned(Got(s.calls[c].id, r))) {
        assert HasReply(s, c, r);
        var m := HadWasTaken(ss, es, n, c, r);
      }
    }
    if s.shared.chans[c].buffer.Some? {
      var m := HadWasTaken(ss, es, n, c, s.shared.chans[c].buffer.value);
    }
    hide Run, Good, TakenFor;
  }

  lemma ReceiverGets(s: System, c: Call, r: Reply)
    requires Good(s) && Enabled(s, Receive(c)) && HasReply(s, c, r)
    ensures At(Step(s, Receive(c)), c, Returned(Got(s.calls[c].id, r)))
  {
    ChannelIsGood(s, c);
    hide Good;
  }

  /** A reply that is read for a pending call, and looked up before the call gives up and before a drain, is
      received: from the look-up on it is on its way, in the call's channel, or returned by the call. A call that
      still waits has an enabled step, after at most the reader's hand-over, that returns exactly this reply. */
  lemma ReplyReaches(ss: seq<System>, es: seq<Event>, m: nat, n: nat, k: nat, c: Call, r: Reply)
    requires Run(ss, es) && m < n < k <= |es| && es[m] == ReadReply(r) && es[n] == Take
    requires r.id in ss[m].shared.pending && ss[m].shared.pending[r.id] == c
    requires forall j | m < j < n :: !ByReader(es[j]) && es[j] != Forget(c) && es[j] != Drain
    ensures TakenFor(ss, es, n, c, r) && HasReply(ss[k], c, r)
    ensures c in ss[k].calls && ss[k].calls[c].Waiting? ==>
              var s := ss[k];
              || (Enabled(s, Receive(c)) && At(Step(s, Receive(c)), c, Returned(Got(r.id, r))))
              || (Enabled(s, Send) && Enabled(Step(s, Send), Receive(c))
                  && At(Step(Step(s, Send), Receive(c)), c, Returned(Got(r.id, r))))
  {
    StaysPendingUntil(ss, es, m, n, c, r);
    assert TakenFor(ss, es, n, c, r);
    ReplyStaysUntil(ss, es, n, k, c, r);
    ReachableIsGood(ss, es, k);
    if c in ss[k].calls && ss[k].calls[c].Waiting? {
      WaiterReturns(ss[k], c, r);
    }
    hide Run, Good;
  }

  lemma WaiterReturns(s: System, c: Call, r: Reply)
    requires Good(s) && HasReply(s, c, r) && c in s.calls && s.calls[c].Waiting?
    ensures || (Enabled(s, Receive(c)) && At(Step(s, Receive(c)), c, Returned(Got(r.id, r))))
            || (Enabled(s, Send) && Enabled(Step(s, Send), Receive(c))
                && At(Step(Step(s, Send), Receive(c)), c, Returned(Got(r.id, r))))
  {
    if s.reader == Delivering(c, r) {
      assert c in s.shared.chans;
    }
    ChannelIsGood(s, c);
    hide Good;
  }

  // ---- What a call returns, by the events ----

  ghost predicate Happened(es: seq<Event>, k: nat, e: Event)
    requires k <= |es|
  {
    e in es[..k]
  }

  lemma HappenedSoFar(es: seq<Event>, k: nat, e: Event)
    requires 0 < k <= |es|
    ensures Happened(es, k, e) <==> Happened(es, k - 1, e) || es[k - 1] == e
  {
    assert es[..k] == es[..k - 1] + [es[k - 1]];
  }

  /** The call found the connection closed when it checked. */
  ghost predicate RefusedAt(ss: seq<System>, es: seq<Event>, k: nat, c: Call)
    requires k <= |es| && |ss| == |es| + 1
  {
    exists m | 0 <= m < k :: es[m] == Check(c) && ss[m].shared.closing != Open
  }

  lemma RefusedSoFar(ss: seq<System>, es: seq<Event>, k: nat, c: Call)
    requires 0 < k <= |es| && |ss| == |es| + 1
    ensures RefusedAt(ss, es, k, c)
            <==> RefusedAt(ss, es, k - 1, c) || (es[k - 1] == Check(c) && ss[k - 1].shared.closing != Open)
  {
  }

  predicate IsPc(s: System, c: Call, unwritten: bool, cancelling: bool, received: bool, refused: bool) {
    && (unwritten <==> c in s.calls
                       && (s.calls[c].Unwritten? || (s.calls[c].Returned? && s.calls[c].result.WriteFailed?)))
    && (cancelling <==> c in s.calls
                        && (s.calls[c].Cancelling? || (s.calls[c].Returned? && s.calls[c].result.Cancelled?)))
    && (received <==> c in s.calls && s.calls[c].Returned?
                      && (s.calls[c].result.Got? || s.calls[c].result.ConnectionClosed?))
    && (refused <==> c in s.calls && s.calls[c].Returned? && s.calls[c].result.Refused?)
  }

  lemma StepIsPc(s: System, e: Event, c: Call, unwritten: bool, cancelling: bool, received: bool, refused: bool)
    requires Enabled(s, e) && IsPc(s, c, unwritten, cancelling, received, refused)
    ensures IsPc(Step(s, e), c, unwritten || e == Write(c, false), cancelling || e == Cancel(c),
                 received || e == Receive(c), refused || (e == Check(c) && s.shared.closing != Open))
  {
    StepMovesOneCall(s, e);
  }

  /** In every interleaving: a call failed to write, was cancelled, received, or was refused exactly if that is
      what happened to it. */
  lemma {:induction false} OutcomeIsExact(ss: seq<System>, es: seq<Event>, k: nat, c: Call)
    requires Run(ss, es) && |ss| == |es| + 1 && k <= |es|
    ensures IsPc(ss[k], c, Happened(es, k, Write(c, false)), Happened(es, k, Cancel(c)), Happened(es, k, Receive(c)),
                 RefusedAt(ss, es, k, c))
  {
    if k > 0 {
      RunStep(ss, es, k - 1);
      hide Run, Step, Enabled, IsPc, Happened, RefusedAt;
      OutcomeIsExact(ss, es, k - 1, c);
      HappenedSoFar(es, k, Write(c, false));
      HappenedSoFar(es, k, Cancel(c));
      HappenedSoFar(es, k, Receive(c));
      RefusedSoFar(ss, es, k, c);
      StepIsPc(ss[k - 1], es[k - 1], c, Happened(es, k - 1, Write(c, false)), Happened(es, k - 1, Cancel(c)),
               Happened(es, k - 1, Receive(c)), RefusedAt(ss, es, k - 1, c));
    }
  }

  /** In every interleaving: a call returns a reply exactly if the reader looked that reply up while the call was
      registered under its id, and the call then received instead of being cancelled. */
  lemma GotIff(ss: seq<System>, es: seq<Event>, k: nat, c: Call, r: Reply)
    requires Run(ss, es) && |ss| == |es| + 1 && k <= |es|
    ensures (exists id :: At(ss[k], c, Returned(Got(id, r))))
            <==> exists m, n :: 0 <= m < n < k && TakenFor(ss, es, m, c, r) && es[n] == Receive(c)
  {
    hide Run, Step, Enabled, TakenFor;
    if m, n :| 0 <= m < n < k && TakenFor(ss, es, m, c, r) && es[n] == Receive(c) {
      ReceivesIff(ss, es, n, c);
      RunStep(ss, es, n);
      assert At(ss[n + 1], c, Returned(Got(ss[n].calls[c].id, r)));
      ReturnIsFinal(ss, es, n + 1, k, c);
      assert At(ss[k], c, Returned(Got(ss[n].calls[c].id, r)));
    }
    if id :| At(ss[k], c, Returned(Got(id, r))) {
      OutcomeIsExact(ss, es, k, c);
      var n :| 0 <= n < k && es[..k][n] == Receive(c);
      ReceivesIff(ss, es, n, c);
      ResultIsThat(ss, es, n, k, c, r, id);
      var m :| m < n && TakenFor(ss, es, m, c, r);
      TakenIsAStep(ss, es, m, c, r);
    }
  }

  lemma TakenIsAStep(ss: seq<System>, es: seq<Event>, m: int, c: Call, r: Reply)
    requires TakenFor(ss, es, m, c, r)
    ensures 0 <= m
  {
  }

  /** The result at the end is that of the receiving step. */
  lemma ResultIsThat(ss: seq<System>, es: seq<Event>, n: nat, k: nat, c: Call, r: Reply, id: int)
    requires Run(ss, es) && |ss| == |es| + 1 && n < k <= |es| && es[n] == Receive(c)
    requires At(ss[k], c, Returned(Got(id, r)))
    ensures exists m :: m < n && TakenFor(ss, es, m, c, r)
  {
    hide Run, TakenFor, Good;
    RunStep(ss, es, n);
    ReachableIsGood(ss, es, n);
    ReceiverReturns(ss[n], c);
    ReturnIsFinal(ss, es, n + 1, k, c);
    ReceivesIff(ss, es, n, c);
    assert At(ss[n + 1], c, Returned(Got(ss[n].calls[c].id, r)));
  }

  lemma ReceiverReturns(s: System, c: Call)
    requires Enabled(s, Receive(c))
    ensures var t := Step(s, Receive(c));
            c in s.calls && s.calls[c].Waiting? && c in t.calls && t.calls[c].Returned?
            && (t.calls[c].result.Got? ==> t.calls[c].result.id == s.calls[c].id)
  {
  }

  /** At any time a call that has not returned and does not wait has an enabled step that brings it closer to
      returning. */
  lemma CallsMoveOn(ss: seq<System>, es: seq<Event>, k: nat, c: Call)
    requires Run(ss, es) && k <= |es| && c in ss[k].calls && !ss[k].calls[c].Returned? && !ss[k].calls[c].Waiting?
    ensures MovesOn(ss[k], c)
  {
    OthersMove(ss[k], c);
  }

  // ---- A whole call ----

  /** From every reachable state of an open connection with the reader at its read: a call that enters, is written
      and answered, with nobody stepping in between, returns the answer. */
  lemma CallSucceeds(ss: seq<System>, es: seq<Event>, c: Call, body: string)
    requires Run(ss, es) && |ss| == |es| + 1
    requires ss[|es|].shared.closing == Open && ss[|es|].reader == Reading && c !in ss[|es|].calls
    ensures var s := ss[|es|];
            var id := s.shared.nextId + 1;
            var all := [Enter(c), Check(c), Number(c), Register(c), Write(c, true), ReadReply(Reply(id, body)), Take,
                        Send, Receive(c)];
            CanRun(s, all) && At(AfterRun(s, all), c, Returned(Got(id, Reply(id, body))))
  {
    var s := ss[|es|];
    ReachableIsGood(ss, es, |es|);
    var id := s.shared.nextId + 1;
    CallIsSent(s, c);
    var t := AfterRun(s, [Enter(c), Check(c), Number(c), Register(c), Write(c, true)]);
    CallIsAnswered(t, c, id, body);
    hide Run, Good, Step, Enabled, CanRun, AfterRun;
    Joined(s, [Enter(c), Check(c), Number(c), Register(c), Write(c, true)],
           [ReadReply(Reply(id, body)), Take, Send, Receive(c)]);
    assert [Enter(c), Check(c), Number(c), Register(c), Write(c, true)]
        + [ReadReply(Reply(id, body)), Take, Send, Receive(c)]
        == [Enter(c), Check(c), Number(c), Register(c), Write(c, true), ReadReply(Reply(id, body)), Take, Send,
            Receive(c)];
  }

  ghost predicate CanRun(s: System, es: seq<Event>)
    decreases |es|
  {
    es == [] || (Enabled(s, es[0]) && CanRun(Step(s, es[0]), es[1..]))
  }

  ghost function AfterRun(s: System, es: seq<Event>): System
    requires CanRun(s, es)
    decreases |es|
  {
    if es == [] then s else AfterRun(Step(s, es[0]), es[1..])
  }

  lemma {:induction false} Joined(s: System, a: seq<Event>, b: seq<Event>)
    requires CanRun(s, a) && CanRun(AfterRun(s, a), b)
    ensures CanRun(s, a + b) && AfterRun(s, a + b) == AfterRun(AfterRun(s, a), b)
    decreases |a|
  {
    if a == [] {
      assert a + b == b;
    } else {
      assert (a + b)[0] == a[0] && (a + b)[1..] == a[1..] + b;
      Joined(Step(s, a[0]), a[1..], b);
    }
  }

  lemma OneMore(s: System, e: Event, rest: seq<Event>)
    requires Enabled(s, e) && CanRun(Step(s, e), rest)
    ensures CanRun(s, [e] + rest) && AfterRun(s, [e] + rest) == AfterRun(Step(s, e), rest)
  {
    assert ([e] + rest)[1..] == rest;
    hide Step, Enabled;
  }

  /** A call that enters, checks and numbers itself has the next id and an empty channel. */
  lemma CallIsNumbered(s: System, c: Call)
    requires Good(s) && s.shared.closing == Open && c !in s.calls
    ensures var es := [Enter(c), Check(c), Number(c)];
            CanRun(s, es)
            && var t, id := AfterRun(s, es), s.shared.nextId + 1;
               && At(t, c, Pc.Unregistered(id)) && t.reader == s.reader && t.shared.closing == Open && id >= 1
               && c in t.shared.chans && t.shared.chans[c] == Channel(None, false)
  {
    var s1 := Step(s, Enter(c));
    var s2 := Step(s1, Check(c));
    var s3 := Step(s2, Number(c));
    hide Good, CanRun, AfterRun;
    Nothing(s3);
    OneMore(s2, Number(c), []);
    OneMore(s1, Check(c), [Number(c)]);
    OneMore(s, Enter(c), [Check(c), Number(c)]);
  }

  /** Registered and written, it waits with its channel pending. */
  lemma CallIsWritten(s: System, c: Call, id: int)
    requires At(s, c, Pc.Unregistered(id)) && s.shared.closing == Open
    requires c in s.shared.chans && s.shared.chans[c] == Channel(None, false)
    ensures var es := [Register(c), Write(c, true)];
            CanRun(s, es)
            && var t := AfterRun(s, es);
               && At(t, c, Waiting(id)) && t.reader == s.reader
               && id in t.shared.pending && t.shared.pending[id] == c
               && c in t.shared.chans && t.shared.chans[c] == Channel(None, false)
  {
    var s1 := Step(s, Register(c));
    var s2 := Step(s1, Write(c, true));
    hide CanRun, AfterRun;
    Nothing(s2);
    OneMore(s1, Write(c, true), []);
    OneMore(s, Register(c), [Write(c, true)]);
  }

  /** A call that is sent waits with its channel pending and empty, under the next id. */
  lemma CallIsSent(s: System, c: Call)
    requires Good(s) && s.shared.closing == Open && c !in s.calls && s.reader == Reading
    ensures var es := [Enter(c), Check(c), Number(c), Register(c), Write(c, true)];
            CanRun(s, es)
            && var t, id := AfterRun(s, es), s.shared.nextId + 1;
               && At(t, c, Waiting(id)) && t.reader == Reading && id >= 1
               && id in t.shared.pending && t.shared.pending[id] == c
               && c in t.shared.chans && t.shared.chans[c] == Channel(None, false)
  {
    hide Good, CanRun, AfterRun, Step, Enabled;
    CallIsNumbered(s, c);
    CallIsWritten(AfterRun(s, [Enter(c), Check(c), Number(c)]), c, s.shared.nextId + 1);
    Joined(s, [Enter(c), Check(c), Number(c)], [Register(c), Write(c, true)]);
    assert [Enter(c), Check(c), Number(c)] + [Register(c), Write(c, true)]
        == [Enter(c), Check(c), Number(c), Register(c), Write(c, true)];
  }

  lemma Nothing(s: System)
    ensures CanRun(s, []) && AfterRun(s, []) == s
  {
  }

  lemma CallIsAnswered(s: System, c: Call, id: int, body: string)
    requires At(s, c, Waiting(id)) && s.reader == Reading && id >= 1
    requires id in s.shared.pending && s.shared.pending[id] == c
    requires c in s.shared.chans && s.shared.chans[c] == Channel(None, false)
    ensures var es := [ReadReply(Reply(id, body)), Take, Send, Receive(c)];
            CanRun(s, es) && At(AfterRun(s, es), c, Returned(Got(id, Reply(id, body))))
  {
    var r := Reply(id, body);
    var s1 := Step(s, ReadReply(r));
    var s2 := Step(s1, Take);
    var s3 := Step(s2, Send);
    var s4 := Step(s3, Receive(c));
    hide CanRun, AfterRun;
    Nothing(s4);
    OneMore(s3, Receive(c), []);
    OneMore(s2, Send, [Receive(c)]);
    OneMore(s1, Take, [Send, Receive(c)]);
    OneMore(s, ReadReply(r), [Take, Send, Receive(c)]);
  }
}
