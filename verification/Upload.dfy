/** The resumable upload: a client that streams a file in chunks, a synth that accepts a chunk only at
    its exact offset, and a network that may lose, delay and repeat requests, lose replies, and outlive
    any number of crashes of the client. */
module Upload {
  import opened Machine

  type Byte = x: int | 0 <= x < 256

  const MAX_TRANSPORT_ERRORS := 5
  const COMPLETE_ATTEMPTS := 3

  /** A chunk request as it travels: the bytes and their offset header. */
  datatype Chunk = Chunk(offset: nat, bytes: seq<Byte>)

  datatype Reply = Accepted | Conflict(bytesReceived: nat)

  datatype Delivery =
    | RequestLost
    | ReplyLost
    | Answered
    | Refused              // any other status: nothing is applied
    | Crash(applied: bool) // the client dies, before or after the synth saw the request

  /** What happens to one request. `late` are old chunk requests, by number, that reach the synth first. */
  datatype Fate = Fate(late: seq<nat>, delivery: Delivery)

  /** How one run of the upload goroutine ends. */
  datatype Ending = Completed | Mismatched | Unconfirmed | GaveUp | Stopped | Crashed

  /** A complete request that the synth handled: the digest it carried and the bytes held at that moment. */
  datatype Post<D> = Post(digest: D, body: seq<Byte>)

  ghost predicate IsPieceOf(c: Chunk, file: seq<Byte>) {
    c.offset + |c.bytes| <= |file| && c.bytes == file[c.offset..c.offset + |c.bytes|]
  }

  /** The synth's side of one upload, and the network's memory of the chunk requests sent for it. */
  class Synth<D(==)> {
    var received: seq<Byte>
    var sent: seq<Chunk>
    var posts: seq<Post<D>>

    /** The numbers of the chunk requests that were accepted when they were made. */
    ghost var taken: set<nat>

    constructor ()
      ensures received == [] && sent == [] && posts == [] && taken == {}
    {
      received, sent, posts, taken := [], [], [], {};
    }

    /** The synth holds a prefix of the file, only pieces of the file ever travel, and every complete
        request carried the digest of the file to a synth holding exactly the file. */
    ghost predicate Faithful(file: seq<Byte>, digest: seq<Byte> -> D)
      reads this
    {
      && received <= file
      && (forall c | c in sent :: IsPieceOf(c, file))
      && (forall p | p in posts :: p.body == file && p.digest == digest(file))
    }

    /** The strict-offset contract. */
    method Put(c: Chunk) returns (r: Reply)
      modifies this`received
      ensures r == if c.offset == |old(received)| then Accepted else Conflict(|old(received)|)
      ensures received == if c.offset == |old(received)| then old(received) + c.bytes else old(received)
    {
      if c.offset == |received| {
        received := received + c.bytes;
        return Accepted;
      }
      return Conflict(|received|);
    }

    /** A chunk request arrives when it is made. */
    method Answer(c: Chunk, ghost number: nat) returns (r: Reply)
      modifies this`received, this`taken
      ensures r == if c.offset == |old(received)| then Accepted else Conflict(|old(received)|)
      ensures received == if r.Accepted? then old(received) + c.bytes else old(received)
      ensures taken == if r.Accepted? then old(taken) + {number} else old(taken)
    {
      r := Put(c);
      if r.Accepted? {
        taken := taken + {number};
      }
    }

    /** Old requests arrive again, in any order and any number of times. */
    method DeliverLate(late: seq<nat>, ghost file: seq<Byte>, ghost digest: seq<Byte> -> D)
      requires Faithful(file, digest)
      modifies this`received
      ensures Faithful(file, digest) && |old(received)| <= |received|
    {
      for i := 0 to |late|
        invariant Faithful(file, digest) && |old(received)| <= |received|
      {
        if late[i] < |sent| {
          ghost var before := received;
          var _ := Put(sent[late[i]]);
          PieceExtendsPrefix(before, sent[late[i]], file);
        }
      }
    }

    /** The synth's hash validation at the end. */
    method Complete(d: D, digest: seq<Byte> -> D) returns (ok: bool)
      modifies this`posts
      ensures posts == old(posts) + [Post(d, received)]
      ensures ok == (d == digest(received))
    {
      posts := posts + [Post(d, received)];
      ok := d == digest(received);
    }
  }

  lemma PieceExtendsPrefix(received: seq<Byte>, c: Chunk, file: seq<Byte>)
    requires received <= file && IsPieceOf(c, file)
    ensures c.offset == |received| ==> received + c.bytes <= file
  {
    if c.offset == |received| {
      assert received + c.bytes == file[..c.offset + |c.bytes|];
    }
  }

  /** Restarts the running hash and feeds it the first `target` bytes of the file. On a short file the
      copy fails, but only after every byte of the file went into the hash. */
  method RehashTo(file: seq<Byte>, target: int) returns (ok: bool, consumed: seq<Byte>)
    ensures ok == (target <= |file|)
    ensures consumed == if target <= 0 then [] else if target <= |file| then file[..target] else file
  {
    consumed := [];
    var i := 0;
    while i < target && i < |file|
      invariant 0 <= i <= |file| && (i <= target || i == 0)
      invariant consumed == file[..i]
    {
      consumed := consumed + [file[i]];
      i := i + 1;
    }
    ok := i >= target;
  }

  /** The initial offset and running hash, from what the synth says it already has (if it answers). */
  function SeedPosition(file: seq<Byte>, reported: Option<int>): (nat, seq<Byte>) {
    if reported.None? || reported.value <= 0 then (0, [])
    else if reported.value <= |file| then (reported.value, file[..reported.value])
    else (0, file)
  }

  method Seed(file: seq<Byte>, reported: Option<int>) returns (offset: nat, consumed: seq<Byte>)
    ensures (offset, consumed) == SeedPosition(file, reported)
  {
    offset, consumed := 0, [];
    if reported.Some? && reported.value > 0 {
      var ok, hashed := RehashTo(file, reported.value);
      consumed := hashed;
      if ok {
        offset := reported.value;
      }
    }
  }

  /** The running hash starts as the hash of the bytes before the offset in every case but one: a synth
      that claims more bytes than a non-empty file has leaves the whole file hashed and the offset at 0. */
  lemma SeedIsAlignedIff(file: seq<Byte>, reported: Option<int>)
    ensures var (offset, consumed) := SeedPosition(file, reported);
            offset <= |file| && (consumed == file[..offset] <==> !(reported.Some? && reported.value > |file| > 0))
  {
    var (offset, consumed) := SeedPosition(file, reported);
    if consumed == file[..offset] {
      assert |consumed| == offset;
    }
  }

  /** The stream starts where the synth says it is, unless that is not within the file. */
  lemma SeedResumes(file: seq<Byte>, reported: Option<int>)
    ensures SeedPosition(file, reported).0
            == if reported.Some? && 0 <= reported.value <= |file| then reported.value else 0
  {
  }

  lemma OverclaimMisaligns()
    ensures var file: seq<Byte> := [7];
            var (offset, consumed) := SeedPosition(file, Some(2));
            consumed != file[..offset]
  {
  }

  ghost predicate AlwaysAnswered(net: nat -> Fate) {
    forall i: nat :: net(i).delivery.Answered?
  }

  predicate Arrives(d: Delivery) {
    d.Answered? || d.ReplyLost? || (d.Crash? && d.applied)
  }

  /** The client sees a transport error. */
  predicate Fails(d: Delivery) {
    d.RequestLost? || d.ReplyLost?
  }

  /** The transport errors among the requests from `start` up to `end`. */
  ghost function Failures(net: nat -> Fate, start: nat, end: nat): nat {
    if end <= start then 0 else Failures(net, start, end - 1) + (if Fails(net(end - 1).delivery) then 1 else 0)
  }

  lemma FailuresStep(net: nat -> Fate, start: nat, end: nat)
    requires start <= end
    ensures Failures(net, start, end + 1) == Failures(net, start, end) + if Fails(net(end).delivery) then 1 else 0
  {
  }

  lemma {:induction false} MoreFailures(net: nat -> Fate, start: nat, later: nat, end: nat)
    requires start <= later
    ensures Failures(net, later, end) <= Failures(net, start, end)
    decreases end
  {
    if later < end {
      MoreFailures(net, start, later, end - 1);
    }
  }

  lemma {:induction false} NoFailures(net: nat -> Fate, start: nat, end: nat)
    requires forall i: nat | start <= i < end :: !Fails(net(i).delivery)
    ensures Failures(net, start, end) == 0
  {
    if start < end {
      NoFailures(net, start, end - 1);
    }
  }

  /** The crashes of the client among the requests from `start` up to `end`. */
  ghost function Crashes(net: nat -> Fate, start: nat, end: nat): nat {
    if end <= start then 0 else Crashes(net, start, end - 1) + (if net(end - 1).delivery.Crash? then 1 else 0)
  }

  lemma {:induction false} CrashesAdd(net: nat -> Fate, start: nat, middle: nat, end: nat)
    requires start <= middle <= end
    ensures Crashes(net, start, end) == Crashes(net, start, middle) + Crashes(net, middle, end)
  {
    if middle < end {
      CrashesAdd(net, start, middle, end - 1);
    }
  }

  /** The client learned that the synth took the chunk of request `i`. */
  ghost predicate SawAccepted(net: nat -> Fate, taken: set<nat>, i: nat) {
    i in taken && net(i).delivery.Answered?
  }

  /** More than five transport errors since the last chunk that the client saw accepted. */
  ghost predicate Starved(net: nat -> Fate, taken: set<nat>, since: nat, end: nat) {
    Failures(net, since, end) > 5 && NoneSeen(net, taken, since, end)
  }

  ghost predicate NoneSeen(net: nat -> Fate, taken: set<nat>, since: nat, end: nat) {
    forall i: nat | since <= i < end :: !SawAccepted(net, taken, i)
  }

  /** Only requests before `end` were accepted. */
  ghost predicate TakenBefore(taken: set<nat>, end: nat) {
    forall i | i in taken :: i < end
  }

  /** Between `start` and `end` there was no earlier moment to give up. */
  ghost predicate NeverStarved(net: nat -> Fate, taken: set<nat>, start: nat, end: nat) {
    forall a: nat, b: nat | start <= a <= b < end :: !Starved(net, taken, a, b)
  }

  /** The loop's count is that since the last chunk seen accepted; so it is the largest count of any window that
      ends here and holds none. */
  lemma CountIsLargest(net: nat -> Fate, taken: set<nat>, start: nat, since: nat, end: nat)
    requires start <= since <= end && Failures(net, since, end) <= 5 && NeverStarved(net, taken, start, end)
    requires since > start ==> SawAccepted(net, taken, since - 1)
    ensures NeverStarved(net, taken, start, end + 1)
  {
    forall a: nat, b: nat | start <= a <= b < end + 1
      ensures !Starved(net, taken, a, b)
    {
      if b == end {
        if a < since {
          assert SawAccepted(net, taken, since - 1);
          if since - 1 >= a {
            assert !NoneSeen(net, taken, a, b);
          }
        } else {
          MoreFailures(net, since, a, b);
        }
      } else {
        assert !Starved(net, taken, a, b);
      }
    }
    hide Failures;
  }

  lemma LaterTakenKeeps(net: nat -> Fate, taken: set<nat>, taken': set<nat>, start: nat, end: nat)
    requires NeverStarved(net, taken, start, end + 1) && taken <= taken' <= taken + {end}
    ensures NeverStarved(net, taken', start, end + 1)
  {
    hide Failures;
    forall a: nat, b: nat | start <= a <= b < end + 1
      ensures !Starved(net, taken', a, b)
    {
      assert !Starved(net, taken, a, b);
      assert forall i: nat | a <= i < b :: SawAccepted(net, taken, i) <==> SawAccepted(net, taken', i);
    }
  }

  lemma StillNoneSeen(net: nat -> Fate, taken: set<nat>, taken': set<nat>, since: nat, end: nat)
    requires NoneSeen(net, taken, since, end) && TakenBefore(taken, end) && taken <= taken' <= taken + {end}
    requires taken' == taken || !net(end).delivery.Answered?
    ensures NoneSeen(net, taken', since, end + 1) && TakenBefore(taken', end + 1)
  {
    forall i: nat | since <= i < end + 1
      ensures !SawAccepted(net, taken', i)
    {
      assert i < end ==> !SawAccepted(net, taken, i);
    }
  }

  /** The state of the loop's error count: `errors` transport errors since the last chunk seen accepted, no
      earlier moment to give up, and no crash. */
  ghost predicate Counting(net: nat -> Fate, taken: set<nat>, start: nat, since: nat, end: nat, errors: int) {
    && start <= since <= end && errors == Failures(net, since, end) && errors <= 5
    && NoneSeen(net, taken, since, end) && TakenBefore(taken, end)
    && (since > start ==> SawAccepted(net, taken, since - 1))
    && NeverStarved(net, taken, start, end + 1) && Crashes(net, start, end) == 0
  }

  lemma CountingStarts(net: nat -> Fate, taken: set<nat>, start: nat)
    requires taken == {}
    ensures Counting(net, taken, start, start, start, 0)
  {
  }

  lemma CountingEnds(net: nat -> Fate, taken: set<nat>, start: nat, since: nat, end: nat, errors: int)
    requires Counting(net, taken, start, since, end, errors)
    ensures NeverStarved(net, taken, start, end) && Crashes(net, start, end) == 0
  {
    hide Starved;
  }

  lemma AfterAccepted(net: nat -> Fate, taken: set<nat>, taken': set<nat>, start: nat, since: nat, end: nat,
                      errors: int)
    requires Counting(net, taken, start, since, end, errors) && taken' == taken + {end} && net(end).delivery.Answered?
    ensures Counting(net, taken', start, end + 1, end + 1, 0)
  {
    LaterTakenKeeps(net, taken, taken', start, end);
    CrashStep(net, start, end);
    FailuresOfNothing(net, end + 1);
    hide NeverStarved, Crashes, Failures;
    CountIsLargest(net, taken', start, end + 1, end + 1);
  }

  lemma AfterConflict(net: nat -> Fate, taken: set<nat>, start: nat, since: nat, end: nat, errors: int)
    requires Counting(net, taken, start, since, end, errors) && net(end).delivery.Answered?
    ensures Counting(net, taken, start, since, end + 1, errors)
  {
    StillNoneSeen(net, taken, taken, since, end);
    AddedCount(net, start, since, end);
    hide NeverStarved, Crashes, Failures, NoneSeen;
    assert end !in taken;
    CountIsLargest(net, taken, start, since, end + 1);
  }

  lemma AddedCount(net: nat -> Fate, start: nat, since: nat, end: nat)
    requires start <= since <= end
    ensures Failures(net, since, end + 1) == Failures(net, since, end) + if Fails(net(end).delivery) then 1 else 0
    ensures Crashes(net, start, end + 1) == Crashes(net, start, end) + if net(end).delivery.Crash? then 1 else 0
  {
  }

  lemma AfterFailure(net: nat -> Fate, taken: set<nat>, taken': set<nat>, start: nat, since: nat, end: nat, errors: int)
    requires Counting(net, taken, start, since, end, errors) && taken <= taken' <= taken + {end}
    requires Fails(net(end).delivery)
    ensures errors < 5 ==> Counting(net, taken', start, since, end + 1, errors + 1)
    ensures errors == 5 ==> Starved(net, taken', since, end + 1)
    ensures NeverStarved(net, taken', start, end + 1) && Crashes(net, start, end + 1) == 0
  {
    StillNoneSeen(net, taken, taken', since, end);
    LaterTakenKeeps(net, taken, taken', start, end);
    AddedCount(net, start, since, end);
    hide NeverStarved, Crashes, Failures, NoneSeen;
    if errors < 5 {
      CountIsLargest(net, taken', start, since, end + 1);
    }
  }

  lemma AfterLast(net: nat -> Fate, taken: set<nat>, taken': set<nat>, start: nat, since: nat, end: nat, errors: int)
    requires Counting(net, taken, start, since, end, errors) && taken <= taken' <= taken + {end}
    ensures NeverStarved(net, taken', start, end + 1)
    ensures Crashes(net, start, end + 1) == if net(end).delivery.Crash? then 1 else 0
  {
    LaterTakenKeeps(net, taken, taken', start, end);
    CrashStep(net, start, end);
    hide NeverStarved, Crashes;
  }

  /** Why a run over the requests from `start` to `end`, of which those in `taken` were accepted, ended as it
      did. */
  ghost predicate Explained(e: Ending, net: nat -> Fate, taken: set<nat>, start: nat, end: nat) {
    match e
    case Completed => start < end && net(end - 1).delivery.Answered?
    case Mismatched => false
    case Unconfirmed =>
      start + 3 <= end && forall i: nat | end - 3 <= i < end :: Fails(net(i).delivery) || net(i).delivery.Refused?
    case GaveUp => exists since: nat | start <= since <= end :: Starved(net, taken, since, end)
    case Stopped => start < end && net(end - 1).delivery.Refused?
    case Crashed => start < end && net(end - 1).delivery.Crash?
  }

  /** A network that refuses nothing, never fails more than five times between two accepted chunks and never
      three times in a row lets every run complete that is not cut short by a crash. */
  lemma PatienceSuffices(e: Ending, net: nat -> Fate, taken: set<nat>, start: nat, end: nat)
    requires Explained(e, net, taken, start, end)
    requires forall i: nat | start <= i < end :: !net(i).delivery.Refused?
    requires forall since: nat | start <= since <= end :: !Starved(net, taken, since, end)
    requires forall i: nat | start <= i <= end :: !ThreeInARow(net, i)
    ensures e == Completed || e == Crashed
  {
    assert !ThreeInARow(net, end);
  }

  /** A network that only answers, or crashes the client, ends a run in no other way. */
  lemma AnswersSuffice(e: Ending, net: nat -> Fate, taken: set<nat>, start: nat, end: nat)
    requires Explained(e, net, taken, start, end)
    requires forall i: nat | start <= i < end :: net(i).delivery.Answered? || net(i).delivery.Crash?
    ensures e == Completed || e == Crashed
  {
    if e == GaveUp {
      var since: nat :| start <= since <= end && Starved(net, taken, since, end);
      NoFailures(net, since, end);
    } else if e == Unconfirmed {
      var last := net(end - 1).delivery;
      assert last.Answered? || last.Crash?;
    }
  }

  predicate ThreeInARow(net: nat -> Fate, end: nat) {
    end >= 3 && Fails(net(end - 1).delivery) && Fails(net(end - 2).delivery) && Fails(net(end - 3).delivery)
  }

  /** A chunk of the full size, or the rest of the file. */
  predicate IsFull(c: Chunk, file: seq<Byte>, chunkSize: nat) {
    c.offset < |file| && |c.bytes| == if |file| - c.offset < chunkSize then |file| - c.offset else chunkSize
  }

  /** What was sent after `before` are full chunks. */
  ghost predicate AllFull(before: seq<Chunk>, sent: seq<Chunk>, file: seq<Byte>, chunkSize: nat) {
    before <= sent && forall j | |before| <= j < |sent| :: IsFull(sent[j], file, chunkSize)
  }

  lemma NothingSent(sent: seq<Chunk>, file: seq<Byte>, chunkSize: nat)
    ensures AllFull(sent, sent, file, chunkSize)
  {
  }

  lemma SentOne(before: seq<Chunk>, sent: seq<Chunk>, c: Chunk, file: seq<Byte>, chunkSize: nat)
    requires AllFull(before, sent, file, chunkSize) && IsFull(c, file, chunkSize)
    ensures AllFull(before, sent + [c], file, chunkSize)
  {
  }

  lemma NoCrashYet(net: nat -> Fate, start: nat)
    ensures Crashes(net, start, start) == 0
  {
  }

  lemma CrashStep(net: nat -> Fate, start: nat, end: nat)
    requires start <= end
    ensures Crashes(net, start, end + 1) == Crashes(net, start, end) + if net(end).delivery.Crash? then 1 else 0
  {
  }

  lemma FailuresOfNothing(net: nat -> Fate, start: nat)
    ensures Failures(net, start, start) == 0
  {
  }

  /** One chunk request, and what arrives before it. */
  method Exchange<D>(synth: Synth<D>, ghost file: seq<Byte>, ghost digest: seq<Byte> -> D, chunk: Chunk, fate: Fate,
                     ghost number: nat)
    returns (reply: Reply)
    requires synth.Faithful(file, digest) && IsPieceOf(chunk, file)
    modifies synth`received, synth`sent, synth`taken
    ensures synth.Faithful(file, digest) && |old(synth.received)| <= |synth.received|
    ensures synth.sent == old(synth.sent) + [chunk]
    ensures if Arrives(fate.delivery) && reply.Accepted? then
              |synth.received| == chunk.offset + |chunk.bytes| && synth.taken == old(synth.taken) + {number}
            else synth.taken == old(synth.taken)
    ensures Arrives(fate.delivery) && reply.Conflict? ==>
              reply.bytesReceived == |synth.received| && reply.bytesReceived != chunk.offset
    ensures Arrives(fate.delivery) && reply.Accepted? ==> |old(synth.received)| <= chunk.offset
  {
    synth.sent := synth.sent + [chunk];
    synth.DeliverLate(fate.late, file, digest);
    reply := Accepted;
    if Arrives(fate.delivery) {
      PieceExtendsPrefix(synth.received, chunk, file);
      reply := synth.Answer(chunk, number);
    }
  }

  /** The chunk loop, from an aligned position. It ends against every strict-offset synth: each pass makes
      the synth hold more bytes, or uses up a transport error, or resynchronises the offset. At each loop
      head the running hash stands for exactly the bytes before the offset, all of which the synth holds.
      `early` is the ending of a run that never reaches its complete request. */
  method StreamChunks<D>(synth: Synth<D>, file: seq<Byte>, chunkSize: nat, ghost digest: seq<Byte> -> D,
                         net: nat -> Fate, clock: nat, offset0: nat, consumed0: seq<Byte>)
    returns (early: Option<Ending>, consumed: seq<Byte>, clock': nat)
    requires 0 < chunkSize && synth.Faithful(file, digest)
    requires offset0 <= |synth.received| && consumed0 == file[..offset0] && TakenBefore(synth.taken, clock)
    modifies synth`received, synth`sent, synth`taken
    ensures synth.Faithful(file, digest) && |old(synth.received)| <= |synth.received|
    ensures early.None? ==> synth.received == file && consumed == file
    ensures early.Some? ==> early.value in {GaveUp, Stopped, Crashed} && !AlwaysAnswered(net)
    ensures clock <= clock'
    ensures early.Some? ==> Explained(early.value, net, synth.taken - old(synth.taken), clock, clock')
    ensures NeverStarved(net, synth.taken - old(synth.taken), clock, clock') && TakenBefore(synth.taken, clock')
    ensures Crashes(net, clock, clock') == if early == Some(Crashed) then 1 else 0
    ensures AllFull(old(synth.sent), synth.sent, file, chunkSize)
  {
    hide Counting, Starved, NeverStarved, Crashes, AllFull;
    NothingSent(synth.sent, file, chunkSize);
    clock', consumed := clock, consumed0;
    var offset: nat, errors := offset0, 0;
    ghost var since, before := clock, synth.taken;
    CountingStarts(net, synth.taken - before, clock);
    while offset < |file|
      invariant synth.Faithful(file, digest) && |old(synth.received)| <= |synth.received|
      invariant offset <= |synth.received| && consumed == file[..offset]
      invariant 0 <= errors <= MAX_TRANSPORT_ERRORS
      invariant before <= synth.taken && clock <= since <= clock' && TakenBefore(synth.taken, clock')
      invariant Counting(net, synth.taken - before, clock, since, clock', errors)
      invariant AllFull(old(synth.sent), synth.sent, file, chunkSize)
      decreases |file| - |synth.received|, MAX_TRANSPORT_ERRORS - errors,
                if offset == |synth.received| then 0 else 1
    {
      var n := if |file| - offset < chunkSize then |file| - offset else chunkSize;
      var chunk := Chunk(offset, file[offset..offset + n]);
      var fate := net(clock');
      ghost var seen := synth.taken - before;
      SentOne(old(synth.sent), synth.sent, chunk, file, chunkSize);
      var reply := Exchange(synth, file, digest, chunk, fate, clock');
      ghost var now := synth.taken - before;
      assert seen <= now <= seen + {clock'};
      clock' := clock' + 1;
      match fate.delivery
      case Crash(_) =>
        AfterLast(net, seen, now, clock, since, clock' - 1, errors);
        return Some(Crashed), consumed, clock';
      case Refused =>
        AfterLast(net, seen, now, clock, since, clock' - 1, errors);
        return Some(Stopped), consumed, clock';
      case Answered =>
        match reply {
          case Accepted =>
            assert now == seen + {clock' - 1};
            AfterAccepted(net, seen, now, clock, since, clock' - 1, errors);
            errors := 0;
            since := clock';
            consumed := consumed + chunk.bytes;
            offset := offset + n;
          case Conflict(bytesReceived) =>
            var ok, hashed := RehashTo(file, bytesReceived);
            if !ok {
              return Some(Stopped), consumed, clock';
            }
            offset, consumed := bytesReceived, hashed;
            AfterConflict(net, seen, clock, since, clock' - 1, errors);
        }
      case _ =>
        AfterFailure(net, seen, now, clock, since, clock' - 1, errors);
        errors := errors + 1;
        if errors > MAX_TRANSPORT_ERRORS {
          return Some(GaveUp), consumed, clock';
        }
    }
    CountingEnds(net, synth.taken - before, clock, since, clock', errors);
    early := None;
  }

  /** The complete request, at most three times. */
  method PostComplete<D>(synth: Synth<D>, file: seq<Byte>, digest: seq<Byte> -> D, consumed: seq<Byte>,
                         net: nat -> Fate, clock: nat)
    returns (end: Ending, clock': nat)
    requires synth.Faithful(file, digest) && synth.received == file && consumed == file
    modifies synth`received, synth`posts
    ensures synth.Faithful(file, digest) && synth.received == file
    ensures old(synth.posts) <= synth.posts
    ensures end in {Completed, Unconfirmed, Crashed}
    ensures end == Completed ==> |old(synth.posts)| < |synth.posts|
    ensures AlwaysAnswered(net) ==> end == Completed
    ensures Explained(end, net, {}, clock, clock') && clock < clock' <= clock + 3
    ensures Crashes(net, clock, clock') == if end == Crashed then 1 else 0
  {
    clock' := clock;
    NoCrashYet(net, clock);
    var sum := digest(consumed);
    for attempt := 0 to COMPLETE_ATTEMPTS
      invariant synth.Faithful(file, digest) && synth.received == file
      invariant old(synth.posts) <= synth.posts
      invariant AlwaysAnswered(net) ==> attempt == 0
      invariant clock' == clock + attempt && Crashes(net, clock, clock') == 0
      invariant forall i: nat | clock <= i < clock' :: Fails(net(i).delivery) || net(i).delivery.Refused?
    {
      var fate := net(clock');
      CrashStep(net, clock, clock');
      clock' := clock' + 1;
      synth.DeliverLate(fate.late, file, digest);
      var ok := false;
      if Arrives(fate.delivery) {
        ok := synth.Complete(sum, digest);
      }
      if fate.delivery.Crash? {
        return Crashed, clock';
      }
      if fate.delivery.Answered? {
        return if ok then Completed else Mismatched, clock';
      }
    }
    return Unconfirmed, clock';
  }

  /** One run of the upload goroutine, from request number `clock` on. Whatever the network does, the
      synth stays faithful to the file; the digest is posted only to a synth holding the whole file, and it
      is that file's digest; a complete request is never answered with a mismatch; and a network that
      answers everything lets the upload complete. */
  method StreamUpload<D>(synth: Synth<D>, file: seq<Byte>, chunkSize: nat, digest: seq<Byte> -> D,
                         net: nat -> Fate, clock: nat)
    returns (end: Ending, clock': nat)
    requires 0 < chunkSize && synth.Faithful(file, digest) && TakenBefore(synth.taken, clock)
    modifies synth
    ensures TakenBefore(synth.taken, clock')
    ensures synth.Faithful(file, digest) && |old(synth.received)| <= |synth.received|
    ensures old(synth.posts) <= synth.posts
    ensures end != Mismatched
    ensures end == Completed ==> synth.received == file && |old(synth.posts)| < |synth.posts|
    ensures |old(synth.posts)| < |synth.posts| ==> synth.received == file
    ensures AlwaysAnswered(net) ==> end == Completed
    ensures Explained(end, net, synth.taken - old(synth.taken), clock, clock') && clock < clock'
    ensures Crashes(net, clock, clock') == if end == Crashed then 1 else 0
  {
    NoCrashYet(net, clock);
    CrashStep(net, clock, clock);
    var fate := net(clock);
    clock' := clock + 1;
    synth.DeliverLate(fate.late, file, digest);
    if fate.delivery.Crash? {
      return Crashed, clock';
    }
    var offset, consumed := Seed(file, if fate.delivery.Answered? then Some(|synth.received|) else None);
    var early;
    early, consumed, clock' := StreamChunks(synth, file, chunkSize, digest, net, clock', offset, consumed);
    CrashesAdd(net, clock, clock + 1, clock');
    if early.Some? {
      return early.value, clock';
    }
    ghost var streamed := clock';
    end, clock' := PostComplete(synth, file, digest, consumed, net, clock');
    CrashesAdd(net, clock, streamed, clock');
  }

  /** The life of one journaled upload: it is entered in the journal, streamed, and resumed after every
      crash until a run ends on its own or the companion is not restarted any more. The entry leaves the
      journal only with a run that ended on its own. */
  method UploadAcrossRestarts<D>(synth: Synth<D>, file: seq<Byte>, chunkSize: nat, digest: seq<Byte> -> D,
                                 net: nat -> Fate, restarts: nat, journal: set<string>, id: string)
    returns (end: Ending, journal': set<string>, clock: nat)
    requires 0 < chunkSize && synth.received == [] && synth.sent == [] && synth.posts == [] && synth.taken == {}
    modifies synth
    ensures synth.Faithful(file, digest)
    ensures end == Completed ==> synth.received == file && synth.posts != []
    ensures end != Mismatched
    ensures journal' == if end == Crashed then journal + {id} else (journal + {id}) - {id}
    ensures end == Crashed <==> Crashes(net, 0, clock) == restarts + 1
    ensures Crashes(net, 0, clock) <= restarts + 1
    ensures (forall i: nat | i < clock :: net(i).delivery.Answered? || net(i).delivery.Crash?) ==>
              Crashes(net, 0, clock) <= restarts ==> end == Completed && synth.received == file && id !in journal'
  {
    journal' := journal + {id};
    end := Crashed;
    var runs := 0;
    clock := 0;
    while runs <= restarts && id in journal'
      invariant synth.Faithful(file, digest) && TakenBefore(synth.taken, clock)
      invariant end == Completed ==> synth.received == file && synth.posts != []
      invariant end != Mismatched
      invariant journal' == if end == Crashed then journal + {id} else (journal + {id}) - {id}
      invariant runs <= restarts + 1 && Crashes(net, 0, clock) == if end == Crashed then runs else runs - 1
      invariant (forall i: nat | i < clock :: net(i).delivery.Answered? || net(i).delivery.Crash?) ==>
                  end == Completed || end == Crashed
      decreases restarts + 1 - runs
    {
      ghost var before, taken := clock, synth.taken;
      end, clock := StreamUpload(synth, file, chunkSize, digest, net, clock);
      CrashesAdd(net, 0, before, clock);
      if forall i: nat | i < clock :: net(i).delivery.Answered? || net(i).delivery.Crash? {
        AnswersSuffice(end, net, synth.taken - taken, before, clock);
      }
      if end != Crashed {
        journal' := journal' - {id};
      }
      runs := runs + 1;
    }
  }
}
