# Verified models of the companion's state machines and protocols

The companion connects a Mac to its user's synth: it keeps the machine available, drives its browser,
uploads files, runs tasks and listens. This project models the parts of it that are hard to get right by
reading one function at a time, and proves what holds over whole runs, for every input and every
interleaving.

- **Locked-use lease** (`Lease.dfy`, `Broker.dfy`, `BrokerRuns.dfy`, `BrokerAnswers.dfy`). A privileged broker
  owns one lease. An app or a validation app begins it, a guardian protects the desktop for it, the authorization host
  consumes it once, and it ends only when the guardian confirms the re-lock. The lease and the broker are
  classes updated in place; each method is proved against a function on states, and runs of those
  functions carry the safety theorems. Times are 64-bit words and peer identifiers are never reused.
- **Guardian** (`Guardian.dfy`). The guardian's own deadline machine, which revokes on any doubt.
- **Resumable upload** (`Upload.dfy`). A client with an offset and a running hash, a synth that takes a
  chunk only at its exact offset, and a network that loses, delays and repeats requests, loses replies and
  outlives crashes of the client. The running hash is kept as the bytes it was fed; SHA-256 is an arbitrary
  function of them.
- **Request/response correlation** (`Correlation.dfy`, `CorrelationRuns.dfy`, `CorrelationReplies.dfy`). The
  direct CDP client and the client behind the extension relay share one pattern. Each critical section is one step; senders have
  program counters; both clients refine one small specification.
- **Relay server** (`RelayServer.dfy`). Which extension connection is active, and how callers that wait
  for one get it.
- **DOM snapshot formatter** (`Snapshot.dfy`, `SnapshotOrder.dfy`). Two recursive walks over a flat map and
  an upward search that together print every text once, in document order. The walks are methods on accumulating objects.
- **Task worker** (`Tasks.dfy`, `Delivery.dfy`). Run slots and the approval gate; the delivery of terminal
  events, with retries, the pending file of each workspace and concurrent flushes.
- **Listen session** (`Listen.dfy`). Start and Stop race with the goroutines of earlier runs.
- **Pair list** (`Config.dfy`, `ConfigRuns.dfy`). In-place edits, the legacy projection and migration; runs
  of concurrent edits, saves whose snapshot, temporary file and rename are separate steps, and restarts.
- **Civil dates** (`Utc.dfy`). Seconds since 1970 to a Gregorian date and time.
- **Text transformations** (`OwnerMap.dfy`, `AppleScript.dfy`, `YtDlp.dfy`, over `Strings.dfy`). The
  owner-map printer and parser, the AppleScript quoting, and the yt-dlp argument filter.

`Machine.dfy` holds the machine words. `dafny verify dfyconfig.toml` checks the whole project.

How the pieces fit: where the source changes an object step by step there is a class whose methods state
their whole new state by a function of the old one, or perform a step of the run model in every state that
shows the object, and the theorems about runs are about that function or that step. Beside the theorems on
what must not happen there are theorems on what does: exact conditions for success, exact effects stated
without the transition functions, and progress.
Where the source loops, the method loops, with its invariants. Goroutines are modelled by one event per
critical section or channel operation, in any order that the program counters allow.

## Where the code is the reference

Some properties one might expect are false of the code. Each is proved in its exact form, with the
condition that decides it.

- *The upload hash is aligned with the offset.* False when the synth reports more bytes than a non-empty
  file has: the failed initial rehash leaves the whole file hashed and the offset at 0
  (`Upload.SeedIsAlignedIff`, with `Upload.OverclaimMisaligns`).
- *The scalars are always a projection of the pair list*, as `internal/config/config.go:357-358` puts it.
  In memory an update that changes the coordinates of the active pair leaves them stale, and nothing else
  makes projected scalars stale; the next save or start repairs them (`PairConfig.AddKeepsProjectionIff`,
  `PairConfig.StaleExample`, `PairConfigRuns.StepProjectsIff`).
- *A removed pair does not come back.* It comes back exactly with a restart that finds a file from before the
  removal which lists it or migrates into it (`PairConfigRuns.RemovedStaysRemovedIff`). There are three ways:
  no save landed yet (`UnsavedRemovalExample`); a save with an older snapshot wrote after the removal's own
  save, since saves write outside the lock (`LateWriteExample`); or the removal's own save put another
  save's snapshot on disk and reported success, since all share one temporary file (`SharedTempExample`,
  `SaveLandsItsOwnIff`). Once the removal has landed, only an older snapshot that lands later undoes it
  (`RemovedStaysGoneIff`), and if no save was under way at the removal none can
  (`RemovedStaysGoneWhenQuiet`).
- *Every terminal event lands or is stored* (`internal/daemon/tasks_worker.go:369-373`). True when each task
  runs once (`TaskTerminals.NothingIsLost`). A second run shares the workspace's pending file and possibly
  the key. Then an event is lost exactly if it was never acknowledged and, after it was stored, another run
  of its task cleared, overwrote or removed the file (`TaskTerminals.LostIffTaken`), which a late flush can
  do (`TaskTerminals.LateFlushLoses`). And an acknowledged event is what the hub holds exactly if the first
  post of that outcome to arrive brought the same content (`TaskTerminals.AcknowledgedIsHeldIff`,
  `TaskTerminals.DroppedOutcomeExample`).
- *The client that a waiting call is given is the active one* (`internal/browser/relay.go:73-75`). True at once
  for a call that need not wait. For one that waited, exactly if nothing retired that connection between its
  installation and the hand-over (`RelayServer.ReceivedIsUsableIff`, `RelayServer.DisplacedHandoverExample`).
- *The owner map survives being printed.* It does exactly when no key starts with `=`; such a key can only
  come from a line that was split at its colon (`OwnerMap.ReparseIsStableIff`, `OwnerMap.EqualsKeyExample`).
- *Quoted AppleScript gives the string back.* Exactly for strings without a backslash. The comment at
  `internal/tools/applescript.go:87-89` says that bad input fails loudly; a backslash followed by `n` is
  read as a line feed without any error (`AppleScript.EscapedReadsBackIff`, `AppleScript.BackslashExample`).
- *The crash log's time is an RFC 3339 date-time.* Exactly for second counts below 253402300800, the start
  of the year 10000 (`Utc.CrashTimeReadsBackIff`, `Utc.LongYearExample`).

Two smaller differences between comments and code, where the model follows the code. A cookies path that is
already inside the download directory is said to be kept verbatim (`internal/tools/yt_dlp.go:319`) but is
returned cleaned (`YtDlp.CookiesAreVerbatimIff`, `YtDlp.CookiesCleanedExample`). The upload says it gives up
after five transport errors (`internal/tools/upload.go:266`) but does so on the sixth, and only an accepted
chunk, not a 409, restarts that count.

## Model

| member | source | states |
|---|---|---|
| `LeaseMachine.Lease.Clear` | app/macos/locked-use/Lease.c:24 | Clearing the record gives the all-zero lease |
| `LeaseMachine.Lease.Revoke` | app/macos/locked-use/Lease.c:19-28 | An idle or revoking lease is left alone; a preparing lease that no guardian protected is forgotten; any other keeps its identity and becomes revoking |
| `LeaseMachine.Lease.IsLive` | app/macos/locked-use/Lease.c:10-17 | Live means: before the deadline, owner heard less than 2000 ms ago and not in the future, and the same for the guardian once there is one |
| `LeaseMachine.Lease.TokenMatches` | app/macos/locked-use/Lease.c:4-8 | A token matches exactly when a lease is held and the text is its 36-character token |
| `LeaseMachine.Lease.Admits` | app/macos/locked-use/Lease.c:32-36 | The guard of a begin: idle, unlatched, valid identity, token, labels and lifetime, and no 64-bit overflow of the deadline |
| `LeaseMachine.Lease.Begin` | app/macos/locked-use/Lease.c:30-43 | Whole new state and answer: succeeds exactly when admitted; a refused call changes nothing |
| `LeaseMachine.Lease.Protect` | app/macos/locked-use/Lease.c:45-54 | Whole new state and answer: a second peer of the same user and session takes the guardian's place; a stale lease is revoked instead |
| `LeaseMachine.Lease.Heartbeat` | app/macos/locked-use/Lease.c:56-63 | Whole new state and answer: only the sender's own contact time moves, and never on a stale or revoking lease |
| `LeaseMachine.Lease.Consume` | app/macos/locked-use/Lease.c:65-70 | Whole new state and answer: consumption is one-shot, for the lease's own console user, while live |
| `LeaseMachine.Lease.Cancel` | app/macos/locked-use/Lease.c:72-79 | Whole new state and answer: either party may cancel, only the guardian may report local input, which sets the latch before revoking |
| `LeaseMachine.Lease.Disconnect` | app/macos/locked-use/Lease.c:81-85 | Whole new state and answer: losing either party revokes, any other peer changes nothing |
| `LeaseMachine.Lease.Tick` | app/macos/locked-use/Lease.c:87-91 | Whole new state and answer: a held lease that is no longer live is revoked; the answer says whether a re-lock is due |
| `LeaseMachine.Lease.Locked` | app/macos/locked-use/Lease.c:93-105 | Whole new state and answer: only the revoking lease's own guardian with the token ends it, and a latch survives with its user and session |
| `LeaseMachine.Lease.ManualUnlock` | app/macos/locked-use/Lease.c:107-112 | Whole new state and answer: the latch is cleared only when idle and for its own user and session |
| `BrokerMachine.Broker.RequestRelock` | app/macos/locked-use/Broker.c:55-70 | Whole new state and the notice sent: nothing unless revoking, at most one request in 500 ms, addressed to the guardian's connection if it is still there |
| `BrokerMachine.Broker.Settle` | app/macos/locked-use/Broker.c:222-225 | A lost console user and an expired lease are revoked before anything else; the answer says whether the lease is revoking |
| `BrokerMachine.Broker.Prepare` | app/macos/locked-use/Broker.c:102-120 | Whole new state and answer of a prepare request, including who may mint a validation grant and the token recorded for its owner |
| `BrokerMachine.Broker.Dispatch` | app/macos/locked-use/Broker.c:96-156 | Whole new state and answer for every operation and role |
| `BrokerMachine.Broker.Handle` | app/macos/locked-use/Broker.c:77-163 | Whole new state, answer and notice of one request; a request that wants no reply changes nothing |
| `BrokerMachine.Broker.ConnectionError` | app/macos/locked-use/Broker.c:181-196 | Whole new state and notice after a connection error: the lease reacts first, then the guardian's connection is forgotten, then the peer |
| `BrokerMachine.Broker.OnTimer` | app/macos/locked-use/Broker.c:222-225 | Whole new state and notice after a timer event |
| `BrokerMachine.Broker.AcceptPeer` | app/macos/locked-use/Broker.c:165-176 | Identifiers count up from 1 in 64 bits, and accepting stops for good when the counter wraps to 0 |
| `BrokerRuns.ReachableIsValid` | app/macos/locked-use/Broker.c:32-38 | In every run: the lease record is consistent with its phase, all identifiers in use were handed out, and the stored guardian connection is that of the guarded lease exactly while that peer is connected |
| `BrokerRuns.StepKeepsValid` | app/macos/locked-use/Broker.c:77-225 | Every event keeps that invariant |
| `BrokerRuns.StepEffect` | app/macos/locked-use/Broker.c:77-199 | For every event, what may have happened to the lease given the answer, stated per operation with the role and the conditions it needed |
| `BrokerRuns.EveryLeaseIsAccounted` | app/macos/locked-use/Broker.c:77-163 | In every run a held lease is explained by the trace: its begin, its protection, and the last contact of each party are events at known earlier positions that carry its identity |
| `BrokerRuns.GrantIsJustified` | app/macos/locked-use/Broker.c:148-156 | Every granted unlock follows one prepare-validation by a validation peer less than 5000 ms earlier (never an app's), protected by a different guardian peer of the same user and audit session, both heard less than 2000 ms ago, with the console user the lease was begun for |
| `BrokerRuns.GrantsHaveDistinctBegins` | app/macos/locked-use/Lease.c:65-70 | Two grants of one run come from two different begins, the second begun after the first grant |
| `BrokerRuns.ConsumedReportIsTrue` | app/macos/locked-use/Broker.c:121-129 | A validation peer is told "consumed" only if it owns a begin that was granted, and it named that begin's token |
| `BrokerRuns.GuardedStep` | app/macos/locked-use/Broker.c:77-199 | One event either is the confirmed re-lock of a guarded lease or leaves the same lease guarded, its latch and its revoking phase kept, and begins nothing |
| `BrokerRuns.GuardedUntilConfirmed` | app/macos/locked-use/Lease.c:93-105 | In every run a lease that was protected stays the held lease until that same guardian, with the lease's token, confirms the re-lock of the revoking lease |
| `BrokerRuns.LostGuardianIsFinal` | app/macos/locked-use/Broker.c:182-188 | After the guardian's connection fails, the lease is revoking for ever, that peer never returns, and no later begin or grant succeeds |
| `BrokerRuns.StepKeepsAbsent` | app/macos/locked-use/Broker.c:165-176 | An identifier that was handed out and is not connected is never connected again |
| `BrokerRuns.LatchStages` | app/macos/locked-use/Lease.c:93-112 | A latched lease is, at every later point, still guarded and latched, or confirmed, idle and latched for the same user and session, or cleared by confirmation and then manual unlock |
| `BrokerRuns.LatchHoldsUntilCleared` | app/macos/locked-use/Lease.c:72-112 | After a reported local input, a later begin proves that the guardian confirmed the re-lock and then a manual unlock came for the same user and audit session |
| `BrokerRuns.NoticeIsExact` | app/macos/locked-use/Broker.c:55-70 | On a timer event the re-lock notice is sent exactly when the lease is revoking, its guardian is connected and 500 ms have passed (or the clock went back), to that guardian with that lease's token |
| `BrokerAnswers.SettledIsFound` | app/macos/locked-use/Broker.c:89-92 | What every request and timer event finds: a held lease whose console changed, whose deadline passed or whose party was not heard for 2000 ms is revoked, or forgotten if nobody guarded it |
| `BrokerAnswers.AnswerIsExact` | app/macos/locked-use/Broker.c:77-163 | For every event and every reachable state: the exact condition for an ok answer of each operation, and the exact lease afterwards, field by field |
| `BrokerAnswers.RestIsExact` | app/macos/locked-use/Broker.c:55-199 | For every event: exact peers, identifiers, validation flag, guardian connection, re-lock time and notice |
| `BrokerAnswers.ReportIsExact` | app/macos/locked-use/Broker.c:121-129 | A validation peer that shows its token is told exactly where its own grant stands; no other answer carries a report |
| `BrokerAnswers.StaysGuarded` | app/macos/locked-use/Lease.c:10-17 | Over every run a guarded lease whose parties both make contact within 2000 ms, whose console user stays, and which nobody cancels or loses, is not revoked before its deadline |
| `BrokerAnswers.HeartbeatIsContact` | app/macos/locked-use/Lease.c:56-63 | A heartbeat of either party that finds the lease in touch is answered ok and moves that party's contact time only |
| `BrokerAnswers.RoundTripSucceeds` | app/macos/locked-use/Broker.c:102-156 | From every idle, unlatched state with the three parties connected, prepare-validation, protection and consumption within two seconds all succeed |
| `GuardianMachine.Guardian.Start` | app/macos/locked-use/GuardianState.c:4-9 | Whole new state and answer: starts once, only from a positively locked screen, with no 64-bit overflow of the deadline |
| `GuardianMachine.Guardian.Revoke` | app/macos/locked-use/GuardianState.c:11-15 | Whole new state: revocation and local input are only ever switched on |
| `GuardianMachine.Guardian.Reply` | app/macos/locked-use/GuardianState.c:17-23 | Whole new state: a good reply in time moves the contact time, any other revokes, and none matters once revoking |
| `GuardianMachine.Guardian.Tick` | app/macos/locked-use/GuardianState.c:25-31 | Whole new state: any doubt revokes |
| `GuardianMachine.RevokingIffTripped` | app/macos/locked-use/GuardianState.c:4-31 | In every run the guardian is revoking exactly when some event after its start gave a reason to, judged from the events alone; deadline, contact and tick times are those of the named events |
| `GuardianMachine.ArmedAfterTick` | app/macos/locked-use/GuardianState.c:25-31 | A started guardian that is not revoking after a tick is less than 30000 ms from its start, heard a good reply (or started) less than 2000 ms ago, and saw a known lock and a healthy protection |
| `GuardianMachine.RevocationIsFinal` | app/macos/locked-use/GuardianState.c:11-23 | Revoking, local input, being started and the deadline never change back, whatever arrives later |
| `GuardianMachine.UncoverIsSafe` | app/macos/locked-use/GuardianState.c:33-35 | The cover may come off exactly when there was a reason to revoke, the grant is drained and the screen is positively locked |
| `GuardianMachine.LocalInputIffReported` | app/macos/locked-use/GuardianState.c:11-15 | Local input is recorded exactly if it was reported after the start |
| `GuardianMachine.DrainedIsLast` | app/macos/locked-use/GuardianState.c:4-9 | The drained flag is the last report since the start, or false |
| `Upload.Synth.Put` | internal/tools/upload.go:275-281 | The strict-offset contract: a chunk is appended exactly when it starts where the synth is, else the answer is the synth's own position |
| `Upload.Synth.Answer` | internal/tools/upload.go:275-281 | A chunk request that arrives when it is made; the accepted ones are recorded by number |
| `Upload.Synth.DeliverLate` | internal/tools/upload.go:262-270 | Old chunk requests that arrive again, in any order and number, leave the synth holding a prefix of the file and never shorten it |
| `Upload.Synth.Complete` | internal/tools/upload.go:296-318 | The synth compares the posted digest with that of the bytes it holds |
| `Upload.PieceExtendsPrefix` | internal/tools/upload.go:249-279 | A piece of the file that starts at the end of a held prefix extends it to a longer prefix |
| `Upload.RehashTo` | internal/tools/upload.go:232-242 | The hash is fed exactly the first bytes up to the target, or the whole file when that is shorter, and only then it fails |
| `Upload.Seed` | internal/tools/upload.go:243-247 | Starting offset and hashed bytes as a function of the reported position |
| `Upload.SeedIsAlignedIff` | internal/tools/upload.go:243-247 | The hash starts as that of the bytes before the offset, exactly unless the synth claims more bytes than a non-empty file has |
| `Upload.OverclaimMisaligns` | internal/tools/upload.go:243-247 | A concrete report for which the hash and the offset start out of step |
| `Upload.SeedResumes` | internal/tools/upload.go:243-247 | The stream starts where the synth says it is, unless that is not within the file |
| `Upload.StreamChunks` | internal/tools/upload.go:249-294 | Against every strict-offset synth and every network the loop ends (bytes missing, transport errors left, offset mismatch), keeps the synth a prefix, and at its normal end both the synth and the hash have the whole file; it sends full chunks, gives up with the sixth transport error since the last chunk seen accepted and never before or after, and never outlives a crash |
| `Upload.PostComplete` | internal/tools/upload.go:296-320 | At most three attempts, each carrying the file's digest to a synth that holds the file; no mismatch is possible, and only three without an accepted answer leave it unconfirmed |
| `Upload.StreamUpload` | internal/tools/upload.go:211-321 | One run under any mix of lost, late and repeated requests, lost replies, refusals and crashes: the synth stays a prefix of the file, a digest is posted only to a synth holding exactly the hashed file, the answer is never a mismatch, a network that answers lets it complete, and every other ending has its cause in the requests (more than five transport errors since the last chunk seen accepted, a refusal, a crash, three complete requests without an accepted answer) |
| `Upload.PatienceSuffices` | internal/tools/upload.go:249-320 | A network with no refusals, never more than five transport errors between two accepted chunks and never three failures in a row lets every run complete that no crash cuts short |
| `Upload.UploadAcrossRestarts` | internal/tools/upload.go:186-215 | Over any number of crashes and restarts from the journal: every run that crashed is driven again, so that it ends crashed exactly if one more request crashed than there were restarts; a network that otherwise answers completes it, with the synth holding the file and the entry gone; the entry leaves the journal only with a run that ended on its own |
| `ConnectionState.Connection.Swap` | internal/browser/cdp.go:152-155 | Performs the swap of the closed flag; exactly the first closer goes on to close |
| `ConnectionState.Connection.Number` | internal/browser/cdp.go:179-180 | A fresh id and a fresh empty channel |
| `ConnectionState.Connection.Register` | internal/browser/cdp.go:181-183 | The channel becomes pending under the id, nothing else changes |
| `ConnectionState.Connection.Unregister` | internal/browser/cdp.go:191-193 | The id is no longer pending, nothing else changes |
| `ConnectionState.Connection.Take` | internal/browser/relay.go:217-220 | Look-up and deletion of an id in one section |
| `ConnectionState.Connection.Send` | internal/browser/relay.go:221-226 | A send that does not block: fills an empty channel, drops on a full one, and would panic on a closed one |
| `ConnectionState.Connection.Drain` | internal/browser/relay.go:236-241 | Closing and forgetting one pending channel at a time, in any order, closes exactly the pending channels, each once, and leaves none pending |
| `CorrelationRuns.ReachableIsGood` | internal/browser/cdp.go:117-217 | In every interleaving a reply channel is in one place: pending, in the reader's hands, filled or closed, and ids are unique |
| `CorrelationRuns.StepKeepsGood` | internal/browser/relay.go:199-301 | Every step of senders, reader, cancellations and closers keeps that invariant, for both clients |
| `CorrelationRuns.Safety` | internal/browser/cdp.go:117-217 | In every interleaving no channel is closed twice or sent on after close, the close signal is given at most once, no reply is dropped at its channel, and a caller only gets a reply with its own id |
| `CorrelationRuns.ReturnIsFinal` | internal/browser/cdp.go:197-216 | A call returns once: its result and its id never change afterwards |
| `CorrelationRuns.RepliesWereRead` | internal/browser/relay.go:199-229 | Every reply a caller gets was read from the socket |
| `CorrelationRuns.NobodyIsStuck` | internal/browser/cdp.go:152-217 | From the swap of the closed flag on, every caller that has not returned (also one that registers after the drain) has an enabled step of its own that brings it closer to returning, or the reader holds its reply and the hand-over makes it return, or it waits and the close that ends its wait has an enabled step; after the socket is closed no write succeeds |
| `CorrelationRuns.StepRefines` | internal/browser/relay.go:199-301 | Every step of either client is a step of one specification: issue under a fresh id, then answer with that id's reply or fail, then nothing |
| `CorrelationRuns.RunsRefine` | internal/browser/cdp.go:117-217 | So is every step of every run, from the empty specification state |
| `CorrelationReplies.ReaderMoves` | internal/browser/cdp.go:117-150 | At any time the reader's next step is enabled and brings it back to reading, or to its end once the connection closes; a reply that was read is looked up, and one that was found is put into its call's empty channel |
| `CorrelationReplies.ReplyReaches` | internal/browser/relay.go:199-229 | On open and closing connections: a reply read for a pending call, and looked up before the call gives up and before a drain, is never lost again; a call that still waits returns exactly it, after at most the reader's hand-over |
| `CorrelationReplies.ReceivesIff` | internal/browser/cdp.go:203-215 | A receiving call returns a reply exactly if that reply was looked up for it before, and else the news that the connection closed |
| `CorrelationReplies.GotIff` | internal/browser/cdp.go:138-216 | In every interleaving a call returns a reply exactly if the reader looked it up while the call was registered under its id and the call then received |
| `CorrelationReplies.OutcomeIsExact` | internal/browser/cdp.go:175-216 | In every interleaving a call failed to write, was cancelled, received or was refused exactly if that is what happened to it |
| `CorrelationReplies.CallsMoveOn` | internal/browser/relay.go:255-301 | At any time a call that neither waits nor has returned has an enabled step that brings it closer to returning |
| `CorrelationReplies.CallSucceeds` | internal/browser/relay.go:255-301 | From every reachable state of an open connection a call that is written and answered, undisturbed, returns the answer |
| `RelayServer.Server.Await` | internal/browser/relay.go:76-85 | The usable client, or else the caller joins the waiting list |
| `RelayServer.Server.Client` | internal/browser/relay.go:100-107 | The active client exactly if there is one and it is not closed |
| `RelayServer.Server.Install` | internal/browser/relay.go:129-137 | The previous client is closed, the new one installed and the whole waiting list handed to its handler |
| `RelayServer.Server.Remove` | internal/browser/relay.go:149-153 | Clears the active client only if it is still the handler's own |
| `RelayServer.RunKeepsGood` | internal/browser/relay.go:76-155 | In every interleaving the waiting lists of the server and of all handlers are disjoint, hold only open channels, and forget nobody |
| `RelayServer.OneOpenConnection` | internal/browser/relay.go:119-155 | In every interleaving no waiter's channel is closed twice or sent on after close, at most one connection is open and it is the one in the server's client field, and nobody is ever told that the relay closed |
| `RelayServer.WaitersAreNotForgotten` | internal/browser/relay.go:76-96 | A waiting caller has its client, or is in the server's list while no client is usable, or is held by a handler that has yet to serve it |
| `RelayServer.OfferReaches` | internal/browser/relay.go:139-145 | A handler's offer always lands: the channel of its next waiter is open and empty |
| `RelayServer.ClientChangesOnlyBy` | internal/browser/relay.go:149-153 | The active client changes only by a new connection, which closes the old one, or by its own handler once it has closed; a displaced handler leaves its successor in place |
| `RelayServer.UsableIff` | internal/browser/relay.go:98-107 | In every run a connection is the usable one exactly if since its installation no other was installed, nobody closed its client and its read loop did not end |
| `RelayServer.AwaitedIsUsable` | internal/browser/relay.go:76-82 | A call that finds a client at once gets the usable one |
| `RelayServer.OfferedIsUsableIff` | internal/browser/relay.go:139-145 | A handler's offer always lands, and offers the usable connection exactly if nothing retired it since its installation |
| `RelayServer.ReceivedIsUsableIff` | internal/browser/relay.go:73-96 | A call that waited always gets a client, and the active one exactly if nothing retired it since its installation |
| `RelayServer.DisplacedHandoverExample` | internal/browser/relay.go:129-145 | A concrete run in which a waiting call is handed a client that was displaced and closed before the offer |
| `RelayServer.HandlerMoves` | internal/browser/relay.go:139-153 | A handler always has its next step: it offers to each of its waiters, closes their channels, reads, and at its end is no longer the active client |
| `RelayServer.InstallTakesOver` | internal/browser/relay.go:129-137 | A new connection is the active one, its predecessor is closed, and its handler holds everybody who waited |
| `RelayServer.AwaitIff` | internal/browser/relay.go:76-85 | A call waits exactly while no client is usable, at the end of the list and with an empty channel |
| `Snapshot.Conserved` | internal/browser/snapshot.go:157-289 | At every node and depth: what the subtree prints plus what it leaves to the highlighted element above is exactly the texts of the subtree |
| `Snapshot.TextIsConserved` | internal/browser/snapshot.go:157-289 | The printed lines carry every reachable non-blank text node exactly once and nothing else |
| `Snapshot.ListedExactlyOnce` | internal/browser/snapshot.go:177-236 | The reference list holds each reachable non-blank text node once, reachability being defined by parents, not by the walk |
| `Snapshot.TextIsAttributed` | internal/browser/snapshot.go:224-272 | Every reachable text is in the line of its nearest highlighted ancestor, or on a line of its own when it has none |
| `Snapshot.LinesArePlaced` | internal/browser/snapshot.go:176-234 | Every line's depth is its number of highlighted proper ancestors, and an element's line carries only texts it owns |
| `Snapshot.CoveredIffOwned` | internal/browser/snapshot.go:274-289 | The upward search succeeds exactly when there is a nearest highlighted ancestor, that is, when at least one is counted |
| `Snapshot.SelectorsResolve` | internal/browser/snapshot.go:213-218 | On every tree the selectors' indices are exactly those of the reachable highlighted elements, and each leads to such an element with that index, the last one printed if several share it |
| `Snapshot.SelectorsAreExact` | internal/browser/snapshot.go:213-218 | An element whose index is its own among the reachable ones is found by that index |
| `SnapshotOrder.BeforeIsAsymmetric` | internal/browser/snapshot.go:221-223 | Document order, defined by ancestors and child positions, is strict: no two nodes come before each other |
| `SnapshotOrder.PageInOrder` | internal/browser/snapshot.go:176-272 | Lines come in document order, and so do the texts inside each element's line |
| `SnapshotFormatter.RowShows` | internal/browser/snapshot.go:186-231 | A row shows its node's depth, index, novelty, tag and trimmed text, and every collected text trimmed and in order |
| `SnapshotFormatter.Collector.Walk` | internal/browser/snapshot.go:242-267 | The appending walk adds exactly the texts that the specification collects for the element, in order |
| `SnapshotFormatter.CollectText` | internal/browser/snapshot.go:240-268 | The trimmed texts of the element, before joining |
| `SnapshotFormatter.HasHighlightedAncestor` | internal/browser/snapshot.go:274-289 | Scanning the map in any order finds a highlighted proper ancestor exactly when there is one |
| `SnapshotFormatter.Output.AddElement` | internal/browser/snapshot.go:186-219 | One element line with its texts, and its selector |
| `SnapshotFormatter.Output.Walk` | internal/browser/snapshot.go:176-234 | The walk appends exactly the specified lines, in order |
| `SnapshotFormatter.FormatTree` | internal/browser/snapshot.go:157-238 | Rows and selectors are those of the specified lines; no root gives none |
| `Utc.CivilFollowsTheCalendar` | app/src-tauri/src/crashlog.rs:125-134 | For every day number the formula gives a valid Gregorian date, and the next number gives the next calendar day |
| `Utc.CivilCounts` | app/src-tauri/src/crashlog.rs:125-134 | Counting the days from 1970-01-01 up to the computed date gives the number back |
| `Utc.CountsToCivil` | app/src-tauri/src/crashlog.rs:125-134 | Every valid date from 1970 on is the result for its own count |
| `Utc.UtcRoundTrips` | app/src-tauri/src/crashlog.rs:122-136 | For every 64-bit second count the result is a valid date and time that converts back to the count |
| `Utc.UtcIsOnto` | app/src-tauri/src/crashlog.rs:122-136 | Every valid date and time in range is the result for its own count |
| `Utc.UtcNextDay` | app/src-tauri/src/crashlog.rs:122-136 | 86400 seconds later it is the next calendar day at the same time |
| `Utc.UtcIncreases` | app/src-tauri/src/crashlog.rs:122-136 | The result is strictly increasing in the count |
| `Utc.TextReadsBackIff` | app/src-tauri/src/crashlog.rs:135 | For every date and time: its text is a date-time of RFC 3339, section 5.6, that reads back as the same moment exactly for years up to 9999 |
| `Utc.CrashTimeReadsBackIff` | app/src-tauri/src/crashlog.rs:122-136 | For every 64-bit second count: the printed text reads back as the same moment exactly for counts below 253402300800 |
| `Utc.LongYearExample` | app/src-tauri/src/crashlog.rs:135 | The first count that fails: it prints a five-digit year, which is no RFC 3339 date-time |
| `TaskSlots.Worker.Reserve` | internal/daemon/tasks_worker.go:492-499 | Performs the reservation step of the run model in every state that shows the object, and answers which way it went |
| `TaskSlots.Worker.IsApproved` | internal/daemon/tasks_worker.go:775-779 | Performs the gate's look-up step of the run model |
| `TaskSlots.Worker.Enlist` | internal/daemon/tasks_worker.go:667-676 | Performs the step that rewrites the slot of a started agent |
| `TaskSlots.Worker.Release` | internal/daemon/tasks_worker.go:842-844 | Performs the releasing step of the run model |
| `TaskSlots.Worker.Remember` | internal/daemon/tasks_worker.go:782-786 | Performs the step that records a given approval |
| `TaskSlots.SlotIsExclusive` | internal/daemon/tasks_worker.go:491-499 | In every interleaving a slot is taken exactly while one run holds it |
| `TaskSlots.OneAgentPerSlot` | internal/daemon/tasks_worker.go:491-694 | Between two sub-agent starts for one task its slot was released |
| `TaskSlots.ApprovalWasAnswered` | internal/daemon/tasks_worker.go:546-561 | A task counts as approved only after the user said yes to it in this session |
| `TaskSlots.NothingRunsUnapproved` | internal/daemon/tasks_worker.go:538-636 | No hook and no freshly spawned sub-agent of a task runs unless the user approved that task earlier in the session |
| `TaskSlots.FreshnessHolds` | internal/daemon/tasks_worker.go:1391-1446 | Reattached runs only monitor and end; they never pass the gate |
| `TaskSlots.ReservedIff` | internal/daemon/tasks_worker.go:492-499 | A run gets its slot exactly if no other run holds it; else it ends at once |
| `TaskSlots.ApprovedIff` | internal/daemon/tasks_worker.go:773-786 | A task counts as approved exactly if a yes for it was remembered in this session |
| `TaskSlots.GateIff` | internal/daemon/tasks_worker.go:546-561 | The gate opens without a question exactly if a yes for the task was remembered |
| `TaskSlots.AnswerDecides` | internal/daemon/tasks_worker.go:547-560 | A yes lets the run past the gate and is remembered; a no or an error frees its slot |
| `TaskSlots.ClearedRunCompletes` | internal/daemon/tasks_worker.go:563-694 | Past the gate hooks, start, monitoring and end are enabled one after the other, and the end frees the slot |
| `TaskTerminals.Hub.Post` | internal/daemon/tasks_worker.go:337-341 | A hub that de-duplicates by key applies an event once; the worker sees success only for an acknowledged post |
| `TaskTerminals.KeyIsInjective` | internal/daemon/tasks_worker.go:375 | Two outcome events have the same key only for the same task and state, whatever the task id contains |
| `TaskTerminals.Courier.Attempt` | internal/daemon/tasks_worker.go:392 | Performs one posting step of the delivery model; the answer is success only when acknowledged |
| `TaskTerminals.Courier.ClearFile` | internal/daemon/tasks_worker.go:393-396 | Performs the step that removes the pending file after an acknowledged post |
| `TaskTerminals.Courier.StoreFile` | internal/daemon/tasks_worker.go:406-420 | Performs the step that writes the pending file |
| `TaskTerminals.Courier.PostTerminal` | internal/daemon/tasks_worker.go:374-421 | For every event, first of its task or not: the loop performs a run of that delivery's steps to its end; the event is acknowledged exactly if one of the three posts was, else it is in the pending file, and other files are untouched |
| `TaskTerminals.Courier.FlushFile` | internal/daemon/tasks_worker.go:438-450 | Performs the steps of one flushed file; the file goes exactly when the hub acknowledged it |
| `TaskTerminals.Courier.FlushPending` | internal/daemon/tasks_worker.go:427-452 | The loop performs whole flushes in any order: a file is gone afterwards exactly when its event was acknowledged, and if everything is acknowledged none is left |
| `TaskTerminals.ReachableIsGood` | internal/daemon/tasks_worker.go:374-452 | In every interleaving of deliveries and flushes a pending file holds an event of its own task whose delivery returned, and an acknowledged event's key is at the hub |
| `TaskTerminals.LostIffTaken` | internal/daemon/tasks_worker.go:374-452 | In every interleaving an event is neither acknowledged, stored nor under way exactly if it was never acknowledged and, at some step after its own store, a delivery of another run of its task cleared or overwrote the shared pending file or a flush for another run removed it |
| `TaskTerminals.DisplacedByOther` | internal/daemon/tasks_worker.go:393-450 | A stored, unacknowledged event leaves the file with a step exactly if that step clears, stores or removes for another run of the same task |
| `TaskTerminals.NothingIsLost` | internal/daemon/tasks_worker.go:369-374 | With one run per task, in every interleaving: an event whose delivery returned is acknowledged or stored, and an acknowledged event is what the hub applied under its key |
| `TaskTerminals.LateFlushLoses` | internal/daemon/tasks_worker.go:439-449 | From every state with a stored event and a second run of its task about to store: a flush that read the first and removes late loses the second |
| `TaskTerminals.LostEventExample` | internal/daemon/tasks_worker.go:439-449 | A concrete run that loses an event |
| `TaskTerminals.HubKeepsFirst` | internal/daemon/tasks_worker.go:337-341 | In every interleaving what the hub holds for an outcome of a task is what the first post of it that arrived brought, and nothing if none arrived |
| `TaskTerminals.AcknowledgedIsHeldIff` | internal/daemon/tasks_worker.go:337-341 | In every interleaving an acknowledged event is what the hub holds exactly if the first post of its task's same outcome that arrived, answered or not, brought the same content |
| `TaskTerminals.DroppedOutcomeExample` | internal/daemon/tasks_worker.go:375 | A concrete second run of a task whose outcome is acknowledged but dropped, because it has the first one's key |
| `Listen.Connector.Start` | internal/daemon/listen_connector.go:79-108 | Performs the start step of the run model in every state that shows the object: refused while running or unpaired, else a fresh session under a new generation |
| `Listen.Connector.Stop` | internal/daemon/listen_connector.go:110-121 | Performs the stop step of the run model |
| `Listen.Connector.SetStatus` | internal/daemon/listen_connector.go:125-134 | Performs the status step of the run that holds the given generation |
| `Listen.Connector.FinishRun` | internal/daemon/listen_connector.go:140-149 | Performs the finishing step of the run that holds the given generation |
| `Listen.Connector.Append` | internal/daemon/listen_connector.go:205-221 | Performs the transcript step of the run that holds the given generation |
| `Listen.SessionIsOwned` | internal/daemon/listen_connector.go:79-149 | In every interleaving at most one run owns the current generation, the session runs exactly while its owner has not finished, and the transcript is the owner's non-blank finals in arrival order |
| `Listen.StaleRunIsHarmless` | internal/daemon/listen_connector.go:123-149 | A step of a run that is not the owner changes nothing in the session |
| `Listen.StartedIff` | internal/daemon/listen_connector.go:79-108 | A start is accepted exactly if the companion is paired and no owner is still running; then it owns an empty session |
| `Listen.OwnerActs` | internal/daemon/listen_connector.go:110-221 | Every step of the owner takes effect, and a stop always does: statuses, partial texts, finals, and the end of the run |
| `PairConfig.Config.Locate` | internal/config/config.go:260-264 | The first pair with the id, or none |
| `PairConfig.Config.SyncLegacyFromActive` | internal/config/config.go:361-374 | The scalars become those of the active pair, or empty when there is none |
| `PairConfig.Config.AddOrUpdatePair` | internal/config/config.go:284-308 | Whole new state: update in place keeps the creation time, an addition goes to the end, and a first pair becomes active |
| `PairConfig.Config.SetActive` | internal/config/config.go:270-279 | Whole new state and answer: only a listed id becomes active |
| `PairConfig.Config.FilterOut` | internal/config/config.go:313-319 | The filter that writes over the front of its own list keeps exactly the other pairs, in order |
| `PairConfig.Config.RemovePair` | internal/config/config.go:312-327 | Whole new state: if the active pair goes, the first remaining one takes over |
| `PairConfig.Config.Marshal` | internal/config/config.go:221-229 | What a save does under the lock: project, then take a snapshot |
| `PairConfig.Config.Load` | internal/config/config.go:185-188 | Whole new state: migrate, then project |
| `PairConfig.WithoutIsFilter` | internal/config/config.go:313-319 | The filter keeps a pair exactly if its id differs, and keeps ids distinct |
| `PairConfig.AddKeepsGood` | internal/config/config.go:284-308 | Adding a non-empty id keeps ids distinct and the active id listed, and lists the new one |
| `PairConfig.RemoveKeepsGood` | internal/config/config.go:312-327 | Removing keeps the invariant, removes exactly that id, and no other |
| `PairConfig.LoadedIsSaved` | internal/config/config.go:332-348 | What was saved is loaded back unchanged, so migration revives nothing |
| `PairConfig.LegacyIsPromoted` | internal/config/config.go:332-348 | A file from before the list is promoted to one active pair exactly when its scalars are complete |
| `PairConfig.ProjectedShows` | internal/config/config.go:361-374 | Projected means that the scalars are the fields of the first listed pair with the active id, or empty when there is none; projecting changes nothing else |
| `PairConfig.SetActiveSelects` | internal/config/config.go:270-279 | The answer is true exactly for a listed id; then that id is active, the scalars are its pair's fields, and the list is unchanged |
| `PairConfig.AddLists` | internal/config/config.go:284-308 | The pair listed under the id carries the given url, token, hub and role and the right creation time, in its old place or at the end; every other pair and its place stay; a first pair becomes active |
| `PairConfig.RemoveDrops` | internal/config/config.go:312-327 | Exactly the pairs with other ids remain, in order; if the removed one was active the first remaining one takes over |
| `PairConfig.LoadPromotes` | internal/config/config.go:332-374 | Complete scalars of a file without a list become one active primary pair; any other list is kept; the scalars show the active pair |
| `PairConfig.AddKeepsProjectionIff` | internal/config/config.go:284-308 | From projected scalars, adding leaves them stale exactly when it changes the coordinates of the active pair |
| `PairConfig.StaleExample` | internal/config/config.go:291-301 | A concrete update after which the scalars show the old token |
| `PairConfig.RemoveProjectsIff` | internal/config/config.go:312-327 | Removing the active pair projects anew; removing any other leaves the scalars projected or stale as they were |
| `PairConfigRuns.RunsStayGood` | internal/config/config.go:166-241 | In every run of concurrent edits, overlapping saves and restarts, started from any file (none, legacy scalars or a list): ids are distinct and the active id is listed, or empty for an empty list, in memory, in every snapshot and on disk; a file that was ever saved has the scalars of its active pair |
| `PairConfigRuns.StepProjectsIff` | internal/config/config.go:220-374 | For every step of every run, from stale or projected scalars, exactly when the in-memory scalars are projected afterwards; saving and loading always repair them |
| `PairConfigRuns.SaveSurvivesRestart` | internal/config/config.go:166-241 | A save that nothing interrupts puts the list in memory on disk, and a restart loads exactly that |
| `PairConfigRuns.RemovedStaysRemovedIff` | internal/config/config.go:166-348 | In every run, whatever edits, saves and restarts there are: a pair that was removed and is not added again comes back exactly with a restart that finds a file from before the removal (the first file or one written from an older snapshot) that lists it or migrates into it |
| `PairConfigRuns.RemovedStaysGoneIff` | internal/config/config.go:220-327 | The disk side: once a snapshot from after the removal has landed before any restart, the pair stays gone from memory, disk and every restart exactly as long as no save lands a snapshot that was taken before the removal and lists the pair |
| `PairConfigRuns.RemovedStaysGoneWhenQuiet` | internal/config/config.go:220-327 | If no save was under way at the removal, the pair never comes back once a file is renamed after it |
| `PairConfigRuns.LateWriteExample` | internal/config/config.go:220-241 | A concrete run: an older save writes after the removal's own save returned, and the pair is back after the next start |
| `PairConfigRuns.SaveLandsItsOwnIff` | internal/config/config.go:236-240 | A save's rename puts its own snapshot on disk exactly if no other save used the temporary file between its write and its rename |
| `PairConfigRuns.SharedTempExample` | internal/config/config.go:236-240 | A concrete run: two saves share the temporary file, so the removal's own save returns without an error and puts the older snapshot on disk |
| `PairConfigRuns.UnsavedRemovalExample` | internal/config/config.go:332-348 | A concrete run from a legacy file: a restart before any save migrates the removed pair back |
| `OwnerMap.ParseOwnerMapText` | internal/daemon/http_server.go:884-907 | The loop computes the map that the entries of the lines define, later ones winning |
| `OwnerMap.SpacedEntry` | internal/daemon/http_server.go:886-904 | A line is read as its key and value whatever the white space around them, split at '=', or at ':' without one |
| `OwnerMap.NoEntry` | internal/daemon/http_server.go:887-899 | Blank lines, comments and lines without a separator have no entry |
| `OwnerMap.ReadNext` | internal/daemon/http_server.go:886-904 | Each further line adds its entry, over an earlier one of the same key |
| `OwnerMap.SortKeys` | internal/daemon/http_server.go:917-923 | The in-place exchange sort yields a sorted permutation |
| `OwnerMap.SelectLeast` | internal/daemon/http_server.go:918-922 | One outer pass puts a least remaining key in place and keeps the multiset |
| `OwnerMap.FormatOwnerMapText` | internal/daemon/http_server.go:909-929 | The text printed for the map, with its keys in sorted order |
| `OwnerMap.PrintedTextIsUnique` | internal/daemon/http_server.go:913-928 | The printed text depends on the map only, not on the order in which its keys are listed before sorting |
| `OwnerMap.PrintedTextReadsBack` | internal/daemon/http_server.go:884-929 | For trimmed, non-empty, one-line keys and values, keys without '=' and not starting with '#', parsing the printed text gives the same map |
| `OwnerMap.ReadIsPlain` | internal/daemon/http_server.go:884-907 | Every key and value that any text parses to is trimmed, non-empty and one-line, and a key contains '=' only if it starts with it |
| `OwnerMap.ReparseIsStableIff` | internal/daemon/http_server.go:884-929 | For every text: parsing, printing and parsing again changes nothing exactly when no parsed key starts with '=' |
| `OwnerMap.EqualsKeyExample` | internal/daemon/http_server.go:892-896 | A concrete text with one entry, whose printed text parses to nothing |
| `AppleScript.EscapeLine` | internal/tools/applescript.go:107-115 | One line, its quotes replaced character by character |
| `AppleScript.EscapeAppleScriptString` | internal/tools/applescript.go:90-120 | The nested loops over lines and parts compute the character-wise quoted form |
| `AppleScript.EscapedReadsBackIff` | internal/tools/applescript.go:78-120 | Evaluating the quoted text as a concatenation gives the original string back exactly when it has no backslash |
| `AppleScript.BackslashesAreHalved` | internal/tools/applescript.go:107-115 | A leading run of backslashes is halved by evaluation, whatever follows |
| `AppleScript.BackslashExample` | internal/tools/applescript.go:87-89 | A concrete string that silently turns into another |
| `YtDlp.NextItemIff` | internal/tools/yt_dlp.go:198-264 | The next item is read exactly when the list spells it (a value in the next token or after the first '=') and it is on the allowlist, or a positional that is no path escape |
| `YtDlp.PositionalRefusedIff` | internal/tools/yt_dlp.go:270-275 | A token that is no flag is refused exactly if it has a ".." and a slash or backslash |
| `YtDlp.Confine` | internal/tools/yt_dlp.go:245-258 | The confinement of a value flag's value, by its name |
| `YtDlp.TakeValue` | internal/tools/yt_dlp.go:234-261 | The value of a value flag, inline or next, and its confinement, or why it is refused |
| `YtDlp.SanitizeYtDlpArgs` | internal/tools/yt_dlp.go:191-266 | The index loop computes the item-by-item filter, with the first refusal as its answer |
| `YtDlp.OutputIsConfined` | internal/tools/yt_dlp.go:281-295 | A confined output value is a direct child of the directory, has no "..", and is confined to itself |
| `YtDlp.OutputAcceptedIff` | internal/tools/yt_dlp.go:281-287 | An output template is accepted exactly if it is not empty and has no ".." |
| `YtDlp.OutputKeepsName` | internal/tools/yt_dlp.go:288-294 | The last component of an accepted template is kept, directly in the directory; "." gets the default name |
| `YtDlp.OutputHasDefault` | internal/tools/yt_dlp.go:291-293 | A template of slashes only gets the default name |
| `YtDlp.CookiesAreConfined` | internal/tools/yt_dlp.go:312-336 | A confined cookies value is the directory or below it, has no "..", and is confined to itself |
| `YtDlp.CookiesKeepName` | internal/tools/yt_dlp.go:312-336 | A cookies path is cleaned if it is inside the directory, else its last component is put there; ".." and a missing name are refused |
| `YtDlp.CookiesAreVerbatimIff` | internal/tools/yt_dlp.go:319-323 | A cookies path inside the directory is returned verbatim exactly if it is a rooted path of proper elements |
| `YtDlp.CookiesCleanedExample` | internal/tools/yt_dlp.go:319-323 | A concrete cookies path inside the directory that comes back changed |
| `YtDlp.CleanIsIdempotent` | internal/tools/yt_dlp.go:320-323 | Cleaning a cleaned path changes nothing |
| `YtDlp.CleanKeepsElements` | internal/tools/yt_dlp.go:320-323 | Cleaning keeps the path's elements and whether it is rooted |
| `YtDlp.FilterIsIdempotent` | internal/tools/yt_dlp.go:191-266 | What the filter accepts and returns, it accepts again unchanged |
| `YtDlp.FilterKeepsItems` | internal/tools/yt_dlp.go:191-266 | Every flag, positional and other value survives in order; output values end as direct children of the directory, cookies values at or under it |
| `YtDlp.AcceptedIff` | internal/tools/yt_dlp.go:191-266 | The filter accepts exactly when every item passes the allowlist and every path can be confined |

## Left out

- XPC, code-signing checks, the console-user look-up and the authorization plug-in: uid, audit session, role, time and the generated token are inputs of each request; no message arrives from a peer after its connection error.
- The bounded C string reads: a string argument is a missing pointer or a character sequence; byte-level copies are not modelled.
- The guardian's user interface, lock probing and watchdog: the drained flag, lock state and health are inputs of its steps.
- HTTP, WebSocket, ffmpeg, osascript and process execution: each is an arbitrary result, or a step that can happen or not.
- Upload.StreamUpload: a file that changes while it is read and a synth that reports a wrong position are left out, because the code does not detect either; `Upload.SeedIsAlignedIff` says what the second one does to the starting point.
- Upload.StreamUpload: one upload at a time; the synth neither truncates nor restarts an upload, and read errors of an open file are left out.
- Upload.UploadAcrossRestarts: the journal is a set of ids; the stored arguments, a source file that is gone at restart, and two uploads writing the journal together are left out.
- The upload handler's checks of its arguments, size cap and pairing, and the approval gate in front of it: settled by reading that one function.
- CorrelationRuns.ReachableIsGood: the id counter of a client is unbounded here, since a connection does not live for 2^63 calls; event handlers and the decoding of results are left out.
- CorrelationRuns.NobodyIsStuck: says that a step towards returning, or of the close, is enabled, not that the scheduler takes it.
- RelayServer.OneOpenConnection: the upgrade handshake, the listening socket and its error channel are left out; closing a client is one step here and is taken apart in the correlation model.
- Attributes, the visible form of a line, white-space normalisation and the length caps of the snapshot: rows carry depth, index, tag and the trimmed texts in order.
- SnapshotFormatter.FormatTree: the map is assumed tree-shaped, given by heights that fall from parent to child; a cyclic map would not end in the source either.
- TaskSlots.SlotIsExclusive: a session starts with at most one reattached run per task; listing tasks, templates, prompts and budgets are left out.
- TaskTerminals.Courier.PostTerminal: assumes that writing and removing the pending file succeed and are single steps; how the monitor decides to end a run (exit, stall, wall time, cost) and its reading of the transcript are left out.
- The order of the terminal event and the "running" report of an input wait: the code does not fix it, so none is claimed.
- Listen.SessionIsOwned: covers runs of fewer than 2^64 events, after which the generation counter could repeat; the device name, error text and start time are left out.
- PairConfigRuns.RunsStayGood: each file operation of a save either happens as one step or the save gives up before it; a write that is torn by another write to the same temporary file, and a disk that fails halfway, are left out.
- The pair list's other settings, defaults and the JSON form, and the settings page that writes only the scalar hub URL.
- Utc.CrashTimeReadsBackIff: the log file handling around the time stamp is left out.
- OwnerMap.SortKeys: order is that of characters, which for valid text is the order of the bytes that the source compares.
- YtDlp.CleanIsIdempotent: path cleaning is modelled for paths without a ".." element, the only ones that reach it, since every value with ".." is refused first and the directory has none.
- The creation of the download directory, the process start of yt-dlp and the augmented PATH.
- Notes conversion, trust states, gate mapping, ring buffer, backoff, tray, menus, localisation, web pages and installers: no property there spans more than one function.
