# clusdr in Dafny

clusdr is a replicated state machine on a Raft log: named locks and leases with
fencing tokens, a member list, an event bus mirrored to watchers, and an operator
that forms clusters on Kubernetes. This project models the parts that clusdr
itself writes around the Raft library and proves what they keep over every log,
every run and every interleaving of their steps.

How it is laid out:

- `Ttl`, `Names`, `Grants`, `Listing`, `Locks`, `Leases`: grant lifetimes, the
  token-fenced table behind locks and leases, and the two table objects.
- `Answers`: what callers are told against what the log says, on one table and on any
  replica; mutual exclusion.
- `Members`, `Fsm`, `Replication`: the member engine, the command interpreter with
  its snapshots, and any number of replicas with their own clocks, snapshots,
  restores and restarts, all held against a clock-free reading of the log.
- `Expiry`, `ClusterExpiry`: leader-side stamping, and the expirer that scans outside
  the log and commits later; on one log, and on replicas scanning their own tables.
- `Handlers`: Join, Promote, Leave, Rejoin and presence as two-step updates of the
  Raft configuration and the member list that can fail at any step.
- `Bus`, `Watch`, `WatchSequence`, `WatchGaps`, `WatchClient`: the event bus, the
  snapshot-to-live handoff under every interleaving, order and coverage of the stream,
  what its gaps report, and the SDK's reconnecting watch loop.
- `Dedup`, `Heartbeat`: one-hop gossip with a bounded id memory; miss counting.
- `Seed`, `Sidecar`, `Quota`: the operator's seed claim, its bootstrap sequence, and
  which pods it joins as voters.

Objects that clusdr updates in place are classes whose methods are tied to a
function on values; protocols are step systems (`Enabled`, `Act`, `IsRun`), and the
theorems are about those functions and runs. `dafny verify dfyconfig.toml` checks
everything.

What is assumed of the surroundings: Raft commits one totally ordered log, applies
it in order, and never demotes a voter on AddNonvoter; the Kubernetes API refuses an
update carrying a stale resourceVersion and changes it on every write; one operator
pass runs at a time for one cluster (`Sidecar.StalePassRecreatesJob` shows why);
pod names are distinct.
Clocks, ping results, platform answers, map iteration order and the outcome of
every call (done, refused, or carried out although reported failed) are parameters.
Token and sequence counters do not wrap.

Where the code does not do what its comments or documentation promise, the model
follows the code; one lemma shows the failing family and another gives the exact
condition:

- A renewal does not save a grant from an expiry decided before it, although
  `internal/locks/table.go:161` says so: `Expiry.RenewedGrantIsDropped`; the dropped
  grant was still due exactly under `Expiry.DroppedWhileDueIff`.
- A long `ttl_ms` can be shortened to the default by 64-bit overflow:
  `Ttl.OverflowShortensGrant`; exactly when: `Ttl.HonouredIff`.
- A restore does not remove ids that have left, and snapshots taken afterwards spread
  them: `StaleMembers.LeftMemberSurvivesRestores`; exactly when:
  `Agreement.DroppedIdRestoredIff`.
- A leave reports success but leaves the server in Raft when the configuration
  cannot be read: `Handlers.UnreadConfigurationKeepsServer`; exactly when:
  `Handlers.LeaveCompletes`.
- Unknown ids and ids that have left must join with a token, says
  `internal/grpcserver/join.go:586`; after a leave that stopped half way, or a join that
  did, they need not: `Handlers.HalfLeftMemberRejoins`, `Handlers.UnknownIdRejoins`;
  exactly when a rejoin goes through: `Handlers.RejoinAcceptedIff`.
- The `watch.gap` that a dropped event brings need not report that event:
  `WatchLoss.LossGoesUnreported` (and it can: `WatchLoss.LossReportedAfterDrain`);
  exactly when it does: `WatchGaps.GapCoversItsDropIff`; exactly when a number a stream
  skipped is ever reported: `WatchGaps.PassedNumberReportedIff`.
- A reconnecting client is not told what it missed if its stream broke between
  `watch.sync` and `watch.gap`: `WatchClient.BreakBeforeGapLosesRange`; exactly when a
  break costs nothing: `WatchClient.BreakIsCleanIff`.
- The DaemonSet voter quota fails when the sorted pod list grows at its head:
  `Quota.GrowingListBreaksQuota`; exactly when it holds: `Quota.DaemonQuotaIff`.

## Model

| member | source | states |
|---|---|---|
| `Ttl.StampedTtlInRange` | internal/grpcserver/locks.go:245-253 | for every 64-bit ttl_ms, overflowing or not, the TTL lies in [1ms, 24h], and the second clamp changes nothing |
| `Ttl.OmittedTtl` | internal/grpcserver/locks.go:245-253 | a request without ttl_ms gets the TTL it may reuse, else the service default, else 15s, exactly where that lies in [1ms, 24h] and the nearer bound elsewhere |
| `Ttl.OverflowShortensGrant` | internal/grpcserver/locks.go:245-253 | one millisecond past the largest product that fits, a request falls back to 15s instead of saturating at 24h |
| `Ttl.HonouredIff` | internal/grpcserver/leases.go:157-165 | a positive ttl_ms yields its saturated value exactly when the product fits, or wraps to 24h or more, or wraps to nothing with a default that long |
| `Ttl.AppliedTtl` | internal/consensus/fsm.go:274-279 | the TTL a replica stores is whole milliseconds in [1ms, 24h], less than 1ms below the clamped one |
| `Ttl.AppliedDeadline` | internal/consensus/fsm.go:267-272 | the applied deadline loses less than 1ms, and reads as "none" exactly at the Unix epoch and at Go's zero time |
| `Ttl.NoImmortalGrant` | internal/consensus/node.go:390-399 | on any clock past the epoch a stamped deadline is set and not in the past by more than 1ms |
| `Ttl.RenewalsKeepTtl` | internal/grpcserver/locks.go:172-197 | any number of ttl_ms=0 renewals at any clocks leaves the stored TTL as it was |
| `Stamping.CommandsAreStamped` | internal/consensus/node.go:421-431 | every grant and renew command of the lock and lease handlers carries a leader's stamp |
| `Stamping.NoHeldGrantIsImmortal` | internal/consensus/node.go:452-491 | over every log of stamped commands every held grant has a deadline and a reusable TTL |
| `Stamping.RenewChain` | internal/grpcserver/leases.go:87-109 | a chain of ttl_ms=0 renewals through handler, log and table keeps the grant with its TTL, token and holder, and touches nothing else |
| `Names.InsertBy` | internal/locks/table.go:205-205 | insertion into a sorted run keeps it strictly increasing and adds exactly the one element |
| `Names.LessAtFirstDifference` | internal/locks/table.go:205-205 | the order of names is decided by their first difference, and a proper prefix comes first |
| `Grants.StepKeepsWf` | internal/locks/table.go:81-190 | every operation keeps the table within capacity, entries under their own name, tokens distinct and at most the counter |
| `Grants.RunKeepsWf` | internal/leases/table.go:72-175 | the same over every log |
| `Fencing.TokenOrderIsGrantOrder` | internal/locks/table.go:81-118 | over every log the k-th grant gets token k, so each exceeds all before it; held tokens are issued, distinct and within capacity |
| `Fencing.LaterGrantLargerToken` | internal/leases/table.go:72-112 | of two grants anywhere in a log the later has the larger token |
| `Fencing.GrantHasOrigin` | internal/locks/table.go:81-159 | whatever is held was issued by one entry and has been current, same token and holder, at every point since |
| `Fencing.StaleCommandsAreHarmless` | internal/locks/table.go:121-190 | a Release, Renew or Expire that changes anything acts on the only grant ever issued its token, still current, and on no other name |
| `Fencing.DelayedCopiesChangeNothing` | internal/leases/table.go:115-175 | commands carrying spent tokens, inserted anywhere in any number, leave every run unchanged, and the tokens stay spent |
| `Fencing.ReacquireKeepsToken` | internal/locks/table.go:92-101 | a grant keeps token, holder and time of grant through every log without a release or expiry of it, and its holder asking again gets that token |
| `Answers.AcquireAnswers` | internal/locks/table.go:81-118 | in any table an acquire is answered yes if and only if the asker then holds the name under that token; no if and only if another does, who keeps it; each refusal has its one cause and changes nothing |
| `Answers.ReleaseAnswers` | internal/locks/table.go:121-138 | a release goes through, freeing that name alone, if and only if the caller holds it under its token; each refusal has its one cause and changes nothing |
| `Answers.RenewAnswers` | internal/locks/table.go:141-159 | a renewal goes through, to the deadline and TTL it carries and keeping the time of grant, if and only if the caller holds the name under its token; each refusal has its one cause and changes nothing |
| `Answers.ExpireAnswers` | internal/locks/table.go:163-190 | an expiry is answered yes, freeing that name alone, if and only if its token is current; otherwise nothing changes |
| `Answers.AcquireAnswerIff` | internal/leases/table.go:72-112 | at every point of every log yes means the asker holds the name right after, no that another held it right before and still does |
| `Answers.MutualExclusion` | internal/leases/table.go:72-156 | over every log, if two holders were both told they have a name, the first one's grant was dropped in between by a release or expiry carrying its token |
| `Listing.CollectDue` | internal/locks/table.go:193-204 | in whatever order the map is visited, exactly the records whose deadline is set and not after now, each once |
| `Listing.CollectAll` | internal/locks/table.go:236-244 | in whatever order the map is visited, every record once |
| `Listing.SortByName` | internal/locks/table.go:218-227 | strictly increasing by name, same records |
| `Listing.SortedListingIsUnique` | internal/locks/table.go:218-227 | the sorted listing does not depend on the order of the map |
| `Listing.RestoreUndoesSnapshot` | internal/locks/table.go:236-256 | restoring a snapshot listed in any order gives back the very table and counter |
| `Locks.LockTable.Acquire` | internal/locks/table.go:81-118 | new table and answer are those of the acquire step; nothing is emitted |
| `Locks.LockTable.Release` | internal/locks/table.go:121-138 | new table and answer are those of the release step; nothing is emitted |
| `Locks.LockTable.Renew` | internal/locks/table.go:141-159 | new table and answer are those of the renew step; nothing is emitted |
| `Locks.LockTable.Expire` | internal/locks/table.go:163-190 | new table and answer are those of the expire step; one lock.expired exactly when a grant is dropped |
| `Locks.LockTable.Due` | internal/locks/table.go:193-207 | exactly the due records in strictly increasing name order |
| `Locks.LockTable.List` | internal/locks/table.go:218-227 | all records in strictly increasing name order |
| `Locks.LockTable.SnapshotCopy` | internal/locks/table.go:236-244 | every record once, and the counter |
| `Locks.LockTable.Restore` | internal/locks/table.go:247-256 | the table is replaced by the listed records, the counter by the given one |
| `Locks.ExpiryIsAnnounced` | internal/locks/table.go:163-190 | an expiry step announces one lock.expired, naming the grant it dropped, if and only if it dropped one |
| `Leases.LeaseTable.Grant` | internal/leases/table.go:72-112 | as the acquire step; lease.granted exactly for a fresh grant |
| `Leases.LeaseTable.Renew` | internal/leases/table.go:115-133 | as the renew step; nothing is emitted |
| `Leases.LeaseTable.Revoke` | internal/leases/table.go:136-156 | as the release step; lease.revoked exactly when a lease is dropped |
| `Leases.LeaseTable.Expire` | internal/leases/table.go:159-175 | as the expire step; lease.expired exactly when a lease is dropped |
| `Leases.LeaseTable.Due` | internal/leases/table.go:178-192 | exactly the due records in strictly increasing name order |
| `Leases.LeaseTable.SnapshotCopy` | internal/leases/table.go:221-229 | every record once, and the counter |
| `Leases.LeaseTable.Restore` | internal/leases/table.go:232-240 | the table is replaced by the listed records, the counter by the given one |
| `LeaseEvents.EventConservation` | internal/leases/table.go:72-175 | over every run granted - expired - revoked events equal the held leases; each issued token has one granted event, and one terminal event exactly when it is no longer held |
| `LeaseEvents.TerminalEventsCloseGrants` | internal/leases/table.go:242-255 | every expired or revoked event follows a granted event of the same name, owner and token |
| `LeaseEvents.EventKinds` | internal/leases/table.go:72-175 | a granted event comes of a grant only, a revoked one of a revoke, an expired one of an expiry, one per step, with the name, owner and token of the lease granted or dropped |
| `Members.EngineStepsKeepWf` | internal/membership/engine.go:111-264 | every engine change keeps listed and left ids disjoint and stores only alive and dead |
| `Members.EngineStepsKeepFlags` | internal/membership/engine.go:111-264 | every engine change keeps the leader flag on the leader's entry and on no other; an election moves it |
| `Members.JoinTimes` | internal/membership/engine.go:111-220 | a live member keeps its join time over joins and restores, a dead one only over restores; deaths and elections never touch it |
| `Members.Announcements` | internal/membership/engine.go:111-191 | a join is announced exactly for an id that was not alive, with the address and role it is then listed under; a death or departure exactly when it changed the list |
| `Members.Normalized` | internal/membership/engine.go:29-50 | only "observer" reads as observer, only "alive" and the empty status as alive |
| `Membership.Engine.JoinAs` | internal/membership/engine.go:111-148 | new list and event as the join function; the result tells whether an event was emitted |
| `Membership.Engine.MarkDead` | internal/membership/engine.go:152-168 | new list and event as the mark-dead function |
| `Membership.Engine.Leave` | internal/membership/engine.go:172-191 | new list, left set and event as the leave function |
| `Membership.Engine.RestoreMember` | internal/membership/engine.go:198-220 | the entry is overlaid silently |
| `Membership.Engine.SetLeader` | internal/membership/engine.go:246-264 | leader flag moved everywhere and announced once, or nothing |
| `Membership.Engine.List` | internal/membership/engine.go:223-233 | all members in strictly increasing id order |
| `Fsm.FSM.Apply` | internal/consensus/fsm.go:67-184 | state and reply of the command interpreter, for every entry including undecodable and foreign ones |
| `Fsm.FSM.ApplyLock` | internal/consensus/fsm.go:94-135 | lock commands: the table step and its reply |
| `Fsm.FSM.ApplyLease` | internal/consensus/fsm.go:137-178 | lease commands: the table step and its reply |
| `Fsm.FSM.Snapshot` | internal/consensus/fsm.go:201-226 | the image holds every member's address, role and status, both tables and both counters |
| `Fsm.FSM.Restore` | internal/consensus/fsm.go:228-251 | members overlaid, tables replaced |
| `Snapshots.RestoreOverlays` | internal/consensus/fsm.go:234-238 | ids in the payload take its view, all others keep theirs |
| `Snapshots.RestoreUndoesSnapshotOfTables` | internal/consensus/fsm.go:239-244 | into any prior state, a restored snapshot gives the snapshotted tables and counters |
| `Agreement.StepIgnoresClock` | internal/locks/table.go:92-117 | a table step lets the local clock through into the grant time only, never into the answer |
| `Agreement.FollowsStep` | internal/consensus/fsm.go:67-184 | a replica that reads as the log says still does after applying the next entry at any clock |
| `Agreement.FollowsRestore` | internal/consensus/fsm.go:228-251 | so does any state restored from a snapshot of such a replica, whatever it held before |
| `Agreement.DroppedIdRestoredIff` | internal/membership/engine.go:198-220 | for every taker, a restore gets an id the log has dropped right if and only if neither the prior list nor the taker's holds it |
| `Agreement.SnapshotPlusSuffixIsReplay` | internal/consensus/fsm.go:201-251 | snapshot of L1 restored anywhere, then L2, equals replaying L1 ++ L2 elsewhere: both tables and counters, and every member the log lists or L2 adds or drops |
| `Agreement.RestoredIdsFollowTaker` | internal/consensus/fsm.go:201-251 | every id in the snapshot, self entries included, reads after L2 as on the taker after L1 ++ L2; ids not in it read as L2 leaves them on the prior state |
| `Agreement.RepliesFollow` | internal/consensus/fsm.go:77-178 | a replica's answer to an entry is the one the log alone determines |
| `Replicas.ReplicasFollowLog` | internal/consensus/fsm.go:67-251 | in every run of commits, applies, snapshots, installs, restarts and leader changes each replica reads as the prefix it applied |
| `Replicas.ReplicasAgree` | internal/consensus/fsm.go:67-184 | two replicas at one position hold the same grants, answer alike, and agree on every listed member and every one added or dropped since both were restored |
| `Replicas.TokensFollowLog` | internal/locks/table.go:236-256 | on every replica of every run, for both tables, the counter is the number of grants in its prefix and held tokens are issued, distinct and within capacity |
| `ClusterAnswers.ReplicaGrants` | internal/consensus/fsm.go:94-178 | in every run every replica, whatever its clock and however it was built, answers an acquire or grant yes if and only if the log then has the asker as holder under that token, to the deadline and TTL asked for; no if and only if the log has another holder |
| `ClusterAnswers.ReplicaReleases` | internal/consensus/fsm.go:94-178 | a release or revoke goes through on any replica, freeing that name alone, if and only if the log has the caller as holder under its token; a refused one changes nothing |
| `ClusterAnswers.ReplicaRenewals` | internal/consensus/fsm.go:94-178 | a renewal goes through on any replica, to the deadline and TTL it carries, if and only if the log has the caller as holder under its token; a refused one changes nothing |
| `ClusterAnswers.ReplicaExpiries` | internal/consensus/fsm.go:94-178 | an expiry is answered yes on any replica, freeing that name alone, if and only if the log has its token current |
| `ClusterAnswers.OtherReplies` | internal/consensus/fsm.go:67-184 | of all other entries only a nameless join and an undecodable entry are answered with an error, and none touches a grant |
| `ClusterAnswers.ClusterMutualExclusion` | internal/consensus/fsm.go:94-178 | in every run, if any two replicas, at any two times, told two clients that they have a name, the log holds between the two commands a release or expiry carrying the first one's token |
| `ClusterAnswers.GrantAsAsked` | internal/consensus/node.go:390-408 | a request granted on the leader is held under its name, by its holder, for its TTL in whole milliseconds, until that long after the leader's clock less at most a millisecond |
| `ClusterAnswers.RenewedAsAsked` | internal/grpcserver/locks.go:172-197 | a renewal by the holder goes through and moves the deadline by the TTL it names, or by the grant's own if it names none |
| `StaleMembers.LeftMemberSurvivesRestores` | internal/consensus/fsm.go:228-251 | for any three nodes, one run of the replicated system in which a snapshot leaves a dropped member listed where it is restored, and that node's snapshot lists it on a node that never held it |
| `Expiry.TickLocks` | internal/locks/expirer.go:32-40 | a leader's tick asks for an expiry by name and token of exactly the locks whose deadline is set and has passed, in strictly increasing name order; others ask for nothing |
| `Expiry.TickLeases` | internal/leases/expirer.go:31-39 | the same for leases |
| `Expiry.TickClearsDue` | internal/locks/expirer.go:32-40 | a tick whose expiries reach the log first drops exactly the grants that were due, and leaves every other grant and the counter as they were |
| `Expiry.ScanSeesTheLog` | internal/locks/table.go:193-207 | a scan of a replica's own table finds the grants, tokens and deadlines a scan of the log's table would |
| `Expiry.RunKeepsInv` | internal/locks/expirer.go:32-40 | in every run each pending decision was right when made and each committed expiry stems from one |
| `Expiry.HeldAtBothEnds` | internal/locks/table.go:81-190 | a grant held under one token at two points of a log was held, for one holder, throughout |
| `Expiry.ExpirySoundness` | internal/locks/table.go:163-190 | every grant dropped by an expiry was seen by an earlier scan with its deadline set and at or before the scanning clock, and is still that grant |
| `Expiry.DeadlineFollowsLog` | internal/locks/table.go:141-159 | a held grant's deadline is that of the last refresh in the log |
| `Expiry.DroppedWhileDueIff` | internal/locks/table.go:141-190 | a dropped grant is still due when dropped if and only if the last refresh since the scan set a deadline at or before the scan clock |
| `Expiry.RenewDoesNotSave` | internal/locks/table.go:155-157 | in any table a renewed grant is dropped by an expiry carrying its token |
| `Expiry.RenewedGrantIsDropped` | internal/locks/table.go:161-175 | from every run with a pending decision whose grant is still held, a renewal to any deadline followed by the expiry drops the renewed grant |
| `ClusterExpiry.ReplicaExpirySoundness` | internal/locks/expirer.go:32-40 | on the replicated system, for locks and leases, every grant an expiry drops was found due by an earlier scan of some replica's own table, restored or not, and is still that grant |
| `ClusterExpiry.ReplicaGrantsAreMortal` | internal/consensus/node.go:390-399 | while leaders stamp what they commit, no replica of any run holds a grant without deadline or reusable TTL |
| `Handlers.StepKeepsOrder` | internal/grpcserver/join.go:131-149 | every step of every handler, and of a new leader adding itself, whatever its outcome, keeps listed ids in Raft and listed voters Raft voters |
| `Handlers.StepKeepsOther` | internal/grpcserver/join.go:131-149 | what one handler relies on between its steps, no step of a handler takes away unless one of the two is a leave and the other lists the same id |
| `Handlers.CrashOrdered` | internal/grpcserver/join.go:284-309 | however the steps of any number of handlers interleave, as long as no leave overlaps with a join, promote or rejoin of the same id, at every point whoever is listed is in Raft and listed voters are voters there |
| `Handlers.OrderKeptIff` | internal/grpcserver/join.go:587-606 | a completed join or rejoin keeps that order if and only if it brought a Raft address, or was backed by the suffrage it claims |
| `Handlers.LeaveCompletes` | internal/grpcserver/join.go:551-577 | from any state a leave whose steps succeed reports it; one that reports it removed the id from both if and only if it read the configuration or Raft had no such server |
| `Handlers.UnreadConfigurationKeepsServer` | internal/consensus/node.go:273-287 | from every ordered state a leave with an unreadable configuration reports success and keeps the server; repeating it finishes the job |
| `Handlers.LeaveIsFinal` | internal/grpcserver/join.go:549-606 | once an id is gone and no handler is past its check of it, no interleaving without a join of that id lists it or puts it in Raft |
| `Handlers.ListedAndLeftStayDisjoint` | internal/membership/engine.go:111-191 | listed and left ids are disjoint at every point of every interleaving of handlers |
| `Handlers.LeaveRacingRejoin` | internal/grpcserver/join.go:551-606 | that overlap must be excluded: from every ordered state a rejoin checked before a leave of the same id lists an id that is no longer in Raft |
| `Handlers.RejoinAcceptedIff` | internal/grpcserver/join.go:587-606 | from every state and for every outcome a rejoin succeeds if and only if the configuration was read, Raft has the server and the list update succeeds; it is refused, changing nothing, exactly when one of the first two fails |
| `Handlers.UnknownIdRejoins` | internal/grpcserver/join.go:131-149 | from every ordered state a join whose list step is refused leaves an id, never listed, that a rejoin then lists; the order holds exactly when the role it claims is backed |
| `Handlers.HalfLeftMemberRejoins` | internal/grpcserver/join.go:551-577 | from every ordered state a leave that stops between its steps leaves an id that a rejoin then lists; the order holds exactly when the role it claims is backed |
| `Outcomes.JoinOutcome` | internal/grpcserver/join.go:126-149 | a join succeeds if and only if its Raft step, when it brings an address, and its list step do; then the id is listed alive under the address and role asked for and, with an address, in Raft, as a voter unless it came as an observer |
| `Outcomes.PromoteOutcome` | internal/grpcserver/join.go:285-309 | a promote succeeds if and only if the id is listed alive as a voter, or alive as an observer that Raft has and both steps go through; then it is listed as voter under its old address and a Raft voter; unknown and dead ids are refused, exactly then, changing nothing |
| `Outcomes.PromotedIsVoter` | internal/grpcserver/join.go:285-309 | from every ordered state a promote that reports success leaves the id listed alive under its address and a voter in Raft |
| `Outcomes.RejoinOutcome` | internal/grpcserver/join.go:587-606 | a rejoin that succeeds lists the id alive under the new address, in the role it was listed in, else the one it claims; Raft is never touched |
| `Outcomes.LeaveOutcome` | internal/grpcserver/join.go:551-577 | a leave that reports success has delisted and remembered a listed id; one whose list step is refused changes nothing; NotFound is answered exactly for an id unknown to list, memory and Raft |
| `Outcomes.MarkDeadOutcome` | internal/consensus/node.go:363-372 | a committed death marks a listed id dead, keeps its address and role, and touches neither Raft nor who is listed |
| `Outcomes.SelfAddOutcome` | internal/app/units.go:563-580 | a new leader's committed announcement lists it alive as a voter and leaves Raft alone |
| `Outcomes.HandlerOnlyTouches` | internal/grpcserver/join.go:126-606 | every handler, however it ends, leaves every other id as it was in the list, the left set and Raft |
| `JoinService.Leader.AddVoter` | internal/consensus/node.go:216-227 | the server is a voter unless the call was refused |
| `JoinService.Leader.AddNonvoter` | internal/consensus/node.go:231-242 | the server is in the configuration unless the call was refused; a voter stays one |
| `JoinService.Leader.RemoveVoter` | internal/consensus/node.go:304-314 | the server is out of the configuration unless the call was refused |
| `JoinService.Leader.HasServer` | internal/consensus/node.go:273-287 | true exactly for a named server of a readable configuration |
| `JoinService.Leader.PromoteToVoter` | internal/consensus/node.go:247-269 | only a known server is promoted; a voter is left alone |
| `JoinService.Leader.ApplyAddMemberAs` | internal/consensus/node.go:349-359 | the member is listed unless the call was refused |
| `JoinService.Leader.ApplyDropMember` | internal/consensus/node.go:376-385 | the member is dropped unless the call was refused |
| `JoinService.Leader.Join` | internal/grpcserver/join.go:126-149 | Raft first, list second: state and reply of the join task, for every outcome of its calls |
| `JoinService.Leader.Promote` | internal/grpcserver/join.go:285-309 | state and reply of the promote task, for every outcome |
| `JoinService.Leader.LeaveMember` | internal/grpcserver/join.go:551-577 | list first, Raft second: state and reply of the leave task, for every outcome |
| `JoinService.Leader.Rejoin` | internal/grpcserver/join.go:587-606 | state and reply of the rejoin task, for every outcome; Raft is never touched |
| `Presence.OnExpiredTargets` | internal/presence/expire.go:8-17 | a node is marked dead if and only if the leader sees its own, non-self, presence lease expire |
| `Bus.EventBus.Assign` | internal/eventbus/bus.go:47-51 | the next number is taken, queues untouched |
| `Bus.Subscription.Send` | internal/eventbus/bus.go:56-57 | with room the item goes to the end of the queue; a full queue keeps its contents; the flag stays |
| `Bus.Subscription.Raise` | internal/eventbus/bus.go:58-59 | the flag is up, the queue untouched |
| `Bus.EventBus.Deliver` | internal/eventbus/bus.go:53-61 | every subscriber with room has the item at the end of its queue, once, and its flag as it was; every other keeps its queue and has its flag up |
| `Bus.EventBus.Publish` | internal/eventbus/bus.go:47-62 | the same of a new item that carries the next number |
| `Bus.EventBus.Subscribe` | internal/eventbus/bus.go:83-97 | a new subscription under a new id, an empty queue, no one else touched |
| `Bus.Subscription.TakeDropped` | internal/eventbus/bus.go:101-106 | reports and clears the flag, on the bus or off it |
| `Bus.EventBus.Unsubscribe` | internal/eventbus/bus.go:110-117 | the first call takes that subscriber off the bus and closes Done; later ones change nothing |
| `Bus.Subscription.Drain` | internal/eventbus/bus.go:121-131 | everything queued, oldest first, leaving an empty queue, on the bus or off it |
| `Filters.WantsMembersIff` | internal/grpcserver/watch.go:185-223 | a request follows the member list exactly when it names no topics and its types, if any, include all three |
| `Filters.MatchesCustomIff` | internal/grpcserver/watch.go:185-219 | a custom event passes if and only if the request names no topics or this one, with or without the prefix, and no types or this one |
| `Filters.MatchesOthersIff` | internal/grpcserver/watch.go:185-223 | any other event passes if and only if it belongs to the protocol, or the request names no topics and no types or this one |
| `WatchArrival.TypeFilterPicks` | internal/grpcserver/watch.go:209-219 | a request for one type of membership event passes exactly the events of that type |
| `WatchConvergence.ActKeepsInv` | internal/grpcserver/watch.go:49-104 | every step of publishers and watcher keeps the last thing on its way about each followed key true, unless the last event about it was lost |
| `WatchConvergence.WatchConverges` | internal/grpcserver/watch.go:49-171 | in every interleaving, a watcher with nothing on its way shows exactly the engine, each member alive, dead or absent, and the leader, for each whose last event was not lost; other losses do no harm and a later event repairs an earlier loss |
| `WatchArrival.SendAndRaiseIsPublish` | internal/eventbus/bus.go:47-62 | a publisher's send step in the interleaved system, with its raise step when the queue was full, does to the watcher's queue and flag what a publish does on the bus |
| `WatchArrival.EveryNumberReachesWatcher` | internal/grpcserver/watch.go:54-58 | with any concurrent publishers every number above the sync mark whose send was attempted was offered; lossless and drained, it was sent if the filter passes it |
| `WatchArrival.StreamIsArrivalOrder` | internal/grpcserver/watch.go:71-102 | in every interleaving, losses included, the live stream followed by what is ahead is the filtered sequence of arrivals; so live numbers increase if and only if the arrivals did |
| `WatchArrival.ReconnectAccounts` | internal/grpcserver/watch.go:57-69 | on every streaming run the opening gap covers exactly the numbers above last_seq up to the sync mark; so every settled number above last_seq was reported there or offered, and lossless and drained, reported or sent |
| `WatchSequence.SerialStreamIsOrderly` | internal/grpcserver/watch.go:71-102 | with serialized publishes live numbers strictly increase and no in-stream gap covers a delivered one |
| `WatchGaps.FlagIffRaised` | internal/eventbus/bus.go:101-106 | the flag is up exactly when some publisher raised it after the last item forwarded |
| `WatchGaps.SkippedNumberReportedIff` | internal/grpcserver/watch.go:85-96 | a number one forwarding step skips is reported by it if and only if the flag was raised since the step before |
| `WatchGaps.PassedNumberReportedIff` | internal/grpcserver/watch.go:71-102 | over every serialized run, a number the stream passed without carrying it is ever reported if and only if the flag was raised between the forwarding step that passed it and the one before |
| `WatchGaps.GapCoversItsDropIff` | internal/eventbus/bus.go:55-60 | the item that takes the flag reports the number whose loss raised it, at any time since the subscription, if and only if nothing the filter passes was ahead when the flag went up |
| `WatchLoss.LossGoesUnreported` | internal/grpcserver/watch.go:85-101 | every serialized run that ends streaming, with no publish under way and a full queue whose head the filter passes, extends to one that loses a number, takes the flag and does not report it |
| `WatchLoss.LossReportedAfterDrain` | internal/grpcserver/watch.go:85-101 | every serialized run that ends streaming, with no publish under way and a full queue, extends to one that does, when the watcher drains between failed send and flag |
| `WatchLoss.FullQueueIsReachable` | internal/grpcserver/watch.go:54-58 | such runs exist for every engine, request and custom type it passes |
| `WatchSequence.OverlappingPublishesReverse` | internal/eventbus/bus.go:51-61 | from every streaming state with nothing ahead two overlapping publishes come out in reverse order |
| `WatchLoop.SendSnapshot` | internal/grpcserver/watch.go:127-155 | the loop sends the snapshot of the model, filter and statuses applied |
| `WatchConvergence.SnapshotIs` | internal/grpcserver/watch.go:127-155 | the snapshot shows a member, alive or dead, if and only if it is listed so and the filter passes that |
| `WatchLoop.ForwardQueued` | internal/grpcserver/watch.go:71-102 | the forwarding loop sends what the model's receive steps send, with the same last number and flag |
| `WatchClient.ReceiveAll` | sdk/client.go:228-241 | lastSeq ends as the largest number received, or as it was |
| `WatchClient.ReceivesAreHeard` | sdk/client.go:228-241 | each receive adds its sync, gap or live number to what the connection has told the client |
| `WatchBridge.StreamIsConnection` | internal/grpcserver/watch.go:54-102 | in every serialized run an unfiltered, lossless stream is, after its snapshot, exactly such a connection: mark, gap if due, then every number from the subscription on |
| `WatchClient.ReconnectCoverage` | sdk/client.go:202-260 | over any reconnects, of all numbers between first sync and lastSeq the client has seen exactly those no break cut off |
| `WatchClient.CutIsFinal` | sdk/client.go:202-260 | a cut number never reaches the client later |
| `WatchClient.BreakIsCleanIff` | internal/grpcserver/watch.go:60-69 | a break cuts nothing if and only if the gap has come, the mark was nothing new, or live events filled the range |
| `WatchClient.BreakBeforeGapLosesRange` | internal/grpcserver/watch.go:62-69 | a break between sync and gap loses the whole range |
| `WatchClient.ZeroResumeIsSilent` | sdk/client.go:204-212 | a client first synced at zero reconnects as new and is told of no gap |
| `SeenIds.CacheIsLastAdmitted` | internal/grpcserver/events.go:152-166 | over every history the cache holds exactly the last cap admitted ids, in order |
| `SeenIds.SeenIffRecent` | internal/grpcserver/events.go:152-166 | "seen" is answered exactly for the last cap admitted ids |
| `SeenIds.ReadmittedOnlyAfterCap` | internal/grpcserver/events.go:152-166 | an id is admitted again only after at least cap others |
| `IdCaches.IdCache.SeenOrAdd` | internal/grpcserver/events.go:152-166 | map and queue stay equal in contents, without duplicates, within capacity; the answer is the value-level one |
| `Gossip.FanoutTargets` | internal/grpcserver/events.go:102-109 | relays go to each alive peer other than self, once |
| `Gossip.FanoutLoop` | internal/grpcserver/events.go:106-109 | the loop's targets are those |
| `Gossip.EmittedOncePerWindow` | internal/grpcserver/events.go:49-100 | under any duplication and reordering a node emits an id again only after at least 4096 other ids |
| `Gossip.OneRelayPerPeer` | internal/grpcserver/events.go:92-133 | in every run a client publish of an id not among the last 4096 admitted puts exactly one relay per alive peer other than the node on the wire, of any other id none, and a relay puts none |
| `Events.EventService.PublishEvent` | internal/grpcserver/events.go:49-133 | a seen id goes nowhere; a new one goes on the bus once and, unless relayed itself, to each alive peer but the node, once each |
| `Heartbeat.CounterIsFailedRun` | internal/heartbeat/monitor.go:124-148 | for every ping history the counter is the run of failures since the last success or report, below the limit |
| `Heartbeat.ReportsExactlyAtLimit` | internal/heartbeat/monitor.go:132-142 | a ping reports its peer if and only if it completes a run of MaxMisses failures |
| `Heartbeat.NeverReportsSelf` | internal/heartbeat/monitor.go:110-118 | a tick reports only alive members that did not answer, never self |
| `Heartbeat.TicksCompose` | internal/heartbeat/monitor.go:110-150 | counters after ticks are those of the whole ping history |
| `Heartbeat.TickPingsAre` | internal/heartbeat/monitor.go:110-122 | a tick pings exactly the alive members other than self, and each ping fails exactly if its peer is silent |
| `Heartbeat.ReportsAre` | internal/heartbeat/monitor.go:124-148 | after any history a tick reports an id if and only if one of its pings completes a run of MaxMisses failures of that id |
| `Heartbeat.Monitor.Tick` | internal/heartbeat/monitor.go:110-150 | counters and reports of the tick's pings, in member order |
| `Heartbeat.Monitor.Note` | internal/heartbeat/monitor.go:124-148 | counters and report of one ping |
| `Seed.LeastIsFirst` | internal/operator/seed.go:34-35 | the chosen node is listed and sorts before every other |
| `Seed.ResolveGoesFor` | internal/operator/seed.go:21-51 | a reconciler goes for the spec's seed, else the recorded one, else of the ready nodes the one before all others; it claims unless that is recorded |
| `Seed.ClaimAndPatchRecord` | internal/operator/kube.go:49-67 | a claim is recorded if and only if made at the current version or at none and not refused, and reported exactly when also heard of; a status patch never erases a recorded seed |
| `Seed.ClaimIsPermanent` | internal/operator/kube.go:49-67 | with the spec's seed empty a recorded claim is never changed or erased, claims and status patches lost, refused or stale included |
| `Seed.SeedAgreement` | internal/operator/seed.go:21-51 | any two reconcilers that ever get past resolveSeed hold the same seed, the recorded one |
| `Seed.EditedSpecSplitsSeeds` | internal/operator/seed.go:22-48 | every run with a reconciler past resolveSeed extends to one in which another node is written into the spec and a second reconciler gets past with that one |
| `Seed.UnversionedClaimOverwrites` | internal/operator/kube.go:54-56 | a claim without a resourceVersion overwrites another node's |
| `Seed.ApiObject.ClaimSeed` | internal/operator/kube.go:49-67 | the claim is written only at the version read, or at any if none was |
| `Seed.ApiObject.ResolveSeed` | internal/operator/seed.go:21-51 | spec wins over status, status over the first ready node; object and result as in the step system |
| `Sidecar.PassesAreSafe` | internal/operator/reconcile_sidecar.go:19-86 | over every sequence of passes stopping anywhere StatefulSet and Job never coexist, and every step keeps the token, deletes the Job only after it, creates none after it and revives none that is being deleted |
| `Sidecar.TokenEndsBootstrap` | internal/operator/reconcile_sidecar.go:24-63 | once stored the token never changes, a gone Job stays gone, and the StatefulSet stays |
| `Sidecar.StatefulSetComesLast` | internal/operator/reconcile_sidecar.go:66-86 | the StatefulSet appears only after token, headless service and the Job's end |
| `Sidecar.TokenIsFromLog` | internal/operator/reconcile_sidecar.go:24-63 | a pass stores a token if and only if volume and Job were ensured, the bootstrap is ready and the Job's log has one, and it stores that one |
| `Sidecar.TwoPassesForm` | internal/operator/reconcile_sidecar.go:19-86 | whatever earlier passes left behind, one clean pass and, once the Job is gone, a second bring up the StatefulSet, keeping a token stored before |
| `Sidecar.StalePassRecreatesJob` | internal/operator/reconcile_sidecar.go:19-86 | from any cluster without a token, a pass that reads "no token" and pauses while others store it, delete the Job and bring up the StatefulSet brings the Job back beside it |
| `Sidecar.Reconciler.Reconcile` | internal/operator/reconcile_sidecar.go:19-86 | a pass over any answers leaves the platform as the step system's pass does |
| `Sidecar.Reconciler.Bootstrap` | internal/operator/reconcile_sidecar.go:23-63 | the branch without a token, likewise |
| `Sidecar.Reconciler.StoreToken` | internal/operator/reconcile_sidecar.go:41-63 | its second half, from the Job's log to the Job's deletion, likewise |
| `Quota.AlreadyMemberScan` | internal/operator/member.go:48-59 | true exactly if some row has the pod's node name or address |
| `Quota.MembersAreKnown` | internal/operator/member.go:48-59 | a row with the pod's node name, join address or host IP makes it a member, and rows that share none of them do not |
| `Quota.PodOrdinalReads` | internal/operator/member.go:34-44 | the ordinal of a pod is the number its name ends in, for every owner name and every 64-bit number |
| `Quota.PodOrdinalNeedsNumber` | internal/operator/member.go:34-44 | a name with anything else after its last dash has ordinal -1 |
| `Quota.TrimKeeps` | internal/operator/member.go:9-18 | trimming takes off white space at both ends, all of it and nothing else |
| `Quota.DropSet` | internal/operator/member.go:9-18 | the trimmed, non-empty ids |
| `Quota.SidecarJoinLoop` | internal/operator/reconcile_sidecar.go:125-145 | the calls made are a prefix of the full pass's, all of them if none fails |
| `Quota.DaemonJoinLoop` | internal/operator/reconcile.go:215-232 | the same for the DaemonSet loop |
| `Quota.SidecarCallsFit` | internal/operator/reconcile_sidecar.go:125-145 | no call for the seed ordinal, an unready pod, an id in spec.leave or a pod already a member |
| `Quota.SidecarCallsAre` | internal/operator/reconcile_sidecar.go:124-145 | a pass makes exactly the calls for positions that meet the loop's guard and that it reaches before its first failure, in list order |
| `Quota.SidecarVotersAre` | internal/operator/token.go:26-32 | over any passes the ordinals ever joined as voters are exactly those some pass reached below voterCount |
| `Quota.DaemonCallsFit` | internal/operator/reconcile.go:215-232 | no call for an unready pod, an id in spec.leave or a pod already a member; the index is the position in the sorted list |
| `Quota.SidecarVoterQuota` | internal/operator/token.go:26-32 | over any passes at most voterCount - 1 ordinals are ever joined as voters |
| `Quota.SortPods` | internal/operator/reconcile.go:190-190 | the listed pods in strictly increasing name order |
| `Quota.CallsAreReached` | internal/operator/reconcile.go:215-232 | a pass makes exactly the calls for positions that meet the loop's guard and that it reaches before its first failure |
| `Quota.DaemonVotersAre` | internal/operator/token.go:26-32 | over any passes the pods ever joined as voters are exactly those some pass reached among the first voterCount - 1 of its list |
| `Quota.DaemonQuotaIff` | internal/operator/token.go:26-32 | so the quota is kept if and only if those are at most voterCount - 1 |
| `Quota.FixedListQuota` | internal/operator/reconcile.go:190-232 | it is kept over a fixed set of pods, whatever else changes from pass to pass |
| `Quota.GrowingListBreaksQuota` | internal/operator/reconcile.go:190-232 | for any members so far, a pod that sorts before two pods joined as voters, and listed as members since, becomes a third under a quota of two |

## Left out

- hashicorp/raft, BoltDB, transports and elections: assumed as an ordered committed log and a map of servers.
- TLS, certificates, join tokens and RPC authentication, and the checks of the member handlers that come before they act (empty id or address, cluster id, token).
- gRPC forwarding to the leader, observer rejection, generated code, CLI, configuration loading.
- JSON bytes: commands, snapshots and event payloads are datatypes.
- A state machine built without lock or lease table, and handlers built without Raft: unit-test configurations that only add an error reply or a direct engine call.
- The blocking Lock, `locks.Table.Wait`, expirer timing and backoff sleeps: no progress is claimed, a waiter can miss its wakeup.
- The SDK's lock and lease caches, benchmarks, soak runs, application start-up order.
- Kubernetes manifests and the API calls behind them: only exists, ready and stored are kept.
- A starting node's announcement of itself, which is the rejoin of a listed or unlisted Raft server.
- The operator's status messages, its leave loop, and the DaemonSet prepare and init phases: easy members beside the join loops.
- Effects that Raft commits some time after their caller was told they failed: a lost effect here takes place at once.
- Restores between a watcher's snapshot and its stream: `RestoreMember` emits nothing, so convergence holds only without them.
- Wrap-around of token and sequence counters at 2^64.
- Names.ValidName: accepts ASCII letters and digits only, because the other letters Go's tables accept add nothing to the properties.
- WatchClient.ReconnectCoverage: assumes serialized publishes with none under way while the client dials, an unfiltered request and no queue overflow, because what an overflow costs is the subject of WatchGaps.PassedNumberReportedIff.
- WatchGaps.GapCoversItsDropIff: assumes serialized publishes, and so does WatchGaps.PassedNumberReportedIff, because overlapping ones can put a smaller number behind a larger (WatchSequence.OverlappingPublishesReverse); WatchGaps.SkippedNumberReportedIff needs no such assumption.
- Topic validation of watch and publish requests, and the id made up for an event published without one.
- Stamping.NoHeldGrantIsImmortal: assumes leader clocks past the Unix epoch, because Ttl.AppliedDeadline gives the two instants that fail.
- Handlers.CrashOrdered: assumes requests admissible when first acted on and no leave overlapping with a join, promote or rejoin of the same id, because Handlers.OrderKeptIff and Handlers.LeaveRacingRejoin show both are needed.
- Sidecar.PassesAreSafe: assumes one pass at a time and that only the operator creates the objects, because Sidecar.StalePassRecreatesJob shows the need.
