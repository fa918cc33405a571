/**
 The reference reading of a log, free of clocks, snapshots and self entries:
 what each prefix of the committed log says the tables and the member list are.
 */
module Reference {
  import opened Grants
  import opened Members
  import opened Commands

  function LockEntries(log: seq<LogEntry>): seq<Entry> {
    if log == [] then []
    else
      var before, e := LockEntries(log[..|log| - 1]), log[|log| - 1];
      if e.Committed? && IsLock(e.cmd.kind) then before + [Entry(OpOf(e.cmd), 0)] else before
  }

  function LeaseEntries(log: seq<LogEntry>): seq<Entry> {
    if log == [] then []
    else
      var before, e := LeaseEntries(log[..|log| - 1]), log[|log| - 1];
      if e.Committed? && IsLease(e.cmd.kind) then before + [Entry(OpOf(e.cmd), 0)] else before
  }

  function RefLocks(log: seq<LogEntry>): Table {
    Run(EMPTY, LockEntries(log))
  }

  function RefLeases(log: seq<LogEntry>): Table {
    Run(EMPTY, LeaseEntries(log))
  }

  // Until a log adds or drops an id it says nothing about it.
  datatype Fact = Unknown | Known(view: View)

  predicate Adds(e: LogEntry, id: string) {
    e.Committed? && e.cmd.kind == AddMember && e.cmd.id == id && id != ""
  }

  predicate Drops(e: LogEntry, id: string) {
    e.Committed? && e.cmd.kind == DropMember && e.cmd.id == id
  }

  function RefMember(log: seq<LogEntry>, id: string): Fact {
    if log == [] then Unknown
    else
      var before, e := RefMember(log[..|log| - 1], id), log[|log| - 1];
      if Adds(e, id) then Known(Listed(e.cmd.address, NormalizeRole(e.cmd.role), Alive))
      else if Drops(e, id) then Known(Absent)
      else if e.Committed? && e.cmd.kind == RemoveMember && e.cmd.id == id && before.Known? && before.view.Listed?
      then Known(before.view.(status := Dead))
      else before
  }

  // The reply the log itself determines for its k-th entry.
  function RefReply(log: seq<LogEntry>, k: nat): ApplyReply
    requires k < |log|
  {
    Apply(State(New("", "", 0), RefLocks(log[..k]), RefLeases(log[..k])), log[k], 0).1
  }
}

/**
 Replica agreement.  A replica follows a log when everything the log determines
 reads the same on it, whatever its clock, its self entry, and the snapshots it
 was built from.
 */
module Agreement {
  import opened Grants
  import opened Members
  import opened Commands
  import opened Snapshots
  import opened Reference

  // The table without the local clock readings.
  function Erase(t: Table): Table {
    t.(held := map n | n in t.held :: t.held[n].(grantedAt := 0))
  }

  lemma EraseKeepsSize(t: Table)
    ensures |Erase(t).held| == |t.held|
  {
    assert Erase(t).held.Keys == t.held.Keys;
    assert |Erase(t).held.Keys| == |Erase(t).held|;
    assert |t.held.Keys| == |t.held|;
  }

  lemma DropErased(t: Table, name: string)
    ensures Erase(t.(held := t.held - {name})) == Erase(t).(held := Erase(t).held - {name})
  {
  }

  lemma PutErased(t: Table, name: string, rec: Record)
    ensures Erase(t.(held := t.held[name := rec])) == Erase(t).(held := Erase(t).held[name := rec.(grantedAt := 0)])
  {
  }

  lemma AcquireIgnoresClock(t: Table, op: Op, now: int)
    requires op.Acquire?
    ensures Erase(Step(t, op, now).0) == Step(Erase(t), op, 0).0
    ensures Step(t, op, now).1 == Step(Erase(t), op, 0).1
  {
    EraseKeepsSize(t);
    if op.name in t.held {
      PutErased(t, op.name, t.held[op.name].(deadline := op.deadline, ttl := op.ttl));
    } else {
      PutErased(t, op.name, Record(op.name, op.holder, t.next + 1, now, op.deadline, op.ttl));
    }
  }

  // A step neither reads nor lets through the clock, except into grantedAt.
  lemma StepIgnoresClock(t: Table, op: Op, now: int)
    ensures Erase(Step(t, op, now).0) == Step(Erase(t), op, 0).0
    ensures Step(t, op, now).1 == Step(Erase(t), op, 0).1
  {
    if op.Acquire? {
      AcquireIgnoresClock(t, op, now);
    } else if op.Renew? {
      if op.name in t.held {
        PutErased(t, op.name, t.held[op.name].(deadline := op.deadline, ttl := op.ttl));
      }
    } else {
      DropErased(t, op.name);
    }
  }

  // The ids the log adds or drops from position b on.
  ghost predicate Touched(log: seq<LogEntry>, b: nat, id: string) {
    exists k :: b <= k < |log| && (Adds(log[k], id) || Drops(log[k], id))
  }

  ghost predicate MembersFollow(e: EngineState, log: seq<LogEntry>, b: nat) {
    && EngineWf(e)
    && (forall id :: RefMember(log, id).Known? && RefMember(log, id).view.Listed? ==>
          ViewOf(e, id) == RefMember(log, id).view)
    && (forall id :: Touched(log, b, id) ==> RefMember(log, id) == Known(ViewOf(e, id)))
  }

  ghost predicate TableFollows(t: Table, ref: Table) {
    Wf(t) && Erase(t) == ref
  }

  // s is a state of a replica that has applied log, having last been restored
  // from a snapshot at position b (b == 0: never).
  ghost predicate Follows(s: State, log: seq<LogEntry>, b: nat) {
    && b <= |log|
    && TableFollows(s.locks, RefLocks(log))
    && TableFollows(s.leases, RefLeases(log))
    && MembersFollow(s.engine, log, b)
  }

  lemma InitFollows(selfId: string, selfAddr: string, now: int)
    ensures Follows(Init(selfId, selfAddr, now), [], 0)
  {
    assert Erase(EMPTY) == EMPTY;
  }

  lemma SnocPrefix(log: seq<LogEntry>, e: LogEntry)
    ensures (log + [e])[..|log|] == log && (log + [e])[|log|] == e
  {
  }

  lemma TableFollowsStep(t: Table, ref: Table, op: Op, now: int)
    requires TableFollows(t, ref)
    ensures TableFollows(Step(t, op, now).0, Step(ref, op, 0).0)
  {
    StepKeepsWf(t, op, now);
    StepIgnoresClock(t, op, now);
  }

  lemma RefLocksSnoc(log: seq<LogEntry>, e: LogEntry)
    ensures RefLocks(log + [e])
         == if e.Committed? && IsLock(e.cmd.kind) then Step(RefLocks(log), OpOf(e.cmd), 0).0 else RefLocks(log)
  {
    SnocPrefix(log, e);
    if e.Committed? && IsLock(e.cmd.kind) {
      RunSnoc(EMPTY, LockEntries(log), Entry(OpOf(e.cmd), 0));
    }
  }

  lemma RefLeasesSnoc(log: seq<LogEntry>, e: LogEntry)
    ensures RefLeases(log + [e])
         == if e.Committed? && IsLease(e.cmd.kind) then Step(RefLeases(log), OpOf(e.cmd), 0).0 else RefLeases(log)
  {
    SnocPrefix(log, e);
    if e.Committed? && IsLease(e.cmd.kind) {
      RunSnoc(EMPTY, LeaseEntries(log), Entry(OpOf(e.cmd), 0));
    }
  }

  // Which table an entry writes, and with which operation.
  lemma ApplyWritesLocks(s: State, e: LogEntry, now: int)
    ensures Apply(s, e, now).0.locks
         == if e.Committed? && IsLock(e.cmd.kind) then Step(s.locks, OpOf(e.cmd), now).0 else s.locks
  {
  }

  lemma ApplyWritesLeases(s: State, e: LogEntry, now: int)
    ensures Apply(s, e, now).0.leases
         == if e.Committed? && IsLease(e.cmd.kind) then Step(s.leases, OpOf(e.cmd), now).0 else s.leases
  {
  }

  lemma LocksFollowStep(s: State, log: seq<LogEntry>, e: LogEntry, now: int)
    requires TableFollows(s.locks, RefLocks(log))
    ensures TableFollows(Apply(s, e, now).0.locks, RefLocks(log + [e]))
  {
    var t', ref' := Apply(s, e, now).0.locks, RefLocks(log + [e]);
    ApplyWritesLocks(s, e, now);
    RefLocksSnoc(log, e);
    if e.Committed? && IsLock(e.cmd.kind) {
      var op := OpOf(e.cmd);
      TableFollowsStep(s.locks, RefLocks(log), op, now);
      assert TableFollows(t', ref');
    } else {
      assert t' == s.locks && ref' == RefLocks(log);
    }
  }

  lemma LeasesFollowStep(s: State, log: seq<LogEntry>, e: LogEntry, now: int)
    requires TableFollows(s.leases, RefLeases(log))
    ensures TableFollows(Apply(s, e, now).0.leases, RefLeases(log + [e]))
  {
    var t', ref' := Apply(s, e, now).0.leases, RefLeases(log + [e]);
    ApplyWritesLeases(s, e, now);
    RefLeasesSnoc(log, e);
    if e.Committed? && IsLease(e.cmd.kind) {
      var op := OpOf(e.cmd);
      TableFollowsStep(s.leases, RefLeases(log), op, now);
      assert TableFollows(t', ref');
    } else {
      assert t' == s.leases && ref' == RefLeases(log);
    }
  }

  lemma TouchedSnoc(log: seq<LogEntry>, e: LogEntry, b: nat, id: string)
    requires b <= |log|
    ensures Touched(log + [e], b, id) <==> Touched(log, b, id) || Adds(e, id) || Drops(e, id)
  {
    var log' := log + [e];
    assert log'[|log|] == e;
    if Touched(log, b, id) {
      var k :| b <= k < |log| && (Adds(log[k], id) || Drops(log[k], id));
      assert log'[k] == log[k];
    }
  }

  // One entry, seen through one id.
  lemma MemberFollowsStep(s: State, e: LogEntry, now: int, log: seq<LogEntry>, b: nat, id: string)
    requires b <= |log| && MembersFollow(s.engine, log, b)
    ensures var s' := Apply(s, e, now).0;
            var fact := RefMember(log + [e], id);
            && (fact.Known? && fact.view.Listed? ==> ViewOf(s'.engine, id) == fact.view)
            && (Touched(log + [e], b, id) ==> fact == Known(ViewOf(s'.engine, id)))
  {
    SnocPrefix(log, e);
    TouchedSnoc(log, e, b, id);
    var before := RefMember(log, id);
    assert Touched(log, b, id) ==> before == Known(ViewOf(s.engine, id));
    assert before.Known? && before.view.Listed? ==> ViewOf(s.engine, id) == before.view;
  }

  lemma MembersFollowStep(s: State, log: seq<LogEntry>, b: nat, e: LogEntry, now: int)
    requires b <= |log| && MembersFollow(s.engine, log, b)
    ensures MembersFollow(Apply(s, e, now).0.engine, log + [e], b)
  {
    forall id {
      MemberFollowsStep(s, e, now, log, b, id);
    }
    if e.Committed? {
      EngineStepsKeepWf(s.engine, e.cmd.id, e.cmd.address, NormalizeRole(e.cmd.role), Alive, now);
    }
  }

  lemma FollowsStep(s: State, log: seq<LogEntry>, b: nat, e: LogEntry, now: int)
    requires Follows(s, log, b)
    ensures Follows(Apply(s, e, now).0, log + [e], b)
  {
    LocksFollowStep(s, log, e, now);
    LeasesFollowStep(s, log, e, now);
    MembersFollowStep(s, log, b, e, now);
  }

  // Restoring any faithful image of a state that followed log, into any engine
  // whatever, gives a state that follows log from there on.
  lemma FollowsRestore(prior: State, s: State, image: Image, log: seq<LogEntry>, b: nat, now: int)
    requires Follows(s, log, b) && IsSnapshotOf(image, s) && EngineWf(prior.engine)
    ensures Follows(Restore(prior, image, now), log, |log|)
  {
    RestoreUndoesSnapshotOfTables(prior, s, image, now);
    var s' := Restore(prior, image, now);
    RestoreKeepsEngineWf(prior.engine, image.members, now);
    forall id | RefMember(log, id).Known? && RefMember(log, id).view.Listed?
      ensures ViewOf(s'.engine, id) == RefMember(log, id).view
    {
      ListedIsNamed(log, id);
      RestoreOverlays(prior.engine, image.members, now, id);
    }
  }

  lemma {:induction false} ListedIsNamed(log: seq<LogEntry>, id: string)
    requires RefMember(log, id).Known? && RefMember(log, id).view.Listed?
    ensures id != ""
    decreases |log|
  {
    if !Adds(log[|log| - 1], id) {
      ListedIsNamed(log[..|log| - 1], id);
    }
  }

  // Exactly when a restore gets an id right that the log has dropped, whoever took the
  // snapshot: neither the list restored into nor the taker's own list may hold it.
  lemma DroppedIdRestoredIff(prior: State, s: State, image: Image, log: seq<LogEntry>, id: string, now: int)
    requires IsSnapshotOf(image, s) && id != "" && RefMember(log, id) == Known(Absent)
    ensures RefMember(log, id) == Known(ViewOf(Restore(prior, image, now).engine, id))
       <==> id !in prior.engine.members && id !in s.engine.members
  {
    RestoreOverlays(prior.engine, image.members, now, id);
  }

  function ApplyAll(s: State, log: seq<LogEntry>, clocks: seq<int>): State
    requires |clocks| == |log|
  {
    if log == [] then s
    else Apply(ApplyAll(s, log[..|log| - 1], clocks[..|log| - 1]), log[|log| - 1], clocks[|log| - 1]).0
  }

  lemma ApplyAllSnoc(s: State, log: seq<LogEntry>, clocks: seq<int>, e: LogEntry, now: int)
    requires |clocks| == |log|
    ensures ApplyAll(s, log + [e], clocks + [now]) == Apply(ApplyAll(s, log, clocks), e, now).0
  {
    assert (log + [e])[..|log|] == log && (clocks + [now])[..|log|] == clocks;
  }

  lemma FollowsNext(mid: State, log: seq<LogEntry>, b: nat, e: LogEntry, now: int, s': State, log': seq<LogEntry>)
    requires Follows(mid, log, b) && s' == Apply(mid, e, now).0 && log' == log + [e]
    ensures Follows(s', log', b)
  {
    FollowsStep(mid, log, b, e, now);
  }

  lemma {:induction false} FollowsAll(s: State, log: seq<LogEntry>, b: nat, suffix: seq<LogEntry>, clocks: seq<int>)
    requires Follows(s, log, b) && |clocks| == |suffix|
    ensures Follows(ApplyAll(s, suffix, clocks), log + suffix, b)
    decreases |suffix|
  {
    if suffix == [] {
      assert log + suffix == log;
    } else {
      var n := |suffix| - 1;
      var init, times, e, now := suffix[..n], clocks[..n], suffix[n], clocks[n];
      assert suffix == init + [e] && clocks == times + [now];
      ApplyAllSnoc(s, init, times, e, now);
      FollowsAll(s, log, b, init, times);
      assert log + suffix == log + init + [e];
      FollowsNext(ApplyAll(s, init, times), log + init, b, e, now, ApplyAll(s, suffix, clocks), log + suffix);
    }
  }

  // What two replicas at the same log position agree on.
  ghost predicate SameGrants(a: State, b: State) {
    Erase(a.locks) == Erase(b.locks) && Erase(a.leases) == Erase(b.leases)
  }

  // Presence, address, role and status of every id the log lists, and of every
  // id it adds or drops from position base on.
  ghost predicate SameMembers(a: State, b: State, log: seq<LogEntry>, base: nat) {
    forall id :: Touched(log, base, id) || (RefMember(log, id).Known? && RefMember(log, id).view.Listed?) ==>
      ViewOf(a.engine, id) == ViewOf(b.engine, id)
  }

  lemma TouchedEarlier(log: seq<LogEntry>, base: nat, b: nat, id: string)
    requires b <= base && Touched(log, base, id)
    ensures Touched(log, b, id)
  {
  }

  lemma FollowersAgree(a: State, b: State, log: seq<LogEntry>, ba: nat, bb: nat, base: nat)
    requires Follows(a, log, ba) && Follows(b, log, bb) && ba <= base && bb <= base
    ensures SameGrants(a, b) && SameMembers(a, b, log, base)
  {
    forall id | Touched(log, base, id)
      ensures ViewOf(a.engine, id) == ViewOf(b.engine, id)
    {
      TouchedEarlier(log, base, ba, id);
      TouchedEarlier(log, base, bb, id);
    }
  }

  lemma ReplayedFollows(s: State, log: seq<LogEntry>, clocks: seq<int>)
    requires Follows(s, [], 0) && |clocks| == |log|
    ensures Follows(ApplyAll(s, log, clocks), log, 0)
  {
    assert [] + log == log;
    FollowsAll(s, [], 0, log, clocks);
  }

  lemma ResumedFollows(taker: State, prior: State, image: Image,
                       l1: seq<LogEntry>, l2: seq<LogEntry>, c1: seq<int>, c2: seq<int>, at: int)
    requires |c1| == |l1| && |c2| == |l2|
    requires Follows(taker, [], 0) && EngineWf(prior.engine)
    requires IsSnapshotOf(image, ApplyAll(taker, l1, c1))
    ensures Follows(ApplyAll(Restore(prior, image, at), l2, c2), l1 + l2, |l1|)
  {
    ReplayedFollows(taker, l1, c1);
    FollowsRestore(prior, ApplyAll(taker, l1, c1), image, l1, 0, at);
    FollowsAll(Restore(prior, image, at), l1, |l1|, l2, c2);
  }

  // Snapshot plus suffix equals full replay: restore a snapshot of L1, taken on
  // one node, into any state of another, apply L2 there, and the tables equal
  // those of a third node replaying L1 ++ L2; so do the members the snapshot
  // listed, and every member L2 adds or drops.
  lemma SnapshotPlusSuffixIsReplay(taker: State, prior: State, other: State, image: Image,
                                   l1: seq<LogEntry>, l2: seq<LogEntry>,
                                   c1: seq<int>, c2: seq<int>, c: seq<int>, at: int)
    requires |c1| == |l1| && |c2| == |l2| && |c| == |l1 + l2|
    requires Follows(taker, [], 0) && Follows(other, [], 0) && EngineWf(prior.engine)
    requires IsSnapshotOf(image, ApplyAll(taker, l1, c1))
    ensures var resumed := ApplyAll(Restore(prior, image, at), l2, c2);
            var replayed := ApplyAll(other, l1 + l2, c);
            SameGrants(resumed, replayed) && SameMembers(resumed, replayed, l1 + l2, |l1|)
  {
    ResumedFollows(taker, prior, image, l1, l2, c1, c2, at);
    ReplayedFollows(other, l1 + l2, c);
    var resumed, replayed := ApplyAll(Restore(prior, image, at), l2, c2), ApplyAll(other, l1 + l2, c);
    FollowersAgree(resumed, replayed, l1 + l2, |l1|, 0, |l1|);
  }

  // What one entry does to a view, and a whole log.
  function ViewStep(v: View, e: LogEntry, id: string): View {
    if Adds(e, id) then Listed(e.cmd.address, NormalizeRole(e.cmd.role), Alive)
    else if Drops(e, id) then Absent
    else if e.Committed? && e.cmd.kind == RemoveMember && e.cmd.id == id && v.Listed? then v.(status := Dead)
    else v
  }

  function ViewAfter(v: View, log: seq<LogEntry>, id: string): View {
    if log == [] then v else ViewStep(ViewAfter(v, log[..|log| - 1], id), log[|log| - 1], id)
  }

  lemma ApplyWritesEngine(s: State, e: LogEntry, now: int)
    ensures Apply(s, e, now).0.engine
         == if !e.Committed? then s.engine
            else if e.cmd.kind == AddMember
            then JoinAs(s.engine, e.cmd.id, e.cmd.address, NormalizeRole(e.cmd.role), now).0
            else if e.cmd.kind == RemoveMember then MarkDead(s.engine, e.cmd.id).0
            else if e.cmd.kind == DropMember then Leave(s.engine, e.cmd.id).0
            else s.engine
  {
  }

  lemma EngineStepsSeenAsViews(e: EngineState, at: string, addr: string, role: Role, now: int, id: string)
    requires EngineWf(e)
    ensures ViewOf(JoinAs(e, at, addr, NormalizeRole(role), now).0, id)
         == if at == id && id != "" then Listed(addr, NormalizeRole(role), Alive) else ViewOf(e, id)
    ensures ViewOf(MarkDead(e, at).0, id)
         == if at == id && ViewOf(e, id).Listed? then ViewOf(e, id).(status := Dead) else ViewOf(e, id)
    ensures ViewOf(Leave(e, at).0, id) == if at == id then Absent else ViewOf(e, id)
  {
  }

  lemma ApplySeenAsView(s: State, e: LogEntry, now: int, id: string)
    requires EngineWf(s.engine)
    ensures EngineWf(Apply(s, e, now).0.engine)
    ensures ViewOf(Apply(s, e, now).0.engine, id) == ViewStep(ViewOf(s.engine, id), e, id)
  {
    ApplyWritesEngine(s, e, now);
    if e.Committed? {
      EngineStepsKeepWf(s.engine, e.cmd.id, e.cmd.address, NormalizeRole(e.cmd.role), Alive, now);
      EngineStepsSeenAsViews(s.engine, e.cmd.id, e.cmd.address, e.cmd.role, now, id);
    }
  }

  lemma {:induction false} LogSeenAsView(s: State, log: seq<LogEntry>, clocks: seq<int>, id: string)
    requires EngineWf(s.engine) && |clocks| == |log|
    ensures EngineWf(ApplyAll(s, log, clocks).engine)
    ensures ViewOf(ApplyAll(s, log, clocks).engine, id) == ViewAfter(ViewOf(s.engine, id), log, id)
    decreases |log|
  {
    if log != [] {
      var n := |log| - 1;
      LogSeenAsView(s, log[..n], clocks[..n], id);
      ApplySeenAsView(ApplyAll(s, log[..n], clocks[..n]), log[n], clocks[n], id);
    }
  }

  lemma {:induction false} ViewAfterConcat(v: View, l1: seq<LogEntry>, l2: seq<LogEntry>, id: string)
    ensures ViewAfter(v, l1 + l2, id) == ViewAfter(ViewAfter(v, l1, id), l2, id)
    decreases |l2|
  {
    if l2 == [] {
      assert l1 + l2 == l1;
    } else {
      ViewAfterConcat(v, l1, l2[..|l2| - 1], id);
      assert (l1 + l2)[..|l1 + l2| - 1] == l1 + l2[..|l2| - 1];
    }
  }

  // The same for the snapshot's own ids, among them the taker's self entry, which no
  // log need mention: restored anywhere and carried on over L2, each reads as it
  // would on the taker after L1 ++ L2.  Ids the snapshot lacks read as L2 leaves them
  // on the state restored into.
  lemma RestoredIdsFollowTaker(taker: State, prior: State, image: Image, l1: seq<LogEntry>, l2: seq<LogEntry>,
                               c1: seq<int>, c2: seq<int>, c: seq<int>, at: int, id: string)
    requires |c1| == |l1| && |c2| == |l2| && |c| == |l1 + l2| && id != ""
    requires EngineWf(taker.engine) && EngineWf(prior.engine)
    requires IsSnapshotOf(image, ApplyAll(taker, l1, c1))
    ensures var resumed := ApplyAll(Restore(prior, image, at), l2, c2);
            if EntryView(image.members, id).Listed?
            then ViewOf(resumed.engine, id) == ViewOf(ApplyAll(taker, l1 + l2, c).engine, id)
            else ViewOf(resumed.engine, id) == ViewOf(ApplyAll(prior, l2, c2).engine, id)
  {
    LogSeenAsView(taker, l1, c1, id);
    LogSeenAsView(taker, l1 + l2, c, id);
    ViewAfterConcat(ViewOf(taker.engine, id), l1, l2, id);
    RestoreOverlays(prior.engine, image.members, at, id);
    RestoreKeepsEngineWf(prior.engine, image.members, at);
    LogSeenAsView(Restore(prior, image, at), l2, c2, id);
    LogSeenAsView(prior, l2, c2, id);
  }

  // Equal replies: a replica that has applied log[..k] answers entry k as the log determines.
  lemma RepliesFollow(s: State, log: seq<LogEntry>, k: nat, b: nat, now: int)
    requires k < |log| && Follows(s, log[..k], b)
    ensures Apply(s, log[k], now).1 == RefReply(log, k)
  {
    if log[k].Committed? && IsLock(log[k].cmd.kind) {
      StepIgnoresClock(s.locks, OpOf(log[k].cmd), now);
    } else if log[k].Committed? && IsLease(log[k].cmd.kind) {
      StepIgnoresClock(s.leases, OpOf(log[k].cmd), now);
    }
  }
}

/**
 The replicated system: one committed log, any number of replicas with their own
 clocks, and snapshots taken, stored and installed at any time.
 */
module Replicas {
  import opened Grants
  import opened Fencing
  import opened Members
  import opened Commands
  import opened Snapshots
  import opened Reference
  import opened Agreement

  // applied is the log position reached; base the position of the snapshot the
  // replica was last restored from.
  datatype Replica = Replica(state: State, applied: nat, base: nat)

  datatype Stored = Stored(image: Image, at: nat)

  datatype System = System(log: seq<LogEntry>, replicas: seq<Replica>, store: seq<Stored>)

  datatype Action =
    | Commit(e: LogEntry)
    | ApplyNext(r: nat, now: int)
    | TakeSnapshot(r: nat, image: Image)
    | Install(r: nat, k: nat, now: int)
    | Restart(r: nat, selfId: string, selfAddr: string, now: int)
    | SeeLeader(r: nat, id: string)

  ghost predicate Enabled(c: System, a: Action) {
    match a
    case Commit(_) => true
    case ApplyNext(r, _) => r < |c.replicas| && c.replicas[r].applied < |c.log|
    case TakeSnapshot(r, image) => r < |c.replicas| && IsSnapshotOf(image, c.replicas[r].state)
    case Install(r, k, _) => r < |c.replicas| && k < |c.store|
    case Restart(r, _, _, _) => r < |c.replicas|
    case SeeLeader(r, _) => r < |c.replicas|
  }

  ghost function Act(c: System, a: Action): System
    requires Enabled(c, a)
  {
    match a
    case Commit(e) => c.(log := c.log + [e])
    case ApplyNext(r, now) =>
      var rep := c.replicas[r];
      var rep' := rep.(state := Apply(rep.state, c.log[rep.applied], now).0, applied := rep.applied + 1);
      c.(replicas := c.replicas[r := rep'])
    case TakeSnapshot(r, image) => c.(store := c.store + [Stored(image, c.replicas[r].applied)])
    case Install(r, k, now) =>
      var s := c.store[k];
      c.(replicas := c.replicas[r := Replica(Restore(c.replicas[r].state, s.image, now), s.at, s.at)])
    case Restart(r, selfId, selfAddr, now) =>
      c.(replicas := c.replicas[r := Replica(Init(selfId, selfAddr, now), 0, 0)])
    case SeeLeader(r, id) =>
      var rep := c.replicas[r];
      c.(replicas := c.replicas[r := rep.(state := rep.state.(engine := SetLeader(rep.state.engine, id).0))])
  }

  ghost predicate Initial(c: System) {
    && c.log == [] && c.store == []
    && forall r :: 0 <= r < |c.replicas| ==>
         exists selfId, selfAddr, now :: c.replicas[r] == Replica(Init(selfId, selfAddr, now), 0, 0)
  }

  ghost predicate IsRun(run: seq<System>, actions: seq<Action>) {
    && |run| == |actions| + 1
    && Initial(run[0])
    && forall i :: 0 <= i < |actions| ==> Enabled(run[i], actions[i]) && run[i + 1] == Act(run[i], actions[i])
  }

  ghost predicate ReplicaOk(log: seq<LogEntry>, rep: Replica) {
    rep.applied <= |log| && Follows(rep.state, log[..rep.applied], rep.base)
  }

  ghost predicate Faithful(image: Image, log: seq<LogEntry>) {
    exists s, b :: Follows(s, log, b) && IsSnapshotOf(image, s)
  }

  ghost predicate StoredOk(log: seq<LogEntry>, s: Stored) {
    s.at <= |log| && Faithful(s.image, log[..s.at])
  }

  ghost predicate Inv(c: System) {
    && (forall r :: 0 <= r < |c.replicas| ==> ReplicaOk(c.log, c.replicas[r]))
    && (forall k :: 0 <= k < |c.store| ==> StoredOk(c.log, c.store[k]))
  }

  lemma CommitKeeps(log: seq<LogEntry>, e: LogEntry, n: nat)
    requires n <= |log|
    ensures (log + [e])[..n] == log[..n]
  {
  }

  lemma CommitKeepsInv(c: System, e: LogEntry)
    requires Inv(c)
    ensures Inv(c.(log := c.log + [e]))
  {
    forall r | 0 <= r < |c.replicas|
      ensures ReplicaOk(c.log + [e], c.replicas[r])
    {
      CommitKeeps(c.log, e, c.replicas[r].applied);
    }
    forall k | 0 <= k < |c.store|
      ensures StoredOk(c.log + [e], c.store[k])
    {
      CommitKeeps(c.log, e, c.store[k].at);
    }
  }

  lemma ApplyNextOk(log: seq<LogEntry>, rep: Replica, now: int)
    requires ReplicaOk(log, rep) && rep.applied < |log|
    ensures ReplicaOk(log, rep.(state := Apply(rep.state, log[rep.applied], now).0, applied := rep.applied + 1))
  {
    var n, e := rep.applied, log[rep.applied];
    assert log[..n + 1] == log[..n] + [e];
    FollowsStep(rep.state, log[..n], rep.base, e, now);
  }

  lemma InstallOk(log: seq<LogEntry>, rep: Replica, s: Stored, now: int)
    requires ReplicaOk(log, rep) && StoredOk(log, s)
    ensures ReplicaOk(log, Replica(Restore(rep.state, s.image, now), s.at, s.at))
  {
    var st, b :| Follows(st, log[..s.at], b) && IsSnapshotOf(s.image, st);
    FollowsRestore(rep.state, st, s.image, log[..s.at], b, now);
  }

  lemma SeeLeaderOk(log: seq<LogEntry>, rep: Replica, id: string)
    requires ReplicaOk(log, rep)
    ensures ReplicaOk(log, rep.(state := rep.state.(engine := SetLeader(rep.state.engine, id).0)))
  {
    var e, e' := rep.state.engine, SetLeader(rep.state.engine, id).0;
    assert forall x :: ViewOf(e', x) == ViewOf(e, x);
  }

  lemma ReplaceReplica(c: System, r: nat, rep: Replica)
    requires Inv(c) && r < |c.replicas| && ReplicaOk(c.log, rep)
    ensures Inv(c.(replicas := c.replicas[r := rep]))
  {
  }

  lemma StoreImage(c: System, r: nat, image: Image)
    requires Inv(c) && r < |c.replicas| && IsSnapshotOf(image, c.replicas[r].state)
    ensures Inv(c.(store := c.store + [Stored(image, c.replicas[r].applied)]))
  {
    var rep := c.replicas[r];
    assert ReplicaOk(c.log, rep);
    assert Faithful(image, c.log[..rep.applied]);
  }

  lemma ActKeepsInv(c: System, a: Action)
    requires Inv(c) && Enabled(c, a)
    ensures Inv(Act(c, a))
  {
    match a
    case Commit(e) =>
      CommitKeepsInv(c, e);
    case ApplyNext(r, now) =>
      var rep := c.replicas[r];
      ApplyNextOk(c.log, rep, now);
      ReplaceReplica(c, r, rep.(state := Apply(rep.state, c.log[rep.applied], now).0, applied := rep.applied + 1));
    case TakeSnapshot(r, image) =>
      StoreImage(c, r, image);
    case Install(r, k, now) =>
      InstallOk(c.log, c.replicas[r], c.store[k], now);
      ReplaceReplica(c, r, Replica(Restore(c.replicas[r].state, c.store[k].image, now), c.store[k].at, c.store[k].at));
    case Restart(r, selfId, selfAddr, now) =>
      InitFollows(selfId, selfAddr, now);
      assert c.log[..0] == [];
      ReplaceReplica(c, r, Replica(Init(selfId, selfAddr, now), 0, 0));
    case SeeLeader(r, id) =>
      var rep := c.replicas[r];
      SeeLeaderOk(c.log, rep, id);
      ReplaceReplica(c, r, rep.(state := rep.state.(engine := SetLeader(rep.state.engine, id).0)));
  }

  // Every replica of every run follows the log prefix it has applied.
  lemma {:induction false} ReplicasFollowLog(run: seq<System>, actions: seq<Action>, i: nat)
    requires IsRun(run, actions) && i < |run|
    ensures Inv(run[i])
    decreases i
  {
    if i == 0 {
      forall r | 0 <= r < |run[0].replicas|
        ensures ReplicaOk(run[0].log, run[0].replicas[r])
      {
        var selfId, selfAddr, now :| run[0].replicas[r] == Replica(Init(selfId, selfAddr, now), 0, 0);
        InitFollows(selfId, selfAddr, now);
      }
    } else {
      ReplicasFollowLog(run, actions, i - 1);
      ActKeepsInv(run[i - 1], actions[i - 1]);
    }
  }

  lemma {:induction false} LogOnlyGrows(run: seq<System>, actions: seq<Action>, i: nat, j: nat)
    requires IsRun(run, actions) && i <= j < |run|
    ensures run[i].log <= run[j].log
    decreases j - i
  {
    if i < j {
      LogOnlyGrows(run, actions, i, j - 1);
    }
  }

  // Two replicas at the same position hold the same grants, answer the next entry
  // alike, and agree on every member the log lists, and on every member the log
  // has added or dropped since both were last restored.
  lemma ReplicasAgree(run: seq<System>, actions: seq<Action>, i: nat, p: nat, q: nat, base: nat, now: int, now': int)
    requires IsRun(run, actions) && i < |run| && p < |run[i].replicas| && q < |run[i].replicas|
    requires run[i].replicas[p].applied == run[i].replicas[q].applied
    requires run[i].replicas[p].base <= base && run[i].replicas[q].base <= base
    ensures var c, a, b := run[i], run[i].replicas[p], run[i].replicas[q];
            && a.applied <= |c.log|
            && SameGrants(a.state, b.state)
            && SameMembers(a.state, b.state, c.log[..a.applied], base)
            && (a.applied < |c.log| ==>
                  Apply(a.state, c.log[a.applied], now).1 == Apply(b.state, c.log[a.applied], now').1)
  {
    ReplicasFollowLog(run, actions, i);
    var c, a, b := run[i], run[i].replicas[p], run[i].replicas[q];
    assert ReplicaOk(c.log, a) && ReplicaOk(c.log, b);
    FollowersAgree(a.state, b.state, c.log[..a.applied], a.base, b.base, base);
    if a.applied < |c.log| {
      RepliesFollow(a.state, c.log, a.applied, a.base, now);
      RepliesFollow(b.state, c.log, b.applied, b.base, now');
    }
  }

  lemma EraseKeepsTokens(t: Table, name: string)
    ensures name in t.held <==> name in Erase(t).held
    ensures name in t.held ==> Erase(t).held[name].token == t.held[name].token
  {
  }

  // Token order is grant order on every replica of every run, snapshots and all:
  // its counter is the number of grants in the log prefix it has applied, the next
  // fresh grant is numbered above every token issued so far, and what it holds is
  // issued, distinct and within capacity.
  lemma TokensFollowLog(run: seq<System>, actions: seq<Action>, i: nat, p: nat)
    requires IsRun(run, actions) && i < |run| && p < |run[i].replicas|
    ensures var rep := run[i].replicas[p];
            && rep.applied <= |run[i].log|
            && var issued := Issued(LockEntries(run[i].log[..rep.applied]));
            && rep.state.locks.next == |issued|
            && (forall k :: 0 <= k < |issued| ==> issued[k] == k + 1)
            && (forall n :: n in rep.state.locks.held ==> rep.state.locks.held[n].token in issued)
            && Wf(rep.state.locks)
    ensures var rep := run[i].replicas[p];
            && rep.applied <= |run[i].log|
            && var issued := Issued(LeaseEntries(run[i].log[..rep.applied]));
            && rep.state.leases.next == |issued|
            && (forall k :: 0 <= k < |issued| ==> issued[k] == k + 1)
            && (forall n :: n in rep.state.leases.held ==> rep.state.leases.held[n].token in issued)
            && Wf(rep.state.leases)
  {
    ReplicasFollowLog(run, actions, i);
    var rep := run[i].replicas[p];
    assert ReplicaOk(run[i].log, rep);
    var log := run[i].log[..rep.applied];
    TokenOrderIsGrantOrder(LockEntries(log));
    TokenOrderIsGrantOrder(LeaseEntries(log));
    forall n | n in rep.state.locks.held
      ensures rep.state.locks.held[n].token in Issued(LockEntries(log))
    {
      EraseKeepsTokens(rep.state.locks, n);
    }
    forall n | n in rep.state.leases.held
      ensures rep.state.leases.held[n].token in Issued(LeaseEntries(log))
    {
      EraseKeepsTokens(rep.state.leases, n);
    }
  }
}

/** How a member that has left stays listed: a run of the replicated system. */
module StaleMembers {
  import opened Grants
  import opened Members
  import opened Commands
  import opened Snapshots
  import opened Reference
  import opened Agreement
  import opened Replicas

  // a, c and d are three nodes; the log adds b and drops it.
  datatype Cast = Cast(a: string, b: string, c: string, d: string)

  predicate Distinct(k: Cast) {
    && k.a != k.b && k.a != k.c && k.a != k.d && k.b != k.c && k.b != k.d && k.c != k.d
    && k.a != "" && k.b != "" && k.c != "" && k.d != ""
  }

  function AddOf(id: string): LogEntry {
    Committed(Command(AddMember, id, id, Voter, "", 0, 0, 0))
  }

  function DropOf(id: string): LogEntry {
    Committed(Command(DropMember, id, "", Voter, "", 0, 0, 0))
  }

  function ImageOf(ids: seq<string>): Image {
    Image(seq(|ids|, i requires 0 <= i < |ids| => MemberEntry(ids[i], ids[i], Voter, Alive)), [], 0, [], 0)
  }

  // A state whose list holds exactly these ids, alive, as voters, and no grants.
  ghost predicate Lists(s: State, ids: set<string>) {
    && s.locks == EMPTY && s.leases == EMPTY && EngineWf(s.engine)
    && forall id :: ViewOf(s.engine, id) == if id in ids then Listed(id, Voter, Alive) else Absent
  }

  lemma StartLists(id: string)
    ensures Lists(Init(id, id, 0), {id})
  {
  }

  lemma AddLists(s: State, ids: set<string>, id: string)
    requires Lists(s, ids) && id != ""
    ensures Lists(Apply(s, AddOf(id), 0).0, ids + {id})
  {
    forall x {
      ApplySeenAsView(s, AddOf(id), 0, x);
    }
  }

  lemma DropLists(s: State, ids: set<string>, id: string)
    requires Lists(s, ids)
    ensures Lists(Apply(s, DropOf(id), 0).0, ids - {id})
  {
    forall x {
      ApplySeenAsView(s, DropOf(id), 0, x);
    }
  }

  lemma {:induction false} ImageViews(ids: seq<string>, id: string)
    ensures EntryView(ImageOf(ids).members, id) == if id in ids then Listed(id, Voter, Alive) else Absent
    decreases |ids|
  {
    if ids != [] {
      var k := |ids| - 1;
      ImageViews(ids[..k], id);
      assert ImageOf(ids).members[..k] == ImageOf(ids[..k]).members;
      assert ids == ids[..k] + [ids[k]];
    }
  }

  lemma ImageLists(s: State, ids: seq<string>)
    requires Lists(s, set id | id in ids)
    ensures IsSnapshotOf(ImageOf(ids), s)
  {
    forall id {
      ImageViews(ids, id);
    }
  }

  lemma RestoreLists(s: State, ids: set<string>, from: seq<string>)
    requires Lists(s, ids) && "" !in from && "" !in ids
    ensures Lists(Restore(s, ImageOf(from), 0), ids + set id | id in from)
  {
    var s' := Restore(s, ImageOf(from), 0);
    RestoreKeepsEngineWf(s.engine, ImageOf(from).members, 0);
    forall id
      ensures ViewOf(s'.engine, id) == if id in ids || id in from then Listed(id, Voter, Alive) else Absent
    {
      ImageViews(from, id);
      if id != "" {
        RestoreOverlays(s.engine, ImageOf(from).members, 0, id);
      } else {
        NamelessStaysOut(s.engine, ImageOf(from).members);
      }
    }
  }

  lemma {:induction false} NamelessStaysOut(e: EngineState, entries: seq<MemberEntry>)
    requires "" !in e.members
    ensures "" !in RestoreMembers(e, entries, 0).members
    decreases |entries|
  {
    if entries != [] {
      NamelessStaysOut(e, entries[..|entries| - 1]);
    }
  }

  ghost function End(run: seq<System>): System
    requires run != []
  {
    run[|run| - 1]
  }

  lemma Extend(run: seq<System>, actions: seq<Action>, act: Action) returns (run': seq<System>, actions': seq<Action>)
    requires IsRun(run, actions) && Enabled(End(run), act)
    ensures run' == run + [Act(End(run), act)] && actions' == actions + [act] && IsRun(run', actions')
  {
    run', actions' := run + [Act(End(run), act)], actions + [act];
    forall i | 0 <= i < |actions'|
      ensures Enabled(run'[i], actions'[i]) && run'[i + 1] == Act(run'[i], actions'[i])
    {
      if i < |actions| {
        assert run'[i] == run[i] && run'[i + 1] == run[i + 1] && actions'[i] == actions[i];
      }
    }
  }

  function LogOf(k: Cast): seq<LogEntry> {
    [AddOf(k.b), DropOf(k.b)]
  }

  // The cluster with a up to date, c one entry behind, and d still empty.
  ghost predicate Staged(k: Cast, s: System) {
    && s.log == LogOf(k) && s.store == [] && |s.replicas| == 3
    && s.replicas[0].applied == 2 && s.replicas[1].applied == 1
    && Lists(s.replicas[0].state, {k.a}) && Lists(s.replicas[1].state, {k.b, k.c}) && Lists(s.replicas[2].state, {k.d})
  }

  lemma ApplyStep(run: seq<System>, actions: seq<Action>, r: nat) returns (run': seq<System>, actions': seq<Action>)
    requires IsRun(run, actions) && r < |End(run).replicas| && End(run).replicas[r].applied < |End(run).log|
    ensures IsRun(run', actions')
    ensures var s, rep := End(run), End(run).replicas[r];
            End(run') == s.(replicas := s.replicas[r := rep.(state := Apply(rep.state, s.log[rep.applied], 0).0,
                                                             applied := rep.applied + 1)])
  {
    run', actions' := Extend(run, actions, ApplyNext(r, 0));
  }

  // Both commits, then two applies on the first node and one on the second.
  lemma Advance(run: seq<System>, actions: seq<Action>, a: Replica, c: Replica, d: Replica)
    returns (run': seq<System>, actions': seq<Action>)
    requires IsRun(run, actions) && End(run).replicas == [a, c, d] && |End(run).log| == 2
    requires a.applied == 0 && c.applied == 0
    ensures IsRun(run', actions')
    ensures var log := End(run).log;
            var a' := a.(state := Apply(Apply(a.state, log[0], 0).0, log[1], 0).0, applied := 2);
            var c' := c.(state := Apply(c.state, log[0], 0).0, applied := 1);
            End(run') == End(run).(replicas := [a', c', d])
  {
    run', actions' := ApplyStep(run, actions, 0);
    run', actions' := ApplyStep(run', actions', 0);
    run', actions' := ApplyStep(run', actions', 1);
  }

  lemma StageLog(a: State, c: State, d: State, e1: LogEntry, e2: LogEntry)
    returns (run: seq<System>, actions: seq<Action>)
    requires Initial(System([], [Replica(a, 0, 0), Replica(c, 0, 0), Replica(d, 0, 0)], []))
    ensures IsRun(run, actions)
    ensures End(run) == System([e1, e2], [Replica(a, 0, 0), Replica(c, 0, 0), Replica(d, 0, 0)], [])
  {
    run, actions := [System([], [Replica(a, 0, 0), Replica(c, 0, 0), Replica(d, 0, 0)], [])], [];
    run, actions := Extend(run, actions, Commit(e1));
    run, actions := Extend(run, actions, Commit(e2));
    assert [] + [e1] + [e2] == [e1, e2];
  }

  lemma Stage(k: Cast) returns (run: seq<System>, actions: seq<Action>)
    requires Distinct(k)
    ensures IsRun(run, actions) && Staged(k, End(run))
  {
    var a, c, d := Init(k.a, k.a, 0), Init(k.c, k.c, 0), Init(k.d, k.d, 0);
    run, actions := StageLog(a, c, d, AddOf(k.b), DropOf(k.b));
    run, actions := Advance(run, actions, Replica(a, 0, 0), Replica(c, 0, 0), Replica(d, 0, 0));
    StageEnds(k, End(run));
  }

  lemma StageEnds(k: Cast, s: System)
    requires Distinct(k)
    requires var a, c, d := Init(k.a, k.a, 0), Init(k.c, k.c, 0), Init(k.d, k.d, 0);
             s == System(LogOf(k), [Replica(Apply(Apply(a, AddOf(k.b), 0).0, DropOf(k.b), 0).0, 2, 0),
                                    Replica(Apply(c, AddOf(k.b), 0).0, 1, 0), Replica(d, 0, 0)], [])
    ensures Staged(k, s)
  {
    StageLists(k);
  }

  lemma StageLists(k: Cast)
    requires Distinct(k)
    ensures Lists(Apply(Apply(Init(k.a, k.a, 0), AddOf(k.b), 0).0, DropOf(k.b), 0).0, {k.a})
    ensures Lists(Apply(Init(k.c, k.c, 0), AddOf(k.b), 0).0, {k.b, k.c}) && Lists(Init(k.d, k.d, 0), {k.d})
  {
    StartLists(k.a);
    StartLists(k.c);
    StartLists(k.d);
    AddLists(Init(k.a, k.a, 0), {k.a}, k.b);
    DropLists(Apply(Init(k.a, k.a, 0), AddOf(k.b), 0).0, {k.a} + {k.b}, k.b);
    AddLists(Init(k.c, k.c, 0), {k.c}, k.b);
    assert {k.a} + {k.b} - {k.b} == {k.a} && {k.c} + {k.b} == {k.b, k.c};
  }

  // A snapshot of replica p, stored and installed on replica q.
  lemma Transfer(run: seq<System>, actions: seq<Action>, p: nat, q: nat, from: seq<string>, ids: set<string>)
    returns (run': seq<System>, actions': seq<Action>)
    requires IsRun(run, actions) && p < |End(run).replicas| && q < |End(run).replicas|
    requires Lists(End(run).replicas[p].state, set id | id in from) && Lists(End(run).replicas[q].state, ids)
    requires "" !in from && "" !in ids
    ensures IsRun(run', actions') && run <= run'
    ensures var s, s' := End(run), End(run');
            && s'.log == s.log && |s'.replicas| == |s.replicas|
            && (forall r :: 0 <= r < |s.replicas| && r != q ==> s'.replicas[r] == s.replicas[r])
            && s'.replicas[q].applied == s.replicas[p].applied
            && Lists(s'.replicas[q].state, ids + set id | id in from)
  {
    var s := End(run);
    ImageLists(s.replicas[p].state, from);
    run', actions' := Extend(run, actions, TakeSnapshot(p, ImageOf(from)));
    run', actions' := Extend(run', actions', Install(q, |s.store|, 0));
    RestoreLists(s.replicas[q].state, ids, from);
  }

  // A node that lists b although it stands at the end of a log that has dropped it.
  ghost predicate ListsDropped(s: System, r: nat, id: string) {
    && r < |s.replicas| && s.replicas[r].applied == |s.log|
    && RefMember(s.log, id) == Known(Absent) && id in s.replicas[r].state.engine.members
  }

  lemma LogDrops(k: Cast)
    requires Distinct(k)
    ensures RefMember(LogOf(k), k.b) == Known(Absent)
  {
  }

  // Both failing cases of DroppedIdRestoredIff, as one run of the replicated system: the
  // snapshot of a, which has dropped b, restored on c, which has not got there, leaves b
  // listed on c; and the snapshot c then takes lists b on d, which never heard of it.
  lemma LeftMemberSurvivesRestores(k: Cast) returns (run: seq<System>, actions: seq<Action>, i: nat)
    requires Distinct(k)
    ensures IsRun(run, actions) && i < |run|
    ensures ListsDropped(run[i], 1, k.b) && |run[i].replicas| == 3 && k.b !in run[i].replicas[2].state.engine.members
    ensures ListsDropped(End(run), 1, k.b) && ListsDropped(End(run), 2, k.b)
  {
    run, actions := Stage(k);
    LogDrops(k);
    run, actions := FirstHop(k, run, actions);
    i := |run| - 1;
    run, actions := SecondHop(k, run, actions);
  }

  lemma FirstHop(k: Cast, run: seq<System>, actions: seq<Action>) returns (run': seq<System>, actions': seq<Action>)
    requires Distinct(k) && IsRun(run, actions) && Staged(k, End(run))
    ensures IsRun(run', actions')
    ensures var s := End(run');
            && s.log == LogOf(k) && |s.replicas| == 3 && s.replicas[1].applied == 2
            && Lists(s.replicas[1].state, {k.a, k.b, k.c}) && Lists(s.replicas[2].state, {k.d})
            && k.b in s.replicas[1].state.engine.members && k.b !in s.replicas[2].state.engine.members
  {
    assert (set id | id in [k.a]) == {k.a};
    run', actions' := Transfer(run, actions, 0, 1, [k.a], {k.b, k.c});
    assert {k.b, k.c} + {k.a} == {k.a, k.b, k.c};
    HasListed(End(run').replicas[1].state, {k.a, k.b, k.c}, k.b);
    HasListed(End(run').replicas[2].state, {k.d}, k.b);
  }

  lemma SecondHop(k: Cast, run: seq<System>, actions: seq<Action>) returns (run': seq<System>, actions': seq<Action>)
    requires Distinct(k) && IsRun(run, actions) && |End(run).replicas| == 3
    requires Lists(End(run).replicas[1].state, {k.a, k.b, k.c}) && Lists(End(run).replicas[2].state, {k.d})
    ensures IsRun(run', actions') && run <= run' && End(run').log == End(run).log && |End(run').replicas| == 3
    ensures End(run').replicas[1] == End(run).replicas[1]
    ensures End(run').replicas[2].applied == End(run).replicas[1].applied
    ensures k.b in End(run').replicas[2].state.engine.members
  {
    assert (set id | id in [k.a, k.b, k.c]) == {k.a, k.b, k.c};
    run', actions' := Transfer(run, actions, 1, 2, [k.a, k.b, k.c], {k.d});
    HasListed(End(run').replicas[2].state, {k.d} + {k.a, k.b, k.c}, k.b);
  }

  lemma HasListed(s: State, ids: set<string>, id: string)
    requires Lists(s, ids)
    ensures id in s.engine.members <==> id in ids
  {
    assert ViewOf(s.engine, id).Listed? <==> id in ids;
  }
}
