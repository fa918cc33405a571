/**
 The Raft state machine: the interpreter of committed commands over the member
 list, the lock table and the lease table, and its snapshots.
 */
module Commands {
  import opened Ttl
  import opened Grants
  import opened Members

  datatype Kind =
    | AddMember | RemoveMember | DropMember
    | LockAcquire | LockRelease | LockRenew | LockExpire
    | LeaseGrant | LeaseRenew | LeaseRevoke | LeaseExpire
    | UnknownKind

  datatype Command = Command(
    kind: Kind, id: string, address: string, role: Role,
    name: string, token: nat, ttlMs: int64, deadlineMs: int)

  // A committed Raft log entry: a command, bytes that do not decode to one, or an
  // entry of another type.
  datatype LogEntry = Committed(cmd: Command) | Garbled | Ignored

  predicate IsLock(k: Kind) {
    k == LockAcquire || k == LockRelease || k == LockRenew || k == LockExpire
  }

  predicate IsLease(k: Kind) {
    k == LeaseGrant || k == LeaseRenew || k == LeaseRevoke || k == LeaseExpire
  }

  // The table operation of a lock or lease command.
  function OpOf(c: Command): Op
    requires IsLock(c.kind) || IsLease(c.kind)
  {
    match c.kind
    case LockAcquire => Acquire(c.name, c.id, DeadlineOf(c.deadlineMs), TtlOf(c.ttlMs))
    case LeaseGrant => Acquire(c.name, c.id, DeadlineOf(c.deadlineMs), TtlOf(c.ttlMs))
    case LockRelease => Release(c.name, c.id, c.token)
    case LeaseRevoke => Release(c.name, c.id, c.token)
    case LockRenew => Renew(c.name, c.id, c.token, DeadlineOf(c.deadlineMs), TtlOf(c.ttlMs))
    case LeaseRenew => Renew(c.name, c.id, c.token, DeadlineOf(c.deadlineMs), TtlOf(c.ttlMs))
    case LockExpire => Expire(c.name, c.token)
    case LeaseExpire => Expire(c.name, c.token)
  }

  datatype ApplyReply =
    | NoReply
    | DecodeFailed
    | JoinFailed
    | Result(acquired: bool, token: nat, deadlineMs: int)
    | Refused(fault: Fault)

  function ReplyOf(c: Command, r: Reply): ApplyReply {
    match r
    case Failed(fault) => Refused(fault)
    case Reply(ok, token) =>
      var echoes := c.kind in {LockAcquire, LockRenew, LeaseGrant, LeaseRenew};
      Result(ok, token, if echoes then c.deadlineMs else 0)
  }

  datatype State = State(engine: EngineState, locks: Table, leases: Table)

  function Init(selfId: string, selfAddr: string, now: int): State {
    State(New(selfId, selfAddr, now), EMPTY, EMPTY)
  }

  // FSM.Apply; now is the local clock of the replica.
  function Apply(s: State, e: LogEntry, now: int): (State, ApplyReply) {
    if e.Ignored? then (s, NoReply)
    else if e.Garbled? then (s, DecodeFailed)
    else
      var c := e.cmd;
      if c.kind == AddMember then
        (s.(engine := JoinAs(s.engine, c.id, c.address, NormalizeRole(c.role), now).0),
         if c.id == "" then JoinFailed else NoReply)
      else if c.kind == RemoveMember then (s.(engine := MarkDead(s.engine, c.id).0), NoReply)
      else if c.kind == DropMember then (s.(engine := Leave(s.engine, c.id).0), NoReply)
      else if IsLock(c.kind) then
        var (t, r) := Step(s.locks, OpOf(c), now);
        (s.(locks := t), ReplyOf(c, r))
      else if IsLease(c.kind) then
        var (t, r) := Step(s.leases, OpOf(c), now);
        (s.(leases := t), ReplyOf(c, r))
      else (s, NoReply)
  }
}

/** Snapshot payloads: what FSM.Snapshot writes and FSM.Restore reads. */
module Snapshots {
  import opened Grants
  import opened Listing
  import opened Members
  import opened Commands

  datatype MemberEntry = MemberEntry(id: string, address: string, role: Role, status: Status)

  datatype Image = Image(
    members: seq<MemberEntry>,
    locks: seq<Record>, nextLock: nat,
    leases: seq<Record>, nextLease: nat)

  // The last entry for an id decides.
  function EntryView(entries: seq<MemberEntry>, id: string): View {
    if entries == [] then Absent
    else
      var m := entries[|entries| - 1];
      if m.id == id then Listed(m.address, NormalizeRole(m.role), NormalizeStatus(m.status))
      else EntryView(entries[..|entries| - 1], id)
  }

  function RestoreMembers(e: EngineState, entries: seq<MemberEntry>, now: int): EngineState {
    if entries == [] then e
    else
      var m := entries[|entries| - 1];
      var before := RestoreMembers(e, entries[..|entries| - 1], now);
      RestoreMember(before, m.id, m.address, NormalizeRole(m.role), m.status, now)
  }

  // FSM.Restore: members are overlaid, the two tables replaced.
  function Restore(s: State, image: Image, now: int): State {
    State(RestoreMembers(s.engine, image.members, now),
          Table(RestoreHeld(image.locks), image.nextLock),
          Table(RestoreHeld(image.leases), image.nextLease))
  }

  // image is a snapshot of s, its lists in any order.
  ghost predicate IsSnapshotOf(image: Image, s: State) {
    && (forall id :: EntryView(image.members, id) == ViewOf(s.engine, id))
    && Lists(image.locks, s.locks.held) && image.nextLock == s.locks.next
    && Lists(image.leases, s.leases.held) && image.nextLease == s.leases.next
  }

  // Restoring overlays: ids in the payload take its view, all others keep theirs.
  lemma {:induction false} RestoreOverlays(e: EngineState, entries: seq<MemberEntry>, now: int, id: string)
    requires id != ""
    ensures ViewOf(RestoreMembers(e, entries, now), id)
         == if EntryView(entries, id).Listed? then EntryView(entries, id) else ViewOf(e, id)
    decreases |entries|
  {
    if entries != [] {
      RestoreOverlays(e, entries[..|entries| - 1], now, id);
    }
  }

  lemma {:induction false} RestoreKeepsEngineWf(e: EngineState, entries: seq<MemberEntry>, now: int)
    requires EngineWf(e)
    ensures EngineWf(RestoreMembers(e, entries, now))
    decreases |entries|
  {
    if entries != [] {
      var init, m := entries[..|entries| - 1], entries[|entries| - 1];
      RestoreKeepsEngineWf(e, init, now);
      EngineStepsKeepWf(RestoreMembers(e, init, now), m.id, m.address, NormalizeRole(m.role), m.status, now);
    }
  }

  // For the tables a snapshot is a round trip, into any prior state.
  lemma RestoreUndoesSnapshotOfTables(prior: State, s: State, image: Image, now: int)
    requires IsSnapshotOf(image, s)
    ensures Restore(prior, image, now).locks == s.locks
    ensures Restore(prior, image, now).leases == s.leases
  {
    RestoreUndoesSnapshot(image.locks, s.locks);
    RestoreUndoesSnapshot(image.leases, s.leases);
  }
}

/** consensus.FSM as an object over the three components it writes. */
module Fsm {
  import opened Ttl
  import opened Grants
  import opened Listing
  import opened Locks
  import opened Leases
  import opened Members
  import opened Membership
  import C = Commands
  import opened Snapshots

  class FSM {
    const applier: Engine
    const locks: LockTable
    const leases: LeaseTable

    function Value(): C.State
      reads applier, locks, leases
    {
      C.State(applier.Value(), locks.View(), leases.View())
    }

    constructor (applier: Engine, locks: LockTable, leases: LeaseTable)
      ensures this.applier == applier && this.locks == locks && this.leases == leases
    {
      this.applier, this.locks, this.leases := applier, locks, leases;
    }

    method Apply(e: C.LogEntry, now: int) returns (reply: C.ApplyReply)
      modifies applier, locks, leases
      ensures (Value(), reply) == C.Apply(old(Value()), e, now)
    {
      if e.Ignored? {
        return C.NoReply;
      }
      if e.Garbled? {
        return C.DecodeFailed;
      }
      var c := e.cmd;
      if c.kind == C.AddMember {
        var isNew, ok := applier.JoinAs(c.id, c.address, NormalizeRole(c.role), now);
        return if ok then C.NoReply else C.JoinFailed;
      } else if c.kind == C.RemoveMember {
        applier.MarkDead(c.id);
      } else if c.kind == C.DropMember {
        applier.Leave(c.id);
      } else if C.IsLock(c.kind) {
        reply := ApplyLock(c, now);
        return;
      } else if C.IsLease(c.kind) {
        reply := ApplyLease(c, now);
        return;
      }
      return C.NoReply;
    }

    method ApplyLock(c: C.Command, now: int) returns (reply: C.ApplyReply)
      requires C.IsLock(c.kind)
      modifies locks
      ensures (locks.View(), reply)
           == (Step(old(locks.View()), C.OpOf(c), now).0, C.ReplyOf(c, Step(old(locks.View()), C.OpOf(c), now).1))
    {
      var r;
      match c.kind {
        case LockAcquire => r := locks.Acquire(c.name, c.id, DeadlineOf(c.deadlineMs), TtlOf(c.ttlMs), now);
        case LockRelease => r := locks.Release(c.name, c.id, c.token);
        case LockRenew => r := locks.Renew(c.name, c.id, c.token, DeadlineOf(c.deadlineMs), TtlOf(c.ttlMs));
        case LockExpire => r := locks.Expire(c.name, c.token);
      }
      return C.ReplyOf(c, r);
    }

    method ApplyLease(c: C.Command, now: int) returns (reply: C.ApplyReply)
      requires C.IsLease(c.kind)
      modifies leases
      ensures (leases.View(), reply)
           == (Step(old(leases.View()), C.OpOf(c), now).0, C.ReplyOf(c, Step(old(leases.View()), C.OpOf(c), now).1))
    {
      var r;
      match c.kind {
        case LeaseGrant => r := leases.Grant(c.name, c.id, DeadlineOf(c.deadlineMs), TtlOf(c.ttlMs), now);
        case LeaseRenew => r := leases.Renew(c.name, c.id, c.token, DeadlineOf(c.deadlineMs), TtlOf(c.ttlMs));
        case LeaseRevoke => r := leases.Revoke(c.name, c.id, c.token);
        case LeaseExpire => r := leases.Expire(c.name, c.token);
      }
      return C.ReplyOf(c, r);
    }

    method Snapshot() returns (image: Image)
      requires EngineWf(applier.Value()) && Named(locks.locks) && Named(leases.leases)
      ensures IsSnapshotOf(image, Value())
    {
      var ms := applier.List();
      var entries: seq<MemberEntry> := [];
      for i := 0 to |ms|
        invariant |entries| == i
        invariant forall k :: 0 <= k < i ==> entries[k] == EntryOf(ms[k])
      {
        entries := entries + [EntryOf(ms[i])];
      }
      forall id
        ensures EntryView(entries, id) == ViewOf(applier.Value(), id)
      {
        ListingIsFaithful(ms, entries, applier.Value(), id);
      }
      var ls, nl := locks.SnapshotCopy();
      var rs, nr := leases.SnapshotCopy();
      image := Image(entries, ls, nl, rs, nr);
    }

    method Restore(image: Image, now: int)
      modifies applier, locks, leases
      ensures Value() == Snapshots.Restore(old(Value()), image, now)
    {
      for i := 0 to |image.members|
        invariant applier.Value() == RestoreMembers(old(applier.Value()), image.members[..i], now)
        invariant locks.View() == old(locks.View()) && leases.View() == old(leases.View())
      {
        var m := image.members[i];
        assert image.members[..i + 1][..i] == image.members[..i];
        var ok := applier.RestoreMember(m.id, m.address, NormalizeRole(m.role), m.status, now);
      }
      assert image.members[..|image.members|] == image.members;
      locks.Restore(image.locks, image.nextLock);
      leases.Restore(image.leases, image.nextLease);
    }
  }

  function EntryOf(m: Member): MemberEntry {
    MemberEntry(m.id, m.address, NormalizeRole(m.role), NormalizeStatus(m.status))
  }

  lemma {:induction false} EntriesByIndex(ms: seq<Member>, entries: seq<MemberEntry>, id: string)
    requires |entries| == |ms| && forall k :: 0 <= k < |ms| ==> entries[k] == EntryOf(ms[k])
    ensures EntryView(entries, id).Absent? ==> forall m :: m in ms ==> m.id != id
    ensures EntryView(entries, id).Listed? ==>
              exists m :: m in ms && m.id == id
                       && EntryView(entries, id) == Listed(m.address, NormalizeRole(m.role), NormalizeStatus(m.status))
  {
    if ms != [] {
      var last := ms[|ms| - 1];
      if last.id == id {
        assert last in ms;
      } else {
        EntriesByIndex(ms[..|ms| - 1], entries[..|ms| - 1], id);
        assert ms == ms[..|ms| - 1] + [last];
      }
    }
  }

  lemma ListingIsFaithful(ms: seq<Member>, entries: seq<MemberEntry>, e: EngineState, id: string)
    requires EngineWf(e) && ListsMembers(ms, e.members)
    requires |entries| == |ms| && forall k :: 0 <= k < |ms| ==> entries[k] == EntryOf(ms[k])
    ensures EntryView(entries, id) == ViewOf(e, id)
  {
    EntriesByIndex(ms, entries, id);
  }
}
