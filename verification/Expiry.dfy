/**
 Leader-side stamping: how a client request becomes a committed grant or renew
 command, and what every table built from such commands keeps.
 */
module Stamping {
  import opened Ttl
  import opened Grants
  import opened Members
  import opened Commands

  predicate AcquireKind(k: Kind) {
    k == LockAcquire || k == LeaseGrant
  }

  predicate RenewKind(k: Kind) {
    k == LockRenew || k == LeaseRenew
  }

  // TryLock / Grant on the leader, through ApplyLockAcquire / ApplyLeaseGrant.
  function AcquireCommand(k: Kind, name: string, holder: string, ttlMs: int64, defaultTtl: int64, now: int): Command
    requires AcquireKind(k)
  {
    var st := StampAt(TtlFromMs(ttlMs, 0, defaultTtl), now);
    Command(k, holder, "", Voter, name, 0, st.ttlMs, st.deadlineMs)
  }

  // Renew on the leader: ttl_ms = 0 reuses the TTL of the record it reads.
  function RenewCommand(k: Kind, read: Table, name: string, holder: string, token: nat,
                        ttlMs: int64, defaultTtl: int64, now: int): Command
    requires RenewKind(k)
    requires name in read.held ==> -TWO_63 <= read.held[name].ttl < TWO_63
  {
    var stored: int64 := if name in read.held then read.held[name].ttl else 0;
    var st := StampAt(TtlFromMs(ttlMs, ReuseTtl(stored, defaultTtl), defaultTtl), now);
    Command(k, holder, "", Voter, name, token, st.ttlMs, st.deadlineMs)
  }

  // The deadline and TTL of an operation came from a leader whose clock had passed
  // the epoch; expiries and releases carry neither.
  ghost predicate Stamped(op: Op) {
    op.Acquire? || op.Renew? ==>
      exists ttl: int64, now ::
        now >= 0 && op.deadline == DeadlineOf(StampAt(ttl, now).deadlineMs) && op.ttl == TtlOf(StampAt(ttl, now).ttlMs)
  }

  lemma CommandsAreStamped(k: Kind, name: string, holder: string, ttlMs: int64, defaultTtl: int64, now: int,
                           read: Table, k': Kind, token: nat)
    requires AcquireKind(k) && RenewKind(k') && now >= 0
    requires name in read.held ==> -TWO_63 <= read.held[name].ttl < TWO_63
    ensures Stamped(OpOf(AcquireCommand(k, name, holder, ttlMs, defaultTtl, now)))
    ensures Stamped(OpOf(RenewCommand(k', read, name, holder, token, ttlMs, defaultTtl, now)))
  {
    var ttl: int64 := TtlFromMs(ttlMs, 0, defaultTtl);
    var op := OpOf(AcquireCommand(k, name, holder, ttlMs, defaultTtl, now));
    assert op.deadline == DeadlineOf(StampAt(ttl, now).deadlineMs) && op.ttl == TtlOf(StampAt(ttl, now).ttlMs);
    var stored: int64 := if name in read.held then read.held[name].ttl else 0;
    var ttl': int64 := TtlFromMs(ttlMs, ReuseTtl(stored, defaultTtl), defaultTtl);
    var op' := OpOf(RenewCommand(k', read, name, holder, token, ttlMs, defaultTtl, now));
    assert op'.deadline == DeadlineOf(StampAt(ttl', now).deadlineMs) && op'.ttl == TtlOf(StampAt(ttl', now).ttlMs);
  }

  // A grant that will expire, with a TTL a renewal can reuse.
  ghost predicate Mortal(rec: Record) {
    !IsZero(rec.deadline) && StorableTtl(rec.ttl)
  }

  lemma StampedIsMortal(op: Op)
    requires Stamped(op) && (op.Acquire? || op.Renew?)
    ensures !IsZero(op.deadline) && StorableTtl(op.ttl)
  {
    var ttl: int64, now :|
      now >= 0 && op.deadline == DeadlineOf(StampAt(ttl, now).deadlineMs) && op.ttl == TtlOf(StampAt(ttl, now).ttlMs);
    AppliedTtl(ttl, now);
    NoImmortalGrant(ttl, now);
  }

  lemma StepRecord(t: Table, e: Entry, n: string)
    requires n in Step(t, e.op, e.now).0.held
    ensures var rec := Step(t, e.op, e.now).0.held[n];
            || (n in t.held && rec == t.held[n])
            || ((e.op.Acquire? || e.op.Renew?) && rec.deadline == e.op.deadline && rec.ttl == e.op.ttl)
  {
  }

  // Over every log of stamped commands, whatever 64-bit ttl_ms the clients sent,
  // no held grant is immortal and every stored TTL is whole milliseconds in [1ms, 24h].
  lemma {:induction false} NoHeldGrantIsImmortal(es: seq<Entry>)
    requires forall i :: 0 <= i < |es| ==> Stamped(es[i].op)
    ensures forall n :: n in Run(EMPTY, es).held ==> Mortal(Run(EMPTY, es).held[n])
    decreases |es|
  {
    if es != [] {
      var before, e := es[..|es| - 1], es[|es| - 1];
      NoHeldGrantIsImmortal(before);
      var t := Run(EMPTY, before);
      forall n | n in Run(EMPTY, es).held
        ensures Mortal(Run(EMPTY, es).held[n])
      {
        StepRecord(t, e, n);
        if e.op.Acquire? || e.op.Renew? {
          StampedIsMortal(e.op);
        }
      }
    }
  }

  // The table after a chain of ttl_ms=0 renewals by the holder, each reading the
  // table the previous one left, at any clocks.
  function RenewChain(t: Table, k: Kind, name: string, defaultTtl: int64, clocks: seq<int>): (t': Table)
    requires RenewKind(k) && name in t.held && StorableTtl(t.held[name].ttl)
    ensures name in t'.held && t'.held[name].ttl == t.held[name].ttl
    ensures t'.held[name].token == t.held[name].token && t'.held[name].holder == t.held[name].holder
    ensures t'.held.Keys == t.held.Keys && t'.next == t.next
    decreases |clocks|
  {
    if clocks == [] then t
    else
      var rec := t.held[name];
      var c := RenewCommand(k, t, name, rec.holder, rec.token, 0, defaultTtl, clocks[0]);
      assert StorableTtl(TtlOf(c.ttlMs)) && TtlOf(c.ttlMs) == rec.ttl by {
        RenewalsKeepTtl(rec.ttl, defaultTtl, [clocks[0]]);
        assert RenewedTtl(rec.ttl, defaultTtl, [clocks[0]]) == TtlOf(c.ttlMs) by {
          assert [clocks[0]][1..] == [];
        }
      }
      RenewChain(Step(t, OpOf(c), clocks[0]).0, k, name, defaultTtl, clocks[1..])
  }
}

/**
 The expirer: a leader scans its table outside the log and commits an expiry for
 each due grant later, after other commands, leader changes and other scans.
 */
module Expiry {
  import opened Names
  import opened Ttl
  import opened Grants
  import opened Fencing
  import opened Answers
  import opened Listing
  import opened Agreement
  import opened Locks
  import opened Leases

  // The names the operations are for, strictly increasing.
  ghost predicate NamesIncrease(ops: seq<Op>) {
    forall i, j :: 0 <= i < j < |ops| ==> Less(ops[i].name, ops[j].name)
  }

  // Op asks to expire a grant of held, by its name and token, whose deadline is set and
  // has passed.
  predicate AsksForDue(op: Op, held: map<string, Record>, clock: int) {
    && op.Expire? && op.name in held && op.token == held[op.name].token
    && held[op.name].deadline != ZERO_TIME && held[op.name].deadline <= clock
  }

  // One tick of locks.RunExpirer: the expiries a leader asks Raft to commit.
  method TickLocks(tab: LockTable, isLeader: bool, clock: int) returns (ops: seq<Op>)
    requires Named(tab.locks)
    ensures isLeader ==> NamesIncrease(ops) && forall op :: op in ops <==> AsksForDue(op, tab.locks, clock)
    ensures !isLeader ==> ops == []
  {
    ops := [];
    if !isLeader {
      return;
    }
    var due := tab.Due(clock);
    for i := 0 to |due|
      invariant |ops| == i && forall k :: 0 <= k < i ==> ops[k] == Expire(due[k].name, due[k].token)
    {
      ops := ops + [Expire(due[i].name, due[i].token)];
    }
    ExpiriesAreDue(ops, due, tab.locks, clock);
  }

  // One tick of leases.RunExpirer.
  method TickLeases(tab: LeaseTable, isLeader: bool, clock: int) returns (ops: seq<Op>)
    requires Named(tab.leases)
    ensures isLeader ==> NamesIncrease(ops) && forall op :: op in ops <==> AsksForDue(op, tab.leases, clock)
    ensures !isLeader ==> ops == []
  {
    ops := [];
    if !isLeader {
      return;
    }
    var due := tab.Due(clock);
    for i := 0 to |due|
      invariant |ops| == i && forall k :: 0 <= k < i ==> ops[k] == Expire(due[k].name, due[k].token)
    {
      ops := ops + [Expire(due[i].name, due[i].token)];
    }
    ExpiriesAreDue(ops, due, tab.leases, clock);
  }

  lemma ExpiriesAreDue(ops: seq<Op>, due: seq<Record>, held: map<string, Record>, clock: int)
    requires Named(held) && SortedBy(due, NameOf) && Lists(due, DueOf(held, clock))
    requires |ops| == |due| && forall k :: 0 <= k < |due| ==> ops[k] == Expire(due[k].name, due[k].token)
    ensures NamesIncrease(ops) && forall op :: op in ops <==> AsksForDue(op, held, clock)
  {
    forall op | op in ops
      ensures AsksForDue(op, held, clock)
    {
      var k :| 0 <= k < |ops| && ops[k] == op;
      assert due[k] in due;
    }
    forall op | AsksForDue(op, held, clock)
      ensures op in ops
    {
      assert op.name in DueOf(held, clock) && held[op.name] in due;
      var k :| 0 <= k < |due| && due[k] == held[op.name];
      assert ops[k] == op;
    }
  }

  function EntriesFor(ops: seq<Op>, now: int): seq<Entry> {
    seq(|ops|, i requires 0 <= i < |ops| => Entry(ops[i], now))
  }

  function OpNames(ops: seq<Op>): set<string> {
    if ops == [] then {} else OpNames(ops[..|ops| - 1]) + {ops[|ops| - 1].name}
  }

  lemma {:induction false} OpNamesHold(ops: seq<Op>, name: string)
    ensures name in OpNames(ops) <==> exists i :: 0 <= i < |ops| && ops[i].name == name
    decreases |ops|
  {
    if ops != [] {
      var k := |ops| - 1;
      OpNamesHold(ops[..k], name);
      if name in OpNames(ops[..k]) {
        var i :| 0 <= i < k && ops[..k][i].name == name;
        assert ops[i].name == name;
      }
    }
  }

  // An expiry of a grant the table still holds, after some other names are gone.
  lemma ExpireTakesEffect(t: Table, gone: set<string>, op: Op, now: int)
    requires WellNamed(t) && op.Expire? && Holds(t, op.name, op.token) && op.name !in gone
    ensures Step(t.(held := t.held - gone), op, now).0 == t.(held := t.held - (gone + {op.name}))
  {
  }

  lemma LastNameIsNew(ops: seq<Op>)
    requires ops != [] && NamesIncrease(ops)
    ensures ops[|ops| - 1].name !in OpNames(ops[..|ops| - 1])
  {
    var k := |ops| - 1;
    OpNamesHold(ops[..k], ops[k].name);
    if ops[k].name in OpNames(ops[..k]) {
      var i :| 0 <= i < k && ops[..k][i].name == ops[k].name;
      LessTotal(ops[i].name, ops[k].name);
    }
  }

  // Expiries of grants the table holds drop exactly their names.
  lemma {:induction false} ExpiriesDrop(t: Table, ops: seq<Op>, now: int)
    requires WellNamed(t) && NamesIncrease(ops)
    requires forall i :: 0 <= i < |ops| ==> ops[i].Expire? && Holds(t, ops[i].name, ops[i].token)
    ensures Run(t, EntriesFor(ops, now)) == t.(held := t.held - OpNames(ops))
    decreases |ops|
  {
    if ops != [] {
      var k, init := |ops| - 1, ops[..|ops| - 1];
      ExpiriesDrop(t, init, now);
      LastNameIsNew(ops);
      assert EntriesFor(ops, now) == EntriesFor(init, now) + [Entry(ops[k], now)];
      RunSnoc(t, EntriesFor(init, now), Entry(ops[k], now));
      ExpireTakesEffect(t, OpNames(init), ops[k], now);
    }
  }

  // A tick that reaches the log before anything else does its work: the table loses
  // exactly the grants that were due, and none it keeps is due.
  lemma TickClearsDue(t: Table, ops: seq<Op>, clock: int, now: int)
    requires WellNamed(t) && NamesIncrease(ops) && forall op :: op in ops <==> AsksForDue(op, t.held, clock)
    ensures var t' := Run(t, EntriesFor(ops, now));
            && t'.next == t.next
            && (forall n :: n in t'.held ==> n in t.held && t'.held[n] == t.held[n])
            && (forall n :: n in t.held ==>
                  (n in t'.held <==> t.held[n].deadline == ZERO_TIME || t.held[n].deadline > clock))
  {
    forall i | 0 <= i < |ops|
      ensures ops[i].Expire? && Holds(t, ops[i].name, ops[i].token)
    {
      assert ops[i] in ops;
    }
    ExpiriesDrop(t, ops, now);
    forall n | n in t.held
      ensures n in OpNames(ops) <==> t.held[n].deadline != ZERO_TIME && t.held[n].deadline <= clock
    {
      NamedIffDue(t, ops, clock, n);
    }
  }

  lemma NamedIffDue(t: Table, ops: seq<Op>, clock: int, n: string)
    requires n in t.held && forall op :: op in ops <==> AsksForDue(op, t.held, clock)
    ensures n in OpNames(ops) <==> t.held[n].deadline != ZERO_TIME && t.held[n].deadline <= clock
  {
    OpNamesHold(ops, n);
    var op := Expire(n, t.held[n].token);
    if op in ops {
      var i :| 0 <= i < |ops| && ops[i] == op;
    }
    if n in OpNames(ops) {
      var i :| 0 <= i < |ops| && ops[i].name == n;
      assert ops[i] in ops;
    }
  }

  // A scan of a replica's own table finds what a scan of the log's table would:
  // local clocks leave no trace in names, tokens or deadlines.
  lemma ScanSeesTheLog(t: Table, ref: Table, clock: int, n: string)
    requires TableFollows(t, ref)
    ensures n in DueOf(t.held, clock) <==> n in DueOf(ref.held, clock)
    ensures n in DueOf(t.held, clock) ==>
              t.held[n].token == ref.held[n].token && t.held[n].deadline == ref.held[n].deadline
  {
    assert n in t.held <==> n in Erase(t).held;
  }

  // A due grant seen by a scan of the table at log position at, by a leader
  // whose clock read clock.
  datatype Decision = Decision(name: string, token: nat, at: nat, clock: int)

  datatype System = System(log: seq<Entry>, decided: seq<Decision>)

  datatype Action =
    | Client(e: Entry)
    | Scan(at: nat, clock: int, due: seq<Record>)
    | CommitExpiry(k: nat, now: int)

  function TableAt(log: seq<Entry>, k: nat): Table
    requires k <= |log|
  {
    Run(EMPTY, log[..k])
  }

  ghost predicate Enabled(s: System, a: Action) {
    match a
    case Client(e) => !e.op.Expire?
    case Scan(at, clock, due) => at <= |s.log| && Lists(due, DueOf(TableAt(s.log, at).held, clock))
    case CommitExpiry(k, _) => k < |s.decided|
  }

  function DecisionsOf(due: seq<Record>, at: nat, clock: int): seq<Decision> {
    seq(|due|, i requires 0 <= i < |due| => Decision(due[i].name, due[i].token, at, clock))
  }

  // A scan by any node at any applied position covers leader changes and lagging
  // leaders; a decision may be committed late, more than once, or never.
  ghost function Act(s: System, a: Action): System
    requires Enabled(s, a)
  {
    match a
    case Client(e) => s.(log := s.log + [e])
    case Scan(at, clock, due) => s.(decided := s.decided + DecisionsOf(due, at, clock))
    case CommitExpiry(k, now) => s.(log := s.log + [Entry(Expire(s.decided[k].name, s.decided[k].token), now)])
  }

  ghost predicate IsRun(run: seq<System>, actions: seq<Action>) {
    && |run| == |actions| + 1
    && run[0] == System([], [])
    && forall i :: 0 <= i < |actions| ==> Enabled(run[i], actions[i]) && run[i + 1] == Act(run[i], actions[i])
  }

  // The decision was right when it was made.
  ghost predicate WasDue(log: seq<Entry>, d: Decision) {
    && d.at <= |log|
    && Holds(TableAt(log, d.at), d.name, d.token)
    && IsDue(TableAt(log, d.at).held[d.name], d.clock)
  }

  ghost predicate Justified(s: System, i: nat)
    requires i < |s.log|
  {
    s.log[i].op.Expire? ==>
      exists d :: d in s.decided && d.at <= i && d.name == s.log[i].op.name && d.token == s.log[i].op.token
  }

  ghost predicate Inv(s: System) {
    && (forall d :: d in s.decided ==> WasDue(s.log, d))
    && (forall i :: 0 <= i < |s.log| ==> Justified(s, i))
  }

  lemma LogGrowthKeepsInv(s: System, e: Entry)
    requires Inv(s)
    requires e.op.Expire? ==> exists d :: d in s.decided && d.name == e.op.name && d.token == e.op.token
    ensures Inv(s.(log := s.log + [e]))
  {
    var s' := s.(log := s.log + [e]);
    forall d | d in s.decided
      ensures WasDue(s'.log, d)
    {
      assert WasDue(s.log, d);
      assert s'.log[..d.at] == s.log[..d.at];
    }
    forall i | 0 <= i < |s'.log|
      ensures Justified(s', i)
    {
      if i < |s.log| {
        assert Justified(s, i) && s'.log[i] == s.log[i];
      } else if e.op.Expire? {
        var d :| d in s.decided && d.name == e.op.name && d.token == e.op.token;
        assert WasDue(s.log, d);
      }
    }
  }

  lemma ScanKeepsInv(s: System, at: nat, clock: int, due: seq<Record>)
    requires Inv(s) && Enabled(s, Scan(at, clock, due))
    ensures Inv(Act(s, Scan(at, clock, due)))
  {
    var s' := Act(s, Scan(at, clock, due));
    forall d | d in s'.decided
      ensures WasDue(s'.log, d)
    {
      if d !in s.decided {
        var i :| 0 <= i < |due| && d == Decision(due[i].name, due[i].token, at, clock);
        assert due[i] in due;
      }
    }
    forall i | 0 <= i < |s'.log|
      ensures Justified(s', i)
    {
      assert Justified(s, i);
    }
  }

  lemma {:induction false} RunKeepsInv(run: seq<System>, actions: seq<Action>, i: nat)
    requires IsRun(run, actions) && i < |run|
    ensures Inv(run[i])
    decreases i
  {
    if i > 0 {
      RunKeepsInv(run, actions, i - 1);
      var s := run[i - 1];
      match actions[i - 1]
      case Client(e) =>
        LogGrowthKeepsInv(s, e);
      case Scan(at, clock, due) =>
        ScanKeepsInv(s, at, clock, due);
      case CommitExpiry(k, now) =>
        assert s.decided[k] in s.decided;
        LogGrowthKeepsInv(s, Entry(Expire(s.decided[k].name, s.decided[k].token), now));
    }
  }

  // The grant was current at every point from a to i.
  ghost predicate HeldThroughout(log: seq<Entry>, name: string, token: nat, a: nat, i: nat)
    requires i <= |log|
  {
    forall k :: a <= k <= i ==> Holds(TableAt(log, k), name, token)
  }

  // Once gone, a token never comes back, so a grant held at both ends was held throughout.
  lemma {:induction false} HeldAtBothEnds(log: seq<Entry>, name: string, token: nat, a: nat, i: nat)
    requires a <= i <= |log| && Holds(TableAt(log, a), name, token) && Holds(TableAt(log, i), name, token)
    ensures HeldThroughout(log, name, token, a, i)
    ensures TableAt(log, i).held[name].holder == TableAt(log, a).held[name].holder
  {
    var ja := GrantHasOrigin(log, name, a);
    var ji := GrantHasOrigin(log, name, i);
    if ja < ji {
      LaterGrantLargerToken(log, ja, ji);
    } else if ji < ja {
      LaterGrantLargerToken(log, ji, ja);
    }
  }

  // Expiry soundness: in every run of scans, leader changes and commits, a grant
  // dropped by an expire entry is one that some scan saw, at or before that entry,
  // with a deadline that was set and at or before the scanning leader's clock, and
  // it is still that same grant.
  lemma ExpirySoundness(run: seq<System>, actions: seq<Action>, i: nat, p: nat) returns (d: Decision)
    requires IsRun(run, actions) && i < |run|
    requires p < |run[i].log| && run[i].log[p].op.Expire?
    requires TableAt(run[i].log, p + 1) != TableAt(run[i].log, p)
    ensures var log := run[i].log;
            && d in run[i].decided && d.at <= p
            && d.name == log[p].op.name && d.token == log[p].op.token
            && WasDue(log, d)
            && HeldThroughout(log, d.name, d.token, d.at, p)
            && TableAt(log, p).held[d.name].holder == TableAt(log, d.at).held[d.name].holder
            && d.name !in TableAt(log, p + 1).held
  {
    RunKeepsInv(run, actions, i);
    var s := run[i];
    assert Justified(s, p);
    d :| d in s.decided && d.at <= p && d.name == s.log[p].op.name && d.token == s.log[p].op.token;
    RunPrefix(EMPTY, s.log, p);
    assert WasDue(s.log, d);
    HeldAtBothEnds(s.log, d.name, d.token, d.at, p);
  }

  predicate Refreshes(op: Op, rec: Record) {
    || (op.Acquire? && op.name == rec.name && op.holder == rec.holder)
    || (op.Renew? && op.name == rec.name && op.holder == rec.holder && op.token == rec.token)
  }

  // The deadline the log gives a grant over log[a..i]: the last refresh decides.
  function LastDeadline(log: seq<Entry>, rec: Record, a: nat, i: nat): int
    requires a <= i <= |log|
    decreases i - a
  {
    if a == i then rec.deadline
    else if Refreshes(log[i - 1].op, rec) then log[i - 1].op.deadline
    else LastDeadline(log, rec, a, i - 1)
  }

  lemma StepDeadline(t: Table, op: Op, now: int, name: string)
    requires WellNamed(t) && name in t.held && Holds(Step(t, op, now).0, name, t.held[name].token)
    ensures var rec' := Step(t, op, now).0.held[name];
            && rec'.holder == t.held[name].holder && rec'.name == name
            && rec'.deadline == if Refreshes(op, t.held[name]) then op.deadline else t.held[name].deadline
  {
  }

  lemma RefreshesIsStable(op: Op, a: Record, b: Record)
    requires a.name == b.name && a.holder == b.holder && a.token == b.token
    ensures Refreshes(op, a) <==> Refreshes(op, b)
  {
  }

  lemma EntryDeadline(log: seq<Entry>, name: string, token: nat, i: nat, first: Record)
    requires i < |log| && Holds(TableAt(log, i), name, token) && Holds(TableAt(log, i + 1), name, token)
    requires var rec := TableAt(log, i).held[name];
             rec.name == first.name && rec.holder == first.holder && token == first.token
    ensures var rec, rec' := TableAt(log, i).held[name], TableAt(log, i + 1).held[name];
            && rec'.name == rec.name && rec'.holder == rec.holder
            && rec'.deadline == if Refreshes(log[i].op, first) then log[i].op.deadline else rec.deadline
  {
    RunIsWellNamed(log[..i]);
    RunPrefix(EMPTY, log, i);
    StepDeadline(TableAt(log, i), log[i].op, log[i].now, name);
    RefreshesIsStable(log[i].op, first, TableAt(log, i).held[name]);
  }

  lemma {:induction false} DeadlineFollowsLog(log: seq<Entry>, name: string, token: nat, a: nat, i: nat)
    requires a <= i <= |log| && HeldThroughout(log, name, token, a, i)
    ensures var rec := TableAt(log, a).held[name];
            var now := TableAt(log, i).held[name];
            && now.name == rec.name && now.holder == rec.holder
            && now.deadline == LastDeadline(log, rec, a, i)
    decreases i - a
  {
    if a < i {
      DeadlineFollowsLog(log, name, token, a, i - 1);
      assert Holds(TableAt(log, i - 1), name, token) && Holds(TableAt(log, a), name, token);
      EntryDeadline(log, name, token, i - 1, TableAt(log, a).held[name]);
    }
  }

  // Exactly when a dropped grant was still due at the moment it was dropped: the
  // last refresh the log holds between scan and expiry did not move its deadline
  // past the scan clock (and did not clear it).
  lemma DroppedWhileDueIff(log: seq<Entry>, d: Decision, p: nat)
    requires p < |log| && d.at <= p && WasDue(log, d) && HeldThroughout(log, d.name, d.token, d.at, p)
    ensures var last := LastDeadline(log, TableAt(log, d.at).held[d.name], d.at, p);
            IsDue(TableAt(log, p).held[d.name], d.clock) <==> !IsZero(last) && last <= d.clock
  {
    DeadlineFollowsLog(log, d.name, d.token, d.at, p);
  }

  // A renewal that lands between scan and expiry does not save the grant: in any
  // table, a renewed grant is still dropped by an expiry carrying its token.
  lemma RenewDoesNotSave(t: Table, name: string, deadline: int, ttl: int, now: int)
    requires ValidName(name) && name in t.held
    ensures var rec := t.held[name];
            var renewed := Step(t, Renew(name, rec.holder, rec.token, deadline, ttl), now).0;
            && renewed.held[name].deadline == deadline
            && name !in Step(renewed, Expire(name, rec.token), now).0.held
  {
  }

  lemma Extend(run: seq<System>, actions: seq<Action>, a: Action) returns (run': seq<System>, actions': seq<Action>)
    requires IsRun(run, actions) && Enabled(run[|run| - 1], a)
    ensures run' == run + [Act(run[|run| - 1], a)] && actions' == actions + [a] && IsRun(run', actions')
  {
    run', actions' := run + [Act(run[|run| - 1], a)], actions + [a];
    forall i | 0 <= i < |actions'|
      ensures Enabled(run'[i], actions'[i]) && run'[i + 1] == Act(run'[i], actions'[i])
    {
      if i < |actions| {
        assert run'[i] == run[i] && run'[i + 1] == run[i + 1] && actions'[i] == actions[i];
      }
    }
  }

  lemma TableAfter(log: seq<Entry>, e: Entry)
    ensures TableAt(log + [e], |log|) == TableAt(log, |log|)
    ensures TableAt(log + [e], |log| + 1) == Step(TableAt(log, |log|), e.op, e.now).0
  {
    assert (log + [e])[..|log|] == log == log[..|log|];
    assert (log + [e])[..|log| + 1] == log + [e];
    RunSnoc(EMPTY, log, e);
  }

  // As a run, from every run there is: whenever a decision is pending and the grant it
  // names is still held, the holder can renew to any deadline, however late, and the
  // expiry committed after it drops the renewed grant all the same.
  lemma RenewedGrantIsDropped(run: seq<System>, actions: seq<Action>, k: nat, deadline: int, ttl: int)
    returns (run': seq<System>, actions': seq<Action>)
    requires IsRun(run, actions) && k < |run[|run| - 1].decided|
    requires var s := run[|run| - 1]; Holds(TableAt(s.log, |s.log|), s.decided[k].name, s.decided[k].token)
    ensures IsRun(run', actions') && run <= run'
    ensures var s, d := run[|run| - 1], run[|run| - 1].decided[k];
            var log, n := run'[|run'| - 1].log, |s.log|;
            && |log| == n + 2 && log[..n] == s.log
            && log[n].op.Renew? && log[n].op.name == d.name && log[n].op.deadline == deadline
            && log[n + 1].op == Expire(d.name, d.token)
            && Holds(TableAt(log, n + 1), d.name, d.token) && TableAt(log, n + 1).held[d.name].deadline == deadline
            && d.name !in TableAt(log, n + 2).held
  {
    var s := run[|run| - 1];
    var d, t := s.decided[k], TableAt(s.log, |s.log|);
    var renew := Entry(Renew(d.name, t.held[d.name].holder, d.token, deadline, ttl), 0);
    assert s.log[..|s.log|] == s.log;
    RunIsWellNamed(s.log);
    run', actions' := Extend(run, actions, Client(renew));
    TableAfter(s.log, renew);
    var log := s.log + [renew];
    run', actions' := Extend(run', actions', CommitExpiry(k, 0));
    TableAfter(log, Entry(Expire(d.name, d.token), 0));
    RenewDoesNotSave(t, d.name, deadline, ttl, 0);
    assert (log + [Entry(Expire(d.name, d.token), 0)])[..|log|] == log[..|log|];
  }
}
