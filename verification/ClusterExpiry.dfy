/**
 Expiry on the replicated system: leaders scan the tables they hold, built from the
 log, snapshots and restarts, and commit what they found due at some later position.
 */
module ClusterExpiry {
  import opened Grants
  import opened Listing
  import opened Members
  import opened Commands
  import opened Reference
  import opened Agreement
  import opened Stamping
  import R = Replicas
  import X = Expiry

  datatype Which = Locks | Leases

  predicate Writes(w: Which, e: LogEntry) {
    e.Committed? && if w == Locks then IsLock(e.cmd.kind) else IsLease(e.cmd.kind)
  }

  function Entries(w: Which, log: seq<LogEntry>): seq<Entry> {
    if w == Locks then LockEntries(log) else LeaseEntries(log)
  }

  function Ref(w: Which, log: seq<LogEntry>): Table {
    Run(EMPTY, Entries(w, log))
  }

  function TableOf(w: Which, s: State): Table {
    if w == Locks then s.locks else s.leases
  }

  predicate IsExpiry(w: Which, e: LogEntry) {
    e.Committed? && e.cmd.kind == if w == Locks then LockExpire else LeaseExpire
  }

  // A due grant of replica r's table, seen at the log position it had applied.
  datatype Decision = Decision(which: Which, name: string, token: nat, at: nat, clock: int)

  function ExpiryOf(d: Decision): LogEntry {
    Committed(Command(if d.which == Locks then LockExpire else LeaseExpire, "", "", Voter, d.name, d.token, 0, 0))
  }

  datatype System = System(c: R.System, decided: seq<Decision>)

  datatype Action =
    | Cluster(a: R.Action)
    | Scan(r: nat, which: Which, clock: int, due: seq<Record>)
    | CommitExpiry(k: nat)

  ghost predicate Enabled(s: System, a: Action) {
    match a
    case Cluster(act) => R.Enabled(s.c, act) && (act.Commit? ==> !IsExpiry(Locks, act.e) && !IsExpiry(Leases, act.e))
    case Scan(r, which, clock, due) =>
      r < |s.c.replicas| && Lists(due, DueOf(TableOf(which, s.c.replicas[r].state).held, clock))
    case CommitExpiry(k) => k < |s.decided|
  }

  function DecisionsOf(which: Which, due: seq<Record>, at: nat, clock: int): seq<Decision> {
    seq(|due|, i requires 0 <= i < |due| => Decision(which, due[i].name, due[i].token, at, clock))
  }

  ghost function Act(s: System, a: Action): System
    requires Enabled(s, a)
  {
    match a
    case Cluster(act) => s.(c := R.Act(s.c, act))
    case Scan(r, which, clock, due) =>
      s.(decided := s.decided + DecisionsOf(which, due, s.c.replicas[r].applied, clock))
    case CommitExpiry(k) => s.(c := R.Act(s.c, R.Commit(ExpiryOf(s.decided[k]))))
  }

  ghost predicate IsRun(run: seq<System>, actions: seq<Action>) {
    && |run| == |actions| + 1
    && R.Initial(run[0].c) && run[0].decided == []
    && forall i :: 0 <= i < |actions| ==> Enabled(run[i], actions[i]) && run[i + 1] == Act(run[i], actions[i])
  }

  // The decision was right when it was made, by the log's own table.
  ghost predicate WasDue(log: seq<LogEntry>, d: Decision) {
    && d.at <= |log|
    && Holds(Ref(d.which, log[..d.at]), d.name, d.token)
    && IsDue(Ref(d.which, log[..d.at]).held[d.name], d.clock)
  }

  ghost predicate Explains(d: Decision, w: Which, log: seq<LogEntry>, p: nat)
    requires p < |log| && IsExpiry(w, log[p])
  {
    d.which == w && d.at <= p && d.name == log[p].cmd.name && d.token == log[p].cmd.token
  }

  ghost predicate Justified(s: System, w: Which, p: nat)
    requires p < |s.c.log|
  {
    IsExpiry(w, s.c.log[p]) ==> exists d :: d in s.decided && Explains(d, w, s.c.log, p)
  }

  ghost predicate Inv(s: System) {
    && R.Inv(s.c)
    && (forall d :: d in s.decided ==> WasDue(s.c.log, d))
    && (forall w, p :: 0 <= p < |s.c.log| ==> Justified(s, w, p))
  }

  lemma LogGrows(s: System, e: LogEntry)
    requires Inv(s)
    requires forall w :: IsExpiry(w, e) ==>
               exists d :: d in s.decided && d.which == w && d.name == e.cmd.name && d.token == e.cmd.token
    ensures Inv(s.(c := R.Act(s.c, R.Commit(e))))
  {
    var s' := s.(c := R.Act(s.c, R.Commit(e)));
    R.ActKeepsInv(s.c, R.Commit(e));
    forall d | d in s.decided
      ensures WasDue(s'.c.log, d)
    {
      assert WasDue(s.c.log, d);
      assert s'.c.log[..d.at] == s.c.log[..d.at];
    }
    forall w, p | 0 <= p < |s'.c.log|
      ensures Justified(s', w, p)
    {
      if p < |s.c.log| {
        assert Justified(s, w, p) && s'.c.log[p] == s.c.log[p];
        if IsExpiry(w, s.c.log[p]) {
          var d :| d in s.decided && Explains(d, w, s.c.log, p);
          assert Explains(d, w, s'.c.log, p);
        }
      } else if IsExpiry(w, e) {
        var d :| d in s.decided && d.which == w && d.name == e.cmd.name && d.token == e.cmd.token;
        assert WasDue(s.c.log, d) && Explains(d, w, s'.c.log, p);
      }
    }
  }

  // What a replica finds due in its own table, the log's table has due too.
  lemma ScannedIsDue(s: System, r: nat, which: Which, clock: int, due: seq<Record>, rec: Record)
    requires Inv(s) && Enabled(s, Scan(r, which, clock, due)) && rec in due
    ensures WasDue(s.c.log, Decision(which, rec.name, rec.token, s.c.replicas[r].applied, clock))
  {
    var rep := s.c.replicas[r];
    assert R.ReplicaOk(s.c.log, rep);
    var t, ref := TableOf(which, rep.state), Ref(which, s.c.log[..rep.applied]);
    assert TableFollows(t, ref);
    X.ScanSeesTheLog(t, ref, clock, rec.name);
  }

  lemma ScanKeepsInv(s: System, r: nat, which: Which, clock: int, due: seq<Record>)
    requires Inv(s) && Enabled(s, Scan(r, which, clock, due))
    ensures Inv(Act(s, Scan(r, which, clock, due)))
  {
    var s' := Act(s, Scan(r, which, clock, due));
    forall d | d in s'.decided
      ensures WasDue(s'.c.log, d)
    {
      if d !in s.decided {
        var i :| 0 <= i < |due| && d == Decision(which, due[i].name, due[i].token, s.c.replicas[r].applied, clock);
        ScannedIsDue(s, r, which, clock, due, due[i]);
      }
    }
    forall w, p | 0 <= p < |s'.c.log|
      ensures Justified(s', w, p)
    {
      assert Justified(s, w, p);
    }
  }

  lemma QuietKeepsInv(s: System, a: R.Action)
    requires Inv(s) && R.Enabled(s.c, a) && !a.Commit?
    ensures Inv(s.(c := R.Act(s.c, a)))
  {
    var s' := s.(c := R.Act(s.c, a));
    R.ActKeepsInv(s.c, a);
    assert s'.c.log == s.c.log;
    forall w, p | 0 <= p < |s'.c.log|
      ensures Justified(s', w, p)
    {
      assert Justified(s, w, p);
    }
  }

  lemma InitialInv(s: System)
    requires R.Initial(s.c) && s.decided == []
    ensures Inv(s)
  {
    R.ReplicasFollowLog([s.c], [], 0);
  }

  lemma {:induction false} RunKeepsInv(run: seq<System>, actions: seq<Action>, i: nat)
    requires IsRun(run, actions) && i < |run|
    ensures Inv(run[i])
    decreases i
  {
    if i == 0 {
      InitialInv(run[0]);
    } else {
      RunKeepsInv(run, actions, i - 1);
      var s := run[i - 1];
      match actions[i - 1]
      case Cluster(a) =>
        if a.Commit? {
          LogGrows(s, a.e);
        } else {
          QuietKeepsInv(s, a);
        }
      case Scan(r, which, clock, due) =>
        ScanKeepsInv(s, r, which, clock, due);
      case CommitExpiry(k) =>
        assert s.decided[k] in s.decided;
        LogGrows(s, ExpiryOf(s.decided[k]));
    }
  }

  // A prefix of the log gives a prefix of either table's entries.
  lemma {:induction false} EntriesPrefix(w: Which, log: seq<LogEntry>, k: nat)
    requires k <= |log|
    ensures Entries(w, log[..k]) <= Entries(w, log)
    decreases |log|
  {
    if k == |log| {
      assert log[..k] == log;
    } else {
      EntriesPrefix(w, log[..|log| - 1], k);
      assert log[..|log| - 1][..k] == log[..k];
    }
  }

  // So the log's table at k is the entry log's table at some point, later for later k.
  lemma RefIsTableAt(w: Which, log: seq<LogEntry>, j: nat, k: nat)
    requires j <= k <= |log|
    ensures |Entries(w, log[..j])| <= |Entries(w, log[..k])| <= |Entries(w, log)|
    ensures Ref(w, log[..k]) == X.TableAt(Entries(w, log), |Entries(w, log[..k])|)
  {
    EntriesPrefix(w, log, k);
    EntriesPrefix(w, log[..k], j);
    assert log[..k][..j] == log[..j];
    var es, n := Entries(w, log), |Entries(w, log[..k])|;
    assert es[..n] == Entries(w, log[..k]);
  }

  lemma HeldBetween(w: Which, log: seq<LogEntry>, name: string, token: nat, a: nat, k: nat, p: nat)
    requires a <= k <= p <= |log|
    requires Holds(Ref(w, log[..a]), name, token) && Holds(Ref(w, log[..p]), name, token)
    ensures Holds(Ref(w, log[..k]), name, token)
    ensures Ref(w, log[..p]).held[name].holder == Ref(w, log[..a]).held[name].holder
  {
    RefIsTableAt(w, log, a, a);
    RefIsTableAt(w, log, a, k);
    RefIsTableAt(w, log, k, p);
    X.HeldAtBothEnds(Entries(w, log), name, token, |Entries(w, log[..a])|, |Entries(w, log[..p])|);
  }

  lemma ExpireDrops(t: Table, op: Op, t': Table)
    requires op.Expire? && t' == Step(t, op, 0).0 && t' != t
    ensures Holds(t, op.name, op.token) && op.name !in t'.held
  {
  }

  lemma RefSnoc(w: Which, log: seq<LogEntry>, e: LogEntry, op: Op, t: Table, t': Table)
    requires Writes(w, e) && op == OpOf(e.cmd) && t == Ref(w, log) && t' == Ref(w, log + [e])
    ensures t' == Step(t, op, 0).0
  {
    if w == Locks {
      RefLocksSnoc(log, e);
    } else {
      RefLeasesSnoc(log, e);
    }
  }

  lemma ExpiryStep(w: Which, log: seq<LogEntry>, p: nat)
    requires p < |log| && IsExpiry(w, log[p]) && Ref(w, log[..p + 1]) != Ref(w, log[..p])
    ensures Holds(Ref(w, log[..p]), log[p].cmd.name, log[p].cmd.token)
    ensures log[p].cmd.name !in Ref(w, log[..p + 1]).held
  {
    assert log[..p + 1] == log[..p] + [log[p]];
    var op, t, t' := OpOf(log[p].cmd), Ref(w, log[..p]), Ref(w, log[..p + 1]);
    assert op == Expire(log[p].cmd.name, log[p].cmd.token);
    RefSnoc(w, log[..p], log[p], op, t, t');
    ExpireDrops(t, op, t');
  }

  // Expiry soundness on the replicated system, for locks and leases: a grant that an
  // expiry at position p drops was found due by an earlier scan of some replica's own
  // table, however that replica came by it, with its deadline set and at or before that
  // replica's clock; and it has been that grant, for one holder, at every position since.
  lemma ReplicaExpirySoundness(run: seq<System>, actions: seq<Action>, i: nat, w: Which, p: nat) returns (d: Decision)
    requires IsRun(run, actions) && i < |run| && p < |run[i].c.log| && IsExpiry(w, run[i].c.log[p])
    requires Ref(w, run[i].c.log[..p + 1]) != Ref(w, run[i].c.log[..p])
    ensures var log := run[i].c.log;
            && d in run[i].decided && Explains(d, w, log, p) && WasDue(log, d)
            && (forall k :: d.at <= k <= p ==> Holds(Ref(w, log[..k]), d.name, d.token))
            && Ref(w, log[..p]).held[d.name].holder == Ref(w, log[..d.at]).held[d.name].holder
            && d.name !in Ref(w, log[..p + 1]).held
  {
    RunKeepsInv(run, actions, i);
    var log := run[i].c.log;
    assert Justified(run[i], w, p);
    d :| d in run[i].decided && Explains(d, w, log, p);
    assert WasDue(log, d);
    ExpiryStep(w, log, p);
    HeldBetween(w, log, d.name, d.token, d.at, d.at, p);
    forall k | d.at <= k <= p
      ensures Holds(Ref(w, log[..k]), d.name, d.token)
    {
      HeldBetween(w, log, d.name, d.token, d.at, k, p);
    }
  }

  ghost predicate AllStamped(log: seq<LogEntry>) {
    forall j :: 0 <= j < |log| && log[j].Committed? && (IsLock(log[j].cmd.kind) || IsLease(log[j].cmd.kind)) ==>
      Stamped(OpOf(log[j].cmd))
  }

  lemma {:induction false} EntriesAreStamped(w: Which, log: seq<LogEntry>)
    requires AllStamped(log)
    ensures forall j :: 0 <= j < |Entries(w, log)| ==> Stamped(Entries(w, log)[j].op)
    decreases |log|
  {
    if log != [] {
      var before, e := log[..|log| - 1], log[|log| - 1];
      EntriesAreStamped(w, before);
      if Writes(w, e) {
        assert Stamped(OpOf(e.cmd));
        assert Entries(w, log) == Entries(w, before) + [Entry(OpOf(e.cmd), 0)];
      } else {
        assert Entries(w, log) == Entries(w, before);
      }
    }
  }

  // No replica of any run, whatever it was restored from, holds an immortal grant while
  // leaders stamp what they commit.
  lemma ReplicaGrantsAreMortal(run: seq<R.System>, actions: seq<R.Action>, i: nat, r: nat, w: Which, name: string)
    requires R.IsRun(run, actions) && i < |run| && r < |run[i].replicas| && AllStamped(run[i].log)
    requires name in TableOf(w, run[i].replicas[r].state).held
    ensures Mortal(TableOf(w, run[i].replicas[r].state).held[name])
  {
    R.ReplicasFollowLog(run, actions, i);
    var rep := run[i].replicas[r];
    assert R.ReplicaOk(run[i].log, rep);
    var log := run[i].log[..rep.applied];
    EntriesAreStamped(w, log);
    NoHeldGrantIsImmortal(Entries(w, log));
    var t := TableOf(w, rep.state);
    assert TableFollows(t, Ref(w, log));
    assert name in Erase(t).held && Erase(t).held[name] == t.held[name].(grantedAt := 0);
  }
}
