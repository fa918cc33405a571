/**
 What callers are told: each answer of a grant table against the grant it speaks of,
 and what two callers who were both told yes may conclude.
 */
module Answers {
  import opened Names
  import opened Grants
  import opened Fencing

  ghost predicate WellNamed(t: Table) {
    forall n :: n in t.held ==> ValidName(n) && t.held[n].name == n && t.held[n].holder != ""
  }

  lemma StepKeepsWellNamed(t: Table, op: Op, now: int)
    requires WellNamed(t)
    ensures WellNamed(Step(t, op, now).0)
  {
  }

  lemma {:induction false} RunIsWellNamed(es: seq<Entry>)
    ensures WellNamed(Run(EMPTY, es))
    decreases |es|
  {
    if es != [] {
      RunIsWellNamed(es[..|es| - 1]);
      StepKeepsWellNamed(Run(EMPTY, es[..|es| - 1]), es[|es| - 1].op, es[|es| - 1].now);
    }
  }

  predicate HeldBy(t: Table, name: string, holder: string, token: nat) {
    name in t.held && t.held[name].holder == holder && t.held[name].token == token
  }

  predicate HeldByOther(t: Table, name: string, holder: string, token: nat) {
    name in t.held && t.held[name].holder != holder && t.held[name].token == token
  }

  // Everything under other names is as it was.
  predicate OnlyUnder(t: Table, name: string, t': Table) {
    t'.held - {name} == t.held - {name}
  }

  // An acquire is answered yes if and only if the asker is then the holder, under the
  // token in the answer; no if and only if another holder has the name under the token
  // in the answer, and keeps it; and refused, changing nothing, exactly for a bad name,
  // a nameless asker or a full table.
  lemma AcquireAnswers(t: Table, op: Op, now: int, token: nat)
    requires WellNamed(t) && op.Acquire?
    ensures var (t', r) := Step(t, op, now);
            && (r == Reply(true, token) <==> HeldBy(t', op.name, op.holder, token))
            && (r == Reply(false, token) <==> op.holder != "" && HeldByOther(t, op.name, op.holder, token))
            && (r.Reply? && r.ok ==>
                  && OnlyUnder(t, op.name, t')
                  && t'.held[op.name].deadline == op.deadline && t'.held[op.name].ttl == op.ttl)
            && (!(r.Reply? && r.ok) ==> t' == t)
            && (r == Failed(BadName) <==> !ValidName(op.name))
            && (r == Failed(NoHolder) <==> ValidName(op.name) && op.holder == "")
            && (r == Failed(TooMany) <==>
                  ValidName(op.name) && op.holder != "" && op.name !in t.held && |t.held| >= MAX_HELD)
            && r != Failed(NotHeld) && r != Failed(Fenced)
  {
  }

  // Which refusal a release or renewal gets.
  predicate RefusedFor(t: Table, op: Op, fault: Fault)
    requires op.Release? || op.Renew?
  {
    match fault
    case BadName => !ValidName(op.name)
    case NotHeld => ValidName(op.name) && op.name !in t.held
    case Fenced => op.name in t.held && !HeldBy(t, op.name, op.holder, op.token)
    case NoHolder => false
    case TooMany => false
  }

  // A release goes through if and only if the caller holds the name under its token, and
  // then the name is free; otherwise nothing changes.
  lemma ReleaseAnswers(t: Table, op: Op, now: int, fault: Fault)
    requires WellNamed(t) && op.Release?
    ensures var (t', r) := Step(t, op, now);
            && (r.Reply? <==> HeldBy(t, op.name, op.holder, op.token))
            && (r.Reply? ==>
                  r == Reply(false, op.token) && op.name !in t'.held && OnlyUnder(t, op.name, t') && t'.next == t.next)
            && (r == Failed(fault) <==> RefusedFor(t, op, fault))
            && (r.Failed? ==> t' == t)
  {
  }

  // A renewal goes through if and only if the caller holds the name under its token, and
  // then it still does, to the new deadline; otherwise nothing changes.
  lemma RenewAnswers(t: Table, op: Op, now: int, fault: Fault)
    requires WellNamed(t) && op.Renew?
    ensures var (t', r) := Step(t, op, now);
            && (r.Reply? <==> HeldBy(t, op.name, op.holder, op.token))
            && (r.Reply? ==>
                  && r == Reply(true, op.token) && HeldBy(t', op.name, op.holder, op.token)
                  && t'.held[op.name].deadline == op.deadline && t'.held[op.name].ttl == op.ttl
                  && t'.held[op.name].grantedAt == t.held[op.name].grantedAt
                  && OnlyUnder(t, op.name, t') && t'.next == t.next)
            && (r == Failed(fault) <==> RefusedFor(t, op, fault))
            && (r.Failed? ==> t' == t)
  {
  }

  // An expiry is answered yes if and only if it drops the grant of its token.
  lemma ExpireAnswers(t: Table, op: Op, now: int)
    requires WellNamed(t) && op.Expire?
    ensures var (t', r) := Step(t, op, now);
            && r == Reply(Holds(t, op.name, op.token), op.token)
            && (r.ok ==> op.name !in t'.held && OnlyUnder(t, op.name, t') && t'.next == t.next)
            && (!r.ok ==> t' == t)
  {
  }

  // The answer to entry i of a log.
  function AnswerAt(es: seq<Entry>, i: nat): Reply
    requires i < |es|
  {
    Step(Run(EMPTY, es[..i]), es[i].op, es[i].now).1
  }

  // Over every log: an acquire was answered yes if and only if its holder holds the name
  // right after it, and no if and only if another held it right before and after.
  lemma AcquireAnswerIff(es: seq<Entry>, i: nat, token: nat)
    requires i < |es| && es[i].op.Acquire?
    ensures var op, t, t' := es[i].op, Run(EMPTY, es[..i]), Run(EMPTY, es[..i + 1]);
            && (AnswerAt(es, i) == Reply(true, token) <==> HeldBy(t', op.name, op.holder, token))
            && (AnswerAt(es, i) == Reply(false, token) <==>
                  op.holder != "" && HeldByOther(t, op.name, op.holder, token))
            && (AnswerAt(es, i) == Reply(false, token) ==> t' == t)
  {
    RunPrefix(EMPTY, es, i);
    RunIsWellNamed(es[..i]);
    AcquireAnswers(Run(EMPTY, es[..i]), es[i].op, es[i].now, token);
  }

  lemma {:induction false} LastTrue(held: seq<bool>, i: nat, j: nat) returns (k: nat)
    requires i < j < |held| && held[i] && !held[j]
    ensures i <= k < j && held[k] && !held[k + 1]
    decreases j
  {
    k := j - 1;
    if !held[k] {
      k := LastTrue(held, i, k);
    }
  }

  // The last point before j at which the grant is still held.
  lemma LastHeld(es: seq<Entry>, name: string, token: nat, i: nat, j: nat) returns (k: nat)
    requires i < j <= |es|
    requires Holds(Run(EMPTY, es[..i]), name, token) && !Holds(Run(EMPTY, es[..j]), name, token)
    ensures i <= k < j && Holds(Run(EMPTY, es[..k]), name, token) && !Holds(Run(EMPTY, es[..k + 1]), name, token)
  {
    var held := seq(j + 1, k requires 0 <= k <= j => Holds(Run(EMPTY, es[..k]), name, token));
    k := LastTrue(held, i, j);
  }

  lemma GrantEndsByDrop(t: Table, op: Op, now: int, name: string, token: nat)
    requires WellNamed(t) && Holds(t, name, token) && !Holds(Step(t, op, now).0, name, token)
    ensures DropsGrant(op, name, token) && name !in Step(t, op, now).0.held
  {
  }

  // Mutual exclusion, of what callers were told: if two holders were both told they have
  // a name, the first one's grant was dropped in between, by a release or an expiry
  // carrying its token.
  lemma MutualExclusion(es: seq<Entry>, i: nat, j: nat, a: nat, b: nat) returns (k: nat)
    requires i < j < |es| && es[i].op.Acquire? && es[j].op.Acquire? && es[i].op.name == es[j].op.name
    requires AnswerAt(es, i) == Reply(true, a) && AnswerAt(es, j) == Reply(true, b)
    requires es[i].op.holder != es[j].op.holder
    ensures i < k < j && DropsGrant(es[k].op, es[i].op.name, a)
    ensures Holds(Run(EMPTY, es[..k]), es[i].op.name, a) && es[i].op.name !in Run(EMPTY, es[..k + 1]).held
  {
    var name := es[i].op.name;
    AcquireAnswerIff(es, i, a);
    AcquireAnswerIff(es, j, b);
    if Holds(Run(EMPTY, es[..j]), name, a) {
      var origin := GrantHasOrigin(es, name, i + 1);
      var origin' := GrantHasOrigin(es, name, j);
      OneGrantPerToken(es, origin, origin');
      AcquireAnswerIff(es, j, a);
    }
    k := LastHeld(es, name, a, i + 1, j);
    RunPrefix(EMPTY, es, k);
    RunIsWellNamed(es[..k]);
    GrantEndsByDrop(Run(EMPTY, es[..k]), es[k].op, es[k].now, name, a);
  }
}

/**
 The same on the replicated system: what any replica answers a committed command, told
 in the command's own fields, and what follows for two clients.
 */
module ClusterAnswers {
  import opened Ttl
  import opened Grants
  import opened Answers
  import opened Commands
  import opened Agreement
  import opened Stamping
  import opened ClusterExpiry
  import R = Replicas

  predicate ReleaseKind(k: Kind) {
    k == LockRelease || k == LeaseRevoke
  }

  predicate ExpireKind(k: Kind) {
    k == LockExpire || k == LeaseExpire
  }

  // The commands of either table.
  function KindsOf(w: Which): set<Kind> {
    if w == Locks then {LockAcquire, LockRelease, LockRenew, LockExpire}
    else {LeaseGrant, LeaseRevoke, LeaseRenew, LeaseExpire}
  }

  lemma KindsAreWritten(w: Which, e: LogEntry)
    ensures Writes(w, e) <==> e.Committed? && e.cmd.kind in KindsOf(w)
  {
  }

  // Some replica of a run, about to apply the command c to table w.
  ghost predicate Next(c: R.System, r: nat, w: Which, cmd: Command) {
    && r < |c.replicas| && c.replicas[r].applied < |c.log|
    && c.log[c.replicas[r].applied] == Committed(cmd) && cmd.kind in KindsOf(w)
  }

  // The log's table before and after the command replica r applies next.
  ghost function Before(c: R.System, r: nat, w: Which): Table
    requires r < |c.replicas| && c.replicas[r].applied <= |c.log|
  {
    Ref(w, c.log[..c.replicas[r].applied])
  }

  ghost function After(c: R.System, r: nat, w: Which): Table
    requires r < |c.replicas| && c.replicas[r].applied < |c.log|
  {
    Ref(w, c.log[..c.replicas[r].applied + 1])
  }

  function ReplyBy(c: R.System, r: nat, now: int): ApplyReply
    requires r < |c.replicas| && c.replicas[r].applied < |c.log|
  {
    Apply(c.replicas[r].state, c.log[c.replicas[r].applied], now).1
  }

  lemma RefIsWellNamed(w: Which, log: seq<LogEntry>)
    ensures WellNamed(Ref(w, log))
  {
    RunIsWellNamed(Entries(w, log));
  }

  lemma ApplyAnswers(s: State, w: Which, cmd: Command, now: int)
    requires Writes(w, Committed(cmd))
    ensures Apply(s, Committed(cmd), now).1 == ReplyOf(cmd, Step(TableOf(w, s), OpOf(cmd), now).1)
  {
  }

  lemma RefStep(w: Which, log: seq<LogEntry>, k: nat, op: Op, t: Table, t': Table)
    requires k < |log| && Writes(w, log[k]) && op == OpOf(log[k].cmd)
    requires t == Ref(w, log[..k]) && t' == Ref(w, log[..k + 1])
    ensures t' == Step(t, op, 0).0
  {
    assert log[..k + 1] == log[..k] + [log[k]];
    RefSnoc(w, log[..k], log[k], op, t, t');
  }

  // The reply is the one the log's own table gives.
  lemma RepliesFromLog(run: seq<R.System>, actions: seq<R.Action>, i: nat, r: nat, now: int, w: Which, cmd: Command)
    requires R.IsRun(run, actions) && i < |run| && Next(run[i], r, w, cmd)
    ensures ReplyBy(run[i], r, now) == ReplyOf(cmd, Step(Before(run[i], r, w), OpOf(cmd), 0).1)
    ensures After(run[i], r, w) == Step(Before(run[i], r, w), OpOf(cmd), 0).0
    ensures WellNamed(Before(run[i], r, w))
  {
    R.ReplicasFollowLog(run, actions, i);
    var c, rep := run[i], run[i].replicas[r];
    assert R.ReplicaOk(c.log, rep);
    KindsAreWritten(w, Committed(cmd));
    var op, t := OpOf(cmd), TableOf(w, rep.state);
    assert TableFollows(t, Before(c, r, w));
    ApplyAnswers(rep.state, w, cmd, now);
    StepIgnoresClock(t, op, now);
    RefStep(w, c.log, rep.applied, op, Before(c, r, w), After(c, r, w));
    RefIsWellNamed(w, c.log[..rep.applied]);
  }

  // Every replica, whatever its clock and however it was built, answers an acquire or
  // grant yes if and only if the log then has the asker as holder, under that token, to
  // the deadline and TTL it asked for; and no if and only if the log has another holder.
  lemma ReplicaGrants(run: seq<R.System>, actions: seq<R.Action>, i: nat, r: nat, now: int,
                      w: Which, cmd: Command, token: nat)
    requires R.IsRun(run, actions) && i < |run| && Next(run[i], r, w, cmd) && AcquireKind(cmd.kind)
    ensures var t, t', reply := Before(run[i], r, w), After(run[i], r, w), ReplyBy(run[i], r, now);
            && (reply == Result(true, token, cmd.deadlineMs) <==> HeldBy(t', cmd.name, cmd.id, token))
            && (reply == Result(false, token, cmd.deadlineMs) <==>
                  cmd.id != "" && HeldByOther(t, cmd.name, cmd.id, token))
            && (reply.Result? ==> reply.deadlineMs == cmd.deadlineMs)
            && (reply == Result(true, token, cmd.deadlineMs) ==>
                  && t'.held[cmd.name].deadline == DeadlineOf(cmd.deadlineMs)
                  && t'.held[cmd.name].ttl == TtlOf(cmd.ttlMs) && OnlyUnder(t, cmd.name, t'))
            && (!(reply.Result? && reply.acquired) ==> t' == t)
  {
    RepliesFromLog(run, actions, i, r, now, w, cmd);
    var op := OpOf(cmd);
    assert op == Acquire(cmd.name, cmd.id, DeadlineOf(cmd.deadlineMs), TtlOf(cmd.ttlMs));
    AcquireAnswers(Before(run[i], r, w), op, 0, token);
  }

  // A release or revoke goes through, and frees the name, if and only if the log has the
  // caller as holder under its token; a refused one changes nothing.
  lemma ReplicaReleases(run: seq<R.System>, actions: seq<R.Action>, i: nat, r: nat, now: int, w: Which, cmd: Command)
    requires R.IsRun(run, actions) && i < |run| && Next(run[i], r, w, cmd) && ReleaseKind(cmd.kind)
    ensures var t, t', reply := Before(run[i], r, w), After(run[i], r, w), ReplyBy(run[i], r, now);
            && (reply == Result(false, cmd.token, 0) <==> HeldBy(t, cmd.name, cmd.id, cmd.token))
            && (reply.Refused? <==> !HeldBy(t, cmd.name, cmd.id, cmd.token))
            && (reply.Result? ==> cmd.name !in t'.held && OnlyUnder(t, cmd.name, t'))
            && (reply.Refused? ==> t' == t)
  {
    RepliesFromLog(run, actions, i, r, now, w, cmd);
    var op := OpOf(cmd);
    assert op == Release(cmd.name, cmd.id, cmd.token);
    ReleaseAnswers(Before(run[i], r, w), op, 0, Fenced);
  }

  // A renewal goes through, to the deadline and TTL it carries, if and only if the log has
  // the caller as holder under its token; a refused one changes nothing.
  lemma ReplicaRenewals(run: seq<R.System>, actions: seq<R.Action>, i: nat, r: nat, now: int, w: Which, cmd: Command)
    requires R.IsRun(run, actions) && i < |run| && Next(run[i], r, w, cmd) && RenewKind(cmd.kind)
    ensures var t, t', reply := Before(run[i], r, w), After(run[i], r, w), ReplyBy(run[i], r, now);
            && (reply == Result(true, cmd.token, cmd.deadlineMs) <==> HeldBy(t, cmd.name, cmd.id, cmd.token))
            && (reply.Refused? <==> !HeldBy(t, cmd.name, cmd.id, cmd.token))
            && (reply.Result? ==>
                  && HeldBy(t', cmd.name, cmd.id, cmd.token) && OnlyUnder(t, cmd.name, t')
                  && t'.held[cmd.name].deadline == DeadlineOf(cmd.deadlineMs)
                  && t'.held[cmd.name].ttl == TtlOf(cmd.ttlMs))
            && (reply.Refused? ==> t' == t)
  {
    RepliesFromLog(run, actions, i, r, now, w, cmd);
    var op := OpOf(cmd);
    assert op == Renew(cmd.name, cmd.id, cmd.token, DeadlineOf(cmd.deadlineMs), TtlOf(cmd.ttlMs));
    RenewAnswers(Before(run[i], r, w), op, 0, Fenced);
  }

  lemma ExpiryReply(t: Table, cmd: Command)
    requires WellNamed(t) && ExpireKind(cmd.kind)
    ensures var (t', reply) := Step(t, OpOf(cmd), 0);
            && ReplyOf(cmd, reply) == Result(Holds(t, cmd.name, cmd.token), cmd.token, 0)
            && if Holds(t, cmd.name, cmd.token) then cmd.name !in t'.held && OnlyUnder(t, cmd.name, t') else t' == t
  {
    ExpireAnswers(t, OpOf(cmd), 0);
  }

  // An expiry is answered yes, and drops the grant, if and only if the log has its token
  // current; otherwise it changes nothing.
  lemma ReplicaExpiries(run: seq<R.System>, actions: seq<R.Action>, i: nat, r: nat, now: int, w: Which, cmd: Command)
    requires R.IsRun(run, actions) && i < |run| && Next(run[i], r, w, cmd) && ExpireKind(cmd.kind)
    ensures var t, t', reply := Before(run[i], r, w), After(run[i], r, w), ReplyBy(run[i], r, now);
            && reply == Result(Holds(t, cmd.name, cmd.token), cmd.token, 0)
            && (reply.acquired ==> cmd.name !in t'.held && OnlyUnder(t, cmd.name, t'))
            && (!reply.acquired ==> t' == t)
  {
    RepliesFromLog(run, actions, i, r, now, w, cmd);
    ExpiryReply(Before(run[i], r, w), cmd);
  }

  // Everything that is not a lock or lease command: only a nameless join and an
  // undecodable entry are answered with an error.
  lemma OtherReplies(s: State, e: LogEntry, now: int)
    requires !Writes(Locks, e) && !Writes(Leases, e)
    ensures var reply := Apply(s, e, now).1;
            && (reply == JoinFailed <==> e.Committed? && e.cmd.kind == AddMember && e.cmd.id == "")
            && (reply == DecodeFailed <==> e.Garbled?)
            && (reply != JoinFailed && reply != DecodeFailed ==> reply == NoReply)
            && Apply(s, e, now).0.locks == s.locks && Apply(s, e, now).0.leases == s.leases
  {
  }

  // The last position before q at which the log still has the grant.
  lemma LastHeldInLog(w: Which, log: seq<LogEntry>, name: string, token: nat, p: nat, q: nat) returns (k: nat)
    requires p < q <= |log| && Holds(Ref(w, log[..p]), name, token) && !Holds(Ref(w, log[..q]), name, token)
    ensures p <= k < q && Holds(Ref(w, log[..k]), name, token) && !Holds(Ref(w, log[..k + 1]), name, token)
  {
    var held := seq(q + 1, k requires 0 <= k <= q => Holds(Ref(w, log[..k]), name, token));
    k := LastTrue(held, p, q);
  }

  lemma OtherEntriesKeep(w: Which, log: seq<LogEntry>, k: nat)
    requires k < |log| && !Writes(w, log[k])
    ensures Ref(w, log[..k + 1]) == Ref(w, log[..k])
  {
    assert log[..k + 1] == log[..k] + [log[k]];
    if w == Locks {
      RefLocksSnoc(log[..k], log[k]);
    } else {
      RefLeasesSnoc(log[..k], log[k]);
    }
  }

  // A release of, or an expiry for, this one grant.
  ghost predicate EndsGrant(w: Which, e: LogEntry, name: string, token: nat) {
    Writes(w, e) && (ReleaseKind(e.cmd.kind) || ExpireKind(e.cmd.kind)) && e.cmd.name == name && e.cmd.token == token
  }

  // The command that ended a grant is a release by its holder's token, or its expiry.
  lemma EndedByDrop(w: Which, log: seq<LogEntry>, k: nat, name: string, token: nat)
    requires k < |log| && Holds(Ref(w, log[..k]), name, token) && !Holds(Ref(w, log[..k + 1]), name, token)
    ensures EndsGrant(w, log[k], name, token)
  {
    if !Writes(w, log[k]) {
      OtherEntriesKeep(w, log, k);
    }
    var op, t, t' := OpOf(log[k].cmd), Ref(w, log[..k]), Ref(w, log[..k + 1]);
    RefStep(w, log, k, op, t, t');
    RefIsWellNamed(w, log[..k]);
    GrantEndsByDrop(t, op, 0, name, token);
  }

  // Replica r applies cmd, at position p of the log, and answers that the asker has it.
  ghost predicate SaysYes(c: R.System, r: nat, p: nat, now: int, w: Which, cmd: Command, token: nat) {
    && Next(c, r, w, cmd) && AcquireKind(cmd.kind) && p == c.replicas[r].applied
    && ReplyBy(c, r, now) == Result(true, token, cmd.deadlineMs)
  }

  // Mutual exclusion on the replicated system: if any replicas told two different clients
  // that they have a name, whenever they did so, then between the two commands the log
  // holds a release or expiry that carries the first one's token.
  lemma ClusterMutualExclusion(run: seq<R.System>, actions: seq<R.Action>, i: nat, j: nat, r: nat, s: nat,
                               p: nat, q: nat, now: int, now': int, w: Which, c: Command, d: Command, a: nat, b: nat)
    returns (k: nat)
    requires R.IsRun(run, actions) && i < |run| && j < |run| && p < q && c.name == d.name && c.id != d.id
    requires SaysYes(run[i], r, p, now, w, c, a) && SaysYes(run[j], s, q, now', w, d, b)
    ensures p < k < q < |run[j].log| && EndsGrant(w, run[j].log[k], c.name, a)
  {
    ToldYes(run, actions, i, r, p, now, w, c, a);
    ToldYes(run, actions, j, s, q, now', w, d, b);
    assert YesInLog(run[j].log, q, w, d, b);
    SamePrefix(run, actions, i, j, p, w, c, a);
    k := DroppedBetween(run[j].log, p, q, w, c, d, a, b);
  }

  // The log says what the answer said: after cmd at position p the asker is the holder.
  ghost predicate YesInLog(log: seq<LogEntry>, p: nat, w: Which, cmd: Command, token: nat) {
    && p < |log| && log[p] == Committed(cmd) && Writes(w, log[p]) && AcquireKind(cmd.kind)
    && HeldBy(Ref(w, log[..p + 1]), cmd.name, cmd.id, token)
  }

  lemma ToldYes(run: seq<R.System>, actions: seq<R.Action>, i: nat, r: nat, p: nat, now: int,
                w: Which, c: Command, a: nat)
    requires R.IsRun(run, actions) && i < |run| && SaysYes(run[i], r, p, now, w, c, a)
    ensures YesInLog(run[i].log, p, w, c, a)
  {
    assert Writes(w, Committed(c)) by {
      KindsAreWritten(w, Committed(c));
    }
    var t := Ref(w, run[i].log[..p + 1]);
    assert HeldBy(t, c.name, c.id, a) by {
      assert t == After(run[i], r, w);
      ReplicaGrants(run, actions, i, r, now, w, c, a);
    }
  }

  lemma SamePrefix(run: seq<R.System>, actions: seq<R.Action>, i: nat, j: nat, p: nat, w: Which, c: Command, a: nat)
    requires R.IsRun(run, actions) && i < |run| && j < |run| && p < |run[j].log| && YesInLog(run[i].log, p, w, c, a)
    ensures YesInLog(run[j].log, p, w, c, a)
  {
    if i <= j {
      R.LogOnlyGrows(run, actions, i, j);
    } else {
      R.LogOnlyGrows(run, actions, j, i);
    }
    assert run[i].log[..p + 1] == run[j].log[..p + 1] && run[i].log[p] == run[j].log[p];
  }

  lemma DroppedBetween(log: seq<LogEntry>, p: nat, q: nat, w: Which, c: Command, d: Command, a: nat, b: nat)
    returns (k: nat)
    requires p < q && c.name == d.name && c.id != d.id && YesInLog(log, p, w, c, a) && YesInLog(log, q, w, d, b)
    ensures p < k < q && EndsGrant(w, log[k], c.name, a)
  {
    assert !Holds(Ref(w, log[..q]), c.name, a) by {
      if Holds(Ref(w, log[..q]), c.name, a) {
        HeldBetween(w, log, c.name, a, p + 1, p + 1, q);
        OthersAreRefused(log, q, w, c.id, d, a, b);
      }
    }
    k := LastHeldInLog(w, log, c.name, a, p + 1, q);
    EndedByDrop(w, log, k, c.name, a);
  }

  lemma OthersAreRefused(log: seq<LogEntry>, q: nat, w: Which, holder: string, d: Command, a: nat, b: nat)
    requires YesInLog(log, q, w, d, b) && holder != d.id
    ensures !HeldBy(Ref(w, log[..q]), d.name, holder, a)
  {
    var op, t, t' := OpOf(d), Ref(w, log[..q]), Ref(w, log[..q + 1]);
    RefStep(w, log, q, op, t, t');
    RefIsWellNamed(w, log[..q]);
    AcquireAnswers(t, op, 0, a);
    AcquireAnswers(t, op, 0, b);
  }

  // From the request on: a lock or lease asked for on the leader, once answered yes, is
  // held under the name and by the holder of the request, for the request's TTL in whole
  // milliseconds, until that long after the leader's clock, less than a millisecond early.
  lemma GrantAsAsked(t: Table, k: Kind, name: string, holder: string, ttlMs: int64, defaultTtl: int64,
                     clock: int, token: nat)
    requires WellNamed(t) && AcquireKind(k) && clock >= 0
    ensures var c := AcquireCommand(k, name, holder, ttlMs, defaultTtl, clock);
            var (t', r) := Step(t, OpOf(c), 0);
            var ttl := TtlFromMs(ttlMs, 0, defaultTtl);
            && c.kind == k
            && (r == Reply(true, token) <==> HeldBy(t', name, holder, token))
            && (r == Reply(true, token) ==>
                  && ttl - NS_PER_MS < t'.held[name].ttl <= ttl
                  && clock + ttl - NS_PER_MS < t'.held[name].deadline <= clock + ttl)
  {
    var c, ttl := AcquireCommand(k, name, holder, ttlMs, defaultTtl, clock), TtlFromMs(ttlMs, 0, defaultTtl);
    StampedTtlInRange(ttlMs, 0, defaultTtl);
    AppliedTtl(ttl, clock);
    AppliedDeadline(ttl, clock);
    NoImmortalGrant(ttl, clock);
    AcquireAnswers(t, OpOf(c), 0, token);
  }

  // A renewal asked for on the leader, once it goes through, moves the deadline of the
  // caller's own grant: by the TTL it names, or if it names none by the grant's own.
  lemma RenewedAsAsked(t: Table, k: Kind, name: string, holder: string, token: nat,
                       ttlMs: int64, defaultTtl: int64, clock: int)
    requires WellNamed(t) && RenewKind(k) && clock >= 0
    requires HeldBy(t, name, holder, token) && StorableTtl(t.held[name].ttl)
    ensures var c := RenewCommand(k, t, name, holder, token, ttlMs, defaultTtl, clock);
            var (t', r) := Step(t, OpOf(c), 0);
            var ttl := if ttlMs > 0 then TtlFromMs(ttlMs, 0, defaultTtl) else t.held[name].ttl;
            && c.kind == k && r == Reply(true, token) && HeldBy(t', name, holder, token)
            && ttl - NS_PER_MS < t'.held[name].ttl <= ttl
            && clock + ttl - NS_PER_MS < t'.held[name].deadline <= clock + ttl
  {
    var c := RenewCommand(k, t, name, holder, token, ttlMs, defaultTtl, clock);
    var stored: int64 := t.held[name].ttl;
    var ttl := TtlFromMs(ttlMs, ReuseTtl(stored, defaultTtl), defaultTtl);
    StampedTtlInRange(ttlMs, ReuseTtl(stored, defaultTtl), defaultTtl);
    AppliedTtl(ttl, clock);
    AppliedDeadline(ttl, clock);
    NoImmortalGrant(ttl, clock);
    RenewAnswers(t, OpOf(c), 0, Fenced);
  }
}
