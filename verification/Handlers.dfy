/**
 Join, Promote, Leave and Rejoin on the leader: two-step updates of the Raft
 configuration and the replicated member list, either of which can fail.

 Each handler is a task that takes one step at a time.  A step either only reads,
 or performs one committed effect; an effect may be done, refused without a trace,
 or lost: carried out although the caller is told it failed.  A step that reads the
 Raft configuration fails to when its outcome is not Done.
 */
module Handlers {
  import opened Members

  datatype Suffrage = RaftVoter | RaftNonvoter

  datatype Shared = Shared(engine: EngineState, raft: map<string, Suffrage>)

  datatype Outcome = Done | Refused | Lost

  datatype Reply = Ok | NotFound | FailedPrecondition | Internal

  datatype Task =
    | JoinStart(id: string, address: string, hasRaftAddr: bool, observer: bool)
    | JoinListed(id: string, address: string, role: Role)
    | PromoteStart(id: string)
    | PromoteRaft(id: string, address: string)
    | PromoteListed(id: string, address: string)
    | LeaveStart(id: string)
    | LeaveList(id: string, inRaft: bool)
    | LeaveRaft(id: string)
    | RejoinStart(id: string, address: string, role: Role)
    | RejoinListed(id: string, address: string, role: Role)
    | MarkDeadStart(id: string)
    | SelfAddStart(id: string, address: string)
    | Finished(reply: Reply)

  // AddNonvoter never demotes: the Raft library leaves an existing voter a voter.
  function AddNonvoter(raft: map<string, Suffrage>, id: string): map<string, Suffrage> {
    if id in raft && raft[id] == RaftVoter then raft else raft[id := RaftNonvoter]
  }

  function WithMember(s: Shared, id: string, address: string, role: Role, now: int): Shared {
    s.(engine := JoinAs(s.engine, id, address, role, now).0)
  }

  // One effect: s' if carried out, and next only if the caller hears of it.
  function Effect(s: Shared, s': Shared, next: Task, o: Outcome): (Shared, Task) {
    match o
    case Done => (s', next)
    case Refused => (s, Finished(Internal))
    case Lost => (s', Finished(Internal))
  }

  // Node.HasServer: an unreadable configuration has no servers.
  predicate HasServer(s: Shared, id: string, o: Outcome) {
    o == Done && id != "" && id in s.raft
  }

  function Step(s: Shared, t: Task, o: Outcome, now: int): (Shared, Task) {
    match t
    case JoinStart(id, address, hasRaftAddr, observer) =>
      var next := JoinListed(id, address, if observer then Observer else Voter);
      if !hasRaftAddr then (s, next)
      else if observer then Effect(s, s.(raft := AddNonvoter(s.raft, id)), next, o)
      else Effect(s, s.(raft := s.raft[id := RaftVoter]), next, o)
    case JoinListed(id, address, role) =>
      Effect(s, WithMember(s, id, address, role, now), Finished(Ok), o)
    case PromoteStart(id) =>
      if id !in s.engine.members then (s, Finished(NotFound))
      else if s.engine.members[id].status != Alive then (s, Finished(FailedPrecondition))
      else if NormalizeRole(s.engine.members[id].role) == Voter then (s, Finished(Ok))
      else (s, PromoteRaft(id, s.engine.members[id].address))
    case PromoteRaft(id, address) =>
      if o == Refused || id !in s.raft then (s, Finished(Internal))
      else if s.raft[id] == RaftVoter then (s, PromoteListed(id, address))
      else Effect(s, s.(raft := s.raft[id := RaftVoter]), PromoteListed(id, address), o)
    case PromoteListed(id, address) =>
      Effect(s, WithMember(s, id, address, Voter, now), Finished(Ok), o)
    case LeaveStart(id) =>
      var inMem, inRaft, already := id in s.engine.members, HasServer(s, id, o), id in s.engine.dropped;
      if !inMem && !inRaft && !already then (s, Finished(NotFound))
      else if already && !inRaft then (s, Finished(Ok))
      else (s, LeaveList(id, inRaft))
    case LeaveList(id, inRaft) =>
      Effect(s, s.(engine := Leave(s.engine, id).0), if inRaft then LeaveRaft(id) else Finished(Ok), o)
    case LeaveRaft(id) =>
      Effect(s, s.(raft := s.raft - {id}), Finished(Ok), o)
    case RejoinStart(id, address, role) =>
      if !HasServer(s, id, o) then (s, Finished(FailedPrecondition))
      else if id in s.engine.members then (s, RejoinListed(id, address, NormalizeRole(s.engine.members[id].role)))
      else (s, RejoinListed(id, address, NormalizeRole(role)))
    case RejoinListed(id, address, role) =>
      Effect(s, WithMember(s, id, address, role, now), Finished(Ok), o)
    case MarkDeadStart(id) =>
      Effect(s, s.(engine := MarkDead(s.engine, id).0), Finished(Ok), o)
    case SelfAddStart(id, address) =>
      Effect(s, WithMember(s, id, address, Voter, now), Finished(Ok), o)
    case Finished(_) => (s, t)
  }

  predicate IsStart(t: Task) {
    t.JoinStart? || t.PromoteStart? || t.LeaveStart? || t.RejoinStart? || t.MarkDeadStart? || t.SelfAddStart?
  }

  // A handler run by itself to its end takes at most three steps.
  function RunTask(s: Shared, t: Task, o1: Outcome, o2: Outcome, o3: Outcome, now: int): (Shared, Task) {
    var (s1, t1) := Step(s, t, o1, now);
    var (s2, t2) := Step(s1, t1, o2, now);
    Step(s2, t2, o3, now)
  }

  // What the order of the two steps is for: whoever is listed is in the Raft
  // configuration, and a listed voter is a voter there.
  predicate Backed(raft: map<string, Suffrage>, id: string, role: Role) {
    id in raft && (NormalizeRole(role) == Voter ==> raft[id] == RaftVoter)
  }

  ghost predicate Ordered(s: Shared) {
    && EngineWf(s.engine)
    && forall id :: id in s.engine.members ==> Backed(s.raft, id, s.engine.members[id].role)
  }

  // What a task may count on between its steps.
  ghost predicate TaskOk(s: Shared, t: Task) {
    match t
    case JoinListed(id, _, role) => Backed(s.raft, id, role)
    case PromoteListed(id, _) => Backed(s.raft, id, Voter)
    case LeaveRaft(id) => id !in s.engine.members
    case RejoinListed(id, _, role) => Backed(s.raft, id, role)
    case _ => true
  }

  // Which requests the list order protects: a join must bring a Raft address
  // (or the id must be backed already); a rejoin of an id that is in Raft but
  // not listed must not claim more than its suffrage.
  predicate Admissible(s: Shared, t: Task) {
    match t
    case JoinStart(id, _, hasRaftAddr, observer) =>
      hasRaftAddr || Backed(s.raft, id, if observer then Observer else Voter)
    case RejoinStart(id, _, role) =>
      id !in s.raft || id in s.engine.members || Backed(s.raft, id, role)
    case SelfAddStart(id, _) => Backed(s.raft, id, Voter)
    case _ => IsStart(t)
  }

  lemma ListingKeepsOrder(s: Shared, id: string, address: string, role: Role, now: int)
    requires Ordered(s) && Backed(s.raft, id, role)
    ensures Ordered(WithMember(s, id, address, role, now))
  {
  }

  lemma DelistingKeepsOrder(s: Shared, id: string)
    requires Ordered(s)
    ensures Ordered(s.(engine := Leave(s.engine, id).0)) && id !in Leave(s.engine, id).0.members
    ensures Ordered(s.(engine := MarkDead(s.engine, id).0))
  {
  }

  // The steps that only read, or write only Raft.
  lemma RaftStepKeepsOrder(s: Shared, t: Task, o: Outcome, now: int)
    requires Ordered(s) && TaskOk(s, t) && (IsStart(t) ==> Admissible(s, t))
    requires || t.JoinStart? || t.PromoteStart? || t.PromoteRaft? || t.LeaveStart? || t.LeaveRaft?
             || t.RejoinStart? || t.Finished?
    ensures Ordered(Step(s, t, o, now).0) && TaskOk(Step(s, t, o, now).0, Step(s, t, o, now).1)
  {
  }

  lemma StepIsNoStart(s: Shared, t: Task, o: Outcome, now: int)
    ensures !IsStart(Step(s, t, o, now).1)
  {
  }

  lemma StepKeepsOrder(s: Shared, t: Task, o: Outcome, now: int)
    requires Ordered(s) && TaskOk(s, t) && (IsStart(t) ==> Admissible(s, t))
    ensures Ordered(Step(s, t, o, now).0) && TaskOk(Step(s, t, o, now).0, Step(s, t, o, now).1)
    ensures !IsStart(Step(s, t, o, now).1)
  {
    StepIsNoStart(s, t, o, now);
    match t
    case JoinListed(id, address, role) => ListingKeepsOrder(s, id, address, role, now);
    case PromoteListed(id, address) => ListingKeepsOrder(s, id, address, Voter, now);
    case RejoinListed(id, address, role) => ListingKeepsOrder(s, id, address, role, now);
    case LeaveList(id, _) => DelistingKeepsOrder(s, id);
    case MarkDeadStart(id) => DelistingKeepsOrder(s, id);
    case SelfAddStart(id, address) => ListingKeepsOrder(s, id, address, Voter, now);
    case _ => RaftStepKeepsOrder(s, t, o, now);
  }

  // Handlers in flight together, their steps interleaved; a handler that has finished
  // keeps its place.
  datatype Action = Begin(t: Task) | Advance(k: nat, o: Outcome, now: int)

  datatype System = System(shared: Shared, tasks: seq<Task>)

  // A node adds itself when it becomes leader, which takes a Raft voter.
  predicate CanLead(s: Shared, id: string) {
    id in s.raft && s.raft[id] == RaftVoter
  }

  predicate Enabled(c: System, a: Action) {
    match a
    case Begin(t) => IsStart(t) && (t.SelfAddStart? ==> CanLead(c.shared, t.id))
    case Advance(k, _, _) => k < |c.tasks| && !c.tasks[k].Finished?
  }

  function Act(c: System, a: Action): System
    requires Enabled(c, a)
  {
    match a
    case Begin(t) => c.(tasks := c.tasks + [t])
    case Advance(k, o, now) => var (s, t) := Step(c.shared, c.tasks[k], o, now); System(s, c.tasks[k := t])
  }

  ghost predicate IsRun(run: seq<System>, actions: seq<Action>) {
    && |run| == |actions| + 1
    && Ordered(run[0].shared) && run[0].tasks == []
    && forall i :: 0 <= i < |actions| ==> Enabled(run[i], actions[i]) && run[i + 1] == Act(run[i], actions[i])
  }

  // Every request is admissible when its handler takes its first step.
  ghost predicate AllAdmissible(run: seq<System>, actions: seq<Action>)
    requires IsRun(run, actions)
  {
    forall i :: 0 <= i < |actions| && actions[i].Advance? && IsStart(run[i].tasks[actions[i].k]) ==>
      Admissible(run[i].shared, run[i].tasks[actions[i].k])
  }

  predicate Leaves(t: Task) {
    t.LeaveStart? || t.LeaveList? || t.LeaveRaft?
  }

  // The handlers that can put an id on the list.
  predicate Listing(t: Task) {
    || t.JoinStart? || t.JoinListed? || t.PromoteStart? || t.PromoteRaft? || t.PromoteListed?
    || t.RejoinStart? || t.RejoinListed? || t.SelfAddStart?
  }

  predicate Conflict(t: Task, u: Task) {
    ((Leaves(t) && Listing(u)) || (Listing(t) && Leaves(u))) && t.id == u.id
  }

  // No leave is in flight together with a join, promote or rejoin of the same id.
  ghost predicate Apart(run: seq<System>, actions: seq<Action>)
    requires IsRun(run, actions)
  {
    forall i, k :: 0 <= i < |actions| && actions[i].Begin? && 0 <= k < |run[i].tasks| ==>
      !Conflict(actions[i].t, run[i].tasks[k])
  }

  lemma StepKeepsClass(s: Shared, t: Task, o: Outcome, now: int)
    ensures var t' := Step(s, t, o, now).1;
            || t'.Finished?
            || (t'.id == t.id && (Leaves(t') <==> Leaves(t)) && (Listing(t') <==> Listing(t)))
  {
  }

  // What one handler relies on, no handler that does not conflict with it takes away:
  // Raft loses a server, and the list gains one, only through a conflicting handler.
  lemma StepKeepsOther(s: Shared, t: Task, o: Outcome, now: int, u: Task)
    requires TaskOk(s, u) && !Conflict(t, u)
    ensures TaskOk(Step(s, t, o, now).0, u)
  {
  }

  ghost predicate Inv(c: System) {
    && Ordered(c.shared)
    && (forall k :: 0 <= k < |c.tasks| ==> TaskOk(c.shared, c.tasks[k]))
    && (forall j, k :: 0 <= j < |c.tasks| && 0 <= k < |c.tasks| ==> !Conflict(c.tasks[j], c.tasks[k]))
  }

  lemma AdvanceKeepsInv(c: System, k: nat, o: Outcome, now: int)
    requires Inv(c) && Enabled(c, Advance(k, o, now)) && (IsStart(c.tasks[k]) ==> Admissible(c.shared, c.tasks[k]))
    ensures Inv(Act(c, Advance(k, o, now)))
  {
    var c' := Act(c, Advance(k, o, now));
    StepKeepsOrder(c.shared, c.tasks[k], o, now);
    StepKeepsClass(c.shared, c.tasks[k], o, now);
    forall j | 0 <= j < |c'.tasks|
      ensures TaskOk(c'.shared, c'.tasks[j])
    {
      if j != k {
        StepKeepsOther(c.shared, c.tasks[k], o, now, c.tasks[j]);
      }
    }
    forall i, j | 0 <= i < |c'.tasks| && 0 <= j < |c'.tasks|
      ensures !Conflict(c'.tasks[i], c'.tasks[j])
    {
      assert !Conflict(c.tasks[i], c.tasks[j]);
    }
  }

  lemma BeginKeepsInv(c: System, t: Task)
    requires Inv(c) && Enabled(c, Begin(t)) && forall k :: 0 <= k < |c.tasks| ==> !Conflict(t, c.tasks[k])
    ensures Inv(Act(c, Begin(t)))
  {
  }

  // Crash-ordered membership: however the steps of any number of handlers interleave,
  // as long as no leave overlaps with a join, promote or rejoin of the same id, at every
  // point, between the two steps of a handler as much as after a failed one, whoever is
  // listed is in the Raft configuration, and a listed voter is a Raft voter.
  lemma {:induction false} CrashOrdered(run: seq<System>, actions: seq<Action>, i: nat)
    requires IsRun(run, actions) && AllAdmissible(run, actions) && Apart(run, actions) && i < |run|
    ensures Ordered(run[i].shared) && Inv(run[i])
    decreases i
  {
    if i > 0 {
      CrashOrdered(run, actions, i - 1);
      match actions[i - 1]
      case Begin(t) => BeginKeepsInv(run[i - 1], t);
      case Advance(k, o, now) => AdvanceKeepsInv(run[i - 1], k, o, now);
    }
  }

  // Admissibility is exact: a join or rejoin that goes through leaves the list
  // backed if and only if it was admissible.
  lemma OrderKeptIff(s: Shared, t: Task, now: int)
    requires Ordered(s) && (t.JoinStart? || t.RejoinStart?) && t.id != ""
    ensures Ordered(RunTask(s, t, Done, Done, Done, now).0) <==> Admissible(s, t)
  {
    var (s1, t1) := Step(s, t, Done, now);
    var (s2, t2) := Step(s1, t1, Done, now);
    if Admissible(s, t) {
      StepKeepsOrder(s, t, Done, now);
      StepKeepsOrder(s1, t1, Done, now);
    } else {
      assert t.id in s2.engine.members;
      assert !Backed(s2.raft, t.id, s2.engine.members[t.id].role);
    }
  }

  // Neither listed nor in the Raft configuration.
  predicate Gone(s: Shared, id: string) {
    id !in s.engine.members && id !in s.raft
  }

  // Leave is resumable: from any state at all, in particular any state a failed
  // leave can leave behind, a leave whose steps succeed reports Ok or NotFound; and
  // one that reports either has removed the id from list and Raft exactly when it
  // could read the configuration, or had nothing to remove there.
  lemma LeaveCompletes(s: Shared, id: string, o1: Outcome, o2: Outcome, o3: Outcome, now: int)
    requires EngineWf(s.engine)
    ensures var (s', t') := RunTask(s, LeaveStart(id), o1, o2, o3, now);
            && t'.Finished?
            && (t'.reply == Ok || t'.reply == NotFound ==> (Gone(s', id) <==> HasServer(s, id, o1) || id !in s.raft))
            && (o2 == Done && o3 == Done ==> t'.reply == Ok || t'.reply == NotFound)
  {
  }

  // The failing case, from every ordered state: the configuration cannot be read,
  // the leave reports success, and the server stays in Raft, off the list.  A second
  // leave that can read it finishes the job.
  lemma UnreadConfigurationKeepsServer(s: Shared, id: string, now: int)
    requires Ordered(s) && id in s.engine.members && id != ""
    ensures var (s1, left) := RunTask(s, LeaveStart(id), Refused, Done, Done, now);
            && left == Finished(Ok) && id !in s1.engine.members && id in s1.raft
            && var (s2, again) := RunTask(s1, LeaveStart(id), Done, Done, Done, now);
            again == Finished(Ok) && Gone(s2, id)
  {
    var (s1, left) := RunTask(s, LeaveStart(id), Refused, Done, Done, now);
    assert EngineWf(s1.engine) && id in s1.engine.dropped && s1.raft == s.raft;
    LeaveCompletes(s1, id, Done, Done, Done, now);
  }

  // No step of any other handler brings a gone id back.
  predicate CannotRevive(t: Task, id: string) {
    match t
    case JoinStart(i, _, _, _) => i != id
    case JoinListed(i, _, _) => i != id
    case PromoteRaft(i, _) => i != id
    case PromoteListed(i, _) => i != id
    case RejoinListed(i, _, _) => i != id
    case SelfAddStart(i, _) => i != id
    case _ => true
  }

  lemma StepKeepsGone(s: Shared, t: Task, o: Outcome, now: int, id: string)
    requires Gone(s, id) && CannotRevive(t, id)
    ensures Gone(Step(s, t, o, now).0, id) && CannotRevive(Step(s, t, o, now).1, id)
  {
  }

  // Leave is final: once an id is gone and no handler in flight is already past its
  // check of it, no interleaving of promotes, rejoins, leaves, presence expiries,
  // heartbeat reports, leaders adding themselves or joins of other ids, of this id or
  // others, overlapping as they may, brings it back into the list or into Raft.
  lemma {:induction false} LeaveIsFinal(run: seq<System>, actions: seq<Action>, i: nat, j: nat, id: string)
    requires IsRun(run, actions) && i <= j < |run|
    requires Gone(run[i].shared, id) && forall k :: 0 <= k < |run[i].tasks| ==> CannotRevive(run[i].tasks[k], id)
    requires forall k :: i <= k < j && actions[k].Begin? ==> !(actions[k].t.JoinStart? && actions[k].t.id == id)
    ensures Gone(run[j].shared, id) && forall k :: 0 <= k < |run[j].tasks| ==> CannotRevive(run[j].tasks[k], id)
    decreases j - i
  {
    if i < j {
      LeaveIsFinal(run, actions, i, j - 1, id);
      if actions[j - 1].Advance? {
        var c, a := run[j - 1], actions[j - 1];
        StepKeepsGone(c.shared, c.tasks[a.k], a.o, a.now, id);
      }
    }
  }

  lemma StepKeepsDisjoint(s: Shared, t: Task, o: Outcome, now: int)
    requires EngineWf(s.engine)
    ensures EngineWf(Step(s, t, o, now).0.engine)
  {
  }

  // Listed and left ids stay disjoint in every interleaving, admissible or not.
  lemma {:induction false} ListedAndLeftStayDisjoint(run: seq<System>, actions: seq<Action>, i: nat)
    requires IsRun(run, actions) && i < |run|
    ensures EngineWf(run[i].shared.engine)
    ensures run[i].shared.engine.members.Keys !! run[i].shared.engine.dropped
    decreases i
  {
    if i > 0 {
      ListedAndLeftStayDisjoint(run, actions, i - 1);
      if actions[i - 1].Advance? {
        var c, a := run[i - 1], actions[i - 1];
        StepKeepsDisjoint(c.shared, c.tasks[a.k], a.o, a.now);
      }
    }
  }

  // The handlers hold no lock across their steps, and a leave must be apart: from
  // every ordered state, a rejoin that has passed its check before a leave of the
  // same member runs puts the id back on the list after it has left Raft.
  lemma LeaveRacingRejoin(s: Shared, id: string, address: string, role: Role, now: int)
    requires Ordered(s) && id in s.engine.members && id != ""
    ensures var (s0, rejoin) := Step(s, RejoinStart(id, address, role), Done, now);
            var (s1, left) := RunTask(s0, LeaveStart(id), Done, Done, Done, now);
            var (s2, rejoined) := Step(s1, rejoin, Done, now);
            && s0 == s
            && left == Finished(Ok) && Gone(s1, id)
            && rejoined == Finished(Ok)
            && id in s2.engine.members && id !in s2.raft
            && !Ordered(s2)
  {
    var (s0, rejoin) := Step(s, RejoinStart(id, address, role), Done, now);
    assert id in s.raft;
    LeaveCompletes(s0, id, Done, Done, Done, now);
    var (s1, left) := RunTask(s0, LeaveStart(id), Done, Done, Done, now);
    assert id !in s1.raft;
  }

  // When a rejoin goes through without a join token, from every state and for every
  // outcome of its calls: if and only if the configuration could be read, Raft has the
  // server, and the list update succeeds.  It is refused, changing nothing, exactly when
  // one of the first two fails, whether the id is listed, has left, or was never known.
  lemma RejoinAcceptedIff(s: Shared, id: string, address: string, role: Role,
                          o1: Outcome, o2: Outcome, o3: Outcome, now: int)
    ensures var (s', t') := RunTask(s, RejoinStart(id, address, role), o1, o2, o3, now);
            && (t' == Finished(Ok) <==> o1 == Done && id != "" && id in s.raft && o2 == Done)
            && (t' == Finished(FailedPrecondition) <==> !(o1 == Done && id != "" && id in s.raft))
            && (t' == Finished(FailedPrecondition) ==> s' == s)
            && (t' == Finished(Ok) ==> id in s'.engine.members)
  {
  }

  // The promise that unknown ids must use Join fails: a join whose list step is refused
  // leaves a server Raft knows and the list never held, and a rejoin lists it.
  lemma UnknownIdRejoins(s: Shared, id: string, address: string, observer: bool, role: Role, now: int)
    requires Ordered(s) && Gone(s, id) && id !in s.engine.dropped && id != ""
    ensures var (s1, joined) := RunTask(s, JoinStart(id, address, true, observer), Done, Refused, Refused, now);
            var (s2, rejoined) := RunTask(s1, RejoinStart(id, address, role), Done, Done, Done, now);
            && joined == Finished(Internal) && id in s1.raft && s1.engine == s.engine
            && rejoined == Finished(Ok) && id in s2.engine.members
            && (Ordered(s2) <==> !observer || NormalizeRole(role) == Observer)
  {
    var (s1, joined) := RunTask(s, JoinStart(id, address, true, observer), Done, Refused, Refused, now);
    assert s1.engine == s.engine && s1.raft == s.raft[id := if observer then RaftNonvoter else RaftVoter];
    assert Ordered(s1);
    RejoinAcceptedIff(s1, id, address, role, Done, Done, Done, now);
    OrderKeptIff(s1, RejoinStart(id, address, role), now);
  }

  // The promise that ids that have left must use Join fails after a leave that stopped
  // between its steps.
  lemma HalfLeftMemberRejoins(s: Shared, id: string, address: string, role: Role, now: int)
    requires Ordered(s) && id in s.engine.members && id != ""
    ensures var (s1, left) := RunTask(s, LeaveStart(id), Done, Done, Refused, now);
            var (s2, rejoined) := RunTask(s1, RejoinStart(id, address, role), Done, Done, Done, now);
            && left == Finished(Internal) && id !in s1.engine.members && id in s1.engine.dropped
            && rejoined == Finished(Ok) && id in s2.engine.members
            && (Ordered(s2) <==> Backed(s.raft, id, role))
  {
    var (s1, left) := RunTask(s, LeaveStart(id), Done, Done, Refused, now);
    var (t1, u1) := Step(s1, RejoinStart(id, address, role), Done, now);
    var (s2, rejoined) := RunTask(s1, RejoinStart(id, address, role), Done, Done, Done, now);
    assert s1.raft == s.raft && Ordered(s1);
    OrderKeptIff(s1, RejoinStart(id, address, role), now);
  }
}

/** What each handler achieves: its reply against what became of the id, and of all others. */
module Outcomes {
  import opened Members
  import opened Handlers

  // Listed alive under this address and role.
  predicate ListedAs(s: Shared, id: string, address: string, role: Role) {
    && id in s.engine.members
    && s.engine.members[id].address == address && s.engine.members[id].role == role
    && s.engine.members[id].status == Alive
  }

  // No other id is listed, delisted, marked or moved in Raft.
  ghost predicate OnlyTouches(s: Shared, id: string, s': Shared) {
    && s'.engine.members - {id} == s.engine.members - {id}
    && s'.engine.dropped - {id} == s.engine.dropped - {id}
    && s'.raft - {id} == s.raft - {id}
    && s'.engine.leaderId == s.engine.leaderId
  }

  lemma StepOnlyTouches(s: Shared, t: Task, o: Outcome, now: int)
    requires !t.Finished?
    ensures OnlyTouches(s, t.id, Step(s, t, o, now).0)
  {
  }

  lemma TouchesCompose(s: Shared, s1: Shared, s2: Shared, id: string)
    requires OnlyTouches(s, id, s1) && OnlyTouches(s1, id, s2)
    ensures OnlyTouches(s, id, s2)
  {
  }

  lemma NextOnlyTouches(s: Shared, s1: Shared, t1: Task, o: Outcome, now: int, id: string, s2: Shared, t2: Task)
    requires OnlyTouches(s, id, s1) && (t1.Finished? || t1.id == id) && (s2, t2) == Step(s1, t1, o, now)
    ensures OnlyTouches(s, id, s2) && (t2.Finished? || t2.id == id)
  {
    if !t1.Finished? {
      StepOnlyTouches(s1, t1, o, now);
      StepKeepsClass(s1, t1, o, now);
      TouchesCompose(s, s1, s2, id);
    }
  }

  // A handler, however it ends, touches its own id only.
  lemma HandlerOnlyTouches(s: Shared, t: Task, o1: Outcome, o2: Outcome, o3: Outcome, now: int)
    requires IsStart(t)
    ensures OnlyTouches(s, t.id, RunTask(s, t, o1, o2, o3, now).0)
  {
    var (s1, t1) := Step(s, t, o1, now);
    var (s2, t2) := Step(s1, t1, o2, now);
    NextOnlyTouches(s, s, t, o1, now, t.id, s1, t1);
    NextOnlyTouches(s, s1, t1, o2, now, t.id, s2, t2);
    var (s3, t3) := Step(s2, t2, o3, now);
    NextOnlyTouches(s, s2, t2, o3, now, t.id, s3, t3);
  }

  // Join succeeds if and only if its Raft step, when it brings a Raft address, and its
  // list step do; then the id is listed alive under the address and role asked for, and
  // with an address it is in Raft, as a voter unless it came as an observer, and never
  // less than it was.
  lemma JoinOutcome(s: Shared, id: string, address: string, hasRaftAddr: bool, observer: bool,
                    o1: Outcome, o2: Outcome, o3: Outcome, now: int)
    requires id != ""
    ensures var (s', t') := RunTask(s, JoinStart(id, address, hasRaftAddr, observer), o1, o2, o3, now);
            && t'.Finished?
            && (t'.reply == Ok <==> (hasRaftAddr ==> o1 == Done) && o2 == Done)
            && (t'.reply != Ok ==> t'.reply == Internal)
            && (t'.reply == Ok ==>
                  ListedAs(s', id, address, if observer then Observer else Voter) && id !in s'.engine.dropped)
            && (t'.reply == Ok && hasRaftAddr ==> id in s'.raft && (!observer ==> s'.raft[id] == RaftVoter))
            && (id in s.raft ==> id in s'.raft && (s.raft[id] == RaftVoter ==> s'.raft[id] == RaftVoter))
            && (observer && id !in s.raft && id in s'.raft ==> s'.raft[id] == RaftNonvoter)
            && (!hasRaftAddr ==> s'.raft == s.raft)
  {
  }

  // The promote has nothing to do: the id is listed alive as a voter.
  predicate VoterAlready(s: Shared, id: string) {
    id in s.engine.members && s.engine.members[id].status == Alive && NormalizeRole(s.engine.members[id].role) == Voter
  }

  // The promote has something to do: the id is listed alive as an observer.
  predicate Promotable(s: Shared, id: string) {
    && id in s.engine.members && s.engine.members[id].status == Alive
    && NormalizeRole(s.engine.members[id].role) == Observer
  }

  // Promote succeeds if and only if the id is listed alive as a voter, or is listed alive
  // as an observer, Raft has it, and the steps it then takes go through; a promotion that
  // succeeds leaves it listed as a voter under its old address and a voter in Raft.
  // An unknown id and one that is not alive are refused, exactly then, changing nothing.
  lemma PromoteOutcome(s: Shared, id: string, o1: Outcome, o2: Outcome, o3: Outcome, now: int)
    requires id != ""
    ensures var (s', t') := RunTask(s, PromoteStart(id), o1, o2, o3, now);
            && t'.Finished?
            && (t'.reply == Ok <==>
                  || VoterAlready(s, id)
                  || (&& Promotable(s, id) && id in s.raft && o3 == Done
                      && if s.raft[id] == RaftVoter then o2 != Refused else o2 == Done))
            && (t'.reply == Ok && VoterAlready(s, id) ==> s' == s)
            && (t'.reply == Ok && Promotable(s, id) ==>
                  ListedAs(s', id, s.engine.members[id].address, Voter) && id in s'.raft && s'.raft[id] == RaftVoter)
            && (t'.reply == NotFound <==> id !in s.engine.members)
            && (t'.reply == FailedPrecondition <==> id in s.engine.members && s.engine.members[id].status != Alive)
            && (t'.reply == NotFound || t'.reply == FailedPrecondition ==> s' == s)
  {
    if Promotable(s, id) {
      PromoteRuns(s, id, o1, o2, o3, now);
    }
  }

  // A promotion from an ordered state that reports success made a Raft voter of it.
  lemma PromotedIsVoter(s: Shared, id: string, o1: Outcome, o2: Outcome, o3: Outcome, now: int)
    requires Ordered(s) && id != ""
    requires RunTask(s, PromoteStart(id), o1, o2, o3, now).1 == Finished(Ok)
    ensures var s' := RunTask(s, PromoteStart(id), o1, o2, o3, now).0;
            ListedAs(s', id, s.engine.members[id].address, s'.engine.members[id].role) && Backed(s'.raft, id, Voter)
  {
    PromoteOutcome(s, id, o1, o2, o3, now);
  }

  lemma PromoteRuns(s: Shared, id: string, o1: Outcome, o2: Outcome, o3: Outcome, now: int)
    requires Promotable(s, id)
    ensures var raft := if id in s.raft && o2 != Refused then s.raft[id := RaftVoter] else s.raft;
            var address := s.engine.members[id].address;
            var promoted := id in s.raft && if s.raft[id] == RaftVoter then o2 != Refused else o2 == Done;
            RunTask(s, PromoteStart(id), o1, o2, o3, now) ==
            if !promoted then (s.(raft := raft), Finished(Internal))
            else (if o3 == Refused then s.(raft := raft) else WithMember(s.(raft := raft), id, address, Voter, now),
                  Finished(if o3 == Done then Ok else Internal))
  {
    var (s1, t1) := Step(s, PromoteStart(id), o1, now);
    assert s1 == s && t1 == PromoteRaft(id, s.engine.members[id].address);
    if id in s.raft && s.raft[id] == RaftVoter {
      assert s.raft == s.raft[id := RaftVoter];
    }
  }

  // Rejoin, when it succeeds, lists the id alive under the new address, in the role it is
  // listed in, or if it is not listed in the role it claims; Raft is never touched.
  lemma RejoinOutcome(s: Shared, id: string, address: string, role: Role,
                      o1: Outcome, o2: Outcome, o3: Outcome, now: int)
    ensures var (s', t') := RunTask(s, RejoinStart(id, address, role), o1, o2, o3, now);
            var kept := if id in s.engine.members then s.engine.members[id].role else role;
            && s'.raft == s.raft
            && (t' == Finished(Ok) ==>
                  ListedAs(s', id, address, if kept == Observer then Observer else Voter) && id !in s'.engine.dropped)
  {
  }

  // A leave that goes through delists the id, remembers it and takes it out of Raft; one
  // whose list step is refused changes nothing.
  lemma LeaveOutcome(s: Shared, id: string, o1: Outcome, o2: Outcome, o3: Outcome, now: int)
    requires EngineWf(s.engine)
    ensures var (s', t') := RunTask(s, LeaveStart(id), o1, o2, o3, now);
            && (o2 == Refused ==> s' == s)
            && (t' == Finished(NotFound) <==>
                  id !in s.engine.members && id !in s.engine.dropped && !HasServer(s, id, o1))
            && (t' == Finished(Ok) && id in s.engine.members ==> id !in s'.engine.members && id in s'.engine.dropped)
            && (t' != Finished(Ok) && t' != Finished(NotFound) ==> t' == Finished(Internal))
  {
  }

  // A presence expiry or heartbeat report that is committed marks a listed id dead and
  // does nothing else, in particular not to Raft.
  lemma MarkDeadOutcome(s: Shared, id: string, o: Outcome, now: int)
    ensures var s' := Step(s, MarkDeadStart(id), o, now).0;
            && s'.raft == s.raft && s'.engine.members.Keys == s.engine.members.Keys
            && (o == Refused ==> s' == s)
            && (o != Refused && id in s.engine.members ==>
                  && NormalizeStatus(s'.engine.members[id].status) == Dead
                  && s'.engine.members[id].address == s.engine.members[id].address
                  && s'.engine.members[id].role == s.engine.members[id].role)
  {
  }

  // A new leader's committed announcement lists it alive as a voter.
  lemma SelfAddOutcome(s: Shared, id: string, address: string, o: Outcome, now: int)
    requires id != ""
    ensures var s' := Step(s, SelfAddStart(id, address), o, now).0;
            s'.raft == s.raft && (if o == Refused then s' == s else ListedAs(s', id, address, Voter))
  {
  }
}

/** The leader's handlers as code over a member engine and a Raft configuration. */
module JoinService {
  import opened Members
  import opened Membership
  import opened Handlers

  // What a rejoin and a leave come to, steps taken together.
  lemma RejoinRuns(s: Shared, id: string, address: string, role: Role, o1: Outcome, o2: Outcome, now: int)
    ensures var r := if id in s.engine.members then s.engine.members[id].role else role;
            RunTask(s, RejoinStart(id, address, role), o1, o2, o2, now) ==
            if !HasServer(s, id, o1) then (s, Finished(FailedPrecondition))
            else (if o2 == Refused then s else WithMember(s, id, address, NormalizeRole(r), now),
                  Finished(if o2 == Done then Ok else Internal))
  {
  }

  lemma LeaveRuns(s: Shared, id: string, o1: Outcome, o2: Outcome, o3: Outcome, now: int)
    ensures var inRaft, already := HasServer(s, id, o1), id in s.engine.dropped;
            var engine := if o2 == Refused then s.engine else Leave(s.engine, id).0;
            RunTask(s, LeaveStart(id), o1, o2, o3, now) ==
            if id !in s.engine.members && !inRaft && !already then (s, Finished(NotFound))
            else if already && !inRaft then (s, Finished(Ok))
            else if o2 != Done || !inRaft then (s.(engine := engine), Finished(if o2 == Done then Ok else Internal))
            else (Shared(engine, if o3 == Refused then s.raft else s.raft - {id}),
                  Finished(if o3 == Done then Ok else Internal))
  {
  }

  class Leader {
    const engine: Engine
    var raft: map<string, Suffrage>

    function Value(): Shared
      reads this, engine
    {
      Shared(engine.Value(), raft)
    }

    constructor (engine: Engine, raft: map<string, Suffrage>)
      ensures this.engine == engine && this.raft == raft
    {
      this.engine, this.raft := engine, raft;
    }

    // The consensus calls the handlers make.  ok is what the caller is told.
    method AddVoter(id: string, o: Outcome) returns (ok: bool)
      modifies this`raft
      ensures raft == if o == Refused then old(raft) else old(raft)[id := RaftVoter]
      ensures ok == (o == Done)
    {
      if o != Refused {
        raft := raft[id := RaftVoter];
      }
      return o == Done;
    }

    method AddNonvoter(id: string, o: Outcome) returns (ok: bool)
      modifies this`raft
      ensures raft == if o == Refused then old(raft) else Handlers.AddNonvoter(old(raft), id)
      ensures ok == (o == Done)
    {
      if o != Refused && !(id in raft && raft[id] == RaftVoter) {
        raft := raft[id := RaftNonvoter];
      }
      return o == Done;
    }

    method RemoveVoter(id: string, o: Outcome) returns (ok: bool)
      modifies this`raft
      ensures raft == if o == Refused then old(raft) else old(raft) - {id}
      ensures ok == (o == Done)
    {
      if o != Refused {
        raft := raft - {id};
      }
      return o == Done;
    }

    method HasServer(id: string, o: Outcome) returns (has: bool)
      ensures has <==> Handlers.HasServer(Value(), id, o)
    {
      if id == "" {
        return false;
      }
      if o != Done {
        return false;
      }
      return id in raft;
    }

    // o is Refused also when the configuration cannot be read.
    method PromoteToVoter(id: string, o: Outcome) returns (ok: bool)
      modifies this`raft
      ensures raft == if id !in old(raft) || old(raft)[id] == RaftVoter || o == Refused then old(raft)
                      else old(raft)[id := RaftVoter]
      ensures ok == (id in old(raft) && o != Refused && (old(raft)[id] == RaftVoter || o == Done))
    {
      if o == Refused || id !in raft {
        return false;
      }
      if raft[id] == RaftVoter {
        return true;
      }
      ok := AddVoter(id, o);
    }

    method ApplyAddMemberAs(id: string, address: string, role: Role, o: Outcome, now: int) returns (ok: bool)
      modifies engine
      ensures Value() == if o == Refused then old(Value()) else WithMember(old(Value()), id, address, role, now)
      ensures ok == (o == Done)
    {
      if o != Refused {
        var isNew, known := engine.JoinAs(id, address, role, now);
      }
      return o == Done;
    }

    method ApplyDropMember(id: string, o: Outcome) returns (ok: bool)
      modifies engine
      ensures engine.Value() == if o == Refused then old(engine.Value()) else Leave(old(engine.Value()), id).0
      ensures ok == (o == Done)
    {
      if o != Refused {
        engine.Leave(id);
      }
      return o == Done;
    }

    method Join(id: string, address: string, hasRaftAddr: bool, observer: bool, o1: Outcome, o2: Outcome, now: int)
      returns (reply: Reply)
      modifies this`raft, engine
      ensures (Value(), Finished(reply))
           == RunTask(old(Value()), JoinStart(id, address, hasRaftAddr, observer), o1, o2, o2, now)
    {
      var role := if observer then Observer else Voter;
      if hasRaftAddr {
        var ok;
        if observer {
          ok := AddNonvoter(id, o1);
        } else {
          ok := AddVoter(id, o1);
        }
        if !ok {
          return Internal;
        }
      }
      var ok := ApplyAddMemberAs(id, address, role, o2, now);
      return if ok then Ok else Internal;
    }

    method Promote(id: string, o2: Outcome, o3: Outcome, now: int) returns (reply: Reply)
      modifies this`raft, engine
      ensures (Value(), Finished(reply)) == RunTask(old(Value()), PromoteStart(id), Done, o2, o3, now)
    {
      if id !in engine.members {
        return NotFound;
      }
      var m := engine.members[id];
      if m.status != Alive {
        return FailedPrecondition;
      }
      if NormalizeRole(m.role) == Voter {
        return Ok;
      }
      var ok := PromoteToVoter(id, o2);
      if !ok {
        return Internal;
      }
      ok := ApplyAddMemberAs(id, m.address, Voter, o3, now);
      return if ok then Ok else Internal;
    }

    method LeaveMember(id: string, o1: Outcome, o2: Outcome, o3: Outcome, now: int) returns (reply: Reply)
      modifies this`raft, engine
      ensures (Value(), Finished(reply)) == RunTask(old(Value()), LeaveStart(id), o1, o2, o3, now)
    {
      LeaveRuns(Value(), id, o1, o2, o3, now);
      var inMem, already := id in engine.members, id in engine.dropped;
      var inRaft := HasServer(id, o1);
      if !inMem && !inRaft && !already {
        return NotFound;
      }
      if already && !inRaft {
        return Ok;
      }
      var ok := ApplyDropMember(id, o2);
      if !ok {
        return Internal;
      }
      if inRaft {
        ok := RemoveVoter(id, o3);
        if !ok {
          return Internal;
        }
      }
      return Ok;
    }

    method Rejoin(id: string, address: string, role: Role, o1: Outcome, o2: Outcome, now: int) returns (reply: Reply)
      modifies engine
      ensures (Value(), Finished(reply)) == RunTask(old(Value()), RejoinStart(id, address, role), o1, o2, o2, now)
    {
      RejoinRuns(Value(), id, address, role, o1, o2, now);
      var inRaft := HasServer(id, o1);
      if !inRaft {
        return FailedPrecondition;
      }
      var r := NormalizeRole(role);
      if id in engine.members {
        r := NormalizeRole(engine.members[id].role);
      }
      var ok := ApplyAddMemberAs(id, address, r, o2, now);
      return if ok then Ok else Internal;
    }
  }
}

/** Presence: how an expired lease becomes a dead member. */
module Presence {
  import opened Leases

  const PREFIX := "presence."

  predicate IsPresence(name: string) {
    PREFIX < name
  }

  datatype Target = Nobody | Node(id: string)

  // presence.OnExpired: whom a lease event marks dead.
  function OnExpired(e: Event, selfId: string, isLeader: bool): Target {
    if e.kind != LeaseExpired then Nobody
    else if !IsPresence(e.name) then Nobody
    else
      var id := e.name[|PREFIX|..];
      if id == selfId || !isLeader then Nobody else Node(id)
  }

  // Only the expiry of another node's presence lease, seen by the leader, marks a
  // node dead, and it is the node the lease is named after.
  lemma OnExpiredTargets(e: Event, selfId: string, isLeader: bool, id: string)
    ensures OnExpired(e, selfId, isLeader) == Node(id)
       <==> e.kind == LeaseExpired && e.name == PREFIX + id && id != "" && id != selfId && isLeader
  {
    if IsPresence(e.name) {
      assert e.name == PREFIX + e.name[|PREFIX|..];
    }
    if e.name == PREFIX + id {
      assert e.name[|PREFIX|..] == id;
    }
  }
}
