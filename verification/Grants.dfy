/**
 The token-fenced grant table behind both named locks and named leases.  The two
 Go tables hold the same fields and run the same code; they differ only in the
 events they emit, which LockTable and LeaseTable add.
 */
module Grants {
  import opened Names

  const MAX_HELD := 4096

  // deadline is an instant (ZERO_TIME means none), ttl a duration, grantedAt the
  // local clock of the replica that applied the grant.
  datatype Record = Record(name: string, holder: string, token: nat, grantedAt: int, deadline: int, ttl: int)

  datatype Table = Table(held: map<string, Record>, next: nat)

  const EMPTY := Table(map[], 0)

  datatype Op =
    | Acquire(name: string, holder: string, deadline: int, ttl: int)
    | Release(name: string, holder: string, token: nat)
    | Renew(name: string, holder: string, token: nat, deadline: int, ttl: int)
    | Expire(name: string, token: nat)

  datatype Fault = BadName | NoHolder | TooMany | NotHeld | Fenced

  datatype Reply = Reply(ok: bool, token: nat) | Failed(fault: Fault)

  // A committed operation and the local clock of the replica applying it.
  datatype Entry = Entry(op: Op, now: int)

  predicate Holds(t: Table, name: string, token: nat) {
    name in t.held && t.held[name].token == token
  }

  function AcquireStep(t: Table, name: string, holder: string, deadline: int, ttl: int, now: int): (Table, Reply) {
    if !ValidName(name) then (t, Failed(BadName))
    else if holder == "" then (t, Failed(NoHolder))
    else if name in t.held then
      var rec := t.held[name];
      if rec.holder == holder
      then (t.(held := t.held[name := rec.(deadline := deadline, ttl := ttl)]), Reply(true, rec.token))
      else (t, Reply(false, rec.token))
    else if |t.held| >= MAX_HELD then (t, Failed(TooMany))
    else
      var rec := Record(name, holder, t.next + 1, now, deadline, ttl);
      (Table(t.held[name := rec], t.next + 1), Reply(true, t.next + 1))
  }

  function ReleaseStep(t: Table, name: string, holder: string, token: nat): (Table, Reply) {
    if !ValidName(name) then (t, Failed(BadName))
    else if name !in t.held then (t, Failed(NotHeld))
    else if t.held[name].holder != holder || t.held[name].token != token then (t, Failed(Fenced))
    else (t.(held := t.held - {name}), Reply(false, token))
  }

  function RenewStep(t: Table, name: string, holder: string, token: nat, deadline: int, ttl: int): (Table, Reply) {
    if !ValidName(name) then (t, Failed(BadName))
    else if name !in t.held then (t, Failed(NotHeld))
    else if t.held[name].holder != holder || t.held[name].token != token then (t, Failed(Fenced))
    else (t.(held := t.held[name := t.held[name].(deadline := deadline, ttl := ttl)]), Reply(true, token))
  }

  function ExpireStep(t: Table, name: string, token: nat): (Table, Reply) {
    if !ValidName(name) || !Holds(t, name, token) then (t, Reply(false, token))
    else (t.(held := t.held - {name}), Reply(true, token))
  }

  function Step(t: Table, op: Op, now: int): (Table, Reply) {
    match op
    case Acquire(name, holder, deadline, ttl) => AcquireStep(t, name, holder, deadline, ttl, now)
    case Release(name, holder, token) => ReleaseStep(t, name, holder, token)
    case Renew(name, holder, token, deadline, ttl) => RenewStep(t, name, holder, token, deadline, ttl)
    case Expire(name, token) => ExpireStep(t, name, token)
  }

  function Run(t: Table, es: seq<Entry>): Table {
    if es == [] then t
    else Step(Run(t, es[..|es| - 1]), es[|es| - 1].op, es[|es| - 1].now).0
  }

  lemma RunSnoc(t: Table, es: seq<Entry>, e: Entry)
    ensures Run(t, es + [e]) == Step(Run(t, es), e.op, e.now).0
  {
    assert (es + [e])[..|es|] == es;
  }

  lemma RunPrefix(t: Table, es: seq<Entry>, k: nat)
    requires k < |es|
    ensures Run(t, es[..k + 1]) == Step(Run(t, es[..k]), es[k].op, es[k].now).0
  {
    assert es[..k + 1] == es[..k] + [es[k]];
    RunSnoc(t, es[..k], es[k]);
  }

  // What every reachable table keeps.
  ghost predicate Wf(t: Table) {
    && |t.held| <= MAX_HELD
    && (forall n :: n in t.held ==> t.held[n].name == n && 1 <= t.held[n].token <= t.next)
    && (forall m, n :: m in t.held && n in t.held && t.held[m].token == t.held[n].token ==> m == n)
  }

  // The four things an operation can do to the table.
  ghost predicate Refreshed(t: Table, name: string, t': Table) {
    && t'.next == t.next
    && name in t.held && name in t'.held
    && t'.held == t.held[name := t.held[name].(deadline := t'.held[name].deadline, ttl := t'.held[name].ttl)]
  }

  ghost predicate Dropped(t: Table, name: string, t': Table) {
    t'.next == t.next && name in t.held && t'.held == t.held - {name}
  }

  ghost predicate Granted(t: Table, op: Op, now: int, t': Table) {
    && op.Acquire? && op.name !in t.held && |t.held| < MAX_HELD
    && t'.next == t.next + 1
    && t'.held == t.held[op.name := Record(op.name, op.holder, t'.next, now, op.deadline, op.ttl)]
  }

  lemma StepCases(t: Table, op: Op, now: int)
    ensures var t' := Step(t, op, now).0;
            || t' == t
            || Granted(t, op, now, t')
            || (Refreshed(t, op.name, t') && (op.Acquire? || op.Renew?))
            || (Dropped(t, op.name, t') && (op.Release? || op.Expire?))
  {
    var t' := Step(t, op, now).0;
    if (op.Acquire? || op.Renew?) && op.name in t.held && t' != t {
      assert t'.held == t.held[op.name := t.held[op.name].(deadline := op.deadline, ttl := op.ttl)];
    }
  }

  lemma RefreshKeepsWf(t: Table, name: string, t': Table)
    requires Wf(t) && Refreshed(t, name, t')
    ensures Wf(t')
  {
    assert t'.held.Keys == t.held.Keys;
    assert |t'.held| == |t'.held.Keys| == |t.held|;
  }

  lemma DropKeepsWf(t: Table, name: string, t': Table)
    requires Wf(t) && Dropped(t, name, t')
    ensures Wf(t')
  {
    assert t'.held.Keys == t.held.Keys - {name};
    assert |t'.held| == |t'.held.Keys| < |t.held.Keys| == |t.held|;
  }

  lemma GrantGrows(held: map<string, Record>, name: string, rec: Record)
    requires name !in held
    ensures |held[name := rec]| == |held| + 1
  {
    var held' := held[name := rec];
    assert held'.Keys == held.Keys + {name};
    assert |held'| == |held'.Keys| && |held| == |held.Keys|;
  }

  lemma GrantKeepsWf(t: Table, op: Op, now: int, t': Table)
    requires Wf(t) && Granted(t, op, now, t')
    ensures Wf(t')
  {
    var rec := Record(op.name, op.holder, t'.next, now, op.deadline, op.ttl);
    GrantGrows(t.held, op.name, rec);
    forall n | n in t'.held
      ensures t'.held[n] == if n == op.name then rec else t.held[n]
    {
    }
  }

  lemma StepKeepsWf(t: Table, op: Op, now: int)
    requires Wf(t)
    ensures Wf(Step(t, op, now).0)
  {
    var t' := Step(t, op, now).0;
    StepCases(t, op, now);
    if Granted(t, op, now, t') {
      GrantKeepsWf(t, op, now, t');
    } else if Dropped(t, op.name, t') {
      DropKeepsWf(t, op.name, t');
    } else if Refreshed(t, op.name, t') {
      RefreshKeepsWf(t, op.name, t');
    }
  }

  lemma {:induction false} RunKeepsWf(t: Table, es: seq<Entry>)
    requires Wf(t)
    ensures Wf(Run(t, es))
    decreases |es|
  {
    if es != [] {
      RunKeepsWf(t, es[..|es| - 1]);
      StepKeepsWf(Run(t, es[..|es| - 1]), es[|es| - 1].op, es[|es| - 1].now);
    }
  }
}

/**
 Fencing: token order is grant order, and commands that carry a token touch
 nothing but the grant that was issued it.
 */
module Fencing {
  import opened Names
  import opened Grants

  // The operation hands out a new grant, not a refresh or a refusal.
  predicate Fresh(t: Table, op: Op) {
    op.Acquire? && ValidName(op.name) && op.holder != "" && op.name !in t.held && |t.held| < MAX_HELD
  }

  predicate FreshAt(es: seq<Entry>, j: nat) {
    j < |es| && Fresh(Run(EMPTY, es[..j]), es[j].op)
  }

  // The token in the reply to entry j.
  function TokenAt(es: seq<Entry>, j: nat): nat
    requires FreshAt(es, j)
  {
    Step(Run(EMPTY, es[..j]), es[j].op, es[j].now).1.token
  }

  // The tokens handed out over a log, in log order.
  function Issued(es: seq<Entry>): seq<nat> {
    if es == [] then []
    else
      var before := es[..|es| - 1];
      var e := es[|es| - 1];
      var t := Run(EMPTY, before);
      if Fresh(t, e.op) then Issued(before) + [Step(t, e.op, e.now).1.token] else Issued(before)
  }

  lemma FreshCases(t: Table, op: Op, now: int)
    ensures Fresh(t, op) ==> Granted(t, op, now, Step(t, op, now).0) && Step(t, op, now).1 == Reply(true, t.next + 1)
    ensures !Fresh(t, op) ==>
              || Step(t, op, now).0 == t
              || Refreshed(t, op.name, Step(t, op, now).0)
              || Dropped(t, op.name, Step(t, op, now).0)
  {
    StepCases(t, op, now);
  }

  lemma {:induction false} IssuedCounts(es: seq<Entry>)
    ensures |Issued(es)| == Run(EMPTY, es).next
    ensures forall k :: 0 <= k < |Issued(es)| ==> Issued(es)[k] == k + 1
    decreases |es|
  {
    if es != [] {
      var before, e := es[..|es| - 1], es[|es| - 1];
      IssuedCounts(before);
      FreshCases(Run(EMPTY, before), e.op, e.now);
    }
  }

  // Over every log the k-th grant is issued token k, so each fresh token exceeds
  // every earlier one; held tokens are distinct, issued, and within capacity.
  lemma TokenOrderIsGrantOrder(es: seq<Entry>)
    ensures |Issued(es)| == Run(EMPTY, es).next
    ensures forall k :: 0 <= k < |Issued(es)| ==> Issued(es)[k] == k + 1
    ensures Wf(Run(EMPTY, es))
    ensures forall n :: n in Run(EMPTY, es).held ==> Run(EMPTY, es).held[n].token in Issued(es)
  {
    RunKeepsWf(EMPTY, es);
    IssuedCounts(es);
    var held := Run(EMPTY, es).held;
    forall n | n in held
      ensures held[n].token in Issued(es)
    {
      assert Issued(es)[held[n].token - 1] == held[n].token;
    }
  }

  lemma NextStep(t: Table, es: seq<Entry>, k: nat)
    requires k < |es|
    ensures Run(t, es[..k]).next <= Run(t, es[..k + 1]).next
  {
    RunPrefix(t, es, k);
    StepCases(Run(t, es[..k]), es[k].op, es[k].now);
  }

  lemma {:induction false} NextIsMonotone(t: Table, es: seq<Entry>, i: nat, j: nat)
    requires i <= j <= |es|
    ensures Run(t, es[..i]).next <= Run(t, es[..j]).next
    decreases j - i
  {
    if i < j {
      NextIsMonotone(t, es, i, j - 1);
      NextStep(t, es, j - 1);
    }
  }

  // No two grants of a log ever get the same token; the later one gets the larger.
  lemma LaterGrantLargerToken(es: seq<Entry>, i: nat, j: nat)
    requires i < j && FreshAt(es, i) && FreshAt(es, j)
    ensures TokenAt(es, i) < TokenAt(es, j)
  {
    RunPrefix(EMPTY, es, i);
    NextIsMonotone(EMPTY, es, i + 1, j);
  }

  // The grant held under name at point i was issued at some j and has been
  // current, with the same holder and token, at every point since.
  ghost predicate CurrentSince(es: seq<Entry>, name: string, token: nat, j: nat, i: nat)
    requires i <= |es|
  {
    && j < i
    && FreshAt(es, j) && es[j].op.name == name && TokenAt(es, j) == token
    && forall k :: j < k <= i ==>
         Holds(Run(EMPTY, es[..k]), name, token) && Run(EMPTY, es[..k]).held[name].holder == es[j].op.holder
  }

  // What one entry does to the grant under name.
  lemma StepToHeld(t: Table, e: Entry, name: string)
    requires name in Step(t, e.op, e.now).0.held
    ensures var rec := Step(t, e.op, e.now).0.held[name];
            || (Fresh(t, e.op) && e.op.name == name && rec.holder == e.op.holder
                && rec.token == Step(t, e.op, e.now).1.token)
            || (name in t.held && rec.token == t.held[name].token && rec.holder == t.held[name].holder)
  {
    FreshCases(t, e.op, e.now);
  }

  lemma {:induction false} GrantHasOrigin(es: seq<Entry>, name: string, i: nat) returns (j: nat)
    requires i <= |es| && name in Run(EMPTY, es[..i]).held
    ensures CurrentSince(es, name, Run(EMPTY, es[..i]).held[name].token, j, i)
    decreases i
  {
    assert i > 0;
    var before := Run(EMPTY, es[..i - 1]);
    RunPrefix(EMPTY, es, i - 1);
    StepToHeld(before, es[i - 1], name);
    if Fresh(before, es[i - 1].op) && es[i - 1].op.name == name {
      j := i - 1;
    } else {
      j := GrantHasOrigin(es, name, i - 1);
    }
  }

  predicate CarriesToken(op: Op) {
    op.Release? || op.Renew? || op.Expire?
  }

  // A token has one grant.
  lemma OneGrantPerToken(es: seq<Entry>, i: nat, j: nat)
    requires FreshAt(es, i) && FreshAt(es, j) && TokenAt(es, i) == TokenAt(es, j)
    ensures i == j
  {
    if i < j {
      LaterGrantLargerToken(es, i, j);
    } else if j < i {
      LaterGrantLargerToken(es, j, i);
    }
  }

  lemma StaleStep(t: Table, op: Op, now: int)
    requires CarriesToken(op) && Step(t, op, now).0 != t
    ensures Holds(t, op.name, op.token) && (!op.Expire? ==> t.held[op.name].holder == op.holder)
    ensures Step(t, op, now).0.held - {op.name} == t.held - {op.name}
  {
  }

  // A Release, Renew or Expire that changes anything acts on the one grant that
  // was issued its token, still current, and (unless it is an expiry) for its holder.
  lemma StaleCommandsAreHarmless(es: seq<Entry>, i: nat) returns (j: nat)
    requires i < |es| && CarriesToken(es[i].op)
    requires Run(EMPTY, es[..i + 1]) != Run(EMPTY, es[..i])
    ensures CurrentSince(es, es[i].op.name, es[i].op.token, j, i)
    ensures !es[i].op.Expire? ==> es[i].op.holder == es[j].op.holder
    ensures forall j': nat :: FreshAt(es, j') && TokenAt(es, j') == es[i].op.token ==> j' == j
    ensures Run(EMPTY, es[..i + 1]).held - {es[i].op.name} == Run(EMPTY, es[..i]).held - {es[i].op.name}
  {
    RunPrefix(EMPTY, es, i);
    StaleStep(Run(EMPTY, es[..i]), es[i].op, es[i].now);
    j := GrantHasOrigin(es, es[i].op.name, i);
    forall j': nat | FreshAt(es, j') && TokenAt(es, j') == es[i].op.token
      ensures j' == j
    {
      OneGrantPerToken(es, j', j);
    }
  }

  // Issued once and no longer held under any name.
  ghost predicate Spent(t: Table, token: nat) {
    token <= t.next && forall n :: n in t.held ==> t.held[n].token != token
  }

  // The log with every command that carries one of these tokens taken out.
  function Without(es: seq<Entry>, tokens: set<nat>): seq<Entry> {
    if es == [] then []
    else
      var rest := Without(es[..|es| - 1], tokens);
      var e := es[|es| - 1];
      if CarriesToken(e.op) && e.op.token in tokens then rest else rest + [e]
  }

  lemma StepKeepsSpent(t: Table, op: Op, now: int, token: nat)
    requires Wf(t) && Spent(t, token)
    ensures Spent(Step(t, op, now).0, token)
    ensures CarriesToken(op) && op.token == token ==> Step(t, op, now).0 == t
  {
    StepCases(t, op, now);
  }

  // Spent tokens stay spent, so commands carrying them, however delayed,
  // duplicated or reordered among later commands, make no difference to any run.
  lemma {:induction false} DelayedCopiesChangeNothing(t: Table, es: seq<Entry>, tokens: set<nat>)
    requires Wf(t) && forall tok :: tok in tokens ==> Spent(t, tok)
    ensures Run(t, es) == Run(t, Without(es, tokens))
    ensures forall tok :: tok in tokens ==> Spent(Run(t, es), tok)
    decreases |es|
  {
    if es != [] {
      var before := es[..|es| - 1];
      var e := es[|es| - 1];
      DelayedCopiesChangeNothing(t, before, tokens);
      RunKeepsWf(t, before);
      forall tok | tok in tokens
        ensures Spent(Run(t, es), tok)
        ensures CarriesToken(e.op) && e.op.token == tok ==> Run(t, es) == Run(t, before)
      {
        StepKeepsSpent(Run(t, before), e.op, e.now, tok);
      }
      if !(CarriesToken(e.op) && e.op.token in tokens) {
        RunSnoc(t, Without(before, tokens), e);
      }
    }
  }

  predicate DropsGrant(op: Op, name: string, token: nat) {
    op.name == name && ((op.Release? && op.token == token) || (op.Expire? && op.token == token))
  }

  lemma StepKeepsGrant(t: Table, op: Op, now: int, name: string)
    requires name in t.held && !DropsGrant(op, name, t.held[name].token)
    ensures var t' := Step(t, op, now).0;
            && Holds(t', name, t.held[name].token)
            && t'.held[name].holder == t.held[name].holder && t'.held[name].grantedAt == t.held[name].grantedAt
  {
  }

  // A grant keeps its token, holder and time of grant through every log that holds
  // no release or expiry of it, whoever else asks for the name; and its holder,
  // asking again at the end of it, is answered with that same token.
  lemma {:induction false} ReacquireKeepsToken(t: Table, es: seq<Entry>, name: string,
                                               deadline: int, ttl: int, now: int)
    requires ValidName(name) && name in t.held && t.held[name].holder != ""
    requires forall i :: 0 <= i < |es| ==> !DropsGrant(es[i].op, name, t.held[name].token)
    ensures var t', rec := Run(t, es), t.held[name];
            && Holds(t', name, rec.token)
            && t'.held[name].holder == rec.holder && t'.held[name].grantedAt == rec.grantedAt
            && Step(t', Acquire(name, rec.holder, deadline, ttl), now).1 == Reply(true, rec.token)
    decreases |es|
  {
    if es != [] {
      var before, e := es[..|es| - 1], es[|es| - 1];
      ReacquireKeepsToken(t, before, name, deadline, ttl, now);
      StepKeepsGrant(Run(t, before), e.op, e.now, name);
    }
  }
}
