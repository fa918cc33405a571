/** The lease table: leases.Table as an object, and the events it emits. */
module Leases {
  import opened Names
  import opened Grants
  import opened Fencing
  import opened Listing

  datatype Kind = LeaseGranted | LeaseExpired | LeaseRevoked

  datatype Event = Event(kind: Kind, name: string, owner: string, token: nat)

  function EventOf(kind: Kind, rec: Record): Event {
    Event(kind, rec.name, rec.holder, rec.token)
  }

  // What applying op to t emits.
  function EventsOf(t: Table, op: Op): seq<Event> {
    match op
    case Acquire(name, holder, _, _) =>
      if Fresh(t, op) then [Event(LeaseGranted, name, holder, t.next + 1)] else []
    case Release(name, holder, token) =>
      if ValidName(name) && Holds(t, name, token) && t.held[name].holder == holder
      then [EventOf(LeaseRevoked, t.held[name])] else []
    case Renew(_, _, _, _, _) => []
    case Expire(name, token) =>
      if ValidName(name) && Holds(t, name, token) then [EventOf(LeaseExpired, t.held[name])] else []
  }

  class LeaseTable {
    var leases: map<string, Record>
    var next: nat
    var emitted: seq<Event>  // what the Emit hook has been given

    function View(): Table
      reads this
    {
      Table(leases, next)
    }

    constructor ()
      ensures View() == EMPTY && emitted == []
    {
      leases, next, emitted := map[], 0, [];
    }

    method Grant(name: string, owner: string, deadline: int, ttl: int, now: int) returns (reply: Reply)
      modifies this
      ensures (View(), reply) == AcquireStep(old(View()), name, owner, deadline, ttl, now)
      ensures emitted == old(emitted) + EventsOf(old(View()), Acquire(name, owner, deadline, ttl))
    {
      if !ValidName(name) {
        return Failed(BadName);
      }
      if owner == "" {
        return Failed(NoHolder);
      }
      if name in leases {
        var rec := leases[name];
        if rec.holder == owner {
          leases := leases[name := rec.(deadline := deadline, ttl := ttl)];
          return Reply(true, rec.token);
        }
        return Reply(false, rec.token);
      }
      if |leases| >= MAX_HELD {
        return Failed(TooMany);
      }
      next := next + 1;
      var rec := Record(name, owner, next, now, deadline, ttl);
      leases := leases[name := rec];
      emitted := emitted + [EventOf(LeaseGranted, rec)];
      return Reply(true, next);
    }

    method Renew(name: string, owner: string, token: nat, deadline: int, ttl: int) returns (reply: Reply)
      modifies this
      ensures (View(), reply) == RenewStep(old(View()), name, owner, token, deadline, ttl)
      ensures emitted == old(emitted)
    {
      if !ValidName(name) {
        return Failed(BadName);
      }
      if name !in leases {
        return Failed(NotHeld);
      }
      var rec := leases[name];
      if rec.holder != owner || rec.token != token {
        return Failed(Fenced);
      }
      leases := leases[name := rec.(deadline := deadline, ttl := ttl)];
      return Reply(true, token);
    }

    method Revoke(name: string, owner: string, token: nat) returns (reply: Reply)
      modifies this
      ensures (View(), reply) == ReleaseStep(old(View()), name, owner, token)
      ensures emitted == old(emitted) + EventsOf(old(View()), Release(name, owner, token))
    {
      if !ValidName(name) {
        return Failed(BadName);
      }
      if name !in leases {
        return Failed(NotHeld);
      }
      var rec := leases[name];
      if rec.holder != owner || rec.token != token {
        return Failed(Fenced);
      }
      leases := leases - {name};
      emitted := emitted + [EventOf(LeaseRevoked, rec)];
      return Reply(false, token);
    }

    method Expire(name: string, token: nat) returns (reply: Reply)
      modifies this
      ensures (View(), reply) == ExpireStep(old(View()), name, token)
      ensures emitted == old(emitted) + EventsOf(old(View()), Op.Expire(name, token))
    {
      if !ValidName(name) {
        return Reply(false, token);
      }
      if name !in leases || leases[name].token != token {
        return Reply(false, token);
      }
      var rec := leases[name];
      leases := leases - {name};
      emitted := emitted + [EventOf(LeaseExpired, rec)];
      return Reply(true, token);
    }

    method Due(now: int) returns (out: seq<Record>)
      requires Named(leases)
      ensures SortedBy(out, NameOf) && Lists(out, DueOf(leases, now))
    {
      out := CollectDue(leases, now);
      out := SortByName(out, DueOf(leases, now));
    }

    method SnapshotCopy() returns (recs: seq<Record>, n: nat)
      requires Named(leases)
      ensures Lists(recs, leases) && n == next
    {
      recs := CollectAll(leases);
      n := next;
    }

    method Restore(recs: seq<Record>, n: nat)
      modifies this
      ensures View() == Table(RestoreHeld(recs), n)
      ensures emitted == old(emitted)
    {
      leases := map[];
      for i := 0 to |recs|
        invariant leases == RestoreHeld(recs[..i])
        invariant emitted == old(emitted)
      {
        assert recs[..i + 1][..i] == recs[..i];
        leases := leases[recs[i].name := recs[i]];
      }
      assert recs[..|recs|] == recs;
      next := n;
    }
  }
}

/** Lease events over whole runs: what was granted is held, expired or revoked. */
module LeaseEvents {
  import opened Grants
  import opened Fencing
  import opened Leases

  function Emitted(es: seq<Entry>): seq<Event> {
    if es == [] then []
    else Emitted(es[..|es| - 1]) + EventsOf(Run(EMPTY, es[..|es| - 1]), es[|es| - 1].op)
  }

  function Total(evs: seq<Event>, kind: Kind): nat {
    if evs == [] then 0
    else Total(evs[..|evs| - 1], kind) + (if evs[|evs| - 1].kind == kind then 1 else 0)
  }

  function Count(evs: seq<Event>, kind: Kind, token: nat): nat {
    if evs == [] then 0
    else
      var e := evs[|evs| - 1];
      Count(evs[..|evs| - 1], kind, token) + (if e.kind == kind && e.token == token then 1 else 0)
  }

  ghost predicate TokenHeld(t: Table, token: nat) {
    exists n :: n in t.held && t.held[n].token == token
  }

  // Granted minus expired minus revoked is what is held, in total and token by token.
  ghost predicate Conserved(evs: seq<Event>, t: Table) {
    && Total(evs, LeaseGranted) == Total(evs, LeaseExpired) + Total(evs, LeaseRevoked) + |t.held|
    && forall token :: Balanced(evs, t, token)
  }

  ghost predicate Balanced(evs: seq<Event>, t: Table, token: nat) {
    && Count(evs, LeaseGranted, token) == (if 1 <= token <= t.next then 1 else 0)
    && Count(evs, LeaseGranted, token)
       == Count(evs, LeaseExpired, token) + Count(evs, LeaseRevoked, token) + (if TokenHeld(t, token) then 1 else 0)
  }

  lemma CountSnoc(evs: seq<Event>, e: Event, kind: Kind, token: nat)
    ensures Count(evs + [e], kind, token)
         == Count(evs, kind, token) + (if e.kind == kind && e.token == token then 1 else 0)
    ensures Total(evs + [e], kind) == Total(evs, kind) + (if e.kind == kind then 1 else 0)
  {
    assert (evs + [e])[..|evs|] == evs;
  }

  // What a step does to the table, told by the events it emits.
  lemma EventCases(t: Table, op: Op, now: int)
    ensures var t' := Step(t, op, now).0;
            var evs := EventsOf(t, op);
            || (evs == [] && (t' == t || Refreshed(t, op.name, t')))
            || (op.Acquire? && evs == [Event(LeaseGranted, op.name, op.holder, t'.next)] && Granted(t, op, now, t'))
            || (Dropped(t, op.name, t')
                && exists kind :: kind != LeaseGranted && evs == [EventOf(kind, t.held[op.name])])
  {
    StepCases(t, op, now);
    FreshCases(t, op, now);
    if op.Expire? && EventsOf(t, op) != [] {
      assert EventsOf(t, op) == [EventOf(LeaseExpired, t.held[op.name])];
    }
    if op.Release? && EventsOf(t, op) != [] {
      assert EventsOf(t, op) == [EventOf(LeaseRevoked, t.held[op.name])];
    }
  }

  // Which event an operation emits: only an acquire grants, only a release revokes, only
  // an expiry expires, and a renewal emits nothing; each event names the lease granted or
  // dropped.
  lemma EventKinds(t: Table, op: Op, e: Event)
    requires Wf(t) && e in EventsOf(t, op)
    ensures e.kind == LeaseGranted <==> op.Acquire?
    ensures e.kind == LeaseRevoked <==> op.Release?
    ensures e.kind == LeaseExpired <==> op.Expire?
    ensures e.name == op.name && |EventsOf(t, op)| == 1
    ensures op.Acquire? ==> e.owner == op.holder && e.token == t.next + 1
    ensures !op.Acquire? ==> op.name in t.held && e.owner == t.held[op.name].holder && e.token == op.token
  {
  }

  lemma GrantBalances(evs: seq<Event>, t: Table, op: Op, now: int, t': Table, token: nat)
    requires Wf(t) && Granted(t, op, now, t') && Balanced(evs, t, token)
    ensures Balanced(evs + [Event(LeaseGranted, op.name, op.holder, t'.next)], t', token)
  {
    var e := Event(LeaseGranted, op.name, op.holder, t'.next);
    CountSnoc(evs, e, LeaseGranted, token);
    CountSnoc(evs, e, LeaseExpired, token);
    CountSnoc(evs, e, LeaseRevoked, token);
    assert t'.held[op.name].token == t'.next;
    if TokenHeld(t, token) {
      var n :| n in t.held && t.held[n].token == token;
      assert t'.held[n].token == token;
    }
    assert TokenHeld(t', token) <==> TokenHeld(t, token) || token == t'.next;
  }

  lemma DropBalances(evs: seq<Event>, t: Table, name: string, t': Table, kind: Kind, token: nat)
    requires Wf(t) && Dropped(t, name, t') && Balanced(evs, t, token) && kind != LeaseGranted
    ensures Balanced(evs + [EventOf(kind, t.held[name])], t', token)
  {
    var e := EventOf(kind, t.held[name]);
    CountSnoc(evs, e, LeaseGranted, token);
    CountSnoc(evs, e, LeaseExpired, token);
    CountSnoc(evs, e, LeaseRevoked, token);
    assert TokenHeld(t, e.token);
    if TokenHeld(t, token) && token != e.token {
      var n :| n in t.held && t.held[n].token == token;
      assert n in t'.held && t'.held[n].token == token;
    }
    assert TokenHeld(t', token) <==> TokenHeld(t, token) && token != e.token;
  }

  lemma RefreshBalances(evs: seq<Event>, t: Table, name: string, t': Table, token: nat)
    requires Refreshed(t, name, t') && Balanced(evs, t, token)
    ensures Balanced(evs, t', token)
  {
    if TokenHeld(t, token) {
      var n :| n in t.held && t.held[n].token == token;
      assert t'.held[n].token == token;
    }
  }

  lemma StepConserves(evs: seq<Event>, t: Table, op: Op, now: int)
    requires Wf(t) && Conserved(evs, t)
    ensures Conserved(evs + EventsOf(t, op), Step(t, op, now).0)
  {
    var t' := Step(t, op, now).0;
    EventCases(t, op, now);
    if EventsOf(t, op) == [] {
      assert evs + [] == evs;
      if t' != t {
        assert t'.held.Keys == t.held.Keys && |t'.held| == |t'.held.Keys|;
        forall token { RefreshBalances(evs, t, op.name, t', token); }
      }
    } else if Granted(t, op, now, t') {
      GrantConserves(evs, t, op, now, t');
    } else {
      var kind :| kind != LeaseGranted && EventsOf(t, op) == [EventOf(kind, t.held[op.name])];
      DropConserves(evs, t, op.name, t', kind);
    }
  }

  lemma GrantConserves(evs: seq<Event>, t: Table, op: Op, now: int, t': Table)
    requires Wf(t) && Conserved(evs, t) && Granted(t, op, now, t')
    ensures Conserved(evs + [Event(LeaseGranted, op.name, op.holder, t'.next)], t')
  {
    var e := Event(LeaseGranted, op.name, op.holder, t'.next);
    forall token { GrantBalances(evs, t, op, now, t', token); }
    CountSnoc(evs, e, LeaseGranted, 0);
    CountSnoc(evs, e, LeaseExpired, 0);
    CountSnoc(evs, e, LeaseRevoked, 0);
    assert t'.held.Keys == t.held.Keys + {op.name} && |t'.held| == |t'.held.Keys|;
  }

  lemma DropConserves(evs: seq<Event>, t: Table, name: string, t': Table, kind: Kind)
    requires Wf(t) && Conserved(evs, t) && Dropped(t, name, t') && kind != LeaseGranted
    ensures Conserved(evs + [EventOf(kind, t.held[name])], t')
  {
    var e := EventOf(kind, t.held[name]);
    forall token { DropBalances(evs, t, name, t', kind, token); }
    CountSnoc(evs, e, LeaseGranted, 0);
    CountSnoc(evs, e, LeaseExpired, 0);
    CountSnoc(evs, e, LeaseRevoked, 0);
    assert t.held.Keys == t'.held.Keys + {name} && |t'.held| == |t'.held.Keys|;
  }

  // Over every run: granted - expired - revoked == held, each issued token has
  // one granted event, and one terminal event exactly when it is no longer held.
  lemma {:induction false} EventConservation(es: seq<Entry>)
    ensures Conserved(Emitted(es), Run(EMPTY, es))
    decreases |es|
  {
    if es != [] {
      var before := es[..|es| - 1];
      EventConservation(before);
      RunKeepsWf(EMPTY, before);
      StepConserves(Emitted(before), Run(EMPTY, before), es[|es| - 1].op, es[|es| - 1].now);
    }
  }

  // Every terminal event closes an earlier granted event of the same lease:
  // same name, same owner, same token.
  ghost predicate Opened(evs: seq<Event>, i: nat)
    requires i < |evs|
  {
    exists j :: 0 <= j < i && evs[j] == evs[i].(kind := LeaseGranted)
  }

  ghost predicate WellNested(evs: seq<Event>, t: Table) {
    && (forall i :: 0 <= i < |evs| && evs[i].kind != LeaseGranted ==> Opened(evs, i))
    && (forall n :: n in t.held ==> EventOf(LeaseGranted, t.held[n]) in evs)
  }

  lemma StepNests(evs: seq<Event>, t: Table, op: Op, now: int)
    requires Wf(t) && WellNested(evs, t)
    ensures WellNested(evs + EventsOf(t, op), Step(t, op, now).0)
  {
    var t' := Step(t, op, now).0;
    var evs' := evs + EventsOf(t, op);
    EventCases(t, op, now);
    forall i | 0 <= i < |evs'| && evs'[i].kind != LeaseGranted
      ensures Opened(evs', i)
    {
      if i < |evs| {
        assert evs[i] == evs'[i] && Opened(evs, i);
        var j :| 0 <= j < i && evs[j] == evs[i].(kind := LeaseGranted);
        assert evs'[j] == evs[j];
      } else {
        assert op.name in t.held && evs'[i].(kind := LeaseGranted) == EventOf(LeaseGranted, t.held[op.name]);
        var j :| 0 <= j < |evs| && evs[j] == EventOf(LeaseGranted, t.held[op.name]);
        assert evs'[j] == evs[j];
      }
    }
    forall n | n in t'.held
      ensures EventOf(LeaseGranted, t'.held[n]) in evs'
    {
      if n in t.held {
        assert EventOf(LeaseGranted, t'.held[n]) == EventOf(LeaseGranted, t.held[n]);
      }
    }
  }

  lemma {:induction false} TerminalEventsCloseGrants(es: seq<Entry>)
    ensures WellNested(Emitted(es), Run(EMPTY, es))
    decreases |es|
  {
    if es != [] {
      var before := es[..|es| - 1];
      TerminalEventsCloseGrants(before);
      RunKeepsWf(EMPTY, before);
      StepNests(Emitted(before), Run(EMPTY, before), es[|es| - 1].op, es[|es| - 1].now);
    }
  }
}
