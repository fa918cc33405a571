/** The lock table: locks.Table as an object, each method tied to its grant step. */
module Locks {
  import opened Names
  import opened Grants
  import opened Listing

  datatype LockExpired = LockExpired(name: string, holder: string, token: nat)

  // The one event a lock table emits: a grant dropped by expiry.
  function ExpiryEvents(t: Table, name: string, token: nat): seq<LockExpired> {
    if ValidName(name) && Holds(t, name, token)
    then [LockExpired(name, t.held[name].holder, token)]
    else []
  }

  // lock.expired is emitted if and only if an expiry drops a grant, once, and names the
  // grant, its holder and its token.
  lemma ExpiryIsAnnounced(t: Table, name: string, token: nat)
    ensures var dropped := name in t.held && name !in ExpireStep(t, name, token).0.held;
            && (dropped <==> ExpiryEvents(t, name, token) != [])
            && (dropped ==>
                  ExpiryEvents(t, name, token) == [LockExpired(name, t.held[name].holder, t.held[name].token)])
  {
  }

  class LockTable {
    var locks: map<string, Record>
    var next: nat
    var emitted: seq<LockExpired>  // what the Emit hook has been given

    function View(): Table
      reads this
    {
      Table(locks, next)
    }

    constructor ()
      ensures View() == EMPTY && emitted == []
    {
      locks, next, emitted := map[], 0, [];
    }

    method Acquire(name: string, holder: string, deadline: int, ttl: int, now: int) returns (reply: Reply)
      modifies this
      ensures (View(), reply) == AcquireStep(old(View()), name, holder, deadline, ttl, now)
      ensures emitted == old(emitted)
    {
      if !ValidName(name) {
        return Failed(BadName);
      }
      if holder == "" {
        return Failed(NoHolder);
      }
      if name in locks {
        var rec := locks[name];
        if rec.holder == holder {
          locks := locks[name := rec.(deadline := deadline, ttl := ttl)];
          return Reply(true, rec.token);
        }
        return Reply(false, rec.token);
      }
      if |locks| >= MAX_HELD {
        return Failed(TooMany);
      }
      next := next + 1;
      locks := locks[name := Record(name, holder, next, now, deadline, ttl)];
      return Reply(true, next);
    }

    method Release(name: string, holder: string, token: nat) returns (reply: Reply)
      modifies this
      ensures (View(), reply) == ReleaseStep(old(View()), name, holder, token)
      ensures emitted == old(emitted)
    {
      if !ValidName(name) {
        return Failed(BadName);
      }
      if name !in locks {
        return Failed(NotHeld);
      }
      if locks[name].holder != holder || locks[name].token != token {
        return Failed(Fenced);
      }
      locks := locks - {name};
      return Reply(false, token);
    }

    method Renew(name: string, holder: string, token: nat, deadline: int, ttl: int) returns (reply: Reply)
      modifies this
      ensures (View(), reply) == RenewStep(old(View()), name, holder, token, deadline, ttl)
      ensures emitted == old(emitted)
    {
      if !ValidName(name) {
        return Failed(BadName);
      }
      if name !in locks {
        return Failed(NotHeld);
      }
      var rec := locks[name];
      if rec.holder != holder || rec.token != token {
        return Failed(Fenced);
      }
      locks := locks[name := rec.(deadline := deadline, ttl := ttl)];
      return Reply(true, token);
    }

    method Expire(name: string, token: nat) returns (reply: Reply)
      modifies this
      ensures (View(), reply) == ExpireStep(old(View()), name, token)
      ensures emitted == old(emitted) + ExpiryEvents(old(View()), name, token)
    {
      if !ValidName(name) {
        return Reply(false, token);
      }
      if name !in locks || locks[name].token != token {
        return Reply(false, token);
      }
      var rec := locks[name];
      locks := locks - {name};
      emitted := emitted + [LockExpired(name, rec.holder, rec.token)];
      return Reply(true, token);
    }

    // The grants whose deadline is set and has passed, in strictly increasing name order.
    method Due(now: int) returns (out: seq<Record>)
      requires Named(locks)
      ensures SortedBy(out, NameOf) && Lists(out, DueOf(locks, now))
    {
      out := CollectDue(locks, now);
      out := SortByName(out, DueOf(locks, now));
    }

    method List() returns (out: seq<Record>)
      requires Named(locks)
      ensures SortedBy(out, NameOf) && Lists(out, locks)
    {
      out := CollectAll(locks);
      out := SortByName(out, locks);
    }

    method SnapshotCopy() returns (recs: seq<Record>, n: nat)
      requires Named(locks)
      ensures Lists(recs, locks) && n == next
    {
      recs := CollectAll(locks);
      n := next;
    }

    method Restore(recs: seq<Record>, n: nat)
      modifies this
      ensures View() == Table(RestoreHeld(recs), n)
      ensures emitted == old(emitted)
    {
      locks := map[];
      for i := 0 to |recs|
        invariant locks == RestoreHeld(recs[..i])
        invariant emitted == old(emitted)
      {
        assert recs[..i + 1][..i] == recs[..i];
        locks := locks[recs[i].name := recs[i]];
      }
      assert recs[..|recs|] == recs;
      next := n;
    }
  }
}
