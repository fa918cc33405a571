/** The heartbeat monitor: how a run of failed pings becomes a report of death. */
module Heartbeat {
  datatype Peer = Peer(id: string, alive: bool)

  datatype Ping = Ping(id: string, failed: bool)

  function Misses(m: map<string, nat>, id: string): nat {
    if id in m then m[id] else 0
  }

  // What one ping does to the counters, and whether it reports the peer.
  function PingStep(m: map<string, nat>, p: Ping, maxMisses: int): (map<string, nat>, bool) {
    if !p.failed then (m - {p.id}, false)
    else if Misses(m, p.id) + 1 >= maxMisses then (m - {p.id}, true)
    else (m[p.id := Misses(m, p.id) + 1], false)
  }

  function Run(h: seq<Ping>, maxMisses: int): map<string, nat> {
    if h == [] then map[] else PingStep(Run(h[..|h| - 1], maxMisses), h[|h| - 1], maxMisses).0
  }

  // The reference: how many pings of id in a row have failed up to now.
  function FailedRun(h: seq<Ping>, id: string): nat {
    if h == [] then 0
    else
      var before, p := FailedRun(h[..|h| - 1], id), h[|h| - 1];
      if p.id != id then before else if p.failed then before + 1 else 0
  }

  // A limit below one acts as one.
  function Limit(maxMisses: int): nat {
    if maxMisses < 1 then 1 else maxMisses
  }

  lemma {:induction false} MulMonotone(m: nat, a: nat, b: nat)
    requires a < b
    ensures m * a + m <= m * b
    decreases b
  {
    assert m * b == m * (b - 1) + m;
    if a < b - 1 {
      MulMonotone(m, a, b - 1);
    }
  }

  lemma UniqueRemainder(x: nat, q: nat, r: nat, m: nat)
    requires r < m && x == m * q + r
    ensures x % m == r
  {
    var q', r' := x / m, x % m;
    assert x == m * q' + r';
    if q' < q {
      MulMonotone(m, q', q);
    } else if q < q' {
      MulMonotone(m, q, q');
    }
  }

  lemma ModStep(t: nat, m: nat)
    requires m > 0
    ensures (t + 1) % m == if t % m + 1 == m then 0 else t % m + 1
  {
    var q, r := t / m, t % m;
    assert t == m * q + r;
    if r + 1 == m {
      assert m * (q + 1) == m * q + m;
      UniqueRemainder(t + 1, q + 1, 0, m);
    } else {
      UniqueRemainder(t + 1, q, r + 1, m);
    }
  }

  // For every ping history a peer's counter is its current run of failures counted
  // since the last success or report, so it stays below the limit; and the next
  // ping reports the peer exactly when it completes another full run of failures.
  lemma {:induction false} CounterIsFailedRun(h: seq<Ping>, maxMisses: int, id: string)
    ensures Misses(Run(h, maxMisses), id) == FailedRun(h, id) % Limit(maxMisses)
    ensures Misses(Run(h, maxMisses), id) < Limit(maxMisses)
    decreases |h|
  {
    if h != [] {
      var before, p := h[..|h| - 1], h[|h| - 1];
      CounterIsFailedRun(before, maxMisses, id);
      if p.id == id && p.failed {
        ModStep(FailedRun(before, id), Limit(maxMisses));
      }
    }
  }

  lemma ReportsExactlyAtLimit(h: seq<Ping>, maxMisses: int, p: Ping)
    ensures PingStep(Run(h, maxMisses), p, maxMisses).1
       <==> p.failed && FailedRun(h + [p], p.id) % Limit(maxMisses) == 0
  {
    assert (h + [p])[..|h|] == h;
    CounterIsFailedRun(h, maxMisses, p.id);
    ModStep(FailedRun(h, p.id), Limit(maxMisses));
  }

  // One tick: the pings it makes, given which addresses do not answer.
  function TickPings(selfId: string, members: seq<Peer>, silent: set<string>): seq<Ping> {
    if members == [] then []
    else
      var before, p := TickPings(selfId, members[..|members| - 1], silent), members[|members| - 1];
      if p.id == selfId || !p.alive then before else before + [Ping(p.id, p.id in silent)]
  }

  function RunFrom(m: map<string, nat>, h: seq<Ping>, maxMisses: int): (map<string, nat>, seq<string>) {
    if h == [] then (m, [])
    else
      var (m', reported) := RunFrom(m, h[..|h| - 1], maxMisses);
      var p := h[|h| - 1];
      var (m'', dead) := PingStep(m', p, maxMisses);
      (m'', if dead then reported + [p.id] else reported)
  }

  // A tick pings every alive member but the node itself, in list order, and no one else.
  lemma {:induction false} TickPingsAre(selfId: string, members: seq<Peer>, silent: set<string>, id: string)
    ensures Ping(id, id in silent) in TickPings(selfId, members, silent) <==> id != selfId && Peer(id, true) in members
    ensures Ping(id, id !in silent) !in TickPings(selfId, members, silent)
    decreases |members|
  {
    if members != [] {
      var before, p := members[..|members| - 1], members[|members| - 1];
      TickPingsAre(selfId, before, silent, id);
      assert members == before + [p];
    }
  }

  // Ping j of a tick, after history h, is a failure that completes a run of failures of id.
  predicate Completes(h: seq<Ping>, tick: seq<Ping>, j: nat, maxMisses: int, id: string)
    requires j < |tick|
  {
    tick[j].id == id && tick[j].failed && FailedRun(h + tick[..j + 1], id) % Limit(maxMisses) == 0
  }

  lemma CompletesBefore(h: seq<Ping>, tick: seq<Ping>, k: nat, j: nat, maxMisses: int, id: string)
    requires j < k <= |tick|
    ensures Completes(h, tick[..k], j, maxMisses, id) <==> Completes(h, tick, j, maxMisses, id)
  {
    assert tick[..k][..j + 1] == tick[..j + 1];
  }

  lemma PingCompletes(h: seq<Ping>, tick: seq<Ping>, k: nat, maxMisses: int)
    requires k < |tick|
    ensures PingStep(Run(h + tick[..k], maxMisses), tick[k], maxMisses).1
       <==> Completes(h, tick, k, maxMisses, tick[k].id)
  {
    ReportsExactlyAtLimit(h + tick[..k], maxMisses, tick[k]);
    assert h + tick[..k + 1] == h + tick[..k] + [tick[k]];
  }

  lemma LastReport(m: map<string, nat>, tick: seq<Ping>, maxMisses: int, id: string)
    requires tick != []
    ensures var k := |tick| - 1;
            var (m', reported) := RunFrom(m, tick[..k], maxMisses);
            id in RunFrom(m, tick, maxMisses).1
            <==> id in reported || (id == tick[k].id && PingStep(m', tick[k], maxMisses).1)
  {
  }

  // What a tick reports: the peers of the pings that complete a run of failures.
  lemma {:induction false} ReportsAre(h: seq<Ping>, tick: seq<Ping>, maxMisses: int, id: string)
    ensures id in RunFrom(Run(h, maxMisses), tick, maxMisses).1
       <==> exists j :: 0 <= j < |tick| && Completes(h, tick, j, maxMisses, id)
    decreases |tick|
  {
    if tick != [] {
      var k := |tick| - 1;
      ReportsAre(h, tick[..k], maxMisses, id);
      TicksCompose(h, tick[..k], maxMisses);
      PingCompletes(h, tick, k, maxMisses);
      LastReport(Run(h, maxMisses), tick, maxMisses, id);
      forall j | 0 <= j < k
        ensures Completes(h, tick[..k], j, maxMisses, id) <==> Completes(h, tick, j, maxMisses, id)
      {
        CompletesBefore(h, tick, k, j, maxMisses, id);
      }
    }
  }

  // A tick never reports the node itself, nor a member that is not alive.
  lemma {:induction false} NeverReportsSelf(m: map<string, nat>, selfId: string, members: seq<Peer>,
                                            silent: set<string>, maxMisses: int)
    ensures forall id :: id in RunFrom(m, TickPings(selfId, members, silent), maxMisses).1 ==>
              id != selfId && Peer(id, true) in members && id in silent
    decreases |members|
  {
    if members != [] {
      var before, p := members[..|members| - 1], members[|members| - 1];
      NeverReportsSelf(m, selfId, before, silent, maxMisses);
      assert members == before + [p];
      var h := TickPings(selfId, before, silent);
      if p.id != selfId && p.alive {
        assert (h + [Ping(p.id, p.id in silent)])[..|h|] == h;
      }
    }
  }

  // Ticks compose: the counters after any sequence of ticks are those of the whole ping history.
  lemma {:induction false} TicksCompose(h: seq<Ping>, tick: seq<Ping>, maxMisses: int)
    ensures RunFrom(Run(h, maxMisses), tick, maxMisses).0 == Run(h + tick, maxMisses)
    decreases |tick|
  {
    if tick == [] {
      assert h + tick == h;
    } else {
      TicksCompose(h, tick[..|tick| - 1], maxMisses);
      assert (h + tick)[..|h + tick| - 1] == h + tick[..|tick| - 1];
    }
  }

  class Monitor {
    var misses: map<string, nat>
    const maxMisses: int

    constructor (maxMisses: int)
      ensures misses == map[] && this.maxMisses == maxMisses
    {
      misses, this.maxMisses := map[], maxMisses;
    }

    method Tick(selfId: string, members: seq<Peer>, silent: set<string>) returns (reported: seq<string>)
      modifies this
      ensures (misses, reported) == RunFrom(old(misses), TickPings(selfId, members, silent), maxMisses)
    {
      reported := [];
      for i := 0 to |members|
        invariant (misses, reported) == RunFrom(old(misses), TickPings(selfId, members[..i], silent), maxMisses)
      {
        var mem := members[i];
        assert members[..i + 1][..i] == members[..i];
        if mem.id == selfId {
          continue;
        }
        if !mem.alive {
          continue;
        }
        RunFromSnoc(old(misses), TickPings(selfId, members[..i], silent), Ping(mem.id, mem.id in silent), maxMisses);
        var dead := Note(Ping(mem.id, mem.id in silent));
        if dead {
          reported := reported + [mem.id];
        }
      }
      assert members[..|members|] == members;
    }

    // The part of tick under the monitor's lock; dead tells that the peer is reported.
    method Note(p: Ping) returns (dead: bool)
      modifies this
      ensures (misses, dead) == PingStep(old(misses), p, maxMisses)
    {
      if p.failed {
        var n := 1;
        if p.id in misses {
          n := misses[p.id] + 1;
        }
        misses := misses[p.id := n];
        if n >= maxMisses {
          misses := misses - {p.id};
          assert misses == old(misses) - {p.id};
          return true;
        }
      } else {
        misses := misses - {p.id};
      }
      return false;
    }
  }

  lemma RunFromSnoc(m: map<string, nat>, h: seq<Ping>, p: Ping, maxMisses: int)
    ensures RunFrom(m, h + [p], maxMisses)
         == (PingStep(RunFrom(m, h, maxMisses).0, p, maxMisses).0,
             if PingStep(RunFrom(m, h, maxMisses).0, p, maxMisses).1 then RunFrom(m, h, maxMisses).1 + [p.id]
             else RunFrom(m, h, maxMisses).1)
  {
    assert (h + [p])[..|h|] == h;
  }
}
