/** The bounded memory of recently seen event ids, as a value and over whole histories. */
module SeenIds {
  // A FIFO of at most cap ids (cap > 0).
  datatype Cache = Cache(q: seq<string>, cap: nat)

  function SeenOrAdd(c: Cache, id: string): (Cache, bool) {
    if id in c.q then (c, true)
    else if |c.q| >= c.cap && c.q != [] then (c.(q := c.q[1..] + [id]), false)
    else (c.(q := c.q + [id]), false)
  }

  function Run(cap: nat, ids: seq<string>): Cache {
    if ids == [] then Cache([], cap) else SeenOrAdd(Run(cap, ids[..|ids| - 1]), ids[|ids| - 1]).0
  }

  // The ids of a history that were answered "not seen", in order.
  function Admitted(cap: nat, ids: seq<string>): seq<string> {
    if ids == [] then []
    else
      var before, id := ids[..|ids| - 1], ids[|ids| - 1];
      if SeenOrAdd(Run(cap, before), id).1 then Admitted(cap, before) else Admitted(cap, before) + [id]
  }

  function LastOf(adm: seq<string>, cap: nat): seq<string> {
    if |adm| <= cap then adm else adm[|adm| - cap..]
  }

  // Over every history the cache holds exactly the last cap admitted ids.
  lemma {:induction false} CacheIsLastAdmitted(cap: nat, ids: seq<string>)
    requires cap > 0
    ensures Run(cap, ids) == Cache(LastOf(Admitted(cap, ids), cap), cap)
    decreases |ids|
  {
    if ids != [] {
      var before, id := ids[..|ids| - 1], ids[|ids| - 1];
      CacheIsLastAdmitted(cap, before);
      var adm, c := Admitted(cap, before), Run(cap, before);
      if id !in c.q {
        assert Admitted(cap, ids) == adm + [id];
        assert LastOf(adm + [id], cap) == SeenOrAdd(c, id).0.q;
      }
    }
  }

  // "Seen" is answered exactly for the last cap admitted ids.
  lemma SeenIffRecent(cap: nat, ids: seq<string>, id: string)
    requires cap > 0
    ensures SeenOrAdd(Run(cap, ids), id).1 <==> id in LastOf(Admitted(cap, ids), cap)
  {
    CacheIsLastAdmitted(cap, ids);
  }

  // An id is admitted again only after at least cap others have been admitted since.
  lemma {:induction false} ReadmittedOnlyAfterCap(cap: nat, ids: seq<string>, i: nat, j: nat)
    requires cap > 0 && i < j < |Admitted(cap, ids)|
    requires Admitted(cap, ids)[i] == Admitted(cap, ids)[j]
    ensures j - i > cap
    decreases |ids|
  {
    var before, id := ids[..|ids| - 1], ids[|ids| - 1];
    var adm := Admitted(cap, before);
    if j < |adm| {
      ReadmittedOnlyAfterCap(cap, before, i, j);
    } else {
      CacheIsLastAdmitted(cap, before);
      assert Admitted(cap, ids) == adm + [id] && j == |adm|;
      RecentIsKept(adm, cap, i);
    }
  }

  lemma RecentIsKept(adm: seq<string>, cap: nat, i: nat)
    requires i < |adm|
    ensures |adm| - i <= cap ==> adm[i] in LastOf(adm, cap)
  {
    var recent := LastOf(adm, cap);
    if |adm| - i <= cap {
      assert recent[i - (|adm| - |recent|)] == adm[i];
    }
  }
}

/** idCache as an object: a set for the lookup beside a queue for the order. */
module IdCaches {
  import S = SeenIds

  class IdCache {
    var m: set<string>
    var q: seq<string>
    const cap: nat

    // The set is the queue's contents, each id once, within capacity.
    ghost predicate Valid()
      reads this
    {
      && 0 < cap && |q| <= cap
      && m == (set x | x in q)
      && forall i, j :: 0 <= i < j < |q| ==> q[i] != q[j]
    }

    constructor (n: int)
      ensures Valid() && q == [] && cap == if n <= 0 then 1024 else n
    {
      cap := if n <= 0 then 1024 else n;
      m, q := {}, [];
    }

    method SeenOrAdd(id: string) returns (seen: bool)
      requires Valid()
      modifies this
      ensures Valid()
      ensures (S.Cache(q, cap), seen) == S.SeenOrAdd(S.Cache(old(q), cap), id)
    {
      if id in m {
        return true;
      }
      if |q| >= cap {
        var oldest := q[0];
        q := q[1..];
        m := m - {oldest};
        assert old(q) == [oldest] + q;
      }
      m := m + {id};
      q := q + [id];
      return false;
    }
  }
}

/**
 One-hop gossip of custom events: a client publish is relayed once to each alive
 peer, a relay is never relayed again, and the network may delay, reorder,
 duplicate or lose relays.
 */
module Gossip {
  import opened SeenIds

  const SEEN_CAP := 4096

  datatype Peer = Peer(id: string, alive: bool)

  // What one PublishEvent call puts on the wire.
  function Fanout(peers: seq<Peer>, selfId: string): seq<string> {
    if peers == [] then []
    else
      var before, p := Fanout(peers[..|peers| - 1], selfId), peers[|peers| - 1];
      if p.id == selfId || !p.alive then before else before + [p.id]
  }

  lemma {:induction false} FanoutTargets(peers: seq<Peer>, selfId: string)
    requires forall i, j :: 0 <= i < j < |peers| ==> peers[i].id != peers[j].id
    ensures forall id :: id in Fanout(peers, selfId) <==> id != selfId && Peer(id, true) in peers
    ensures forall i, j :: 0 <= i < j < |Fanout(peers, selfId)| ==> Fanout(peers, selfId)[i] != Fanout(peers, selfId)[j]
    decreases |peers|
  {
    if peers != [] {
      var before, p := peers[..|peers| - 1], peers[|peers| - 1];
      FanoutTargets(before, selfId);
      assert peers == before + [p];
      assert forall x :: x in before ==> x.id != p.id;
      var f, f' := Fanout(before, selfId), Fanout(peers, selfId);
      assert Peer(p.id, true) !in before;
      if p.id != selfId && p.alive {
        assert f' == f + [p.id];
      } else {
        assert f' == f;
      }
    }
  }

  // fanout's loop over the member list.
  method FanoutLoop(peers: seq<Peer>, selfId: string) returns (targets: seq<string>)
    ensures targets == Fanout(peers, selfId)
  {
    targets := [];
    for i := 0 to |peers|
      invariant targets == Fanout(peers[..i], selfId)
    {
      assert peers[..i + 1][..i] == peers[..i];
      if peers[i].id == selfId || !peers[i].alive {
        continue;
      }
      targets := targets + [peers[i].id];
    }
    assert peers[..|peers|] == peers;
  }

  // calls counts client publishes; a message remembers the call that caused it.
  datatype Message = Message(call: nat, to: string, eventId: string)

  // asked is the history of ids this node was asked about, emitted what it put on
  // its own bus.
  datatype Node = Node(asked: seq<string>, emitted: seq<string>)

  datatype System = System(nodes: map<string, Node>, net: seq<Message>, calls: nat)

  datatype Action =
    | ClientPublish(node: string, eventId: string, peers: seq<Peer>)
    | DeliverRelay(k: nat)

  ghost predicate Enabled(s: System, a: Action) {
    match a
    case ClientPublish(node, _, peers) =>
      node in s.nodes && forall i, j :: 0 <= i < j < |peers| ==> peers[i].id != peers[j].id
    case DeliverRelay(k) => k < |s.net| && s.net[k].to in s.nodes
  }

  function Fresh(n: Node, eventId: string): bool {
    !SeenOrAdd(Run(SEEN_CAP, n.asked), eventId).1
  }

  function Publish(n: Node, eventId: string): Node {
    Node(n.asked + [eventId], if Fresh(n, eventId) then n.emitted + [eventId] else n.emitted)
  }

  function Relays(call: nat, targets: seq<string>, eventId: string): seq<Message> {
    seq(|targets|, i requires 0 <= i < |targets| => Message(call, targets[i], eventId))
  }

  // A delivered relay stays on the wire: it can be delivered again, in any order.
  ghost function Act(s: System, a: Action): System
    requires Enabled(s, a)
  {
    match a
    case ClientPublish(node, eventId, peers) =>
      var n := s.nodes[node];
      System(s.nodes[node := Publish(n, eventId)],
             if Fresh(n, eventId) then s.net + Relays(s.calls, Fanout(peers, node), eventId) else s.net,
             s.calls + 1)
    case DeliverRelay(k) =>
      var msg := s.net[k];
      s.(nodes := s.nodes[msg.to := Publish(s.nodes[msg.to], msg.eventId)])
  }

  ghost predicate IsRun(run: seq<System>, actions: seq<Action>) {
    && |run| == |actions| + 1
    && run[0].net == [] && run[0].calls == 0
    && (forall id :: id in run[0].nodes ==> run[0].nodes[id] == Node([], []))
    && forall i :: 0 <= i < |actions| ==> Enabled(run[i], actions[i]) && run[i + 1] == Act(run[i], actions[i])
  }

  ghost predicate NetOk(s: System) {
    && (forall k :: 0 <= k < |s.net| ==> s.net[k].call < s.calls)
    && (forall k, l :: 0 <= k < l < |s.net| && s.net[k].call == s.net[l].call ==> s.net[k].to != s.net[l].to)
  }

  ghost predicate NodesOk(s: System) {
    forall id :: id in s.nodes ==> s.nodes[id].emitted == Admitted(SEEN_CAP, s.nodes[id].asked)
  }

  lemma PublishIsAdmission(n: Node, eventId: string)
    requires n.emitted == Admitted(SEEN_CAP, n.asked)
    ensures Publish(n, eventId).emitted == Admitted(SEEN_CAP, Publish(n, eventId).asked)
  {
    assert (n.asked + [eventId])[..|n.asked|] == n.asked;
  }

  lemma ActKeepsInv(s: System, a: Action)
    requires NetOk(s) && NodesOk(s) && Enabled(s, a)
    ensures NetOk(Act(s, a)) && NodesOk(Act(s, a))
  {
    match a
    case ClientPublish(node, eventId, peers) =>
      PublishIsAdmission(s.nodes[node], eventId);
      FanoutTargets(peers, node);
    case DeliverRelay(k) =>
      PublishIsAdmission(s.nodes[s.net[k].to], s.net[k].eventId);
  }

  lemma {:induction false} RunKeepsInv(run: seq<System>, actions: seq<Action>, i: nat)
    requires IsRun(run, actions) && i < |run|
    ensures NetOk(run[i]) && NodesOk(run[i])
    decreases i
  {
    if i > 0 {
      RunKeepsInv(run, actions, i - 1);
      ActKeepsInv(run[i - 1], actions[i - 1]);
    }
  }

  // However relays are duplicated and reordered, a node emits an event id a second
  // time only after emitting at least SEEN_CAP other ids in between.
  lemma EmittedOncePerWindow(run: seq<System>, actions: seq<Action>, i: nat, node: string, p: nat, q: nat)
    requires IsRun(run, actions) && i < |run| && node in run[i].nodes
    requires p < q < |run[i].nodes[node].emitted| && run[i].nodes[node].emitted[p] == run[i].nodes[node].emitted[q]
    ensures q - p > SEEN_CAP
  {
    RunKeepsInv(run, actions, i);
    ReadmittedOnlyAfterCap(SEEN_CAP, run[i].nodes[node].asked, p, q);
  }

  // One client publish of an id the node has not seen lately puts exactly one relay on the
  // wire for each alive peer other than itself, one of an id it has seen puts none, and
  // the handling of a relay puts none.
  lemma OneRelayPerPeer(run: seq<System>, actions: seq<Action>, i: nat)
    requires IsRun(run, actions) && i < |actions|
    ensures NetOk(run[i + 1])
    ensures actions[i].DeliverRelay? ==> run[i + 1].net == run[i].net
    ensures actions[i].ClientPublish? ==> run[i].net <= run[i + 1].net
    ensures actions[i].ClientPublish? ==>
              forall m :: m in run[i + 1].net[|run[i].net|..] ==> SentBy(actions[i], m)
    ensures actions[i].ClientPublish? ==>
              forall id :: Message(run[i].calls, id, actions[i].eventId) in run[i + 1].net[|run[i].net|..]
                <==> Reaches(run[i], actions[i], id)
  {
    RunKeepsInv(run, actions, i + 1);
    if actions[i].ClientPublish? {
      var targets := Fanout(actions[i].peers, actions[i].node);
      FanoutTargets(actions[i].peers, actions[i].node);
      var sent := run[i + 1].net[|run[i].net|..];
      SeenIffRecent(SEEN_CAP, run[i].nodes[actions[i].node].asked, actions[i].eventId);
      assert sent == [] || sent == Relays(run[i].calls, targets, actions[i].eventId);
      forall m | m in sent
        ensures SentBy(actions[i], m)
      {
        assert m.to in targets;
      }
      forall id | Reaches(run[i], actions[i], id)
        ensures Message(run[i].calls, id, actions[i].eventId) in sent
      {
        var k :| 0 <= k < |targets| && targets[k] == id;
        assert sent[k] == Message(run[i].calls, id, actions[i].eventId);
      }
    }
  }

  // A client publish whose id is not among the last SEEN_CAP this node admitted, and an
  // alive peer other than the node itself.
  ghost predicate Reaches(s: System, a: Action, id: string)
    requires a.ClientPublish? && a.node in s.nodes
  {
    && a.eventId !in LastOf(Admitted(SEEN_CAP, s.nodes[a.node].asked), SEEN_CAP)
    && id != a.node && Peer(id, true) in a.peers
  }

  predicate SentBy(a: Action, m: Message)
    requires a.ClientPublish?
  {
    m.eventId == a.eventId && m.to != a.node && Peer(m.to, true) in a.peers
  }
}

/** PublishEvent as an object: the id memory, the node's own bus and the relays sent. */
module Events {
  import opened IdCaches
  import S = SeenIds
  import G = Gossip

  datatype Relay = Relay(to: string, eventId: string)

  class EventService {
    const seen: IdCache
    const selfId: string
    var published: seq<string>  // ids put on the node's own bus
    var relayed: seq<Relay>     // relays sent, in the order their calls were started

    constructor (seen: IdCache, selfId: string)
      ensures this.seen == seen && this.selfId == selfId && published == [] && relayed == []
    {
      this.seen, this.selfId, published, relayed := seen, selfId, [], [];
    }

    // An id seen before is acknowledged and goes nowhere; a new one goes on the bus, and
    // unless the call is a relay itself on to every alive peer but this node, once each.
    method PublishEvent(eventId: string, relay: bool, peers: seq<G.Peer>) returns (duplicate: bool)
      requires seen.Valid() && forall i, j :: 0 <= i < j < |peers| ==> peers[i].id != peers[j].id
      modifies this, seen
      ensures seen.Valid() && duplicate == (eventId in old(seen.q)) && eventId in seen.q
      ensures (S.Cache(seen.q, seen.cap), duplicate) == S.SeenOrAdd(S.Cache(old(seen.q), seen.cap), eventId)
      ensures published == if duplicate then old(published) else old(published) + [eventId]
      ensures old(relayed) <= relayed
      ensures duplicate || relay ==> relayed == old(relayed)
      ensures !duplicate && !relay ==>
                var sent := relayed[|old(relayed)|..];
                && (forall id :: Relay(id, eventId) in sent <==> id != selfId && G.Peer(id, true) in peers)
                && (forall k :: 0 <= k < |sent| ==> sent[k].eventId == eventId)
                && (forall k, l :: 0 <= k < l < |sent| ==> sent[k].to != sent[l].to)
    {
      duplicate := seen.SeenOrAdd(eventId);
      if duplicate {
        return;
      }
      published := published + [eventId];
      if !relay {
        var targets := G.FanoutLoop(peers, selfId);
        G.FanoutTargets(peers, selfId);
        var sent := seq(|targets|, k requires 0 <= k < |targets| => Relay(targets[k], eventId));
        relayed := relayed + sent;
        assert relayed[|old(relayed)|..] == sent;
        forall id | id in targets
          ensures Relay(id, eventId) in sent
        {
          var k :| 0 <= k < |targets| && targets[k] == id;
          assert sent[k] == Relay(id, eventId);
        }
      }
    }
  }
}
