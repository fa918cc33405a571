/**
 The local member list: membership.Engine.  Each change is a function of the
 engine's value together with the events it emits; the class Engine carries the
 same changes out in place.
 */
module Members {
  // Status and role as they appear on the wire: anything else is kept as text.
  datatype Status = Alive | Dead | OtherStatus(text: string)
  datatype Role = Voter | Observer | OtherRole(text: string)

  function NormalizeStatus(s: Status): Status {
    match s
    case Alive => Alive
    case Dead => Dead
    case OtherStatus(text) => if text == "" then Alive else Dead
  }

  function NormalizeRole(r: Role): Role {
    if r == Observer then Observer else Voter
  }

  datatype Member = Member(id: string, address: string, status: Status, leader: bool, role: Role, joinedAt: int)

  datatype EngineState = EngineState(leaderId: string, members: map<string, Member>, dropped: set<string>)

  datatype Event =
    | MemberJoin(id: string, address: string, role: Role)
    | MemberDead(id: string)
    | MemberLeft(id: string)
    | LeaderChanged(id: string)

  function New(selfId: string, selfAddr: string, now: int): EngineState {
    EngineState(selfId, map[selfId := Member(selfId, selfAddr, Alive, true, Voter, now)], {})
  }

  function JoinAs(e: EngineState, id: string, addr: string, role: Role, now: int): (EngineState, seq<Event>) {
    if id == "" then (e, [])
    else
      var r := NormalizeRole(role);
      var wasAlive := id in e.members && e.members[id].status == Alive;
      var joinedAt := if wasAlive then e.members[id].joinedAt else now;
      (EngineState(e.leaderId,
                   e.members[id := Member(id, addr, Alive, id == e.leaderId, r, joinedAt)],
                   e.dropped - {id}),
       if wasAlive then [] else [MemberJoin(id, addr, r)])
  }

  function MarkDead(e: EngineState, id: string): (EngineState, seq<Event>) {
    if id !in e.members || NormalizeStatus(e.members[id].status) == Dead then (e, [])
    else (e.(members := e.members[id := e.members[id].(status := Dead)]), [MemberDead(id)])
  }

  function Leave(e: EngineState, id: string): (EngineState, seq<Event>) {
    if id in e.dropped || id !in e.members then (e, [])
    else (e.(members := e.members - {id}, dropped := e.dropped + {id}), [MemberLeft(id)])
  }

  function RestoreMember(e: EngineState, id: string, addr: string, role: Role, status: Status, now: int): EngineState {
    if id == "" then e
    else
      var joinedAt := if id in e.members then e.members[id].joinedAt else now;
      var m := Member(id, addr, NormalizeStatus(status), id == e.leaderId, NormalizeRole(role), joinedAt);
      EngineState(e.leaderId, e.members[id := m], e.dropped - {id})
  }

  function SetLeader(e: EngineState, id: string): (EngineState, seq<Event>) {
    if e.leaderId == id then (e, [])
    else
      var members := map k | k in e.members :: e.members[k].(leader := k == id);
      (e.(leaderId := id, members := members), [LeaderChanged(id)])
  }

  // What the cluster has agreed on about one id; clocks and the leader flag are local.
  datatype View = Absent | Listed(address: string, role: Role, status: Status)

  function ViewOf(e: EngineState, id: string): View {
    if id in e.members
    then Listed(e.members[id].address, NormalizeRole(e.members[id].role), NormalizeStatus(e.members[id].status))
    else Absent
  }

  // Listed and left ids are disjoint, entries sit under their own id, and nothing
  // but alive and dead is ever stored.
  ghost predicate EngineWf(e: EngineState) {
    && e.members.Keys !! e.dropped
    && forall id :: id in e.members ==>
         e.members[id].id == id && (e.members[id].status == Alive || e.members[id].status == Dead)
  }

  lemma EngineStepsKeepWf(e: EngineState, id: string, addr: string, role: Role, status: Status, now: int)
    requires EngineWf(e)
    ensures EngineWf(JoinAs(e, id, addr, role, now).0)
    ensures EngineWf(MarkDead(e, id).0)
    ensures EngineWf(Leave(e, id).0)
    ensures EngineWf(RestoreMember(e, id, addr, role, status, now))
    ensures EngineWf(SetLeader(e, id).0)
  {
  }

  // Roles and statuses off the wire: a role is a voter's unless it says observer, an
  // empty status is alive, and any status but alive is dead.
  lemma Normalized(r: Role, s: Status)
    ensures NormalizeRole(r) == Observer <==> r == Observer
    ensures NormalizeRole(r) != Observer ==> NormalizeRole(r) == Voter
    ensures NormalizeStatus(s) == Alive <==> s == Alive || s == OtherStatus("")
    ensures NormalizeStatus(s) != Alive ==> NormalizeStatus(s) == Dead
  {
  }

  // The leader flag is set on the leader's entry and on no other.
  ghost predicate FlagsFollowLeader(e: EngineState) {
    forall id :: id in e.members ==> (e.members[id].leader <==> id == e.leaderId)
  }

  lemma EngineStepsKeepFlags(e: EngineState, id: string, addr: string, role: Role, status: Status, now: int)
    requires FlagsFollowLeader(e)
    ensures FlagsFollowLeader(New(id, addr, now))
    ensures FlagsFollowLeader(JoinAs(e, id, addr, role, now).0)
    ensures FlagsFollowLeader(MarkDead(e, id).0)
    ensures FlagsFollowLeader(Leave(e, id).0)
    ensures FlagsFollowLeader(RestoreMember(e, id, addr, role, status, now))
    ensures FlagsFollowLeader(SetLeader(e, id).0) && SetLeader(e, id).0.leaderId == id
  {
  }

  // When a member counts as having joined: a live one keeps its time over joins and
  // restores, a restored one also when dead, and everyone over deaths and elections.
  lemma JoinTimes(e: EngineState, id: string, addr: string, role: Role, status: Status, now: int)
    requires id != ""
    ensures JoinAs(e, id, addr, role, now).0.members[id].joinedAt
         == if id in e.members && e.members[id].status == Alive then e.members[id].joinedAt else now
    ensures RestoreMember(e, id, addr, role, status, now).members[id].joinedAt
         == if id in e.members then e.members[id].joinedAt else now
    ensures id in e.members ==> MarkDead(e, id).0.members[id].joinedAt == e.members[id].joinedAt
    ensures id in e.members ==> SetLeader(e, id).0.members[id].joinedAt == e.members[id].joinedAt
  {
  }

  // What is announced: a join only of an id that was not alive, with the address and role
  // it is listed under; a death or departure only of a member it happens to.
  lemma Announcements(e: EngineState, id: string, addr: string, role: Role, now: int)
    ensures var (e', evs) := JoinAs(e, id, addr, role, now);
            evs == if id == "" || (id in e.members && e.members[id].status == Alive) then []
                   else [MemberJoin(id, e'.members[id].address, e'.members[id].role)]
    ensures MarkDead(e, id).1 == if MarkDead(e, id).0 == e then [] else [MemberDead(id)]
    ensures Leave(e, id).1 == if Leave(e, id).0 == e then [] else [MemberLeft(id)]
  {
  }

  function IdOf(m: Member): string {
    m.id
  }

  ghost predicate ListsMembers(ms: seq<Member>, members: map<string, Member>) {
    && (forall m :: m in ms ==> m.id in members && members[m.id] == m)
    && (forall id :: id in members ==> members[id] in ms)
  }
}

/** membership.Engine as an object. */
module Membership {
  import opened Names
  import opened Members

  class Engine {
    const selfId: string
    var leaderId: string
    var members: map<string, Member>
    var dropped: set<string>
    var emitted: seq<Event>  // what the Emit hook has been given

    function Value(): EngineState
      reads this
    {
      EngineState(leaderId, members, dropped)
    }

    constructor (self: string, selfAddr: string, now: int)
      ensures selfId == self && Value() == New(self, selfAddr, now) && emitted == []
    {
      selfId, leaderId := self, self;
      members := map[self := Member(self, selfAddr, Alive, true, Voter, now)];
      dropped, emitted := {}, [];
    }

    method JoinAs(id: string, addr: string, role: Role, now: int) returns (isNew: bool, ok: bool)
      modifies this
      ensures Value() == Members.JoinAs(old(Value()), id, addr, role, now).0
      ensures emitted == old(emitted) + Members.JoinAs(old(Value()), id, addr, role, now).1
      ensures ok == (id != "")
      ensures isNew <==> emitted != old(emitted)
    {
      if id == "" {
        return false, false;
      }
      var r := NormalizeRole(role);
      dropped := dropped - {id};
      isNew := id !in members || members[id].status != Alive;
      var joinedAt := now;
      if id in members && members[id].status == Alive {
        joinedAt := members[id].joinedAt;
      }
      members := members[id := Member(id, addr, Alive, id == leaderId, r, joinedAt)];
      if isNew {
        emitted := emitted + [MemberJoin(id, addr, r)];
      }
      return isNew, true;
    }

    method MarkDead(id: string)
      modifies this
      ensures Value() == Members.MarkDead(old(Value()), id).0
      ensures emitted == old(emitted) + Members.MarkDead(old(Value()), id).1
    {
      if id !in members || NormalizeStatus(members[id].status) == Dead {
        return;
      }
      members := members[id := members[id].(status := Dead)];
      emitted := emitted + [MemberDead(id)];
    }

    method Leave(id: string)
      modifies this
      ensures Value() == Members.Leave(old(Value()), id).0
      ensures emitted == old(emitted) + Members.Leave(old(Value()), id).1
    {
      if id in dropped {
        return;
      }
      if id !in members {
        return;
      }
      members := members - {id};
      dropped := dropped + {id};
      emitted := emitted + [MemberLeft(id)];
    }

    method RestoreMember(id: string, addr: string, role: Role, status: Status, now: int) returns (ok: bool)
      modifies this
      ensures Value() == Members.RestoreMember(old(Value()), id, addr, role, status, now)
      ensures emitted == old(emitted)
      ensures ok == (id != "")
    {
      if id == "" {
        return false;
      }
      dropped := dropped - {id};
      var joinedAt := now;
      if id in members {
        joinedAt := members[id].joinedAt;
      }
      var m := Member(id, addr, NormalizeStatus(status), id == leaderId, NormalizeRole(role), joinedAt);
      members := members[id := m];
      return true;
    }

    method SetLeader(id: string)
      modifies this
      ensures Value() == Members.SetLeader(old(Value()), id).0
      ensures emitted == old(emitted) + Members.SetLeader(old(Value()), id).1
    {
      if leaderId == id {
        return;
      }
      leaderId := id;
      members := map k | k in members :: members[k].(leader := k == id);
      emitted := emitted + [LeaderChanged(id)];
    }

    // All members in strictly increasing id order.
    method List() returns (out: seq<Member>)
      requires EngineWf(Value())
      ensures SortedBy(out, IdOf) && ListsMembers(out, members)
    {
      out := [];
      var rest := members.Keys;
      while rest != {}
        invariant rest <= members.Keys
        invariant SortedBy(out, IdOf)
        invariant forall m :: m in out ==> m.id in members && members[m.id] == m && m.id !in rest
        invariant forall id :: id in members && id !in rest ==> members[id] in out
        decreases rest
      {
        var id :| id in rest;
        rest := rest - {id};
        out := InsertBy(out, members[id], IdOf);
      }
    }
  }
}
