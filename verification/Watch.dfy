/** Which events a watch request lets through. */
module Filters {
  const MEMBER_JOIN := "member.join"
  const MEMBER_DEAD := "member.dead"
  const MEMBER_LEFT := "member.left"
  const LEADER_CHANGED := "leader.changed"
  const WATCH_SYNC := "watch.sync"
  const WATCH_GAP := "watch.gap"
  const CUSTOM := "custom."

  datatype Request = Request(lastSeq: nat, topics: seq<string>, eventTypes: seq<string>)

  predicate IsProtocol(typ: string) {
    typ == WATCH_SYNC || typ == WATCH_GAP
  }

  function NormalizeTopic(topic: string): string {
    if CUSTOM <= topic then topic[|CUSTOM|..] else topic
  }

  predicate TopicListed(topics: seq<string>, topic: string) {
    exists i :: 0 <= i < |topics| && NormalizeTopic(topics[i]) == topic
  }

  predicate Matches(req: Request, typ: string) {
    || IsProtocol(typ)
    || ((req.topics == [] || (CUSTOM < typ && TopicListed(req.topics, typ[|CUSTOM|..])))
        && (req.eventTypes == [] || typ in req.eventTypes))
  }

  // A request lets a custom event through if and only if it names no topics or names this
  // one, with or without the custom. prefix, and names no types or names this one.
  lemma MatchesCustomIff(req: Request, topic: string)
    requires topic != ""
    ensures Matches(req, CUSTOM + topic)
       <==> && (req.topics == [] || CUSTOM + topic in req.topics || (topic in req.topics && !(CUSTOM <= topic)))
            && (req.eventTypes == [] || CUSTOM + topic in req.eventTypes)
  {
    var typ := CUSTOM + topic;
    assert typ[0] == 'c' && WATCH_SYNC[0] == 'w' && WATCH_GAP[0] == 'w';
    assert CUSTOM < typ && typ[|CUSTOM|..] == topic;
    forall i | 0 <= i < |req.topics|
      ensures NormalizeTopic(req.topics[i]) == topic <==>
                req.topics[i] == typ || (req.topics[i] == topic && !(CUSTOM <= topic))
    {
      if CUSTOM <= req.topics[i] {
        assert req.topics[i] == CUSTOM + req.topics[i][|CUSTOM|..];
      }
    }
    if typ in req.topics {
      var i :| 0 <= i < |req.topics| && req.topics[i] == typ;
      assert NormalizeTopic(req.topics[i]) == topic;
    }
    if topic in req.topics && !(CUSTOM <= topic) {
      var i :| 0 <= i < |req.topics| && req.topics[i] == topic;
      assert NormalizeTopic(req.topics[i]) == topic;
    }
  }

  // Anything that is not a custom event passes only without topics, unless it belongs to
  // the protocol, which always passes.
  lemma MatchesOthersIff(req: Request, typ: string)
    requires !(CUSTOM < typ)
    ensures Matches(req, typ)
       <==> || typ == "watch.sync" || typ == "watch.gap"
            || (req.topics == [] && (req.eventTypes == [] || typ in req.eventTypes))
  {
  }

  predicate WantsMembers(req: Request) {
    Matches(req, MEMBER_JOIN) && Matches(req, MEMBER_DEAD) && Matches(req, MEMBER_LEFT)
  }

  // A request follows the member list exactly when it names no topics and its
  // event types, if any, include all three membership types.
  lemma WantsMembersIff(req: Request)
    ensures WantsMembers(req)
       <==> req.topics == []
            && (req.eventTypes == [] || {MEMBER_JOIN, MEMBER_DEAD, MEMBER_LEFT} <= set t | t in req.eventTypes)
  {
    assert MEMBER_JOIN[0] == 'm' && MEMBER_DEAD[0] == 'm' && MEMBER_LEFT[0] == 'm';
    assert CUSTOM[0] == 'c' && WATCH_SYNC[0] == 'w' && WATCH_GAP[0] == 'w';
  }
}

/**
 One watcher against the publishers of its node.  Membership changes come from
 the state machine, leader changes from the Raft observer, everything else from
 anywhere; each publisher mutates, then takes a number, then delivers, and all
 steps interleave freely with those of the watcher.
 */
module WatchModel {
  import opened Members
  import opened Bus
  import opened Filters

  // What a client learns about one thing.
  datatype Key = MemberKey(id: string) | LeaderKey
  datatype Val = Gone | Up | Down | LeaderIs(id: string)
  datatype Seen = Nothing | Value(v: Val)

  function Latest(a: Seen, b: Seen): Seen {
    if b.Value? then b else a
  }

  function KeyOf(e: Event): Key {
    if e.LeaderChanged? then LeaderKey else MemberKey(e.id)
  }

  function ValOf(e: Event): Val {
    match e
    case MemberJoin(_, _, _) => Up
    case MemberDead(_) => Down
    case MemberLeft(_) => Gone
    case LeaderChanged(id) => LeaderIs(id)
  }

  function EffectOf(e: Event, key: Key): Seen {
    if KeyOf(e) == key then Value(ValOf(e)) else Nothing
  }

  function ItemEffect(item: Item, key: Key): Seen {
    if item.what.Change? then EffectOf(item.what.e, key) else Nothing
  }

  // The key an item is about, if any.
  function About(item: Item): set<Key> {
    if item.what.Change? then {KeyOf(item.what.e)} else {}
  }

  // The engine's own answer.
  function Current(e: EngineState, key: Key): Val {
    match key
    case LeaderKey => LeaderIs(e.leaderId)
    case MemberKey(id) =>
      if id !in e.members then Gone
      else if NormalizeStatus(e.members[id].status) == Dead then Down
      else Up
  }

  function TypeOf(what: Payload): string {
    match what
    case Other(typ) => typ
    case Change(e) =>
      match e {
        case MemberJoin(_, _, _) => MEMBER_JOIN
        case MemberDead(_) => MEMBER_DEAD
        case MemberLeft(_) => MEMBER_LEFT
        case LeaderChanged(_) => LEADER_CHANGED
      }
  }

  // What the stream carries.
  datatype Message =
    | SnapshotMember(id: string, up: bool)
    | SnapshotLeader(id: string)
    | Sync(seqNo: nat)
    | Gap(from: nat, to: nat)
    | Live(item: Item)

  function MessageEffect(m: Message, key: Key): Seen {
    match m
    case SnapshotMember(id, up) => if key == MemberKey(id) then Value(if up then Up else Down) else Nothing
    case SnapshotLeader(id) => if key == LeaderKey then Value(LeaderIs(id)) else Nothing
    case Live(item) => ItemEffect(item, key)
    case Sync(_) => Nothing
    case Gap(_, _) => Nothing
  }

  // The client's fold: the last message about a key wins.
  function LastSent(ms: seq<Message>, key: Key): Seen {
    if ms == [] then Nothing
    else Latest(LastSent(ms[..|ms| - 1], key), MessageEffect(ms[|ms| - 1], key))
  }

  function LastQueued(items: seq<Item>, key: Key): Seen {
    if items == [] then Nothing
    else Latest(LastQueued(items[..|items| - 1], key), ItemEffect(items[|items| - 1], key))
  }

  function Default(key: Key): Val {
    if key == LeaderKey then LeaderIs("") else Gone
  }

  function ClientView(ms: seq<Message>, key: Key): Val {
    match LastSent(ms, key)
    case Nothing => Default(key)
    case Value(v) => v
  }

  const BUFFER := 64

  datatype Phase = Detached | Attached | Marked | MembersRead | Streaming

  // ahead is what the watcher was sent and has not forwarded: the item in its hand,
  // if inHand, and behind it the queue.  The last six fields are history: how many
  // messages preceded the live stream, whether any event was ever lost, the keys whose
  // last event was lost, the numbers
  // offered, the items that went into the queue, and the number settled when it
  // subscribed.
  datatype Watcher = Watcher(
    req: Request, phase: Phase, ahead: seq<Item>, inHand: bool, dropped: bool,
    fromSeq: nat, sent: seq<Message>, lastLive: nat,
    opening: nat, lost: bool, stale: set<Key>, offered: set<nat>, arrived: seq<Item>, base: nat)

  // A publisher mutates, takes a number, attempts the send, and if there was no
  // room raises the watcher's flag.
  datatype Publisher = Idle | Mutated(e: Event) | Numbered(item: Item) | Raising(item: Item)

  // others and raising hold the publishers of other events between those steps.
  datatype System = System(
    engine: EngineState, seqNo: nat, fsm: Publisher, observer: Publisher,
    others: seq<Item>, raising: seq<Item>, w: Watcher)

  // What the state machine may do to the member list.
  datatype FsmOp = Join(id: string, address: string, role: Role, now: int) | Die(id: string) | Depart(id: string)

  function FsmStep(e: EngineState, op: FsmOp): (EngineState, seq<Event>) {
    match op
    case Join(id, address, role, now) => JoinAs(e, id, address, role, now)
    case Die(id) => MarkDead(e, id)
    case Depart(id) => Leave(e, id)
  }

  datatype Action =
    | Fsm(op: FsmOp)
    | SeeLeader(id: string)
    | NumberFsm | NumberObserver | NumberOther(typ: string)
    | SendFsm | SendObserver | SendOther(k: nat)
    | RaiseFsm | RaiseObserver | RaiseOther(k: nat)
    | Attach | Mark | ReadMembers(listing: seq<Member>) | ReadLeader | Pop | Take

  predicate IsCustomType(typ: string) {
    typ != MEMBER_JOIN && typ != MEMBER_DEAD && typ != MEMBER_LEFT && typ != LEADER_CHANGED && !IsProtocol(typ)
  }

  ghost predicate Enabled(s: System, a: Action) {
    match a
    case Fsm(_) => s.fsm.Idle?
    case SeeLeader(_) => s.observer.Idle?
    case NumberFsm => s.fsm.Mutated?
    case NumberObserver => s.observer.Mutated?
    case NumberOther(typ) => IsCustomType(typ)
    case SendFsm => s.fsm.Numbered?
    case SendObserver => s.observer.Numbered?
    case SendOther(k) => k < |s.others|
    case RaiseFsm => s.fsm.Raising?
    case RaiseObserver => s.observer.Raising?
    case RaiseOther(k) => k < |s.raising|
    case Attach => s.w.phase.Detached?
    case Mark => s.w.phase.Attached?
    case ReadMembers(listing) => s.w.phase.Marked? && ListsMembers(listing, s.engine.members)
    case ReadLeader => s.w.phase.MembersRead?
    case Pop => s.w.phase.Streaming? && !s.w.inHand && s.w.ahead != []
    case Take => s.w.phase.Streaming? && s.w.inHand && s.w.ahead != []
  }

  function Changed(s: System, op: FsmOp): System {
    var (e, evs) := FsmStep(s.engine, op);
    s.(engine := e, fsm := if evs == [] then Idle else Mutated(evs[0]))
  }

  // The subscription as the bus sees it.
  function QueueOf(w: Watcher): Sub {
    Sub(if w.inHand && w.ahead != [] then w.ahead[1..] else w.ahead, BUFFER, w.dropped)
  }

  predicate Full(w: Watcher) {
    !w.phase.Detached? && |QueueOf(w).buf| >= BUFFER
  }

  // The watcher's side of a send.
  function Receives(w: Watcher, item: Item): Watcher {
    if w.phase.Detached? then w
    else if Full(w) then w.(offered := w.offered + {item.seqNo}, lost := true, stale := w.stale + About(item))
    else w.(ahead := w.ahead + [item], stale := w.stale - About(item),
            offered := w.offered + {item.seqNo}, arrived := w.arrived + [item])
  }

  lemma ReceivesIsOffered(w: Watcher, item: Item)
    requires !w.phase.Detached? && (w.inHand ==> w.ahead != [])
    ensures var sent := Receives(w, item);
            Offered(QueueOf(w), item, QueueOf(if Full(w) then sent.(dropped := true) else sent))
  {
    if !Full(w) && w.inHand {
      assert (w.ahead + [item])[1..] == w.ahead[1..] + [item];
    }
  }

  predicate Busy(p: Publisher) {
    p.Numbered? || p.Raising?
  }

  // The highest number whose Publish is over, when publishes do not overlap.
  function Settled(s: System): nat {
    if Publishing(s) && s.seqNo > 0 then s.seqNo - 1 else s.seqNo
  }

  predicate Raises(a: Action) {
    a.RaiseFsm? || a.RaiseObserver? || a.RaiseOther?
  }

  // Some publisher is between taking its number and the end of Publish.
  predicate Publishing(s: System) {
    Busy(s.fsm) || Busy(s.observer) || s.others != [] || s.raising != []
  }

  // sendSnapshot's loop over the members it read.
  function SnapshotOf(req: Request, listing: seq<Member>): seq<Message> {
    if listing == [] then []
    else
      var before, m := SnapshotOf(req, listing[..|listing| - 1]), listing[|listing| - 1];
      if NormalizeStatus(m.status) == Dead
      then if Matches(req, MEMBER_DEAD) then before + [SnapshotMember(m.id, false)] else before
      else if m.status != Alive then before
      else if Matches(req, MEMBER_JOIN) then before + [SnapshotMember(m.id, true)] else before
  }

  function Opening(w: Watcher, leaderId: string): seq<Message> {
    (if leaderId != "" && Matches(w.req, LEADER_CHANGED) then [SnapshotLeader(leaderId)] else [])
    + [Sync(w.fromSeq)]
    + (if w.req.lastSeq > 0 && w.fromSeq > w.req.lastSeq then [Gap(w.req.lastSeq + 1, w.fromSeq)] else [])
  }

  // One turn of the forwarding loop, from the item in hand.
  function ReceiveStep(w: Watcher): Watcher
    requires w.ahead != []
  {
    Forward(w, Matches(w.req, TypeOf(w.ahead[0].what)))
  }

  function Forward(w: Watcher, passes: bool): Watcher
    requires w.ahead != []
  {
    var item := w.ahead[0];
    var popped := w.(ahead := w.ahead[1..], inHand := false);
    if !passes then popped
    else
      var from := if w.lastLive > 0 then w.lastLive + 1 else 1;
      var gap := if w.dropped && from < item.seqNo then [Gap(from, item.seqNo - 1)] else [];
      popped.(dropped := false, sent := w.sent + gap + [Live(item)], lastLive := item.seqNo)
  }

  function Without(items: seq<Item>, k: nat): seq<Item>
    requires k < |items|
  {
    items[..k] + items[k + 1..]
  }

  ghost function Act(s: System, a: Action): System
    requires Enabled(s, a)
  {
    match a
    case Fsm(op) => Changed(s, op)
    case SeeLeader(id) =>
      var (e, evs) := SetLeader(s.engine, id);
      s.(engine := e, observer := if evs == [] then Idle else Mutated(evs[0]))
    case NumberFsm => s.(seqNo := s.seqNo + 1, fsm := Numbered(Item(Change(s.fsm.e), s.seqNo + 1)))
    case NumberObserver => s.(seqNo := s.seqNo + 1, observer := Numbered(Item(Change(s.observer.e), s.seqNo + 1)))
    case NumberOther(typ) => s.(seqNo := s.seqNo + 1, others := s.others + [Item(Other(typ), s.seqNo + 1)])
    case SendFsm => s.(fsm := if Full(s.w) then Raising(s.fsm.item) else Idle, w := Receives(s.w, s.fsm.item))
    case SendObserver =>
      s.(observer := if Full(s.w) then Raising(s.observer.item) else Idle, w := Receives(s.w, s.observer.item))
    case SendOther(k) =>
      s.(others := Without(s.others, k), raising := if Full(s.w) then s.raising + [s.others[k]] else s.raising,
         w := Receives(s.w, s.others[k]))
    case RaiseFsm => s.(fsm := Idle, w := s.w.(dropped := true))
    case RaiseObserver => s.(observer := Idle, w := s.w.(dropped := true))
    case RaiseOther(k) => s.(raising := Without(s.raising, k), w := s.w.(dropped := true))
    case Attach => s.(w := s.w.(phase := Attached, base := Settled(s)))
    case Mark => s.(w := s.w.(phase := Marked, fromSeq := s.seqNo))
    case ReadMembers(listing) => s.(w := s.w.(phase := MembersRead, sent := SnapshotOf(s.w.req, listing)))
    case ReadLeader =>
      var sent := s.w.sent + Opening(s.w, s.engine.leaderId);
      s.(w := s.w.(phase := Streaming, sent := sent, opening := |sent|))
    case Pop => s.(w := s.w.(inHand := true))
    case Take => s.(w := ReceiveStep(s.w))
  }

  ghost predicate Initial(s: System) {
    && EngineWf(s.engine)
    && s.seqNo == 0 && s.fsm == Idle && s.observer == Idle && s.others == [] && s.raising == []
    && s.w == Watcher(s.w.req, Detached, [], false, false, 0, [], 0, 0, false, {}, {}, [], 0)
  }

  ghost predicate IsRun(run: seq<System>, actions: seq<Action>) {
    && |run| == |actions| + 1
    && Initial(run[0])
    && forall i :: 0 <= i < |actions| ==> Enabled(run[i], actions[i]) && run[i + 1] == Act(run[i], actions[i])
  }

  function Pending(p: Publisher, key: Key): Seen {
    match p
    case Idle => Nothing
    case Mutated(e) => EffectOf(e, key)
    case Numbered(item) => ItemEffect(item, key)
    case Raising(_) => Nothing
  }

  // Keys the request follows completely.
  predicate Wanted(req: Request, key: Key) {
    if key == LeaderKey then Matches(req, LEADER_CHANGED) else WantsMembers(req)
  }
}

/** Watch convergence: the snapshot-to-live handoff loses and reverses nothing. */
module WatchConvergence {
  import opened Members
  import opened Bus
  import opened Filters
  import opened WatchModel

  // Everything on its way to the client about a key, oldest first: sent, queued,
  // and still in a publisher's hands.
  function InTransit(s: System, key: Key): Seen {
    Latest(LastQueued(s.w.ahead, key), Latest(Pending(s.fsm, key), Pending(s.observer, key)))
  }

  function Reaching(s: System, key: Key): Seen {
    Latest(LastSent(s.w.sent, key), InTransit(s, key))
  }

  ghost predicate PublishersOk(s: System) {
    && (s.fsm.Mutated? ==> !s.fsm.e.LeaderChanged?)
    && (s.fsm.Numbered? ==> s.fsm.item.what.Change? && !s.fsm.item.what.e.LeaderChanged?)
    && (s.observer.Mutated? ==> s.observer.e.LeaderChanged?)
    && (s.observer.Numbered? ==> s.observer.item.what.Change? && s.observer.item.what.e.LeaderChanged?)
    && (forall i :: 0 <= i < |s.others| ==> s.others[i].what.Other?)
    && (forall key :: Pending(s.fsm, key).Value? ==> Pending(s.fsm, key) == Value(Current(s.engine, key)))
    && (forall key :: Pending(s.observer, key).Value? ==> Pending(s.observer, key) == Value(Current(s.engine, key)))
  }

  predicate Snapshotted(phase: Phase, key: Key) {
    phase.Streaming? || (phase.MembersRead? && key != LeaderKey)
  }

  // The last thing on its way about a key is the truth; and once the key's part of
  // the snapshot is read, silence means the default.
  ghost predicate KeyOk(s: System, key: Key) {
    && (Reaching(s, key).Value? ==> Reaching(s, key) == Value(Current(s.engine, key)))
    && (Snapshotted(s.w.phase, key) && Reaching(s, key).Nothing? ==> Current(s.engine, key) == Default(key))
  }

  ghost predicate Fresh(w: Watcher) {
    && (w.phase.Detached? ==> w.ahead == [])
    && (w.phase.Detached? || w.phase.Attached? || w.phase.Marked? ==> w.sent == [])
  }

  ghost predicate Inv(s: System) {
    && EngineWf(s.engine)
    && PublishersOk(s)
    && Fresh(s.w)
    && (!s.w.lost ==> s.w.stale == {})
    && (!s.w.phase.Detached? ==> forall key :: Wanted(s.w.req, key) && key !in s.w.stale ==> KeyOk(s, key))
  }

  lemma SentSnoc(ms: seq<Message>, m: Message, key: Key)
    ensures LastSent(ms + [m], key) == Latest(LastSent(ms, key), MessageEffect(m, key))
  {
    assert (ms + [m])[..|ms|] == ms;
  }

  lemma QueuedSnoc(items: seq<Item>, item: Item, key: Key)
    ensures LastQueued(items + [item], key) == Latest(LastQueued(items, key), ItemEffect(item, key))
  {
    assert (items + [item])[..|items|] == items;
  }

  lemma {:induction false} QueuedCons(items: seq<Item>, key: Key)
    requires items != []
    ensures LastQueued(items, key) == Latest(ItemEffect(items[0], key), LastQueued(items[1..], key))
    decreases |items|
  {
    if |items| > 1 {
      QueuedCons(items[..|items| - 1], key);
      assert items[..|items| - 1][1..] == items[1..][..|items| - 2];
    }
  }

  // What one state-machine change does: the event it emits is the new truth about
  // its key, and the truth about every other key stands.
  lemma ChangeIsAnnounced(e: EngineState, op: FsmOp, key: Key)
    requires EngineWf(e)
    ensures var (e', evs) := FsmStep(e, op);
            && EngineWf(e') && |evs| <= 1 && e'.leaderId == e.leaderId
            && (evs == [] ==> Current(e', key) == Current(e, key))
            && (evs != [] ==> !evs[0].LeaderChanged?)
            && (evs != [] && KeyOf(evs[0]) == key ==> Current(e', key) == ValOf(evs[0]))
            && (evs != [] && KeyOf(evs[0]) != key ==> Current(e', key) == Current(e, key))
  {
  }

  lemma LeaderIsAnnounced(e: EngineState, id: string, key: Key)
    requires EngineWf(e)
    ensures var (e', evs) := SetLeader(e, id);
            && EngineWf(e') && |evs| <= 1
            && (evs == [] ==> e' == e)
            && (evs != [] ==> evs[0] == LeaderChanged(id))
            && (key != LeaderKey ==> Current(e', key) == Current(e, key))
            && Current(e', LeaderKey) == LeaderIs(id)
  {
  }

  lemma FsmChangeKeeps(s: System, op: FsmOp)
    requires Inv(s) && s.fsm.Idle?
    ensures Inv(Changed(s, op))
  {
    var s' := Changed(s, op);
    ChangeIsAnnounced(s.engine, op, LeaderKey);
    forall key
      ensures Pending(s'.fsm, key).Value? ==> Pending(s'.fsm, key) == Value(Current(s'.engine, key))
      ensures Pending(s'.observer, key).Value? ==> Pending(s'.observer, key) == Value(Current(s'.engine, key))
    {
      ChangeIsAnnounced(s.engine, op, key);
    }
    forall key | Wanted(s.w.req, key) && !s.w.phase.Detached? && key !in s.w.stale
      ensures KeyOk(s', key)
    {
      ChangeIsAnnounced(s.engine, op, key);
      assert KeyOk(s, key);
    }
  }

  lemma LeaderChangeKeeps(s: System, id: string)
    requires Inv(s) && s.observer.Idle?
    ensures Inv(Act(s, SeeLeader(id)))
  {
    var s' := Act(s, SeeLeader(id));
    forall key
      ensures Pending(s'.fsm, key).Value? ==> Pending(s'.fsm, key) == Value(Current(s'.engine, key))
      ensures Pending(s'.observer, key).Value? ==> Pending(s'.observer, key) == Value(Current(s'.engine, key))
    {
      LeaderIsAnnounced(s.engine, id, key);
      assert key == LeaderKey ==> Pending(s.fsm, key).Nothing?;
    }
    LeaderIsAnnounced(s.engine, id, LeaderKey);
    forall key | Wanted(s.w.req, key) && !s.w.phase.Detached? && key !in s.w.stale
      ensures KeyOk(s', key)
    {
      LeaderIsAnnounced(s.engine, id, key);
      assert KeyOk(s, key);
    }
  }

  // A send moves an event from publisher to queue without passing any other event
  // about the same key.
  lemma SendKeepsKey(s: System, s': System, item: Item, key: Key)
    requires Inv(s) && KeyOk(s, key) && !s.w.phase.Detached?
    requires s'.engine == s.engine && s'.w == Receives(s.w, item) && (Full(s.w) ==> ItemEffect(item, key).Nothing?)
    requires Latest(ItemEffect(item, key), Latest(Pending(s'.fsm, key), Pending(s'.observer, key)))
          == Latest(Pending(s.fsm, key), Pending(s.observer, key))
    ensures KeyOk(s', key)
  {
    QueuedSnoc(s.w.ahead, item, key);
  }

  // An event that arrives is the truth about its key, whatever was lost before it.
  lemma ArrivalFreshens(s: System, s': System, item: Item, key: Key)
    requires !s.w.phase.Detached? && !Full(s.w) && s'.w == Receives(s.w, item)
    requires ItemEffect(item, key) == Value(Current(s'.engine, key))
    requires Pending(s'.fsm, key).Nothing? && Pending(s'.observer, key).Nothing?
    ensures KeyOk(s', key)
  {
    QueuedSnoc(s.w.ahead, item, key);
  }

  lemma SendFsmKeeps(s: System)
    requires Inv(s) && s.fsm.Numbered?
    ensures Inv(Act(s, SendFsm))
  {
    var s', item := Act(s, SendFsm), s.fsm.item;
    forall key | Wanted(s.w.req, key) && !s'.w.phase.Detached? && key !in s'.w.stale
      ensures KeyOk(s', key)
    {
      if key in About(item) {
        assert ItemEffect(item, key) == Pending(s.fsm, key) && Pending(s.observer, key).Nothing?;
        ArrivalFreshens(s, s', item, key);
      } else {
        SendKeepsKey(s, s', item, key);
      }
    }
  }

  lemma SendObserverKeeps(s: System)
    requires Inv(s) && s.observer.Numbered?
    ensures Inv(Act(s, SendObserver))
  {
    var s', item := Act(s, SendObserver), s.observer.item;
    forall key | Wanted(s.w.req, key) && !s'.w.phase.Detached? && key !in s'.w.stale
      ensures KeyOk(s', key)
    {
      assert Pending(s.observer, key).Value? ==> key == LeaderKey && Pending(s.fsm, key).Nothing?;
      if key in About(item) {
        assert ItemEffect(item, key) == Pending(s.observer, key);
        ArrivalFreshens(s, s', item, key);
      } else {
        SendKeepsKey(s, s', item, key);
      }
    }
  }

  lemma SendOtherKeeps(s: System, k: nat)
    requires Inv(s) && k < |s.others|
    ensures Inv(Act(s, SendOther(k)))
  {
    var s', item := Act(s, SendOther(k)), s.others[k];
    forall key | Wanted(s.w.req, key) && !s'.w.phase.Detached? && key !in s'.w.stale
      ensures KeyOk(s', key)
    {
      SendKeepsKey(s, s', item, key);
    }
  }

  lemma AttachKeeps(s: System)
    requires Inv(s) && s.w.phase.Detached?
    ensures Inv(s.(w := s.w.(phase := Attached)))
  {
    var s' := s.(w := s.w.(phase := Attached));
    forall key
      ensures KeyOk(s', key)
    {
      assert LastQueued(s'.w.ahead, key) == Nothing && LastSent(s'.w.sent, key) == Nothing;
    }
  }

  lemma {:induction false} SnapshotSaysMember(req: Request, listing: seq<Member>,
                                              members: map<string, Member>, id: string)
    requires WantsMembers(req)
    requires forall x :: x in members ==> members[x].id == x
    requires forall m :: m in listing ==>
               m.id in members && members[m.id] == m && (m.status == Alive || m.status == Dead)
    ensures var seen := LastSent(SnapshotOf(req, listing), MemberKey(id));
            if id in members && members[id] in listing
            then seen == Value(if members[id].status == Dead then Down else Up)
            else seen == Nothing
    decreases |listing|
  {
    if listing != [] {
      var before, m := listing[..|listing| - 1], listing[|listing| - 1];
      assert listing == before + [m];
      assert m in listing && forall x :: x in before ==> x in listing;
      SnapshotSaysMember(req, before, members, id);
      var said := SnapshotMember(m.id, m.status != Dead);
      assert SnapshotOf(req, listing) == SnapshotOf(req, before) + [said];
      SentSnoc(SnapshotOf(req, before), said, MemberKey(id));
    }
  }

  // A listed member is shown up if it is alive, and down if it has any other status.
  predicate ShownAs(m: Member, up: bool) {
    if up then m.status == Alive else m.status == Dead || (m.status.OtherStatus? && m.status.text != "")
  }

  // The snapshot says of a member that it is up or down if and only if the listing has it
  // so and the request passes the matching event type.
  lemma {:induction false} SnapshotIs(req: Request, listing: seq<Member>, id: string, up: bool)
    ensures SnapshotMember(id, up) in SnapshotOf(req, listing)
       <==> && Matches(req, if up then "member.join" else "member.dead")
            && exists m :: m in listing && m.id == id && ShownAs(m, up)
    decreases |listing|
  {
    if listing != [] {
      var before, m := listing[..|listing| - 1], listing[|listing| - 1];
      SnapshotIs(req, before, id, up);
      assert listing == before + [m];
    }
  }

  lemma {:induction false} SnapshotSkipsLeader(req: Request, listing: seq<Member>)
    ensures LastSent(SnapshotOf(req, listing), LeaderKey) == Nothing
    decreases |listing|
  {
    if listing != [] {
      var before, m := listing[..|listing| - 1], listing[|listing| - 1];
      SnapshotSkipsLeader(req, before);
      SentSnoc(SnapshotOf(req, before), SnapshotMember(m.id, false), LeaderKey);
      SentSnoc(SnapshotOf(req, before), SnapshotMember(m.id, true), LeaderKey);
    }
  }

  lemma ReadMembersKeeps(s: System, listing: seq<Member>)
    requires Inv(s) && Enabled(s, ReadMembers(listing))
    ensures Inv(Act(s, ReadMembers(listing)))
  {
    var s' := Act(s, ReadMembers(listing));
    forall key | Wanted(s.w.req, key) && key !in s'.w.stale
      ensures KeyOk(s', key)
    {
      assert KeyOk(s, key) && LastSent(s.w.sent, key) == Nothing;
      match key
      case LeaderKey => SnapshotSkipsLeader(s.w.req, listing);
      case MemberKey(id) => SnapshotSaysMember(s.w.req, listing, s.engine.members, id);
    }
  }

  lemma {:induction false} SilentSuffix(sent: seq<Message>, more: seq<Message>, key: Key)
    requires forall i :: 0 <= i < |more| ==> MessageEffect(more[i], key) == Nothing
    ensures LastSent(sent + more, key) == LastSent(sent, key)
    decreases |more|
  {
    if more == [] {
      assert sent + more == sent;
    } else {
      var init, m := more[..|more| - 1], more[|more| - 1];
      SilentSuffix(sent, init, key);
      SentSnoc(sent + init, m, key);
      assert sent + more == sent + init + [m];
    }
  }

  lemma OpeningSays(sent: seq<Message>, w: Watcher, leaderId: string, key: Key)
    ensures LastSent(sent + Opening(w, leaderId), key)
         == if key == LeaderKey && leaderId != "" && Matches(w.req, LEADER_CHANGED) then Value(LeaderIs(leaderId))
            else LastSent(sent, key)
  {
    var all := Opening(w, leaderId);
    if leaderId != "" && Matches(w.req, LEADER_CHANGED) {
      SentSnoc(sent, all[0], key);
      SilentSuffix(sent + [all[0]], all[1..], key);
      assert sent + all == sent + [all[0]] + all[1..];
    } else {
      SilentSuffix(sent, all, key);
    }
  }

  lemma ReadLeaderKeeps(s: System)
    requires Inv(s) && s.w.phase.MembersRead?
    ensures Inv(Act(s, ReadLeader))
  {
    var s' := Act(s, ReadLeader);
    forall key | Wanted(s.w.req, key) && key !in s'.w.stale
      ensures KeyOk(s', key)
    {
      assert KeyOk(s, key);
      OpeningSays(s.w.sent, s.w, s.engine.leaderId, key);
    }
  }

  // A filter that follows a key passes every event about it.
  lemma WantedPasses(req: Request, item: Item, key: Key)
    requires Wanted(req, key) && ItemEffect(item, key).Value?
    ensures Matches(req, TypeOf(item.what))
  {
  }

  lemma SentThenLive(sent: seq<Message>, gap: seq<Message>, item: Item, key: Key)
    requires gap == [] || (|gap| == 1 && gap[0].Gap?)
    ensures LastSent(sent + gap + [Live(item)], key) == Latest(LastSent(sent, key), ItemEffect(item, key))
  {
    SentSnoc(sent + gap, Live(item), key);
    if gap == [] {
      assert sent + gap == sent;
    } else {
      assert gap == [gap[0]];
      SentSnoc(sent, gap[0], key);
    }
  }

  lemma ForwardMovesOne(w: Watcher, passes: bool, key: Key)
    requires w.ahead != [] && (ItemEffect(w.ahead[0], key).Value? ==> passes)
    ensures var w' := Forward(w, passes);
            Latest(LastSent(w'.sent, key), LastQueued(w'.ahead, key))
            == Latest(LastSent(w.sent, key), LastQueued(w.ahead, key))
  {
    var item, rest := w.ahead[0], w.ahead[1..];
    QueuedCons(w.ahead, key);
    assert Forward(w, passes).ahead == rest;
    if passes {
      var from := if w.lastLive > 0 then w.lastLive + 1 else 1;
      var gap := if w.dropped && from < item.seqNo then [Gap(from, item.seqNo - 1)] else [];
      SentThenLive(w.sent, gap, item, key);
      assert Forward(w, passes).sent == w.sent + gap + [Live(item)];
    }
  }

  lemma ReceiveMovesOne(w: Watcher, key: Key)
    requires w.ahead != [] && Wanted(w.req, key)
    ensures var w' := ReceiveStep(w);
            Latest(LastSent(w'.sent, key), LastQueued(w'.ahead, key))
            == Latest(LastSent(w.sent, key), LastQueued(w.ahead, key))
  {
    var item := w.ahead[0];
    if ItemEffect(item, key).Value? {
      WantedPasses(w.req, item, key);
    }
    ForwardMovesOne(w, Matches(w.req, TypeOf(item.what)), key);
  }

  lemma ReceiveKeepsKey(s: System, w': Watcher, key: Key)
    requires KeyOk(s, key) && w'.phase == s.w.phase
    requires Latest(LastSent(w'.sent, key), LastQueued(w'.ahead, key))
          == Latest(LastSent(s.w.sent, key), LastQueued(s.w.ahead, key))
    ensures KeyOk(s.(w := w'), key)
  {
  }

  lemma WatcherMovesAlone(s: System, w': Watcher)
    requires Inv(s) && w'.phase.Streaming? && w'.lost == s.w.lost && w'.stale == s.w.stale && w'.req == s.w.req
    requires forall key :: Wanted(s.w.req, key) && key !in s.w.stale ==> KeyOk(s.(w := w'), key)
    ensures Inv(s.(w := w'))
  {
  }

  lemma ReceiveKeeps(s: System)
    requires Inv(s) && Enabled(s, Take)
    ensures Inv(Act(s, Take))
  {
    var w' := ReceiveStep(s.w);
    assert w'.phase == s.w.phase && w'.lost == s.w.lost && w'.stale == s.w.stale && w'.req == s.w.req;
    forall key | Wanted(s.w.req, key) && key !in s.w.stale
      ensures KeyOk(s.(w := w'), key)
    {
      ReceiveMovesOne(s.w, key);
      ReceiveKeepsKey(s, w', key);
    }
    WatcherMovesAlone(s, w');
  }

  lemma QuietKeeps(s: System, a: Action)
    requires Inv(s) && Enabled(s, a)
    requires a.NumberFsm? || a.NumberObserver? || a.NumberOther? || a.Mark? || a.Pop? || Raises(a)
    ensures Inv(Act(s, a))
  {
    var s' := Act(s, a);
    assert forall key :: Pending(s'.fsm, key) == Pending(s.fsm, key);
    assert forall key :: Pending(s'.observer, key) == Pending(s.observer, key);
    forall key | Wanted(s.w.req, key) && !s.w.phase.Detached? && key !in s.w.stale
      ensures KeyOk(s', key)
    {
      assert KeyOk(s, key) && Reaching(s', key) == Reaching(s, key);
    }
  }

  lemma ActKeepsInv(s: System, a: Action)
    requires Inv(s) && Enabled(s, a)
    ensures Inv(Act(s, a))
  {
    match a
    case Fsm(op) => FsmChangeKeeps(s, op);
    case SeeLeader(id) => LeaderChangeKeeps(s, id);
    case NumberFsm => QuietKeeps(s, a);
    case NumberObserver => QuietKeeps(s, a);
    case NumberOther(_) => QuietKeeps(s, a);
    case SendFsm => SendFsmKeeps(s);
    case SendObserver => SendObserverKeeps(s);
    case SendOther(k) => SendOtherKeeps(s, k);
    case Attach => AttachKeeps(s);
    case Mark => QuietKeeps(s, a);
    case ReadMembers(listing) => ReadMembersKeeps(s, listing);
    case ReadLeader => ReadLeaderKeeps(s);
    case RaiseFsm => QuietKeeps(s, a);
    case RaiseObserver => QuietKeeps(s, a);
    case RaiseOther(_) => QuietKeeps(s, a);
    case Pop => QuietKeeps(s, a);
    case Take => ReceiveKeeps(s);
  }

  lemma {:induction false} RunKeepsInv(run: seq<System>, actions: seq<Action>, i: nat)
    requires IsRun(run, actions) && i < |run|
    ensures Inv(run[i])
    decreases i
  {
    if i > 0 {
      RunKeepsInv(run, actions, i - 1);
      ActKeepsInv(run[i - 1], actions[i - 1]);
    }
  }

  // Nothing of this watcher's is still on its way.
  predicate Quiet(s: System) {
    s.w.ahead == [] && s.fsm.Idle? && s.observer.Idle?
  }

  // In every interleaving, a streaming watcher with nothing on its way shows its client
  // exactly the engine: every member alive, dead or absent, and the leader, as far as its
  // filter asks for them, for each whose last event was not lost; so losses of other
  // events do no harm, and a later event about a member repairs an earlier loss.
  lemma WatchConverges(run: seq<System>, actions: seq<Action>, i: nat, key: Key)
    requires IsRun(run, actions) && i < |run|
    requires run[i].w.phase.Streaming? && Quiet(run[i]) && Wanted(run[i].w.req, key)
    requires !run[i].w.lost || key !in run[i].w.stale
    ensures ClientView(run[i].w.sent, key) == Current(run[i].engine, key)
  {
    RunKeepsInv(run, actions, i);
    assert KeyOk(run[i], key);
    assert LastQueued(run[i].w.ahead, key) == Nothing;
  }
}

/** The Watch handler's loops as code. */
module WatchLoop {
  import opened Members
  import opened Filters
  import opened WatchModel

  // The stream after everything now queued has been taken.
  function Drained(w: Watcher): Watcher
    decreases |w.ahead|
  {
    if w.ahead == [] then w else Drained(ReceiveStep(w))
  }

  method SendSnapshot(req: Request, listing: seq<Member>) returns (sent: seq<Message>)
    ensures sent == SnapshotOf(req, listing)
  {
    sent := [];
    for i := 0 to |listing|
      invariant sent == SnapshotOf(req, listing[..i])
    {
      var m := listing[i];
      assert listing[..i + 1][..i] == listing[..i];
      if NormalizeStatus(m.status) == Dead {
        if Matches(req, MEMBER_DEAD) {
          sent := sent + [SnapshotMember(m.id, false)];
        }
      } else if m.status == Alive {
        if Matches(req, MEMBER_JOIN) {
          sent := sent + [SnapshotMember(m.id, true)];
        }
      }
    }
    assert listing[..|listing|] == listing;
  }

  // The select loop of Watch run until the channel is empty; the queue only
  // shrinks while it runs, new deliveries being further turns of the model.
  method ForwardQueued(w: Watcher) returns (sent: seq<Message>, lastLive: nat, dropped: bool)
    ensures sent == Drained(w).sent && lastLive == Drained(w).lastLive && dropped == Drained(w).dropped
  {
    sent, lastLive, dropped := w.sent, w.lastLive, w.dropped;
    var queue := w.ahead;
    ghost var at := w;
    while queue != []
      invariant at.ahead == queue && at.sent == sent && at.lastLive == lastLive && at.dropped == dropped
      invariant at.req == w.req && Drained(at) == Drained(w)
      decreases |queue|
    {
      var item := queue[0];
      queue := queue[1..];
      at := ReceiveStep(at);
      if !Matches(w.req, TypeOf(item.what)) {
        continue;
      }
      if dropped {
        dropped := false;
        var from := 1;
        if lastLive > 0 {
          from := lastLive + 1;
        }
        if from <= item.seqNo - 1 {
          sent := sent + [Gap(from, item.seqNo - 1)];
        }
      }
      sent := sent + [Live(item)];
      lastLive := item.seqNo;
    }
  }
}
