/**
 The SDK's watch loop across reconnects.  Publishing is serialized, the request
 unfiltered and no queue overflows, so each connection streams consecutive
 numbers from its subscription on (WatchBridge derives that from the handler); what
 can go wrong is where a connection breaks.
 */
module WatchClient {
  // last is the last_seq the client sent, sub the bus number at subscription, mark
  // the number watch.sync carries, next the next live number due.
  datatype Conn =
    | Down
    | Dialing(last: nat, sub: nat)
    | Up(last: nat, sub: nat, mark: nat, synced: bool, gapped: bool, next: nat)

  datatype First = NoSync | SyncAt(n: nat)

  // lastSeq is the client's; first its first sync mark; delivered and reported what
  // it was sent and told it missed; missed the history of what breaks cut off.
  datatype State = State(
    seqNo: nat, conn: Conn, lastSeq: nat, first: First,
    delivered: set<nat>, reported: set<nat>, missed: set<nat>)

  datatype Action = Publish | Dial | Mark | RecvSync | RecvGap | RecvLive | Break

  predicate GapDue(c: Conn)
    requires c.Up?
  {
    c.last > 0 && c.mark > c.last
  }

  predicate Enabled(s: State, a: Action) {
    match a
    case Publish => true
    case Dial => s.conn.Down?
    case Mark => s.conn.Dialing?
    case RecvSync => s.conn.Up? && !s.conn.synced
    case RecvGap => s.conn.Up? && s.conn.synced && !s.conn.gapped && GapDue(s.conn)
    case RecvLive => s.conn.Up? && s.conn.synced && (GapDue(s.conn) ==> s.conn.gapped) && s.conn.next <= s.seqNo
    case Break => !s.conn.Down?
  }

  function Max(a: nat, b: nat): nat {
    if a >= b then a else b
  }

  predicate Between(lo: nat, n: nat, hi: nat) {
    lo < n <= hi
  }

  function Range(lo: nat, hi: nat): set<nat> {
    set n: nat | n <= hi && Between(lo, n, hi)
  }

  // What breaking the connection now cuts off for good: numbers the sync has put
  // behind the client's lastSeq, that no gap has reported and no live event carried.
  predicate IsCut(s: State, n: nat)
    requires s.conn.Up? && s.first.SyncAt?
  {
    s.conn.last < n <= s.conn.mark && s.first.n < n && !(s.conn.sub < n < s.conn.next)
  }

  function Cut(s: State): set<nat> {
    if s.conn.Up? && s.conn.synced && !s.conn.gapped && s.first.SyncAt?
    then set n: nat | n <= s.conn.mark && IsCut(s, n)
    else {}
  }

  function Act(s: State, a: Action): State
    requires Enabled(s, a)
  {
    match a
    case Publish => s.(seqNo := s.seqNo + 1)
    case Dial => s.(conn := Dialing(s.lastSeq, s.seqNo))
    case Mark => s.(conn := Up(s.conn.last, s.conn.sub, s.seqNo, false, false, s.conn.sub + 1))
    case RecvSync =>
      s.(conn := s.conn.(synced := true), lastSeq := Max(s.lastSeq, s.conn.mark),
         first := if s.first.NoSync? then SyncAt(s.conn.mark) else s.first)
    case RecvGap =>
      s.(conn := s.conn.(gapped := true), reported := s.reported + Range(s.conn.last, s.conn.mark))
    case RecvLive =>
      s.(conn := s.conn.(next := s.conn.next + 1), lastSeq := Max(s.lastSeq, s.conn.next),
         delivered := s.delivered + {s.conn.next})
    case Break => s.(conn := Down, missed := s.missed + Cut(s))
  }

  // What the client has been told on the connection it has, after the snapshot.
  datatype Notice = SyncNotice(mark: nat) | GapNotice(from: nat, to: nat) | LiveNotice(n: nat)

  function LiveRun(from: nat, to: nat): seq<Notice>
    requires from <= to
  {
    seq(to - from, i requires 0 <= i < to - from => LiveNotice(from + i))
  }

  function Heard(c: Conn): seq<Notice>
    requires c.Up? && c.sub < c.next
  {
    (if c.synced then [SyncNotice(c.mark)] else [])
    + (if c.gapped then [GapNotice(c.last + 1, c.mark)] else [])
    + LiveRun(c.sub + 1, c.next)
  }

  lemma NextIsHeard(c: Conn)
    requires c.Up? && c.sub < c.next
    ensures Heard(c.(next := c.next + 1)) == Heard(c) + [LiveNotice(c.next)]
  {
    assert LiveRun(c.sub + 1, c.next + 1) == LiveRun(c.sub + 1, c.next) + [LiveNotice(c.next)];
  }

  // The inner receive loop: lastSeq is raised by every larger number, never lowered.
  method ReceiveAll(lastSeq: nat, numbers: seq<nat>) returns (last: nat)
    ensures last >= lastSeq && forall k :: 0 <= k < |numbers| ==> numbers[k] <= last
    ensures last == lastSeq || last in numbers
  {
    last := lastSeq;
    for i := 0 to |numbers|
      invariant last >= lastSeq && forall k :: 0 <= k < i ==> numbers[k] <= last
      invariant last == lastSeq || last in numbers
    {
      if numbers[i] > last {
        last := numbers[i];
      }
    }
  }

  const INITIAL := State(0, Down, 0, NoSync, {}, {}, {})

  ghost predicate IsRun(run: seq<State>, actions: seq<Action>) {
    && |run| == |actions| + 1
    && run[0] == INITIAL.(seqNo := run[0].seqNo)
    && forall i :: 0 <= i < |actions| ==> Enabled(run[i], actions[i]) && run[i + 1] == Act(run[i], actions[i])
  }

  predicate Seen(s: State, n: nat) {
    n in s.delivered || n in s.reported
  }

  ghost predicate ConnOk(s: State) {
    match s.conn
    case Down => true
    case Dialing(last, sub) => last == s.lastSeq <= sub <= s.seqNo
    case Up(last, sub, mark, synced, gapped, next) =>
      && last <= sub <= mark <= s.seqNo
      && sub < next <= s.seqNo + 1
      && (!synced ==> !gapped && last == s.lastSeq && next == sub + 1)
      && (synced ==> s.first.SyncAt? && s.lastSeq == Max(mark, next - 1) && last <= s.lastSeq)
      && (synced && GapDue(s.conn) && !gapped ==> next == sub + 1)
      && (gapped ==> GapDue(s.conn))
  }

  // Up to what the client had seen when it dialed, the account is settled; beyond
  // it, exactly the reported range and the live run have been seen.
  ghost predicate Settled(s: State, n: nat) {
    && (Seen(s, n) || n in s.missed ==> n <= s.lastSeq)
    && (n in s.missed ==> !Seen(s, n) && s.first.SyncAt? && s.first.n < n)
    && (s.first.SyncAt? && s.first.n < n ==>
          if s.conn.Up? && s.conn.synced && s.conn.last < n
          then n !in s.missed && (Seen(s, n) <==> (s.conn.gapped && n <= s.conn.mark) || s.conn.sub < n < s.conn.next)
          else n <= s.lastSeq ==> (Seen(s, n) <==> n !in s.missed))
    && (s.first.NoSync? ==> !Seen(s, n) && n !in s.missed && s.lastSeq == 0)
  }

  ghost predicate Inv(s: State) {
    && s.lastSeq <= s.seqNo
    && ConnOk(s)
    && (s.first.SyncAt? ==> s.first.n <= s.lastSeq)
    && forall n :: Settled(s, n)
  }

  lemma ActKeepsConn(s: State, a: Action)
    requires Inv(s) && Enabled(s, a)
    ensures var s' := Act(s, a); s'.lastSeq <= s'.seqNo && ConnOk(s') && (s'.first.SyncAt? ==> s'.first.n <= s'.lastSeq)
  {
  }

  // Each receive adds its notice to what was heard.
  lemma ReceivesAreHeard(s: State, a: Action)
    requires Inv(s) && Enabled(s, a) && (a.RecvSync? || a.RecvGap? || a.RecvLive?)
    ensures var c, c' := s.conn, Act(s, a).conn;
            && c'.Up? && c'.sub < c'.next
            && Heard(c') == Heard(c) + [match a
                                        case RecvGap => GapNotice(c.last + 1, c.mark)
                                        case RecvLive => LiveNotice(c.next)
                                        case _ => SyncNotice(c.mark)]
  {
  }

  lemma ActKeepsSettled(s: State, a: Action, n: nat)
    requires Inv(s) && Enabled(s, a)
    ensures Settled(Act(s, a), n)
  {
    assert Settled(s, n);
  }

  lemma {:induction false} RunKeepsInv(run: seq<State>, actions: seq<Action>, i: nat)
    requires IsRun(run, actions) && i < |run|
    ensures Inv(run[i])
    decreases i
  {
    if i > 0 {
      RunKeepsInv(run, actions, i - 1);
      ActKeepsConn(run[i - 1], actions[i - 1]);
      forall n: nat
        ensures Settled(run[i], n)
      {
        ActKeepsSettled(run[i - 1], actions[i - 1], n);
      }
    }
  }

  // Across any number of reconnects, of all numbers between the first sync and the
  // client's lastSeq the client has seen, live or in a gap, exactly those that no
  // break cut off.
  lemma ReconnectCoverage(run: seq<State>, actions: seq<Action>, i: nat, n: nat)
    requires IsRun(run, actions) && i < |run| && run[i].conn.Down?
    requires run[i].first.SyncAt? && run[i].first.n < n <= run[i].lastSeq
    ensures Seen(run[i], n) <==> n !in run[i].missed
  {
    RunKeepsInv(run, actions, i);
    assert Settled(run[i], n);
  }

  // A cut number never reaches the client later.
  lemma {:induction false} CutIsFinal(run: seq<State>, actions: seq<Action>, i: nat, j: nat, n: nat)
    requires IsRun(run, actions) && i <= j < |run| && n in run[i].missed
    ensures n in run[j].missed && !Seen(run[j], n)
    decreases j - i
  {
    if i < j {
      CutIsFinal(run, actions, i, j - 1, n);
    }
    RunKeepsInv(run, actions, j);
    assert Settled(run[j], n);
  }

  // Exactly when a break cuts nothing: the sync has not arrived, or the gap has, or
  // the mark is nothing new to the client, or live events have filled the whole
  // range up to the mark.
  lemma BreakIsCleanIff(run: seq<State>, actions: seq<Action>, i: nat)
    requires IsRun(run, actions) && i < |run| && run[i].conn.Up? && run[i].conn.synced
    ensures var s, c := run[i], run[i].conn;
            s.first.SyncAt? &&
            var known := Max(c.last, s.first.n);
            Cut(s) == {} <==> c.gapped || c.mark <= known || (c.sub <= known && c.mark < c.next)
  {
    RunKeepsInv(run, actions, i);
    var s, c := run[i], run[i].conn;
    var known := Max(c.last, s.first.n);
    if !c.gapped && c.mark > known && !(c.sub <= known && c.mark < c.next) {
      var n := if c.sub > known then known + 1 else c.mark;
      assert n in Cut(s);
    }
  }

  // The promise that a reconnecting client is told what it missed fails when the
  // stream breaks after watch.sync and before watch.gap: the whole range is gone.
  lemma BreakBeforeGapLosesRange(run: seq<State>, actions: seq<Action>, i: nat, n: nat)
    requires IsRun(run, actions) && i < |actions| && actions[i] == Break
    requires run[i].conn.Up? && run[i].conn.synced && !run[i].conn.gapped && GapDue(run[i].conn)
    requires run[i].first.SyncAt? && Max(run[i].conn.last, run[i].first.n) < n <= run[i].conn.mark
    ensures n in run[i + 1].missed && n <= run[i + 1].lastSeq
  {
    RunKeepsInv(run, actions, i);
  }

  // It also fails for a client whose first sync was at zero: it reconnects with
  // last_seq 0, is taken for a new client, and is told of no gap.
  lemma ZeroResumeIsSilent() returns (run: seq<State>, actions: seq<Action>)
    ensures IsRun(run, actions)
    ensures var s := run[|run| - 1]; s.first == SyncAt(0) && s.conn.Down? && s.lastSeq == 1 && !Seen(s, 1)
  {
    actions := [Dial, Mark, RecvSync, Break, Publish, Dial, Mark, RecvSync, Break];
    var s1 := Act(INITIAL, Dial);
    var s2 := Act(s1, Mark);
    var s3 := Act(s2, RecvSync);
    var s4 := Act(s3, Break);
    var s5 := Act(s4, Publish);
    var s6 := Act(s5, Dial);
    var s7 := Act(s6, Mark);
    var s8 := Act(s7, RecvSync);
    var s9 := Act(s8, Break);
    run := [INITIAL, s1, s2, s3, s4, s5, s6, s7, s8, s9];
  }
}

/** The handler's stream is the connection the client's account relies on. */
module WatchBridge {
  import opened Bus
  import opened Filters
  import opened WatchModel
  import opened WatchArrival
  import opened WatchSequence
  import C = WatchClient

  predicate PassesAll(req: Request) {
    req.topics == [] && req.eventTypes == []
  }

  // A stream without its snapshot.
  function Notices(ms: seq<Message>): seq<C.Notice> {
    if ms == [] then []
    else
      var before := Notices(ms[..|ms| - 1]);
      match ms[|ms| - 1]
      case Sync(n) => before + [C.SyncNotice(n)]
      case Gap(from, to) => before + [C.GapNotice(from, to)]
      case Live(item) => before + [C.LiveNotice(item.seqNo)]
      case SnapshotMember(_, _) => before
      case SnapshotLeader(_) => before
  }

  // The connection a streaming watcher amounts to.
  function ConnOf(w: Watcher): C.Conn
    requires |w.ahead| <= |w.arrived|
  {
    C.Up(w.req.lastSeq, w.base, w.fromSeq, true, 0 < w.req.lastSeq < w.fromSeq, w.base + 1 + |w.arrived| - |w.ahead|)
  }

  lemma NoticesSnoc(ms: seq<Message>, m: Message)
    ensures Notices(ms + [m])
         == Notices(ms) + (match m
                           case Sync(n) => [C.SyncNotice(n)]
                           case Gap(from, to) => [C.GapNotice(from, to)]
                           case Live(item) => [C.LiveNotice(item.seqNo)]
                           case SnapshotMember(_, _) => []
                           case SnapshotLeader(_) => [])
  {
    assert (ms + [m])[..|ms|] == ms;
  }

  lemma {:induction false} SnapshotIsSilent(ms: seq<Message>)
    requires forall i :: 0 <= i < |ms| ==> ms[i].SnapshotMember?
    ensures Notices(ms) == []
    decreases |ms|
  {
    if ms != [] {
      SnapshotIsSilent(ms[..|ms| - 1]);
    }
  }

  // What is ahead is the end of what arrived; before the stream starts, all of it.
  ghost predicate AheadIsEnd(w: Watcher) {
    && |w.ahead| <= |w.arrived|
    && (forall j :: 0 <= j < |w.ahead| ==> w.ahead[j] == w.arrived[|w.arrived| - |w.ahead| + j])
    && (!w.phase.Streaming? ==> |w.ahead| == |w.arrived|)
  }

  // Nothing lost, nothing flagged.
  ghost predicate Calm(s: System) {
    !s.w.lost ==> !s.w.dropped && s.raising == [] && !s.fsm.Raising? && !s.observer.Raising?
  }

  // Every number from the subscription up to hi, none of them missing.
  ghost predicate Consecutive(w: Watcher, hi: nat) {
    && (forall i :: 0 <= i < |w.arrived| ==> w.arrived[i].seqNo == w.base + 1 + i)
    && (if w.phase.Detached? then w.arrived == [] else w.base + |w.arrived| == hi)
  }

  lemma ReceivesKeepsEnd(w: Watcher, item: Item)
    requires AheadIsEnd(w)
    ensures AheadIsEnd(Receives(w, item))
  {
  }

  lemma ForwardKeepsEnd(w: Watcher, passes: bool)
    requires AheadIsEnd(w) && w.phase.Streaming? && w.ahead != []
    ensures AheadIsEnd(Forward(w, passes))
  {
  }

  lemma ActKeepsEnd(s: System, a: Action)
    requires AheadIsEnd(s.w) && Enabled(s, a)
    ensures AheadIsEnd(Act(s, a).w)
  {
    if Sends(a) {
      ReceivesKeepsEnd(s.w, SentItem(s, a));
      assert Act(s, a).w == Receives(s.w, SentItem(s, a));
    } else if a.Take? {
      ForwardKeepsEnd(s.w, Passes(s.w.req, s.w.ahead[0]));
    } else {
      assert Act(s, a).w.ahead == s.w.ahead && Act(s, a).w.arrived == s.w.arrived;
    }
  }

  lemma ActKeepsCalm(s: System, a: Action)
    requires Calm(s) && Enabled(s, a)
    ensures Calm(Act(s, a)) && (s.w.lost ==> Act(s, a).w.lost)
  {
  }

  lemma SendKeepsNumbers(s: System, a: Action)
    requires SerialInv(s) && Consecutive(s.w, Settled(s)) && Enabled(s, a) && Sends(a) && !Act(s, a).w.lost && !s.w.lost
    ensures Consecutive(Act(s, a).w, Settled(Act(s, a)))
  {
    SentIsLast(s, a);
  }

  lemma ActKeepsNumbers(s: System, a: Action)
    requires SerialInv(s) && Calm(s) && Enabled(s, a) && (Numbers(a) ==> !Publishing(s))
    requires !s.w.lost && !Act(s, a).w.lost && Consecutive(s.w, Settled(s))
    ensures Consecutive(Act(s, a).w, Settled(Act(s, a)))
  {
    var s' := Act(s, a);
    if Sends(a) {
      SendKeepsNumbers(s, a);
    } else {
      assert s'.w.arrived == s.w.arrived && Settled(s') == Settled(s);
    }
  }

  ghost predicate Inv(s: System) {
    && SerialInv(s) && Calm(s) && AheadIsEnd(s.w)
    && (!s.w.lost ==> Consecutive(s.w, Settled(s)))
  }

  lemma ActKeepsInv(s: System, a: Action)
    requires Inv(s) && Enabled(s, a) && (Numbers(a) ==> !Publishing(s))
    ensures Inv(Act(s, a))
  {
    ActKeepsSerial(s, a);
    ActKeepsCalm(s, a);
    ActKeepsEnd(s, a);
    if !Act(s, a).w.lost {
      ActKeepsNumbers(s, a);
    }
  }

  ghost predicate StreamOk(w: Watcher) {
    && |w.ahead| <= |w.arrived|
    && (PassesAll(w.req) && !w.lost ==>
          if w.phase.Streaming? then Notices(w.sent) == C.Heard(ConnOf(w)) else Notices(w.sent) == [])
  }

  lemma ForwardIsHeard(w: Watcher)
    requires StreamOk(w) && PassesAll(w.req) && !w.lost && w.phase.Streaming? && w.ahead != [] && !w.dropped
    requires w.ahead[0].seqNo == ConnOf(w).next
    ensures StreamOk(Forward(w, true))
  {
    var w', item := Forward(w, true), w.ahead[0];
    assert w'.sent == w.sent + [] + [Live(item)] == w.sent + [Live(item)];
    NoticesSnoc(w.sent, Live(item));
    C.NextIsHeard(ConnOf(w));
  }

  lemma NextIsNext(w: Watcher, hi: nat)
    requires AheadIsEnd(w) && Consecutive(w, hi) && w.ahead != []
    ensures w.ahead[0].seqNo == ConnOf(w).next
  {
    assert w.ahead[0] == w.arrived[|w.arrived| - |w.ahead|];
  }

  lemma TakeKeepsStream(s: System)
    requires Inv(s) && StreamOk(s.w) && Enabled(s, Take)
    ensures StreamOk(Act(s, Take).w)
  {
    if PassesAll(s.w.req) && !s.w.lost {
      NextIsNext(s.w, Settled(s));
      ForwardIsHeard(s.w);
    }
  }

  lemma {:induction false} NoticesAppend(ms: seq<Message>, more: seq<Message>)
    ensures Notices(ms + more) == Notices(ms) + Notices(more)
    decreases |more|
  {
    if more == [] {
      assert ms + more == ms;
    } else {
      var k := |more| - 1;
      NoticesAppend(ms, more[..k]);
      NoticesSnoc(ms + more[..k], more[k]);
      assert ms + more == ms + more[..k] + [more[k]];
    }
  }

  lemma OneNotice(m: Message)
    ensures m.SnapshotLeader? ==> Notices([m]) == []
    ensures m.Sync? ==> Notices([m]) == [C.SyncNotice(m.seqNo)]
    ensures m.Gap? ==> Notices([m]) == [C.GapNotice(m.from, m.to)]
  {
    NoticesSnoc([], m);
    assert [] + [m] == [m];
  }

  lemma OpeningIsHeard(w: Watcher, leaderId: string)
    requires Notices(w.sent) == []
    ensures Notices(w.sent + Opening(w, leaderId))
         == [C.SyncNotice(w.fromSeq)]
            + (if 0 < w.req.lastSeq < w.fromSeq then [C.GapNotice(w.req.lastSeq + 1, w.fromSeq)] else [])
  {
    var led := if leaderId != "" && Matches(w.req, LEADER_CHANGED) then [SnapshotLeader(leaderId)] else [];
    var gap := if 0 < w.req.lastSeq < w.fromSeq then [Gap(w.req.lastSeq + 1, w.fromSeq)] else [];
    OneNotice(SnapshotLeader(leaderId));
    OneNotice(Sync(w.fromSeq));
    OneNotice(Gap(w.req.lastSeq + 1, w.fromSeq));
    NoticesAppend(led, [Sync(w.fromSeq)]);
    NoticesAppend(led + [Sync(w.fromSeq)], gap);
    NoticesAppend(w.sent, led + [Sync(w.fromSeq)] + gap);
  }

  lemma ReadLeaderKeepsStream(s: System)
    requires Inv(s) && StreamOk(s.w) && s.w.phase.MembersRead?
    ensures StreamOk(Act(s, ReadLeader).w)
  {
    if PassesAll(s.w.req) && !s.w.lost {
      OpeningIsHeard(s.w, s.engine.leaderId);
      assert C.LiveRun(s.w.base + 1, s.w.base + 1) == [];
    }
  }

  // Steps that add nothing to the stream.
  lemma StillStepKeepsStream(w: Watcher, w': Watcher)
    requires StreamOk(w) && w'.req == w.req && w'.fromSeq == w.fromSeq && w'.base == w.base && w'.sent == w.sent
    requires w'.phase.Streaming? == w.phase.Streaming? && (w.lost ==> w'.lost)
    requires |w'.ahead| <= |w'.arrived| && (!w'.lost ==> |w'.arrived| - |w'.ahead| == |w.arrived| - |w.ahead|)
    ensures StreamOk(w')
  {
  }

  lemma ReceivesKeepsStream(w: Watcher, item: Item)
    requires StreamOk(w)
    ensures StreamOk(Receives(w, item))
  {
    StillStepKeepsStream(w, Receives(w, item));
  }

  lemma ActKeepsStream(s: System, a: Action)
    requires Inv(s) && StreamOk(s.w) && Enabled(s, a)
    ensures StreamOk(Act(s, a).w)
  {
    if a.Take? {
      TakeKeepsStream(s);
    } else if a.ReadMembers? {
      SnapshotHasNoLive(s.w.req, a.listing);
      SnapshotIsSilent(SnapshotOf(s.w.req, a.listing));
    } else if a.ReadLeader? {
      ReadLeaderKeepsStream(s);
    } else if Sends(a) {
      ReceivesKeepsStream(s.w, SentItem(s, a));
    } else if s.w.phase.Streaming? {
      StillStepKeepsStream(s.w, Act(s, a).w);
    }
  }

  lemma {:induction false} RunKeepsStream(run: seq<System>, actions: seq<Action>, i: nat)
    requires IsRun(run, actions) && Serial(run, actions) && i < |run|
    ensures Inv(run[i]) && StreamOk(run[i].w)
    decreases i
  {
    if i > 0 {
      RunKeepsStream(run, actions, i - 1);
      ActKeepsInv(run[i - 1], actions[i - 1]);
      ActKeepsStream(run[i - 1], actions[i - 1]);
    }
  }

  // In every serialized run an unfiltered stream that lost nothing is, after its
  // snapshot, exactly what the client's connection hears: the sync mark, the gap if one
  // is due, and every number from the subscription on, consecutively.
  lemma StreamIsConnection(run: seq<System>, actions: seq<Action>, i: nat)
    requires IsRun(run, actions) && Serial(run, actions) && i < |run|
    requires run[i].w.phase.Streaming? && !run[i].w.lost && PassesAll(run[i].w.req)
    ensures var w := run[i].w;
            && |w.ahead| <= |w.arrived|
            && Notices(w.sent) == C.Heard(ConnOf(w))
            && (ConnOf(w).gapped <==> C.GapDue(ConnOf(w)))
            && ConnOf(w).next - 1 + |w.ahead| == Settled(run[i])
  {
    RunKeepsStream(run, actions, i);
  }
}
