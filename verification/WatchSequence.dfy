/** What reaches the stream: every offered number, in order of arrival. */
module WatchArrival {
  import opened Members
  import opened Bus
  import opened Filters
  import opened WatchModel

  // Numbered by some publisher and not yet offered.
  ghost predicate InFlight(s: System, n: nat) {
    || (s.fsm.Numbered? && s.fsm.item.seqNo == n)
    || (s.observer.Numbered? && s.observer.item.seqNo == n)
    || (exists k :: 0 <= k < |s.others| && s.others[k].seqNo == n)
  }

  predicate IsMarked(phase: Phase) {
    phase.Marked? || phase.MembersRead? || phase.Streaming?
  }

  // Every number above the sync mark is in flight or has been offered to the watcher.
  ghost predicate Covered(s: System) {
    && s.w.fromSeq <= s.seqNo
    && (IsMarked(s.w.phase) ==> forall n :: s.w.fromSeq < n <= s.seqNo ==> n in s.w.offered || InFlight(s, n))
  }

  // What the live part of a stream carries, and what a filter lets through.
  function LiveItems(ms: seq<Message>): seq<Item> {
    if ms == [] then []
    else
      var before, m := LiveItems(ms[..|ms| - 1]), ms[|ms| - 1];
      if m.Live? then before + [m.item] else before
  }

  predicate Passes(req: Request, item: Item) {
    Matches(req, TypeOf(item.what))
  }

  function Passing(req: Request, items: seq<Item>): seq<Item> {
    if items == [] then []
    else
      var before, item := Passing(req, items[..|items| - 1]), items[|items| - 1];
      if Passes(req, item) then before + [item] else before
  }

  // A request for one type of membership event, and no topics, passes of all membership
  // events exactly those of that type.
  lemma TypeFilterPicks(lastSeq: nat, typ: string, e: Event, n: nat)
    requires typ in {"member.join", "member.dead", "member.left", "leader.changed"}
    ensures Passes(Request(lastSeq, [], [typ]), Item(Change(e), n))
       <==> match e
            case MemberJoin(_, _, _) => typ == "member.join"
            case MemberDead(_) => typ == "member.dead"
            case MemberLeft(_) => typ == "member.left"
            case LeaderChanged(_) => typ == "leader.changed"
  {
    assert MEMBER_JOIN[0] == 'm' && MEMBER_DEAD[0] == 'm' && MEMBER_LEFT[0] == 'm' && LEADER_CHANGED[0] == 'l';
    assert WATCH_SYNC[0] == 'w' && WATCH_GAP[0] == 'w';
    assert |MEMBER_JOIN| == 11 && MEMBER_JOIN[7] == 'j' && MEMBER_DEAD[7] == 'd' && MEMBER_LEFT[7] == 'l';
  }

  lemma LiveSnoc(ms: seq<Message>, m: Message)
    ensures LiveItems(ms + [m]) == LiveItems(ms) + (if m.Live? then [m.item] else [])
  {
    assert (ms + [m])[..|ms|] == ms;
  }

  lemma {:induction false} NoLiveItems(ms: seq<Message>, more: seq<Message>)
    requires forall i :: 0 <= i < |more| ==> !more[i].Live?
    ensures LiveItems(ms + more) == LiveItems(ms)
    decreases |more|
  {
    if more == [] {
      assert ms + more == ms;
    } else {
      var k := |more| - 1;
      NoLiveItems(ms, more[..k]);
      LiveSnoc(ms + more[..k], more[k]);
      assert ms + more == ms + more[..k] + [more[k]];
    }
  }

  lemma PassingSnoc(req: Request, items: seq<Item>, item: Item)
    ensures Passing(req, items + [item]) == Passing(req, items) + (if Passes(req, item) then [item] else [])
  {
    assert (items + [item])[..|items|] == items;
  }

  lemma {:induction false} PassingCons(req: Request, items: seq<Item>)
    requires items != []
    ensures Passing(req, items) == (if Passes(req, items[0]) then [items[0]] else []) + Passing(req, items[1..])
    decreases |items|
  {
    if |items| > 1 {
      var k := |items| - 1;
      PassingCons(req, items[..k]);
      assert items[..k][1..] == items[1..][..k - 1];
    }
  }

  lemma {:induction false} PassingHolds(req: Request, items: seq<Item>, item: Item)
    ensures item in Passing(req, items) <==> item in items && Passes(req, item)
    decreases |items|
  {
    if items != [] {
      var k := |items| - 1;
      PassingHolds(req, items[..k], item);
      assert items == items[..k] + [items[k]];
    }
  }

  lemma {:induction false} LiveItemsHold(ms: seq<Message>, item: Item)
    ensures item in LiveItems(ms) <==> Live(item) in ms
    decreases |ms|
  {
    if ms != [] {
      var k := |ms| - 1;
      LiveItemsHold(ms[..k], item);
      assert ms == ms[..k] + [ms[k]];
    }
  }

  predicate HasArrived(w: Watcher, n: nat) {
    exists k :: 0 <= k < |w.arrived| && w.arrived[k].seqNo == n
  }

  // The live stream followed by what is still ahead is what arrived, filtered.
  ghost predicate InOrder(w: Watcher) {
    && LiveItems(w.sent) + Passing(w.req, w.ahead) == Passing(w.req, w.arrived)
    && (!w.phase.Streaming? ==> LiveItems(w.sent) == [])
  }

  // What was offered to a watcher that lost nothing has arrived.
  ghost predicate NoneAstray(w: Watcher) {
    !w.lost ==> forall n :: n in w.offered ==> HasArrived(w, n)
  }

  lemma ReceivesKeepsOrder(w: Watcher, item: Item)
    requires InOrder(w)
    ensures InOrder(Receives(w, item))
  {
    if !w.phase.Detached? && !Full(w) {
      PassingSnoc(w.req, w.ahead, item);
      PassingSnoc(w.req, w.arrived, item);
    }
  }

  lemma ReceivesKeepsOffers(w: Watcher, item: Item)
    requires NoneAstray(w)
    ensures NoneAstray(Receives(w, item))
    ensures !w.phase.Detached? ==> Receives(w, item).offered == w.offered + {item.seqNo}
  {
    var w' := Receives(w, item);
    if !w.phase.Detached? && !Full(w) {
      assert w'.arrived[|w.arrived|] == item;
      forall n | n in w'.offered && !w'.lost
        ensures HasArrived(w', n)
      {
        if n != item.seqNo {
          var k :| 0 <= k < |w.arrived| && w.arrived[k].seqNo == n;
          assert w'.arrived[k] == w.arrived[k];
        }
      }
    }
  }

  lemma ForwardedItems(w: Watcher, passes: bool)
    requires w.ahead != []
    ensures LiveItems(Forward(w, passes).sent) == LiveItems(w.sent) + (if passes then [w.ahead[0]] else [])
  {
    if passes {
      var item := w.ahead[0];
      var from := if w.lastLive > 0 then w.lastLive + 1 else 1;
      var gap := if w.dropped && from < item.seqNo then [Gap(from, item.seqNo - 1)] else [];
      NoLiveItems(w.sent, gap);
      LiveSnoc(w.sent + gap, Live(item));
    }
  }

  lemma Reassociate(a: seq<Item>, b: seq<Item>, c: seq<Item>)
    ensures a + b + c == a + (b + c)
  {
  }

  lemma ForwardKeepsOrder(w: Watcher, passes: bool)
    requires InOrder(w) && w.phase.Streaming? && w.ahead != [] && passes == Passes(w.req, w.ahead[0])
    ensures InOrder(Forward(w, passes))
  {
    var w', one := Forward(w, passes), if passes then [w.ahead[0]] else [];
    var live, rest := LiveItems(w.sent), Passing(w.req, w.ahead[1..]);
    assert w'.req == w.req && w'.ahead == w.ahead[1..] && w'.arrived == w.arrived && w'.phase.Streaming?;
    assert Passing(w.req, w.ahead) == one + rest by {
      PassingCons(w.req, w.ahead);
    }
    assert LiveItems(w'.sent) == live + one by {
      ForwardedItems(w, passes);
    }
    Reassociate(live, one, rest);
  }

  lemma {:induction false} SnapshotHasNoLive(req: Request, listing: seq<Member>)
    ensures forall i :: 0 <= i < |SnapshotOf(req, listing)| ==> SnapshotOf(req, listing)[i].SnapshotMember?
    decreases |listing|
  {
    if listing != [] {
      SnapshotHasNoLive(req, listing[..|listing| - 1]);
    }
  }

  lemma HandoffKeepsOrder(s: System, a: Action)
    requires InOrder(s.w) && Enabled(s, a) && (a.ReadMembers? || a.ReadLeader?)
    ensures InOrder(Act(s, a).w)
  {
    var w' := Act(s, a).w;
    if a.ReadMembers? {
      SnapshotHasNoLive(s.w.req, a.listing);
      NoLiveItems([], w'.sent);
      assert [] + w'.sent == w'.sent;
    } else {
      NoLiveItems(s.w.sent, Opening(s.w, s.engine.leaderId));
    }
  }

  lemma ActKeepsOrder(s: System, a: Action)
    requires InOrder(s.w) && Enabled(s, a)
    ensures InOrder(Act(s, a).w)
  {
    if Sends(a) {
      ReceivesKeepsOrder(s.w, SentItem(s, a));
    } else if a.Take? {
      ForwardKeepsOrder(s.w, Passes(s.w.req, s.w.ahead[0]));
    } else if a.ReadMembers? || a.ReadLeader? {
      HandoffKeepsOrder(s, a);
    }
  }

  lemma ActKeepsOffers(s: System, a: Action)
    requires NoneAstray(s.w) && Enabled(s, a)
    ensures NoneAstray(Act(s, a).w)
  {
    if Sends(a) {
      ReceivesKeepsOffers(s.w, SentItem(s, a));
    } else {
      assert forall n :: HasArrived(s.w, n) ==> HasArrived(Act(s, a).w, n);
    }
  }

  predicate Sends(a: Action) {
    a.SendFsm? || a.SendObserver? || a.SendOther?
  }

  predicate Numbers(a: Action) {
    a.NumberFsm? || a.NumberObserver? || a.NumberOther?
  }

  function SentItem(s: System, a: Action): Item
    requires Sends(a) && (a.SendFsm? ==> s.fsm.Numbered?) && (a.SendObserver? ==> s.observer.Numbered?)
    requires a.SendOther? ==> a.k < |s.others|
  {
    if a.SendFsm? then s.fsm.item else if a.SendObserver? then s.observer.item else s.others[a.k]
  }

  function RaiseFor(s: System, a: Action): Action
    requires Sends(a) && (a.SendOther? ==> s.raising != [])
  {
    if a.SendFsm? then RaiseFsm else if a.SendObserver? then RaiseObserver else RaiseOther(|s.raising| - 1)
  }

  // A publisher's send step, with its raise step when the queue was full, does to the
  // watcher's subscription what a publish does on the bus.
  lemma SendAndRaiseIsPublish(s: System, a: Action)
    requires Enabled(s, a) && Sends(a) && !s.w.phase.Detached? && (s.w.inHand ==> s.w.ahead != [])
    ensures var s1 := Act(s, a);
            if !Full(s.w) then Offered(QueueOf(s.w), SentItem(s, a), QueueOf(s1.w))
            else
              && (a.SendOther? ==> s1.raising != [])
              && Enabled(s1, RaiseFor(s1, a))
              && Offered(QueueOf(s.w), SentItem(s, a), QueueOf(Act(s1, RaiseFor(s1, a)).w))
  {
    ReceivesIsOffered(s.w, SentItem(s, a));
  }

  lemma SendCovers(s: System, a: Action)
    requires Covered(s) && Enabled(s, a) && Sends(a)
    ensures Covered(Act(s, a))
  {
    var s', item := Act(s, a), SentItem(s, a);
    if IsMarked(s.w.phase) {
      forall n | s.w.fromSeq < n <= s.seqNo
        ensures n in s'.w.offered || InFlight(s', n)
      {
        if n !in s.w.offered && n != item.seqNo && a.SendOther? {
          if exists k :: 0 <= k < |s.others| && s.others[k].seqNo == n {
            var k :| 0 <= k < |s.others| && s.others[k].seqNo == n;
            assert s'.others[if k < a.k then k else k - 1] == s.others[k];
          }
        }
      }
    }
  }

  lemma NumberCovers(s: System, a: Action)
    requires Covered(s) && Enabled(s, a) && Numbers(a)
    ensures Covered(Act(s, a))
  {
    var s' := Act(s, a);
    if a.NumberOther? {
      assert s'.others[|s.others|].seqNo == s'.seqNo;
    }
    assert InFlight(s', s'.seqNo);
    forall n | InFlight(s, n)
      ensures InFlight(s', n)
    {
      if exists k :: 0 <= k < |s.others| && s.others[k].seqNo == n {
        var k :| 0 <= k < |s.others| && s.others[k].seqNo == n;
        assert s'.others[k] == s.others[k];
      }
    }
  }

  lemma ActCovers(s: System, a: Action)
    requires Covered(s) && Enabled(s, a)
    ensures Covered(Act(s, a))
  {
    if Numbers(a) {
      NumberCovers(s, a);
    } else if Sends(a) {
      SendCovers(s, a);
    } else {
      assert forall n :: InFlight(s, n) ==> InFlight(Act(s, a), n);
    }
  }

  lemma {:induction false} RunCovers(run: seq<System>, actions: seq<Action>, i: nat)
    requires IsRun(run, actions) && i < |run|
    ensures Covered(run[i]) && InOrder(run[i].w) && NoneAstray(run[i].w)
    decreases i
  {
    if i > 0 {
      RunCovers(run, actions, i - 1);
      ActCovers(run[i - 1], actions[i - 1]);
      ActKeepsOrder(run[i - 1], actions[i - 1]);
      ActKeepsOffers(run[i - 1], actions[i - 1]);
    }
  }

  // The number arrived, and if the filter passes its item the stream carries it.
  predicate Reached(w: Watcher, n: nat) {
    exists k :: 0 <= k < |w.arrived| && w.arrived[k].seqNo == n
             && (Passes(w.req, w.arrived[k]) ==> Live(w.arrived[k]) in w.sent)
  }

  lemma ArrivedIsReached(w: Watcher, n: nat)
    requires InOrder(w) && w.ahead == [] && HasArrived(w, n)
    ensures Reached(w, n)
  {
    var k :| 0 <= k < |w.arrived| && w.arrived[k].seqNo == n;
    PassingHolds(w.req, w.arrived, w.arrived[k]);
    LiveItemsHold(w.sent, w.arrived[k]);
    assert Passing(w.req, w.ahead) == [];
  }

  // With any number of concurrent publishers, every number above the sync mark is
  // offered to the watcher once its send is attempted; and a watcher that lost nothing,
  // with nothing ahead of it, has been sent every one of them that its filter passes.
  lemma EveryNumberReachesWatcher(run: seq<System>, actions: seq<Action>, i: nat, n: nat)
    requires IsRun(run, actions) && i < |run| && run[i].w.phase.Streaming?
    requires run[i].w.fromSeq < n <= run[i].seqNo && !InFlight(run[i], n)
    ensures n in run[i].w.offered
    ensures !run[i].w.lost && run[i].w.ahead == [] ==> Reached(run[i].w, n)
  {
    RunCovers(run, actions, i);
    if !run[i].w.lost && run[i].w.ahead == [] {
      ArrivedIsReached(run[i].w, n);
    }
  }

  ghost predicate Increasing(items: seq<Item>) {
    forall i, j :: 0 <= i < j < |items| ==> items[i].seqNo < items[j].seqNo
  }

  // Whatever was lost on the way, the live stream is the filtered sequence of arrivals;
  // so once nothing is ahead its numbers increase if and only if the arrivals did.
  lemma StreamIsArrivalOrder(run: seq<System>, actions: seq<Action>, i: nat)
    requires IsRun(run, actions) && i < |run|
    ensures var w := run[i].w;
            && LiveItems(w.sent) + Passing(w.req, w.ahead) == Passing(w.req, w.arrived)
            && (w.ahead == [] ==> (Increasing(LiveItems(w.sent)) <==> Increasing(Passing(w.req, w.arrived))))
  {
    RunCovers(run, actions, i);
    if run[i].w.ahead == [] {
      assert LiveItems(run[i].w.sent) == Passing(run[i].w.req, run[i].w.arrived);
    }
  }

  // Some gap sent before the live stream covers n.
  ghost predicate OpeningReports(w: Watcher, n: nat) {
    exists g :: 0 <= g < w.opening && g < |w.sent| && w.sent[g].Gap? && w.sent[g].from <= n <= w.sent[g].to
  }

  ghost predicate OpeningOk(w: Watcher) {
    if w.phase.Streaming?
    then
      && w.opening <= |w.sent|
      && (forall n: nat :: OpeningReports(w, n) <==> 0 < w.req.lastSeq < n <= w.fromSeq)
    else forall i :: 0 <= i < |w.sent| ==> w.sent[i].SnapshotMember?
  }

  lemma OpeningSaysGap(w: Watcher, leaderId: string, n: nat)
    requires forall i :: 0 <= i < |w.sent| ==> w.sent[i].SnapshotMember?
    ensures var sent := w.sent + Opening(w, leaderId);
            OpeningReports(w.(sent := sent, opening := |sent|), n) <==> 0 < w.req.lastSeq < n <= w.fromSeq
  {
    var sent := w.sent + Opening(w, leaderId);
    if 0 < w.req.lastSeq < w.fromSeq {
      assert sent[|sent| - 1] == Gap(w.req.lastSeq + 1, w.fromSeq);
    }
  }

  lemma LongerStreamKeepsOpening(w: Watcher, w': Watcher)
    requires OpeningOk(w) && w.phase.Streaming? && w'.phase.Streaming? && w.sent <= w'.sent
    requires w'.opening == w.opening && w'.fromSeq == w.fromSeq && w'.req == w.req
    ensures OpeningOk(w')
  {
    forall n: nat
      ensures OpeningReports(w', n) <==> OpeningReports(w, n)
    {
      assert forall g :: 0 <= g < w.opening ==> w'.sent[g] == w.sent[g];
    }
  }

  lemma ReadLeaderKeepsOpening(w: Watcher, leaderId: string)
    requires forall i :: 0 <= i < |w.sent| ==> w.sent[i].SnapshotMember?
    ensures var sent := w.sent + Opening(w, leaderId);
            OpeningOk(w.(phase := Streaming, sent := sent, opening := |sent|))
  {
    var sent := w.sent + Opening(w, leaderId);
    var w' := w.(phase := Streaming, sent := sent, opening := |sent|);
    forall n: nat
      ensures OpeningReports(w', n) <==> 0 < w.req.lastSeq < n <= w.fromSeq
    {
      OpeningSaysGap(w, leaderId, n);
      assert OpeningReports(w', n) <==> OpeningReports(w.(sent := sent, opening := |sent|), n);
    }
  }

  lemma ActKeepsOpening(s: System, a: Action)
    requires OpeningOk(s.w) && Enabled(s, a)
    ensures OpeningOk(Act(s, a).w)
  {
    if a.ReadMembers? {
      SnapshotHasNoLive(s.w.req, a.listing);
    } else if a.ReadLeader? {
      ReadLeaderKeepsOpening(s.w, s.engine.leaderId);
    } else if s.w.phase.Streaming? {
      LongerStreamKeepsOpening(s.w, Act(s, a).w);
    }
  }

  lemma {:induction false} RunKeepsOpening(run: seq<System>, actions: seq<Action>, i: nat)
    requires IsRun(run, actions) && i < |run|
    ensures OpeningOk(run[i].w)
    decreases i
  {
    if i > 0 {
      RunKeepsOpening(run, actions, i - 1);
      ActKeepsOpening(run[i - 1], actions[i - 1]);
    }
  }

  // Reconnecting: on every streaming run the gap sent before the live stream covers
  // exactly the numbers above last_seq up to the sync mark (none for a client that sent
  // no last_seq).  So a client that last saw L is, for every number above L that is not
  // in flight, told of it there or offered it; and if nothing is lost or still ahead,
  // told of it or sent it.
  lemma ReconnectAccounts(run: seq<System>, actions: seq<Action>, i: nat, n: nat)
    requires IsRun(run, actions) && i < |run| && run[i].w.phase.Streaming?
    ensures var s, w := run[i], run[i].w;
            && (OpeningReports(w, n) <==> 0 < w.req.lastSeq < n <= w.fromSeq)
            && (0 < w.req.lastSeq < n <= s.seqNo && !InFlight(s, n) ==>
                  && (OpeningReports(w, n) || n in w.offered)
                  && (!w.lost && w.ahead == [] ==> OpeningReports(w, n) || Reached(w, n)))
  {
    RunKeepsOpening(run, actions, i);
    var s := run[i];
    if s.w.fromSeq < n <= s.seqNo && !InFlight(s, n) {
      EveryNumberReachesWatcher(run, actions, i, n);
    }
  }
}

/** Serialized publishes: the order of the live numbers and of the gaps between them. */
module WatchSequence {
  import opened Bus
  import opened Filters
  import opened WatchModel
  import opened WatchArrival

  // Publishes do not overlap: a number is taken only when no Publish is under way.
  ghost predicate Serial(run: seq<System>, actions: seq<Action>)
    requires IsRun(run, actions)
  {
    forall i :: 0 <= i < |actions| && Numbers(actions[i]) ==> !Publishing(run[i])
  }

  // At most one Publish is under way, and it has the last number.
  predicate Last(p: Publisher, n: nat) {
    Busy(p) ==> p.item.seqNo == n > 0
  }

  ghost predicate OnePublish(s: System) {
    && Last(s.fsm, s.seqNo) && Last(s.observer, s.seqNo)
    && (Busy(s.fsm) ==> !Busy(s.observer) && s.others == [] && s.raising == [])
    && (Busy(s.observer) ==> s.others == [] && s.raising == [])
    && (s.others != [] ==> s.raising == [] && |s.others| == 1 && s.others[0].seqNo == s.seqNo > 0)
    && (s.raising != [] ==> |s.raising| == 1 && s.raising[0].seqNo == s.seqNo > 0)
  }

  // Numbers strictly increase, above lo and up to hi.
  ghost predicate Rising(items: seq<Item>, lo: nat, hi: nat) {
    && (forall i :: 0 <= i < |items| ==> lo < items[i].seqNo <= hi)
    && (forall i, j :: 0 <= i < j < |items| ==> items[i].seqNo < items[j].seqNo)
  }

  // Live numbers strictly increase, none above last; no gap from position opening
  // on holds one of them or reaches above last.
  ghost predicate OrderlySent(ms: seq<Message>, opening: nat, last: nat) {
    && (forall i :: 0 <= i < |ms| && ms[i].Live? ==> ms[i].item.seqNo <= last)
    && (forall i, j :: 0 <= i < j < |ms| && ms[i].Live? && ms[j].Live? ==> ms[i].item.seqNo < ms[j].item.seqNo)
    && (forall g, i :: opening <= g < |ms| && ms[g].Gap? && 0 <= i < |ms| && ms[i].Live? ==>
          !(ms[g].from <= ms[i].item.seqNo <= ms[g].to))
    && (forall g :: opening <= g < |ms| && ms[g].Gap? ==> ms[g].to <= last)
  }

  // The same read backwards, message by message: each live number and each gap leaves
  // what precedes it below it.
  predicate Ascends(ms: seq<Message>, opening: nat, last: int) {
    if ms == [] then true
    else
      var k, m := |ms| - 1, ms[|ms| - 1];
      if m.Live? then m.item.seqNo <= last && Ascends(ms[..k], opening, m.item.seqNo - 1)
      else if m.Gap? && k >= opening
      then m.to <= last && Ascends(ms[..k], opening, if m.from <= m.to then m.from - 1 else m.to)
      else Ascends(ms[..k], opening, last)
  }

  lemma {:induction false} AscendsHigher(ms: seq<Message>, opening: nat, last: int, last': int)
    requires Ascends(ms, opening, last) && last <= last'
    ensures Ascends(ms, opening, last')
    decreases |ms|
  {
    if ms != [] {
      var m := ms[|ms| - 1];
      if !m.Live? && !(m.Gap? && |ms| - 1 >= opening) {
        AscendsHigher(ms[..|ms| - 1], opening, last, last');
      }
    }
  }

  // Nothing an ascending stream carries or reports in-stream is above its last number.
  lemma {:induction false} AscendsBounds(ms: seq<Message>, opening: nat, last: int, i: nat)
    requires Ascends(ms, opening, last) && i < |ms|
    ensures ms[i].Live? ==> ms[i].item.seqNo <= last
    ensures ms[i].Gap? && i >= opening ==> ms[i].to <= last
    decreases |ms|
  {
    var k, m := |ms| - 1, ms[|ms| - 1];
    if i < k {
      if m.Live? {
        AscendsBounds(ms[..k], opening, m.item.seqNo - 1, i);
      } else if m.Gap? && k >= opening {
        AscendsBounds(ms[..k], opening, if m.from <= m.to then m.from - 1 else m.to, i);
      } else {
        AscendsBounds(ms[..k], opening, last, i);
      }
    }
  }

  // Two messages, the earlier below the later.
  lemma {:induction false} AscendsPair(ms: seq<Message>, opening: nat, last: int, i: nat, j: nat)
    requires Ascends(ms, opening, last) && i < j < |ms|
    ensures ms[i].Live? && ms[j].Live? ==> ms[i].item.seqNo < ms[j].item.seqNo
    ensures ms[i].Live? && ms[j].Gap? && j >= opening ==> !(ms[j].from <= ms[i].item.seqNo <= ms[j].to)
    ensures ms[i].Gap? && i >= opening && ms[j].Live? ==> ms[i].to < ms[j].item.seqNo
    decreases |ms|
  {
    var k, m := |ms| - 1, ms[|ms| - 1];
    var below := if m.Live? then m.item.seqNo - 1
                 else if m.Gap? && k >= opening then (if m.from <= m.to then m.from - 1 else m.to)
                 else last;
    if j < k {
      AscendsPair(ms[..k], opening, below, i, j);
    } else {
      AscendsBounds(ms[..k], opening, below, i);
    }
  }

  lemma AscendsIsOrderly(ms: seq<Message>, opening: nat, last: nat)
    requires Ascends(ms, opening, last)
    ensures OrderlySent(ms, opening, last)
  {
    forall i | 0 <= i < |ms|
      ensures ms[i].Live? ==> ms[i].item.seqNo <= last
      ensures ms[i].Gap? && i >= opening ==> ms[i].to <= last
    {
      AscendsBounds(ms, opening, last, i);
    }
    forall i, j | 0 <= i < j < |ms|
      ensures ms[i].Live? && ms[j].Live? ==> ms[i].item.seqNo < ms[j].item.seqNo
      ensures ms[i].Live? && ms[j].Gap? && j >= opening ==> !(ms[j].from <= ms[i].item.seqNo <= ms[j].to)
      ensures ms[i].Gap? && i >= opening && ms[j].Live? ==> ms[i].to < ms[j].item.seqNo
    {
      AscendsPair(ms, opening, last, i, j);
    }
  }

  predicate SentLive(w: Watcher, n: nat) {
    exists i :: 0 <= i < |w.sent| && w.sent[i].Live? && w.sent[i].item.seqNo == n
  }

  function LastLive(ms: seq<Message>): nat {
    var items := LiveItems(ms);
    if items == [] then 0 else items[|items| - 1].seqNo
  }

  predicate InLine(w: Watcher) {
    if w.phase.Streaming?
    then w.opening <= |w.sent| && Ascends(w.sent, w.opening, w.lastLive) && w.lastLive == LastLive(w.sent)
    else w.lastLive == 0 && LiveItems(w.sent) == []
  }

  lemma LastIsSent(w: Watcher)
    requires InLine(w) && w.lastLive > 0
    ensures SentLive(w, w.lastLive)
  {
    var items := LiveItems(w.sent);
    LiveItemsHold(w.sent, items[|items| - 1]);
    var i :| 0 <= i < |w.sent| && w.sent[i] == Live(items[|items| - 1]);
  }

  lemma AppendLive(ms: seq<Message>, opening: nat, last: nat, item: Item)
    requires Ascends(ms, opening, last) && last < item.seqNo
    ensures Ascends(ms + [Live(item)], opening, item.seqNo)
  {
    assert (ms + [Live(item)])[..|ms|] == ms;
    AscendsHigher(ms, opening, last, item.seqNo - 1);
  }

  lemma AppendGap(ms: seq<Message>, opening: nat, last: nat, from: nat, to: nat)
    requires Ascends(ms, opening, last) && last < from <= to
    ensures Ascends(ms + [Gap(from, to)], opening, to)
  {
    assert (ms + [Gap(from, to)])[..|ms|] == ms;
    AscendsHigher(ms, opening, last, from - 1);
    AscendsHigher(ms, opening, last, to);
  }

  // What one forwarded item appends, with or without the gap before it.
  lemma AppendForwarded(ms: seq<Message>, opening: nat, last: nat, gapped: bool, item: Item)
    requires Ascends(ms, opening, last) && last < item.seqNo && (gapped ==> last + 1 < item.seqNo)
    ensures var gap := if gapped then [Gap(last + 1, item.seqNo - 1)] else [];
            Ascends(ms + gap + [Live(item)], opening, item.seqNo)
  {
    if gapped {
      AppendGap(ms, opening, last, last + 1, item.seqNo - 1);
      AppendLive(ms + [Gap(last + 1, item.seqNo - 1)], opening, item.seqNo - 1, item);
    } else {
      assert ms + [] == ms;
      AppendLive(ms, opening, last, item);
    }
  }

  lemma ForwardKeepsInLine(w: Watcher, passes: bool)
    requires w.phase.Streaming? && w.ahead != [] && InLine(w) && w.lastLive < w.ahead[0].seqNo
    ensures InLine(Forward(w, passes))
  {
    if passes {
      var item := w.ahead[0];
      AppendForwarded(w.sent, w.opening, w.lastLive, w.dropped && w.lastLive + 1 < item.seqNo, item);
      ForwardedItems(w, true);
    }
  }

  lemma ForwardKeepsRising(w: Watcher, passes: bool, hi: nat)
    requires w.ahead != [] && Rising(w.ahead, w.lastLive, hi) && w.lastLive <= hi
    ensures Rising(Forward(w, passes).ahead, Forward(w, passes).lastLive, hi) && Forward(w, passes).lastLive <= hi
  {
    var w' := Forward(w, passes);
    assert forall i :: 0 <= i < |w'.ahead| ==> w'.ahead[i] == w.ahead[i + 1];
  }

  ghost predicate SerialInv(s: System) {
    && OnePublish(s)
    && Rising(s.w.ahead, s.w.lastLive, Settled(s)) && s.w.lastLive <= Settled(s)
    && InLine(s.w)
  }

  // Steps that leave the stream alone: the queue may only gain the last number, when
  // its send is over.
  lemma StillStepKeepsSerial(s: System, s': System)
    requires SerialInv(s) && OnePublish(s') && Settled(s) <= Settled(s') && InLine(s'.w)
    requires s'.w.lastLive == s.w.lastLive && s'.w.ahead == s.w.ahead
    ensures SerialInv(s')
  {
  }

  // What is sent has the last number, and only a full queue keeps its Publish going.
  lemma SentIsLast(s: System, a: Action)
    requires OnePublish(s) && Enabled(s, a) && Sends(a)
    ensures SentItem(s, a).seqNo == s.seqNo && Settled(s) == s.seqNo - 1 && Publishing(s)
    ensures var s' := Act(s, a);
            && OnePublish(s') && s'.w == Receives(s.w, SentItem(s, a)) && s'.seqNo == s.seqNo
            && (Publishing(s') <==> Full(s.w))
  {
    if a.SendOther? {
      assert Act(s, a).others == [];
    }
  }

  lemma ReceivesKeepsRising(w: Watcher, item: Item, hi: nat)
    requires Rising(w.ahead, w.lastLive, hi) && w.lastLive <= hi && item.seqNo == hi + 1
    ensures Rising(Receives(w, item).ahead, w.lastLive, if Full(w) then hi else hi + 1)
  {
  }

  lemma ReceivesKeepsInLine(w: Watcher, item: Item)
    requires InLine(w)
    ensures InLine(Receives(w, item))
  {
  }

  lemma SendKeepsSerial(s: System, a: Action)
    requires SerialInv(s) && Enabled(s, a) && Sends(a)
    ensures SerialInv(Act(s, a))
  {
    SentIsLast(s, a);
    ReceivesKeepsRising(s.w, SentItem(s, a), Settled(s));
    ReceivesKeepsInLine(s.w, SentItem(s, a));
  }

  lemma TakeKeepsSerial(s: System)
    requires SerialInv(s) && Enabled(s, Take)
    ensures SerialInv(Act(s, Take))
  {
    var passes := Passes(s.w.req, s.w.ahead[0]);
    ForwardKeepsInLine(s.w, passes);
    ForwardKeepsRising(s.w, passes, Settled(s));
  }

  lemma {:induction false} NoLiveAscends(ms: seq<Message>, opening: nat)
    requires LiveItems(ms) == [] && |ms| <= opening
    ensures Ascends(ms, opening, 0)
    decreases |ms|
  {
    if ms != [] {
      NoLiveAscends(ms[..|ms| - 1], opening);
    }
  }

  lemma ReadLeaderKeepsInLine(s: System)
    requires SerialInv(s) && s.w.phase.MembersRead?
    ensures InLine(Act(s, ReadLeader).w)
  {
    var w' := Act(s, ReadLeader).w;
    NoLiveItems(s.w.sent, Opening(s.w, s.engine.leaderId));
    NoLiveAscends(w'.sent, |w'.sent|);
  }

  lemma HandoffKeepsSerial(s: System, a: Action)
    requires SerialInv(s) && Enabled(s, a) && (a.Attach? || a.Mark? || a.ReadMembers? || a.ReadLeader?)
    ensures SerialInv(Act(s, a))
  {
    if a.ReadMembers? {
      SnapshotHasNoLive(s.w.req, a.listing);
      NoLiveItems([], SnapshotOf(s.w.req, a.listing));
      assert [] + SnapshotOf(s.w.req, a.listing) == SnapshotOf(s.w.req, a.listing);
    } else if a.ReadLeader? {
      ReadLeaderKeepsInLine(s);
    }
    StillStepKeepsSerial(s, Act(s, a));
  }

  lemma RaiseKeepsSerial(s: System, a: Action)
    requires SerialInv(s) && Enabled(s, a) && Raises(a)
    ensures SerialInv(Act(s, a)) && !Publishing(Act(s, a))
  {
    var s' := Act(s, a);
    if a.RaiseOther? {
      assert s'.raising == [];
    }
    StillStepKeepsSerial(s, s');
  }

  lemma ActKeepsSerial(s: System, a: Action)
    requires SerialInv(s) && Enabled(s, a) && (Numbers(a) ==> !Publishing(s))
    ensures SerialInv(Act(s, a))
  {
    if Sends(a) {
      SendKeepsSerial(s, a);
    } else if Raises(a) {
      RaiseKeepsSerial(s, a);
    } else if a.Take? {
      TakeKeepsSerial(s);
    } else if a.Attach? || a.Mark? || a.ReadMembers? || a.ReadLeader? {
      HandoffKeepsSerial(s, a);
    } else {
      StillStepKeepsSerial(s, Act(s, a));
    }
  }

  lemma {:induction false} RunKeepsSerial(run: seq<System>, actions: seq<Action>, i: nat)
    requires IsRun(run, actions) && Serial(run, actions) && i < |run|
    ensures SerialInv(run[i])
    decreases i
  {
    if i > 0 {
      RunKeepsSerial(run, actions, i - 1);
      ActKeepsSerial(run[i - 1], actions[i - 1]);
    }
  }

  // With serialized publishes the live numbers of a stream strictly increase, and
  // no gap sent within the stream covers a number the stream delivered.
  lemma SerialStreamIsOrderly(run: seq<System>, actions: seq<Action>, i: nat)
    requires IsRun(run, actions) && Serial(run, actions) && i < |run|
    ensures var w := run[i].w;
            if w.phase.Streaming? then w.opening <= |w.sent| && OrderlySent(w.sent, w.opening, w.lastLive)
            else LiveItems(w.sent) == []
  {
    RunKeepsSerial(run, actions, i);
    if run[i].w.phase.Streaming? {
      AscendsIsOrderly(run[i].w.sent, run[i].w.opening, run[i].w.lastLive);
    }
  }

  // Two items queued and matched come out in queue order.
  lemma ReceiveTwo(w: Watcher, a: Item, b: Item)
    requires w.ahead == [a, b] && !w.dropped && Passes(w.req, a) && Passes(w.req, b)
    ensures ReceiveStep(w).ahead == [b]
    ensures ReceiveStep(ReceiveStep(w)).sent == w.sent + [Live(a), Live(b)]
  {
    var w1 := Forward(w, true);
    assert w1.ahead == [b] && w1.sent == w.sent + [] + [Live(a)];
    assert Forward(w1, true).sent == w1.sent + [] + [Live(b)];
  }

  lemma SendTwo(s: System, a: Item, b: Item)
    requires s.others == [a, b] && !s.w.phase.Detached? && s.w.ahead == []
    ensures Act(s, SendOther(1)).others == [a]
    ensures Act(Act(s, SendOther(1)), SendOther(0)).w == s.w.(ahead := [b, a], arrived := s.w.arrived + [b] + [a],
                                                               stale := s.w.stale - About(b) - About(a),
                                                               offered := s.w.offered + {b.seqNo} + {a.seqNo})
  {
    var s1 := Act(s, SendOther(1));
    assert s1.others == [a] && s1.w.ahead == [b];
  }

  // Order needs the serialization: from every streaming state with nothing ahead, two
  // publishers whose steps overlap put the larger number on the stream first.
  lemma OverlappingPublishesReverse(s: System, typ: string)
    requires s.w.phase.Streaming? && s.w.ahead == [] && !s.w.inHand && !s.w.dropped && s.others == []
    requires IsCustomType(typ) && Matches(s.w.req, typ)
    ensures var s2 := Act(Act(s, NumberOther(typ)), NumberOther(typ));
            && Enabled(s2, SendOther(1))
            && var s3 := Act(s2, SendOther(1));
            && Enabled(s3, SendOther(0))
            && var s4 := Act(s3, SendOther(0));
            && s4.w.phase.Streaming? && |s4.w.ahead| == 2 && |ReceiveStep(s4.w).ahead| == 1
            && ReceiveStep(ReceiveStep(s4.w)).sent
               == s.w.sent + [Live(Item(Other(typ), s.seqNo + 2)), Live(Item(Other(typ), s.seqNo + 1))]
  {
    var first, second := Item(Other(typ), s.seqNo + 1), Item(Other(typ), s.seqNo + 2);
    var s2 := Act(Act(s, NumberOther(typ)), NumberOther(typ));
    assert s2.others == [first, second];
    SendTwo(s2, first, second);
    ReceiveTwo(Act(Act(s2, SendOther(1)), SendOther(0)).w, second, first);
  }
}
