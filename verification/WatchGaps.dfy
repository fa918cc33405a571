/**
 What watch.gap reports.  A send that finds no room loses its number at once and
 raises the watcher's flag a step later; the next forwarded item takes the flag and,
 if it was up, reports the numbers between the last one carried and its own.
 */
module WatchGaps {
  import opened Bus
  import opened WatchModel
  import opened WatchArrival
  import opened WatchSequence

  // Step k forwards an item, and so takes the flag.
  ghost predicate Takes(run: seq<System>, actions: seq<Action>, k: nat)
    requires IsRun(run, actions) && k < |actions|
  {
    actions[k].Take? && Passes(run[k].w.req, run[k].w.ahead[0])
  }

  ghost predicate NoTakeBetween(run: seq<System>, actions: seq<Action>, k: nat, i: nat)
    requires IsRun(run, actions) && i <= |actions|
  {
    forall l :: k < l < i ==> !Takes(run, actions, l)
  }

  // Some publisher raised the flag after the last item forwarded before step i.
  ghost predicate RaisedSince(run: seq<System>, actions: seq<Action>, i: nat)
    requires IsRun(run, actions) && i <= |actions|
  {
    exists k :: 0 <= k < i && Raises(actions[k]) && NoTakeBetween(run, actions, k, i)
  }

  lemma RaisedStep(run: seq<System>, actions: seq<Action>, i: nat)
    requires IsRun(run, actions) && i < |actions|
    ensures RaisedSince(run, actions, i + 1)
       <==> Raises(actions[i]) || (RaisedSince(run, actions, i) && !Takes(run, actions, i))
  {
    if Raises(actions[i]) {
      assert NoTakeBetween(run, actions, i, i + 1);
    } else if RaisedSince(run, actions, i) && !Takes(run, actions, i) {
      var k :| 0 <= k < i && Raises(actions[k]) && NoTakeBetween(run, actions, k, i);
      assert NoTakeBetween(run, actions, k, i + 1);
    } else if RaisedSince(run, actions, i + 1) {
      var k :| 0 <= k < i + 1 && Raises(actions[k]) && NoTakeBetween(run, actions, k, i + 1);
      assert NoTakeBetween(run, actions, k, i);
    }
  }

  lemma FlagStep(s: System, a: Action)
    requires Enabled(s, a)
    ensures Act(s, a).w.dropped <==> Raises(a) || (s.w.dropped && !(a.Take? && Passes(s.w.req, s.w.ahead[0])))
  {
  }

  // The flag is up exactly when it was raised after the last item forwarded.
  lemma {:induction false} FlagIffRaised(run: seq<System>, actions: seq<Action>, i: nat)
    requires IsRun(run, actions) && i < |run|
    ensures run[i].w.dropped <==> RaisedSince(run, actions, i)
    decreases i
  {
    if i > 0 {
      FlagIffRaised(run, actions, i - 1);
      RaisedStep(run, actions, i - 1);
      FlagStep(run[i - 1], actions[i - 1]);
    }
  }

  // Some gap among the messages from position k on covers n.
  ghost predicate Reports(ms: seq<Message>, k: nat, n: nat) {
    exists g :: k <= g < |ms| && ms[g].Gap? && ms[g].from <= n <= ms[g].to
  }

  lemma ReportsAppended(ms: seq<Message>, more: seq<Message>, k: nat, n: nat)
    requires k <= |ms|
    ensures Reports(ms + more, k, n) <==> Reports(ms, k, n) || Reports(more, 0, n)
  {
    var all := ms + more;
    if Reports(ms, k, n) {
      var g :| k <= g < |ms| && ms[g].Gap? && ms[g].from <= n <= ms[g].to;
      assert all[g] == ms[g];
    }
    if Reports(more, 0, n) {
      var g :| 0 <= g < |more| && more[g].Gap? && more[g].from <= n <= more[g].to;
      assert all[|ms| + g] == more[g];
    }
    if Reports(all, k, n) {
      var g :| k <= g < |all| && all[g].Gap? && all[g].from <= n <= all[g].to;
      if g >= |ms| {
        assert more[g - |ms|] == all[g];
      } else {
        assert ms[g] == all[g];
      }
    }
  }

  // One forwarded item reports exactly the numbers it skips, and only with the flag up.
  lemma ForwardReports(w: Watcher, k: nat, n: nat)
    requires w.ahead != [] && k <= |w.sent|
    ensures Reports(Forward(w, true).sent, k, n)
       <==> Reports(w.sent, k, n) || (w.dropped && w.lastLive < n < w.ahead[0].seqNo)
  {
    var item := w.ahead[0];
    var from := if w.lastLive > 0 then w.lastLive + 1 else 1;
    var gap := if w.dropped && from < item.seqNo then [Gap(from, item.seqNo - 1)] else [];
    var more := gap + [Live(item)];
    assert Forward(w, true).sent == w.sent + more;
    ReportsAppended(w.sent, more, k, n);
    if gap != [] {
      assert more[0] == Gap(from, item.seqNo - 1);
    }
  }

  // A number that one forwarding step skips is reported by it if and only if the flag
  // was raised since the step before.
  lemma SkippedNumberReportedIff(run: seq<System>, actions: seq<Action>, i: nat, n: nat)
    requires IsRun(run, actions) && i < |actions| && Takes(run, actions, i)
    requires run[i].w.lastLive < n < run[i].w.ahead[0].seqNo
    ensures Reports(run[i + 1].w.sent, |run[i].w.sent|, n) <==> RaisedSince(run, actions, i)
  {
    FlagIffRaised(run, actions, i);
    ForwardReports(run[i].w, |run[i].w.sent|, n);
  }

  lemma StepToStream(s: System, a: Action)
    requires Enabled(s, a) && s.w.phase.Streaming?
    ensures var w, w' := s.w, Act(s, a).w;
            && w'.phase.Streaming? && w'.opening == w.opening && w.sent <= w'.sent
            && if a.Take? && Passes(w.req, w.ahead[0]) then w' == Forward(w, true)
               else w'.sent == w.sent && w'.lastLive == w.lastLive
  {
    if a.Take? {
      ForwardGrows(s.w, Passes(s.w.req, s.w.ahead[0]));
    }
  }

  lemma ForwardGrows(w: Watcher, passes: bool)
    requires w.ahead != []
    ensures var w' := Forward(w, passes);
            && w'.phase == w.phase && w'.opening == w.opening && w.sent <= w'.sent
            && (!passes ==> w'.sent == w.sent && w'.lastLive == w.lastLive)
  {
  }

  lemma LongerSentLive(w: Watcher, w': Watcher, n: nat)
    requires w.sent <= w'.sent && SentLive(w, n)
    ensures SentLive(w', n)
  {
    var i :| 0 <= i < |w.sent| && w.sent[i].Live? && w.sent[i].item.seqNo == n;
    assert w'.sent[i] == w.sent[i];
  }

  lemma NothingAbove(ms: seq<Message>, opening: nat, last: nat, n: nat)
    requires Ascends(ms, opening, last) && last < n
    ensures !Reports(ms, opening, n)
  {
    if Reports(ms, opening, n) {
      var g :| opening <= g < |ms| && ms[g].Gap? && ms[g].from <= n <= ms[g].to;
      AscendsBounds(ms, opening, last, g);
    }
  }

  // The step that passes n reports it exactly when the flag was raised; no later step does.
  lemma PassingStepReports(run: seq<System>, actions: seq<Action>, j: nat, n: nat)
    requires IsRun(run, actions) && Serial(run, actions) && j < |actions|
    requires run[j].w.phase.Streaming? && run[j].w.lastLive < n < run[j + 1].w.lastLive
    ensures Takes(run, actions, j) && n < run[j].w.ahead[0].seqNo
    ensures Reports(run[j + 1].w.sent, run[j + 1].w.opening, n) <==> RaisedSince(run, actions, j)
  {
    RunKeepsSerial(run, actions, j);
    StepToStream(run[j], actions[j]);
    FlagIffRaised(run, actions, j);
    ForwardReports(run[j].w, run[j].w.opening, n);
    NothingAbove(run[j].w.sent, run[j].w.opening, run[j].w.lastLive, n);
  }

  lemma LaterStepReports(run: seq<System>, actions: seq<Action>, j: nat, n: nat)
    requires IsRun(run, actions) && Serial(run, actions) && j < |actions|
    requires run[j].w.phase.Streaming? && n < run[j].w.lastLive
    ensures Reports(run[j + 1].w.sent, run[j + 1].w.opening, n) <==> Reports(run[j].w.sent, run[j].w.opening, n)
    ensures SentLive(run[j].w, n) ==> SentLive(run[j + 1].w, n)
  {
    RunKeepsSerial(run, actions, j);
    StepToStream(run[j], actions[j]);
    if Takes(run, actions, j) {
      ForwardReports(run[j].w, run[j].w.opening, n);
    }
    if SentLive(run[j].w, n) {
      LongerSentLive(run[j].w, run[j + 1].w, n);
    }
  }

  lemma FirstLive(s: System, a: Action)
    requires Enabled(s, a) && InLine(s.w) && Act(s, a).w.lastLive > 0
    ensures s.w.phase.Streaming?
  {
  }

  // Before n is passed it is not the last number carried, and the stream is up.
  lemma NotYetPassed(run: seq<System>, actions: seq<Action>, j: nat, n: nat)
    requires IsRun(run, actions) && Serial(run, actions) && j < |actions|
    requires 0 < n < run[j + 1].w.lastLive && !SentLive(run[j + 1].w, n)
    ensures run[j].w.phase.Streaming? && run[j].w.lastLive != n
  {
    RunKeepsSerial(run, actions, j);
    FirstLive(run[j], actions[j]);
    StepToStream(run[j], actions[j]);
    if run[j].w.lastLive == n {
      LastIsSent(run[j].w);
      LongerSentLive(run[j].w, run[j + 1].w, n);
    }
  }

  // Every number a serialized stream has passed without carrying it (lost, filtered
  // out, or from before the subscription) was passed by one forwarding step i; and the
  // stream reports it, then or ever, if and only if the flag was raised between the
  // forwarding step before i and i.
  lemma {:induction false} PassedNumberReportedIff(run: seq<System>, actions: seq<Action>, j: nat, n: nat)
    returns (i: nat)
    requires IsRun(run, actions) && Serial(run, actions) && j < |run|
    requires 0 < n < run[j].w.lastLive && !SentLive(run[j].w, n)
    ensures i < j && Takes(run, actions, i) && run[i].w.lastLive < n < run[i].w.ahead[0].seqNo
    ensures Reports(run[j].w.sent, run[j].w.opening, n) <==> RaisedSince(run, actions, i)
    decreases j
  {
    assert j > 0;
    NotYetPassed(run, actions, j - 1, n);
    if run[j - 1].w.lastLive > n {
      LaterStepReports(run, actions, j - 1, n);
      i := PassedNumberReportedIff(run, actions, j - 1, n);
    } else {
      PassingStepReports(run, actions, j - 1, n);
      i := j - 1;
    }
  }

  function RaisedItem(s: System, a: Action): Item
    requires Raises(a) && (a.RaiseFsm? ==> s.fsm.Raising?) && (a.RaiseObserver? ==> s.observer.Raising?)
    requires a.RaiseOther? ==> a.k < |s.raising|
  {
    if a.RaiseFsm? then s.fsm.item else if a.RaiseObserver? then s.observer.item else s.raising[a.k]
  }

  // Since the flag was raised for d with the watcher as in start: nothing forwarded,
  // and what is ahead is either what was ahead then, less some the filter kept back, or
  // numbered after d.
  ghost predicate WaitsSince(start: Watcher, d: nat, w: Watcher) {
    && !w.phase.Detached? && w.dropped && w.lastLive == start.lastLive && w.req == start.req
    && (forall item :: item in w.ahead ==> item in start.ahead || item.seqNo > d)
    && Passing(start.req, start.ahead) <= Passing(start.req, w.ahead)
  }

  ghost predicate SinceRaise(start: Watcher, d: nat, s: System) {
    s.seqNo >= d && (Publishing(s) ==> s.seqNo > d) && WaitsSince(start, d, s.w)
  }

  // All that was ahead of the watcher, and all it was sent, is numbered before d.
  ghost predicate Before(start: Watcher, d: nat) {
    start.lastLive < d && forall item :: item in start.ahead ==> item.seqNo < d
  }

  lemma ReceivesSinceRaise(start: Watcher, d: nat, w: Watcher, item: Item)
    requires WaitsSince(start, d, w) && item.seqNo > d
    ensures WaitsSince(start, d, Receives(w, item))
  {
    PassingSnoc(w.req, w.ahead, item);
  }

  lemma SkipsSinceRaise(start: Watcher, d: nat, w: Watcher)
    requires WaitsSince(start, d, w) && w.ahead != [] && !Passes(w.req, w.ahead[0])
    ensures WaitsSince(start, d, Forward(w, false))
  {
    var rest := w.ahead[1..];
    assert Forward(w, false) == w.(ahead := rest, inHand := false);
    assert Passing(w.req, w.ahead) == Passing(w.req, rest) by {
      PassingCons(w.req, w.ahead);
      assert [] + Passing(w.req, rest) == Passing(w.req, rest);
    }
    assert forall item :: item in rest ==> item in w.ahead;
  }

  lemma StepSinceRaise(start: Watcher, d: nat, s: System, a: Action)
    requires SerialInv(s) && SinceRaise(start, d, s) && Enabled(s, a)
    requires a.Take? ==> !Passes(s.w.req, s.w.ahead[0])
    ensures SinceRaise(start, d, Act(s, a))
  {
    if Sends(a) {
      SentIsLast(s, a);
      ReceivesSinceRaise(start, d, s.w, SentItem(s, a));
    } else if a.Take? {
      SkipsSinceRaise(start, d, s.w);
    }
  }

  lemma RaiseStarts(s: System, a: Action)
    requires SerialInv(s) && !s.w.phase.Detached? && Enabled(s, a) && Raises(a)
    ensures SinceRaise(s.w, RaisedItem(s, a).seqNo, Act(s, a)) && Before(s.w, RaisedItem(s, a).seqNo)
  {
    RaiseKeepsSerial(s, a);
    assert RaisedItem(s, a).seqNo == s.seqNo && Settled(s) == s.seqNo - 1;
    assert Act(s, a).w == s.w.(dropped := true);
  }

  // Only a subscribed watcher's queue can be found full.
  ghost predicate OnlyAttachedRaise(s: System) {
    s.w.phase.Detached? ==> s.raising == [] && !s.fsm.Raising? && !s.observer.Raising?
  }

  lemma {:induction false} RaisesNeedWatcher(run: seq<System>, actions: seq<Action>, i: nat)
    requires IsRun(run, actions) && i < |run|
    ensures OnlyAttachedRaise(run[i])
    decreases i
  {
    if i > 0 {
      RaisesNeedWatcher(run, actions, i - 1);
      StepKeepsAttachedRaise(run[i - 1], actions[i - 1]);
    }
  }

  lemma StepKeepsAttachedRaise(s: System, a: Action)
    requires OnlyAttachedRaise(s) && Enabled(s, a)
    ensures OnlyAttachedRaise(Act(s, a))
  {
  }

  lemma RunRaiseStarts(run: seq<System>, actions: seq<Action>, k: nat)
    requires IsRun(run, actions) && Serial(run, actions) && k < |actions| && Raises(actions[k])
    ensures var d := RaisedItem(run[k], actions[k]).seqNo;
            SinceRaise(run[k].w, d, run[k + 1]) && Before(run[k].w, d)
  {
    RunKeepsSerial(run, actions, k);
    RaisesNeedWatcher(run, actions, k);
    RaiseStarts(run[k], actions[k]);
  }

  lemma RunStepSinceRaise(run: seq<System>, actions: seq<Action>, i: nat, start: Watcher, d: nat)
    requires IsRun(run, actions) && Serial(run, actions) && i < |actions|
    requires SinceRaise(start, d, run[i]) && !Takes(run, actions, i)
    ensures SinceRaise(start, d, run[i + 1])
  {
    RunKeepsSerial(run, actions, i);
    StepSinceRaise(start, d, run[i], actions[i]);
  }

  lemma {:induction false} RunSinceRaise(run: seq<System>, actions: seq<Action>, k: nat, i: nat, start: Watcher, d: nat)
    requires IsRun(run, actions) && Serial(run, actions) && k < i <= |actions|
    requires SinceRaise(start, d, run[k + 1]) && NoTakeBetween(run, actions, k, i)
    ensures SinceRaise(start, d, run[i])
    decreases i
  {
    if i > k + 1 {
      RunSinceRaise(run, actions, k, i - 1, start, d);
      RunStepSinceRaise(run, actions, i - 1, start, d);
    }
  }

  lemma FirstTakeReports(start: Watcher, d: nat, s: System)
    requires SinceRaise(start, d, s) && Before(start, d) && s.w.ahead != [] && Passes(s.w.req, s.w.ahead[0])
    ensures Reports(Forward(s.w, true).sent, |s.w.sent|, d) <==> Passing(start.req, start.ahead) == []
  {
    var w := s.w;
    ForwardReports(w, |w.sent|, d);
    PassingCons(w.req, w.ahead);
    PassingHolds(w.req, start.ahead, w.ahead[0]);
    if Passing(w.req, start.ahead) != [] {
      assert w.ahead[0] == Passing(w.req, w.ahead)[0] == Passing(w.req, start.ahead)[0];
    } else {
      assert w.ahead[0] in w.ahead;
    }
  }

  // When a gap covers the very number whose loss raised the flag: the item that takes
  // the flag reports it if and only if, at the moment the flag went up, nothing the
  // filter passes was ahead.  With a queue that is still full, as a slow watcher's is,
  // the gap names numbers before the ones that were ahead and misses the lost one.
  lemma GapCoversItsDropIff(run: seq<System>, actions: seq<Action>, k: nat, i: nat)
    requires IsRun(run, actions) && Serial(run, actions) && k < i < |actions|
    requires Raises(actions[k])
    requires NoTakeBetween(run, actions, k, i) && Takes(run, actions, i)
    ensures var d := RaisedItem(run[k], actions[k]).seqNo;
            Reports(run[i + 1].w.sent, |run[i].w.sent|, d) <==> Passing(run[k].w.req, run[k].w.ahead) == []
  {
    var start, d := run[k].w, RaisedItem(run[k], actions[k]).seqNo;
    RunRaiseStarts(run, actions, k);
    RunSinceRaise(run, actions, k, i, start, d);
    FirstTakeReports(start, d, run[i]);
  }
}

/** The two things that can happen to a lost number, as runs from every full queue. */
module WatchLoss {
  import opened Members
  import opened Bus
  import opened Filters
  import opened WatchModel
  import opened WatchArrival
  import opened WatchSequence
  import opened WatchGaps

  ghost predicate SerialRun(run: seq<System>, actions: seq<Action>) {
    IsRun(run, actions) && Serial(run, actions)
  }

  ghost function End(run: seq<System>): System
    requires run != []
  {
    run[|run| - 1]
  }

  lemma Extend(run: seq<System>, actions: seq<Action>, a: Action) returns (run': seq<System>, actions': seq<Action>)
    requires SerialRun(run, actions) && Enabled(End(run), a) && (Numbers(a) ==> !Publishing(End(run)))
    ensures run' == run + [Act(End(run), a)] && actions' == actions + [a]
    ensures SerialRun(run', actions')
  {
    run', actions' := run + [Act(End(run), a)], actions + [a];
    forall i | 0 <= i < |actions'|
      ensures Enabled(run'[i], actions'[i]) && run'[i + 1] == Act(run'[i], actions'[i])
    {
      if i < |actions| {
        assert run'[i] == run[i] && run'[i + 1] == run[i + 1] && actions'[i] == actions[i];
      }
    }
    assert IsRun(run', actions');
    forall i | 0 <= i < |actions'| && Numbers(actions'[i])
      ensures !Publishing(run'[i])
    {
      if i < |actions| {
        assert actions'[i] == actions[i] && run'[i] == run[i];
      }
    }
  }

  // A publish of another type that meets a full queue, up to the failed send.
  lemma FailedSend(run: seq<System>, actions: seq<Action>, typ: string)
    returns (run': seq<System>, actions': seq<Action>)
    requires SerialRun(run, actions) && !Publishing(End(run)) && Full(End(run).w) && IsCustomType(typ)
    ensures SerialRun(run', actions') && run <= run'
    ensures var s, s' := End(run), End(run');
            var d := Item(Other(typ), s.seqNo + 1);
            s' == s.(seqNo := d.seqNo, raising := [d], w := s.w.(offered := s.w.offered + {d.seqNo}, lost := true))
  {
    var s, d := End(run), Item(Other(typ), End(run).seqNo + 1);
    run', actions' := Extend(run, actions, NumberOther(typ));
    assert End(run').others == [d];
    run', actions' := Extend(run', actions', SendOther(0));
    assert End(run').others == [] && End(run').raising == [d];
  }

  // The watcher forwards the next item it is sent, popping it first if need be.
  lemma ForwardOne(run: seq<System>, actions: seq<Action>) returns (run': seq<System>, actions': seq<Action>)
    requires SerialRun(run, actions) && End(run).w.phase.Streaming? && End(run).w.ahead != []
    ensures SerialRun(run', actions') && |run'| >= |run| + 1 && run <= run'
    ensures End(run') == End(run).(w := ReceiveStep(End(run).w))
    ensures actions'[|actions'| - 1] == Take && run'[|run'| - 2] == End(run).(w := End(run).w.(inHand := true))
    ensures actions <= actions' && forall l :: |actions| <= l < |actions'| - 1 ==> actions'[l] == Pop
  {
    run', actions' := run, actions;
    if !End(run).w.inHand {
      run', actions' := Extend(run', actions', Pop);
    }
    assert End(run') == End(run).(w := End(run).w.(inHand := true));
    run', actions' := Extend(run', actions', Take);
  }

  lemma RaiseLast(run: seq<System>, actions: seq<Action>) returns (run': seq<System>, actions': seq<Action>)
    requires SerialRun(run, actions) && |End(run).raising| == 1
    ensures SerialRun(run', actions') && run <= run'
    ensures End(run') == End(run).(raising := [], w := End(run).w.(dropped := true))
  {
    run', actions' := Extend(run, actions, RaiseOther(0));
    assert Without(End(run).raising, 0) == [];
  }

  // A lost number goes unreported: from every serialized run that ends streaming with a
  // full queue whose head the filter passes, one more publish is lost, its flag is
  // raised, and the next item forwarded takes the flag without reporting the loss.
  lemma LossGoesUnreported(run: seq<System>, actions: seq<Action>, typ: string)
    returns (run': seq<System>, actions': seq<Action>)
    requires SerialRun(run, actions) && !Publishing(End(run)) && IsCustomType(typ)
    requires End(run).w.phase.Streaming? && Full(End(run).w) && Passes(End(run).w.req, End(run).w.ahead[0])
    ensures SerialRun(run', actions') && run <= run'
    ensures var w, w', d := End(run).w, End(run').w, End(run).seqNo + 1;
            && d in w'.offered && !SentLive(w', d)
            && !w'.dropped && !Reports(w'.sent, |w.sent|, d)
  {
    run', actions' := FailedSend(run, actions, typ);
    var w, d := End(run').w, End(run).seqNo + 1;
    RunKeepsSerial(run', actions', |run'| - 1);
    run', actions' := RaiseLast(run', actions');
    run', actions' := ForwardOne(run', actions');
    ForwardReports(w.(dropped := true), |w.sent|, d);
    NotSentAbove(run', actions', d);
  }

  lemma NotSentAbove(run: seq<System>, actions: seq<Action>, n: nat)
    requires SerialRun(run, actions) && End(run).w.phase.Streaming? && End(run).w.lastLive < n
    ensures !SentLive(End(run).w, n)
  {
    SerialStreamIsOrderly(run, actions, |run| - 1);
  }

  lemma {:induction false} DrainAll(run: seq<System>, actions: seq<Action>)
    returns (run': seq<System>, actions': seq<Action>)
    requires SerialRun(run, actions) && End(run).w.phase.Streaming? && (End(run).w.inHand ==> End(run).w.ahead != [])
    ensures SerialRun(run', actions') && run <= run'
    ensures var w, w' := End(run).w, End(run').w;
            && End(run') == End(run).(w := w')
            && w'.phase.Streaming? && w'.ahead == [] && !w'.inHand && w'.req == w.req
            && |w.sent| <= |w'.sent| && w'.offered == w.offered
    decreases |End(run).w.ahead|
  {
    run', actions' := run, actions;
    if End(run).w.ahead != [] {
      run', actions' := ForwardOne(run, actions);
      run', actions' := DrainAll(run', actions');
    }
  }

  // A publish that finds room.
  lemma PublishOne(run: seq<System>, actions: seq<Action>, typ: string)
    returns (run': seq<System>, actions': seq<Action>)
    requires SerialRun(run, actions) && !Publishing(End(run)) && IsCustomType(typ)
    requires !End(run).w.phase.Detached? && !Full(End(run).w)
    ensures SerialRun(run', actions') && run <= run' && actions' == actions + [NumberOther(typ), SendOther(0)]
    ensures var s, item := End(run), Item(Other(typ), End(run).seqNo + 1);
            End(run') == s.(seqNo := item.seqNo, w := Receives(s.w, item))
  {
    run', actions' := Extend(run, actions, NumberOther(typ));
    assert End(run').others == [Item(Other(typ), End(run).seqNo + 1)];
    run', actions' := Extend(run', actions', SendOther(0));
    assert End(run').others == [];
  }

  lemma ReportsFromEarlier(ms: seq<Message>, k: nat, k': nat, n: nat)
    requires k <= k' && Reports(ms, k', n)
    ensures Reports(ms, k, n)
  {
  }

  // With the flag up and nothing ahead, the next publish reports the last number.
  lemma NextReports(run: seq<System>, actions: seq<Action>, typ: string)
    returns (run': seq<System>, actions': seq<Action>)
    requires SerialRun(run, actions) && !Publishing(End(run)) && IsCustomType(typ) && Matches(End(run).w.req, typ)
    requires var s := End(run);
             s.w.phase.Streaming? && s.w.ahead == [] && !s.w.inHand && s.w.dropped && s.w.lastLive < s.seqNo
    ensures SerialRun(run', actions') && run <= run'
    ensures Reports(End(run').w.sent, |End(run).w.sent|, End(run).seqNo) && End(run).w.offered <= End(run').w.offered
  {
    run', actions' := PublishOne(run, actions, typ);
    var w := End(run').w;
    assert w.ahead == [Item(Other(typ), End(run).seqNo + 1)];
    run', actions' := ForwardOne(run', actions');
    assert End(run').w == Forward(w, true);
    ForwardReports(w, |w.sent|, End(run).seqNo);
  }

  // A lost number is reported: from the same runs, if the watcher forwards everything
  // between the failed send and the raising of the flag, the next publish brings a gap
  // that covers the loss.
  lemma LossReportedAfterDrain(run: seq<System>, actions: seq<Action>, typ: string)
    returns (run': seq<System>, actions': seq<Action>)
    requires SerialRun(run, actions) && !Publishing(End(run)) && IsCustomType(typ) && Matches(End(run).w.req, typ)
    requires End(run).w.phase.Streaming? && Full(End(run).w)
    ensures SerialRun(run', actions') && run <= run'
    ensures var w, w', d := End(run).w, End(run').w, End(run).seqNo + 1;
            d in w'.offered && Reports(w'.sent, |w.sent|, d)
  {
    run', actions' := FailedSend(run, actions, typ);
    run', actions' := DrainAll(run', actions');
    RunKeepsSerial(run', actions', |run'| - 1);
    run', actions' := RaiseLast(run', actions');
    var k := |End(run').w.sent|;
    run', actions' := NextReports(run', actions', typ);
    ReportsFromEarlier(End(run').w.sent, |End(run).w.sent|, k, End(run).seqNo + 1);
  }

  lemma {:induction false} Fill(run: seq<System>, actions: seq<Action>, typ: string)
    returns (run': seq<System>, actions': seq<Action>)
    requires SerialRun(run, actions) && !Publishing(End(run)) && IsCustomType(typ)
    requires End(run).w.phase.Streaming? && !End(run).w.inHand && |End(run).w.ahead| <= BUFFER
    requires forall item :: item in End(run).w.ahead ==> item.what == Other(typ)
    ensures SerialRun(run', actions') && !Publishing(End(run')) && End(run').w.req == End(run).w.req
    ensures End(run').w.phase.Streaming? && Full(End(run').w)
    ensures forall item :: item in End(run').w.ahead ==> item.what == Other(typ)
    decreases BUFFER - |End(run).w.ahead|
  {
    run', actions' := run, actions;
    if |End(run).w.ahead| < BUFFER {
      run', actions' := PublishOne(run, actions, typ);
      run', actions' := Fill(run', actions', typ);
    }
  }

  // Such runs exist: for every engine, request and custom type the request passes, a
  // watcher that connects and then does not read ends up streaming with a full queue.
  lemma FullQueueIsReachable(e: EngineState, listing: seq<Member>, req: Request, typ: string)
    returns (run: seq<System>, actions: seq<Action>)
    requires EngineWf(e) && ListsMembers(listing, e.members) && IsCustomType(typ) && Matches(req, typ)
    ensures SerialRun(run, actions) && !Publishing(End(run)) && End(run).w.req == req
    ensures End(run).w.phase.Streaming? && Full(End(run).w) && Passes(req, End(run).w.ahead[0])
  {
    run, actions := Connect(e, listing, req);
    run, actions := Fill(run, actions, typ);
    assert End(run).w.ahead[0] in End(run).w.ahead;
  }

  lemma Connect(e: EngineState, listing: seq<Member>, req: Request) returns (run: seq<System>, actions: seq<Action>)
    requires EngineWf(e) && ListsMembers(listing, e.members)
    ensures SerialRun(run, actions) && !Publishing(End(run)) && End(run).w.req == req
    ensures End(run).w.phase.Streaming? && End(run).w.ahead == [] && !End(run).w.inHand
  {
    var w := Watcher(req, Detached, [], false, false, 0, [], 0, 0, false, {}, {}, [], 0);
    var s := System(e, 0, Idle, Idle, [], [], w);
    run, actions := [s], [];
    run, actions := Extend(run, actions, Attach);
    assert End(run) == s.(w := w.(phase := Attached));
    run, actions := Extend(run, actions, Mark);
    assert End(run) == s.(w := w.(phase := Marked));
    run, actions := Handoff(run, actions, listing);
  }

  lemma Handoff(run: seq<System>, actions: seq<Action>, listing: seq<Member>)
    returns (run': seq<System>, actions': seq<Action>)
    requires SerialRun(run, actions) && Enabled(End(run), ReadMembers(listing))
    ensures SerialRun(run', actions')
    ensures var s, w' := End(run), End(run').w;
            && End(run') == s.(w := w') && w'.phase.Streaming?
            && w'.ahead == s.w.ahead && w'.inHand == s.w.inHand && w'.req == s.w.req
  {
    run', actions' := Extend(run, actions, ReadMembers(listing));
    run', actions' := Extend(run', actions', ReadLeader);
  }
}
