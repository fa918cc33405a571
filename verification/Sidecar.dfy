/**
 The sidecar reconcile pass: bootstrap Job, join token, StatefulSet.  A pass is a
 sequence of platform calls; it may stop at any of them, and a call that reports
 failure may still have taken effect.  Kubernetes finishes deleting a Job on its own.
 */
module Sidecar {
  datatype Token = NoToken | Stored(text: string)

  datatype Job = NoJob | Running | Terminating

  datatype Platform = Platform(token: Token, pvc: bool, job: Job, headless: bool, sts: bool)

  // The next call of a pass; Put carries the token parsed from the Job's log.
  datatype Call =
    | ReadToken
    | EnsurePvc | EnsureJob | BootstrapReady | JobLogs | PutToken(text: string) | DeleteJob
    | JobExists | DeleteLeftoverJob
    | EnsureHeadless | EnsureSts
    | Formed      // the StatefulSet is in place: on to joining its pods
    | Stopped

  datatype Outcome = Done | Refused | Lost

  // What the platform answers to the questions a pass asks.
  datatype Answer = Answer(o: Outcome, ready: bool, logToken: Token)

  function Deleted(job: Job): Job {
    if job == NoJob then NoJob else Terminating
  }

  function Effect(p: Platform, p': Platform, next: Call, o: Outcome): (Platform, Call) {
    match o
    case Done => (p', next)
    case Refused => (p, Stopped)
    case Lost => (p', Stopped)
  }

  function Step(p: Platform, c: Call, a: Answer): (Platform, Call) {
    match c
    case ReadToken =>
      if a.o != Done then (p, Stopped) else if p.token.Stored? then (p, JobExists) else (p, EnsurePvc)
    case EnsurePvc => Effect(p, p.(pvc := true), EnsureJob, a.o)
    case EnsureJob => Effect(p, p.(job := if p.job == NoJob then Running else p.job), BootstrapReady, a.o)
    case BootstrapReady => if a.o != Done || !a.ready then (p, Stopped) else (p, JobLogs)
    case JobLogs => if a.o != Done || a.logToken.NoToken? then (p, Stopped) else (p, PutToken(a.logToken.text))
    case PutToken(text) => Effect(p, p.(token := Stored(text)), DeleteJob, a.o)
    case DeleteJob => Effect(p, p.(job := Deleted(p.job)), Stopped, a.o)
    case JobExists =>
      if a.o != Done then (p, Stopped) else if p.job != NoJob then (p, DeleteLeftoverJob) else (p, EnsureHeadless)
    case DeleteLeftoverJob => Effect(p, p.(job := Deleted(p.job)), Stopped, a.o)
    case EnsureHeadless => Effect(p, p.(headless := true), EnsureSts, a.o)
    case EnsureSts => Effect(p, p.(sts := true), Formed, a.o)
    case Formed => (p, Stopped)
    case Stopped => (p, Stopped)
  }

  datatype System = System(p: Platform, call: Call)

  datatype Action = StartPass | Perform(a: Answer) | Crash | JobGone

  predicate Enabled(s: System, a: Action) {
    match a
    case StartPass => s.call.Stopped?
    case Perform(_) => !s.call.Stopped?
    case Crash => true
    case JobGone => s.p.job == Terminating
  }

  function Act(s: System, a: Action): System {
    match a
    case StartPass => s.(call := ReadToken)
    case Perform(ans) => var (p, c) := Step(s.p, s.call, ans); System(p, c)
    case Crash => s.(call := Stopped)
    case JobGone => s.(p := s.p.(job := NoJob))
  }

  const EMPTY := Platform(NoToken, false, NoJob, false, false)

  ghost predicate IsRun(run: seq<System>, actions: seq<Action>) {
    && |run| == |actions| + 1
    && run[0] == System(EMPTY, Stopped)
    && forall i :: 0 <= i < |actions| ==> Enabled(run[i], actions[i]) && run[i + 1] == Act(run[i], actions[i])
  }

  // What a pass knows at each of its calls.
  predicate CallOk(p: Platform, c: Call) {
    match c
    case EnsurePvc => p.token.NoToken?
    case EnsureJob => p.token.NoToken?
    case BootstrapReady => p.token.NoToken?
    case JobLogs => p.token.NoToken?
    case PutToken(_) => p.token.NoToken?
    case DeleteJob => p.token.Stored?
    case JobExists => p.token.Stored?
    case DeleteLeftoverJob => p.token.Stored?
    case EnsureHeadless => p.token.Stored? && p.job == NoJob
    case EnsureSts => p.token.Stored? && p.job == NoJob
    case _ => true
  }

  // The volume the Job and pod 0 share is never claimed by both.
  predicate Exclusive(p: Platform) {
    p.sts ==> p.job == NoJob && p.token.Stored?
  }

  // What no single step may do.
  predicate SafeStep(p: Platform, p': Platform) {
    && (p.token.Stored? ==> p'.token == p.token)
    && (p.job == Running && p'.job != Running ==> p.token.Stored?)
    && (p.job == NoJob && p'.job != NoJob ==> p.token.NoToken? && p'.token.NoToken?)
    && (p.job == Terminating ==> p'.job != Running)
    && (p.sts ==> p'.sts)
  }

  lemma ActIsSafe(s: System, a: Action)
    requires Exclusive(s.p) && CallOk(s.p, s.call) && Enabled(s, a)
    ensures var s' := Act(s, a); Exclusive(s'.p) && CallOk(s'.p, s'.call) && SafeStep(s.p, s'.p)
  {
  }

  // Over every sequence of passes stopping anywhere: the StatefulSet and the Job
  // never exist together, and every step is safe.
  lemma {:induction false} PassesAreSafe(run: seq<System>, actions: seq<Action>, i: nat)
    requires IsRun(run, actions) && i < |run|
    ensures Exclusive(run[i].p) && CallOk(run[i].p, run[i].call)
    ensures i < |actions| ==> SafeStep(run[i].p, run[i + 1].p)
    decreases i
  {
    if i > 0 {
      PassesAreSafe(run, actions, i - 1);
      ActIsSafe(run[i - 1], actions[i - 1]);
    }
    if i < |actions| {
      ActIsSafe(run[i], actions[i]);
    }
  }

  // Once a token is stored it never changes, a Job that is gone never comes back,
  // and a Job that was there before it can only go.
  lemma {:induction false} TokenEndsBootstrap(run: seq<System>, actions: seq<Action>, i: nat, j: nat)
    requires IsRun(run, actions) && i <= j < |run| && run[i].p.token.Stored?
    ensures run[j].p.token == run[i].p.token
    ensures run[i].p.job == NoJob ==> run[j].p.job == NoJob
    ensures run[i].p.sts ==> run[j].p.sts && run[j].p.job == NoJob
    decreases j - i
  {
    if i < j {
      TokenEndsBootstrap(run, actions, i, j - 1);
      PassesAreSafe(run, actions, j - 1);
    }
    PassesAreSafe(run, actions, j);
  }

  // The StatefulSet appears only after the token was stored and the Job had gone.
  lemma StatefulSetComesLast(run: seq<System>, actions: seq<Action>, i: nat)
    requires IsRun(run, actions) && i < |actions| && !run[i].p.sts && run[i + 1].p.sts
    ensures run[i].p.token.Stored? && run[i].p.job == NoJob && run[i].p.headless
  {
    PassesAreSafe(run, actions, i);
    HeadlessFirst(run, actions, i);
  }

  lemma {:induction false} HeadlessFirst(run: seq<System>, actions: seq<Action>, i: nat)
    requires IsRun(run, actions) && i < |run|
    ensures run[i].call == EnsureSts ==> run[i].p.headless
    decreases i
  {
    if i > 0 {
      HeadlessFirst(run, actions, i - 1);
    }
  }

  // A pass all of whose calls succeed, from call c to its end.
  function CleanPass(p: Platform, c: Call, token: string, steps: nat): (Platform, Call)
    decreases steps
  {
    if steps == 0 then (p, c)
    else
      var (p', c') := Step(p, c, Answer(Done, true, Stored(token)));
      CleanPass(p', c', token, steps - 1)
  }

  lemma CleanStep(p: Platform, c: Call, token: string, rest: nat)
    ensures var (p', c') := Step(p, c, Answer(Done, true, Stored(token)));
            CleanPass(p, c, token, rest + 1) == CleanPass(p', c', token, rest)
  {
  }

  lemma StaleRead(p: Platform, text: string)
    requires p.token.NoToken?
    ensures CleanPass(p, ReadToken, text, 2) == (p.(pvc := true), EnsureJob)
  {
    CleanStep(p, ReadToken, text, 1);
    CleanStep(p, EnsurePvc, text, 0);
  }

  lemma Bootstraps(p: Platform, text: string)
    requires p.token.NoToken?
    ensures CleanPass(p, ReadToken, text, 7) == (p.(pvc := true, token := Stored(text), job := Terminating), Stopped)
  {
    var q := p.(pvc := true, job := if p.job == NoJob then Running else p.job);
    CleanStep(p, ReadToken, text, 6);
    CleanStep(p, EnsurePvc, text, 5);
    CleanStep(p.(pvc := true), EnsureJob, text, 4);
    CleanStep(q, BootstrapReady, text, 3);
    CleanStep(q, JobLogs, text, 2);
    CleanStep(q, PutToken(text), text, 1);
    CleanStep(q.(token := Stored(text)), DeleteJob, text, 0);
  }

  lemma Forms(p: Platform, text: string)
    requires p.token.Stored? && p.job == NoJob
    ensures CleanPass(p, ReadToken, text, 4) == (p.(headless := true, sts := true), Formed)
  {
    CleanStep(p, ReadToken, text, 3);
    CleanStep(p, JobExists, text, 2);
    CleanStep(p, EnsureHeadless, text, 1);
    CleanStep(p.(headless := true), EnsureSts, text, 0);
  }

  lemma ClearsJob(p: Platform, text: string)
    requires p.token.Stored? && p.job != NoJob
    ensures CleanPass(p, ReadToken, text, 3) == (p.(job := Terminating), Stopped)
  {
    CleanStep(p, ReadToken, text, 2);
    CleanStep(p, JobExists, text, 1);
    CleanStep(p, DeleteLeftoverJob, text, 0);
  }

  // How many calls a clean pass makes: until the token is stored, until the Job is being
  // deleted, or until the StatefulSet is up.
  function CallsOf(p: Platform): nat {
    if p.token.NoToken? then 7 else if p.job != NoJob then 3 else 4
  }

  // Passes make progress: from any platform, whatever earlier passes left behind, one
  // clean pass stores the token or clears the Job if need be, and once the Job is gone the
  // next brings up the StatefulSet, keeping a token that was stored before.
  lemma TwoPassesForm(p: Platform, text: string)
    ensures var (p1, c1) := CleanPass(p, ReadToken, text, CallsOf(p));
            var (p2, c2) := CleanPass(p1.(job := NoJob), ReadToken, text, 4);
            && (c1 == Stopped || c1 == Formed) && p1.job != Running
            && p1.token == (if p.token.NoToken? then Stored(text) else p.token)
            && c2 == Formed && p2.sts && p2.headless && p2.token == p1.token && p2.job == NoJob
  {
    if p.token.NoToken? {
      Bootstraps(p, text);
    } else if p.job != NoJob {
      ClearsJob(p, text);
    } else {
      Forms(p, text);
    }
    var p1 := CleanPass(p, ReadToken, text, CallsOf(p)).0;
    Forms(p1.(job := NoJob), text);
  }

  // One pass at a time is needed.  From any cluster without a token, one pass reads "no
  // token" and pauses before its EnsureJob; another stores the token and deletes the
  // Job, Kubernetes finishes the deletion, and a third brings up the StatefulSet; then
  // the first goes on and brings the Job back beside it.
  lemma StalePassRecreatesJob(p: Platform, text: string)
    requires Exclusive(p) && p.token.NoToken?
    ensures var (p1, stale) := CleanPass(p, ReadToken, text, 2);
            var (p2, stored) := CleanPass(p1, ReadToken, text, 7);
            var (p3, formed) := CleanPass(p2.(job := NoJob), ReadToken, text, 4);
            && stale == EnsureJob && p1.token.NoToken?
            && stored == Stopped && p2.token == Stored(text) && p2.job == Terminating
            && formed == Formed && p3.sts && Exclusive(p3)
            && !Exclusive(Step(p3, stale, Answer(Done, true, NoToken)).0)
  {
    StaleRead(p, text);
    Bootstraps(p.(pvc := true), text);
    Forms(p.(pvc := true, token := Stored(text), job := NoJob), text);
  }

  // The longest pass makes seven platform calls.
  const CALLS := 7

  // A pass from call c on, over the answers it gets; a pass that dies before its
  // k-th call is one whose k-th answer is Refused.
  function RunPass(p: Platform, c: Call, answers: seq<Answer>, k: nat): (Platform, Call)
    requires k <= |answers|
    decreases |answers| - k
  {
    if k == |answers| || c.Stopped? || c.Formed? then (p, c)
    else var (p', c') := Step(p, c, answers[k]); RunPass(p', c', answers, k + 1)
  }

  // What stands before a token is stored: the volume and the Job are there, the bootstrap
  // has reported ready, and the token is the one in the Job's log.
  lemma TokenIsFromLog(p: Platform, answers: seq<Answer>)
    requires |answers| == CALLS && p.token.NoToken?
    ensures var p' := RunPass(p, ReadToken, answers, 0).0;
            p'.token.Stored? <==>
              && (forall k :: 0 <= k < 5 ==> answers[k].o == Done) && answers[5].o != Refused
              && answers[3].ready && answers[4].logToken.Stored?
    ensures var p' := RunPass(p, ReadToken, answers, 0).0;
            p'.token.Stored? ==> p'.token == answers[4].logToken && p'.pvc && p'.job != NoJob
  {
    var q := p.(pvc := true);
    var r := q.(job := if p.job == NoJob then Running else p.job);
    if answers[0].o == Done && answers[1].o == Done && answers[2].o == Done {
      assert RunPass(p, ReadToken, answers, 0) == RunPass(p, EnsurePvc, answers, 1);
      assert RunPass(p, EnsurePvc, answers, 1) == RunPass(q, EnsureJob, answers, 2);
      assert RunPass(q, EnsureJob, answers, 2) == RunPass(r, BootstrapReady, answers, 3);
      ReadyComesFirst(r, answers);
    } else {
      EarlyStop(p, answers);
    }
  }

  lemma Halted(p: Platform, answers: seq<Answer>, k: nat)
    requires k <= |answers|
    ensures RunPass(p, Stopped, answers, k) == (p, Stopped)
  {
  }

  lemma EarlyStop(p: Platform, answers: seq<Answer>)
    requires |answers| == CALLS && p.token.NoToken?
    requires !(answers[0].o == Done && answers[1].o == Done && answers[2].o == Done)
    ensures RunPass(p, ReadToken, answers, 0).0.token.NoToken?
  {
    var q := p.(pvc := true);
    if answers[0].o == Done {
      assert RunPass(p, ReadToken, answers, 0) == RunPass(p, EnsurePvc, answers, 1);
      if answers[1].o == Done {
        assert RunPass(p, EnsurePvc, answers, 1) == RunPass(q, EnsureJob, answers, 2);
        Halted(Step(q, EnsureJob, answers[2]).0, answers, 3);
      } else {
        Halted(Step(p, EnsurePvc, answers[1]).0, answers, 2);
      }
    } else {
      Halted(p, answers, 1);
    }
  }

  lemma ReadyComesFirst(r: Platform, answers: seq<Answer>)
    requires |answers| == CALLS && r.token.NoToken? && r.pvc && r.job != NoJob
    ensures var p' := RunPass(r, BootstrapReady, answers, 3).0;
            && (p'.token.Stored? <==>
                  && answers[3].o == Done && answers[4].o == Done && answers[5].o != Refused
                  && answers[3].ready && answers[4].logToken.Stored?)
            && (p'.token.Stored? ==> p'.token == answers[4].logToken && p'.pvc && p'.job != NoJob)
  {
    if answers[3].o == Done && answers[3].ready {
      assert RunPass(r, BootstrapReady, answers, 3) == RunPass(r, JobLogs, answers, 4);
      if answers[4].o == Done && answers[4].logToken.Stored? {
        assert RunPass(r, JobLogs, answers, 4) == RunPass(r, PutToken(answers[4].logToken.text), answers, 5);
        StoresAndDeletes(r, answers[4].logToken.text, answers);
      } else {
        assert RunPass(r, JobLogs, answers, 4) == RunPass(r, Stopped, answers, 5);
        Halted(r, answers, 5);
      }
    } else {
      assert RunPass(r, BootstrapReady, answers, 3) == RunPass(r, Stopped, answers, 4);
      Halted(r, answers, 4);
    }
  }

  lemma StoresAndDeletes(r: Platform, text: string, answers: seq<Answer>)
    requires |answers| == CALLS && r.token.NoToken? && r.job != NoJob
    ensures var p' := RunPass(r, PutToken(text), answers, 5).0;
            && p'.pvc == r.pvc && p'.job != NoJob
            && p'.token == if answers[5].o == Refused then NoToken else Stored(text)
  {
    var t := r.(token := Stored(text));
    if answers[5].o == Done {
      assert RunPass(r, PutToken(text), answers, 5) == RunPass(t, DeleteJob, answers, 6);
      Halted(Step(t, DeleteJob, answers[6]).0, answers, 7);
    } else {
      Halted(Step(r, PutToken(text), answers[5]).0, answers, 6);
    }
  }

  class Reconciler {
    var token: Token
    var pvc: bool
    var job: Job
    var headless: bool
    var sts: bool

    function Value(): Platform
      reads this
    {
      Platform(token, pvc, job, headless, sts)
    }

    // reconcileSidecar down to the StatefulSet; formed tells that it got there.
    method Reconcile(answers: seq<Answer>) returns (formed: bool)
      requires |answers| == CALLS
      modifies this
      ensures Value() == RunPass(old(Value()), ReadToken, answers, 0).0
      ensures formed <==> RunPass(old(Value()), ReadToken, answers, 0).1.Formed?
    {
      ghost var whole := RunPass(old(Value()), ReadToken, answers, 0);
      if answers[0].o != Done {
        assert whole == RunPass(Value(), Stopped, answers, 1);
        return false;
      }
      if token.NoToken? {
        assert whole == RunPass(Value(), EnsurePvc, answers, 1);
        Bootstrap(answers);
        return false;
      }
      assert whole == RunPass(Value(), JobExists, answers, 1);
      if answers[1].o != Done {
        assert whole == RunPass(Value(), Stopped, answers, 2);
        return false;
      }
      if job != NoJob {
        assert whole == RunPass(Value(), DeleteLeftoverJob, answers, 2);
        if answers[2].o != Refused {
          job := Terminating;
        }
        assert whole == RunPass(Value(), Stopped, answers, 3);
        return false;
      }
      assert whole == RunPass(Value(), EnsureHeadless, answers, 2);
      if answers[2].o != Refused {
        headless := true;
      }
      if answers[2].o != Done {
        assert whole == RunPass(Value(), Stopped, answers, 3);
        return false;
      }
      assert whole == RunPass(Value(), EnsureSts, answers, 3);
      if answers[3].o != Refused {
        sts := true;
      }
      assert whole == RunPass(Value(), if answers[3].o == Done then Formed else Stopped, answers, 4);
      return answers[3].o == Done;
    }

    // The branch for a cluster with no token yet.
    method Bootstrap(answers: seq<Answer>)
      requires |answers| == CALLS && token.NoToken?
      modifies this
      ensures Value() == RunPass(old(Value()), EnsurePvc, answers, 1).0
      ensures !RunPass(old(Value()), EnsurePvc, answers, 1).1.Formed?
    {
      ghost var whole := RunPass(old(Value()), EnsurePvc, answers, 1);
      if answers[1].o != Refused {
        pvc := true;
      }
      if answers[1].o != Done {
        assert whole == RunPass(Value(), Stopped, answers, 2);
        return;
      }
      assert whole == RunPass(Value(), EnsureJob, answers, 2);
      if answers[2].o != Refused && job == NoJob {
        job := Running;
      }
      if answers[2].o != Done {
        assert whole == RunPass(Value(), Stopped, answers, 3);
        return;
      }
      assert whole == RunPass(Value(), BootstrapReady, answers, 3);
      if answers[3].o != Done || !answers[3].ready {
        assert whole == RunPass(Value(), Stopped, answers, 4);
        return;
      }
      assert whole == RunPass(Value(), JobLogs, answers, 4);
      StoreToken(answers);
    }

    // The rest of that branch, once the bootstrap is ready.
    method StoreToken(answers: seq<Answer>)
      requires |answers| == CALLS && token.NoToken?
      modifies this
      ensures Value() == RunPass(old(Value()), JobLogs, answers, 4).0
      ensures !RunPass(old(Value()), JobLogs, answers, 4).1.Formed?
    {
      ghost var whole := RunPass(old(Value()), JobLogs, answers, 4);
      if answers[4].o != Done || answers[4].logToken.NoToken? {
        assert whole == RunPass(Value(), Stopped, answers, 5);
        return;
      }
      assert whole == RunPass(Value(), PutToken(answers[4].logToken.text), answers, 5);
      if answers[5].o != Refused {
        token := Stored(answers[4].logToken.text);
      }
      if answers[5].o != Done {
        assert whole == RunPass(Value(), Stopped, answers, 6);
        return;
      }
      assert whole == RunPass(Value(), DeleteJob, answers, 6);
      if answers[6].o != Refused && job != NoJob {
        job := Terminating;
      }
      assert whole == RunPass(Value(), Stopped, answers, 7);
    }
  }
}
