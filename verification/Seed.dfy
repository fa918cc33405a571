/**
 The seed claim: concurrent reconcilers agree on one node through the resource
 version of the ClusdrCluster object.
 */
module Seed {
  import opened Names

  // The API object: its resourceVersion and the two seed fields.  A stored object has a
  // version above 0; 0 stands for the empty resourceVersion of one never stored.
  datatype Object = Object(version: nat, specSeed: string, statusSeed: string)

  // One reconciler between API calls.  Past(seed) has left resolveSeed with a seed.
  datatype Reconciler =
    | Off
    | Got(read: Object)
    | Claiming(read: Object, node: string)
    | Past(seed: string)

  datatype System = System(obj: Object, recs: seq<Reconciler>)

  datatype Outcome = Done | Refused | Lost

  datatype Action =
    | Get(r: nat)                          // the reconciler reads the object
    | Resolve(r: nat, nodes: seq<string>)  // ready nodes as listed
    | Claim(r: nat, o: Outcome)
    | PatchStatus(r: nat)
    | Abort(r: nat)
    | Touch                                // someone else writes an unrelated field
    | EditSpec(seed: string)

  // sort.Strings(nodes); nodes[0]
  function Least(nodes: seq<string>): string
    requires nodes != []
  {
    if |nodes| == 1 then nodes[0]
    else
      var rest := Least(nodes[..|nodes| - 1]);
      if Less(nodes[|nodes| - 1], rest) then nodes[|nodes| - 1] else rest
  }

  lemma {:induction false} LeastIsFirst(nodes: seq<string>)
    requires nodes != []
    ensures Least(nodes) in nodes
    ensures forall n :: n in nodes ==> n == Least(nodes) || Less(Least(nodes), n)
    decreases |nodes|
  {
    var k := |nodes| - 1;
    assert nodes == nodes[..k] + [nodes[k]];
    if k > 0 {
      var rest := Least(nodes[..k]);
      LeastIsFirst(nodes[..k]);
      LessTotal(nodes[k], rest);
      if Less(nodes[k], rest) {
        forall n | n in nodes[..k]
          ensures Less(nodes[k], n)
        {
          if n != rest {
            LessTransitive(nodes[k], rest, n);
          }
        }
      }
    }
  }

  ghost predicate Enabled(s: System, a: Action) {
    match a
    case Get(r) => r < |s.recs|
    case Resolve(r, nodes) => r < |s.recs| && s.recs[r].Got? && forall n :: n in nodes ==> n != ""
    case Claim(r, _) => r < |s.recs| && s.recs[r].Claiming?
    case PatchStatus(r) => r < |s.recs| && !s.recs[r].Off?
    case Abort(r) => r < |s.recs|
    case Touch => true
    case EditSpec(_) => true
  }

  // resolveSeed up to its claim.
  function ResolveStep(read: Object, nodes: seq<string>): Reconciler {
    var want := if read.specSeed != "" then read.specSeed else read.statusSeed;
    if want == "" then if nodes == [] then Off else Claiming(read, Least(nodes))
    else if read.statusSeed != want then Claiming(read, want)
    else Past(want)
  }

  // Which seed a reconciler goes for: the spec's, else the recorded one, else of the ready
  // nodes the one that sorts first; it claims unless that one is recorded already.
  lemma ResolveGoesFor(read: Object, nodes: seq<string>, node: string)
    ensures read.specSeed != "" ==>
              ResolveStep(read, nodes)
              == if read.statusSeed == read.specSeed then Past(read.specSeed) else Claiming(read, read.specSeed)
    ensures read.specSeed == "" && read.statusSeed != "" ==> ResolveStep(read, nodes) == Past(read.statusSeed)
    ensures read.specSeed == "" && read.statusSeed == "" && nodes == [] ==> ResolveStep(read, nodes) == Off
    ensures read.specSeed == "" && read.statusSeed == "" && nodes != [] ==>
              (ResolveStep(read, nodes) == Claiming(read, node) <==>
                 node in nodes && forall n :: n in nodes ==> n == node || Less(node, n))
  {
    if nodes != [] {
      LeastIsFirst(nodes);
      if node in nodes && node != Least(nodes) {
        LessTotal(node, Least(nodes));
      }
    }
  }

  // ClaimSeed: UpdateStatus is refused unless the version read, if any, is still current.
  function ClaimStep(obj: Object, read: Object, node: string, o: Outcome): (Object, Reconciler) {
    if (read.version != 0 && obj.version != read.version) || o == Refused then (obj, Off)
    else (obj.(version := obj.version + 1, statusSeed := node), if o == Done then Past(node) else Off)
  }

  // patchStatus: a merge patch with no version check, whose seed field is left out
  // while the reconciler has none.
  function PatchStep(obj: Object, rec: Reconciler): Object {
    var seed := match rec
      case Past(seed) => seed
      case Got(read) => read.specSeed
      case Claiming(read, _) => read.specSeed
      case Off => "";
    if seed == "" then obj.(version := obj.version + 1)
    else obj.(version := obj.version + 1, statusSeed := seed)
  }

  // A claim is recorded if and only if it is made at the current version, or at none, and
  // not refused; it is reported exactly when it is also heard of; nothing but the seed
  // changes.  A status patch records the seed its reconciler has, and leaves the recorded
  // one alone when it has none.
  lemma ClaimAndPatchRecord(obj: Object, read: Object, node: string, o: Outcome, seed: string)
    ensures var (obj', rec) := ClaimStep(obj, read, node, o);
            var current := read.version == 0 || read.version == obj.version;
            && obj' == (if current && o != Refused then Object(obj.version + 1, obj.specSeed, node) else obj)
            && (rec == Past(node) <==> current && o == Done) && (rec != Past(node) ==> rec == Off)
    ensures seed != "" ==> PatchStep(obj, Past(seed)) == Object(obj.version + 1, obj.specSeed, seed)
    ensures PatchStep(obj, Got(read)) == Object(obj.version + 1, obj.specSeed,
                                                if read.specSeed == "" then obj.statusSeed else read.specSeed)
  {
  }

  ghost function Act(s: System, a: Action): System
    requires Enabled(s, a)
  {
    match a
    case Get(r) => s.(recs := s.recs[r := Got(s.obj)])
    case Resolve(r, nodes) => s.(recs := s.recs[r := ResolveStep(s.recs[r].read, nodes)])
    case Claim(r, o) =>
      var (obj, rec) := ClaimStep(s.obj, s.recs[r].read, s.recs[r].node, o);
      System(obj, s.recs[r := rec])
    case PatchStatus(r) => s.(obj := PatchStep(s.obj, s.recs[r]))
    case Abort(r) => s.(recs := s.recs[r := Off])
    case Touch => s.(obj := s.obj.(version := s.obj.version + 1))
    case EditSpec(seed) => s.(obj := s.obj.(version := s.obj.version + 1, specSeed := seed))
  }

  ghost predicate IsRun(run: seq<System>, actions: seq<Action>) {
    && |run| == |actions| + 1
    && run[0].obj.version > 0
    && (forall r :: 0 <= r < |run[0].recs| ==> run[0].recs[r] == Off)
    && forall i :: 0 <= i < |actions| ==> Enabled(run[i], actions[i]) && run[i + 1] == Act(run[i], actions[i])
  }

  // spec.seedNodeName is empty and nobody edits it.
  ghost predicate SpecStaysEmpty(run: seq<System>, actions: seq<Action>)
    requires IsRun(run, actions)
  {
    run[0].obj.specSeed == "" && forall i :: 0 <= i < |actions| ==> !actions[i].EditSpec?
  }

  // A read at the current version is still true; a claim pending at the current
  // version found no seed recorded; whoever is past has the recorded seed.
  ghost predicate RecOk(obj: Object, rec: Reconciler) {
    match rec
    case Off => true
    case Got(read) =>
      && read.specSeed == "" && 0 < read.version <= obj.version
      && (read.version == obj.version ==> read.statusSeed == obj.statusSeed)
      && (read.statusSeed != "" ==> read.statusSeed == obj.statusSeed)
    case Claiming(read, node) =>
      && read.specSeed == "" && 0 < read.version <= obj.version && node != ""
      && (read.version == obj.version ==> obj.statusSeed == "")
    case Past(seed) => seed != "" && seed == obj.statusSeed
  }

  ghost predicate Inv(s: System) {
    s.obj.specSeed == "" && s.obj.version > 0 && forall r :: 0 <= r < |s.recs| ==> RecOk(s.obj, s.recs[r])
  }

  // A recorded seed is neither changed nor erased.
  predicate KeepsSeed(before: Object, after: Object) {
    before.statusSeed != "" ==> after.statusSeed == before.statusSeed
  }

  lemma LeastNonEmpty(nodes: seq<string>)
    requires nodes != [] && forall n :: n in nodes ==> n != ""
    ensures Least(nodes) != ""
  {
    LeastIsFirst(nodes);
  }

  lemma ActKeepsInv(s: System, a: Action)
    requires Inv(s) && Enabled(s, a) && !a.EditSpec?
    ensures Inv(Act(s, a)) && KeepsSeed(s.obj, Act(s, a).obj)
  {
    match a
    case Resolve(r, nodes) =>
      assert RecOk(s.obj, s.recs[r]);
      if nodes != [] {
        LeastNonEmpty(nodes);
      }
    case Claim(r, o) =>
      assert RecOk(s.obj, s.recs[r]);
    case PatchStatus(r) =>
      assert RecOk(s.obj, s.recs[r]);
    case _ =>
  }

  lemma {:induction false} RunKeepsInv(run: seq<System>, actions: seq<Action>, i: nat)
    requires IsRun(run, actions) && SpecStaysEmpty(run, actions) && i < |run|
    ensures Inv(run[i])
    decreases i
  {
    if i > 0 {
      RunKeepsInv(run, actions, i - 1);
      ActKeepsInv(run[i - 1], actions[i - 1]);
    }
  }

  // Once recorded, the seed stays recorded, whatever any reconciler does.
  lemma {:induction false} ClaimIsPermanent(run: seq<System>, actions: seq<Action>, i: nat, j: nat)
    requires IsRun(run, actions) && SpecStaysEmpty(run, actions) && i <= j < |run|
    ensures KeepsSeed(run[i].obj, run[j].obj)
    decreases j - i
  {
    if i < j {
      ClaimIsPermanent(run, actions, i, j - 1);
      RunKeepsInv(run, actions, j - 1);
      ActKeepsInv(run[j - 1], actions[j - 1]);
    }
  }

  // Seed agreement: any two reconcilers that ever get past resolveSeed, at the same
  // time or not, hold the same seed, and it is the recorded one from then on.
  lemma SeedAgreement(run: seq<System>, actions: seq<Action>, i: nat, j: nat, p: nat, q: nat)
    requires IsRun(run, actions) && SpecStaysEmpty(run, actions) && i <= j < |run|
    requires p < |run[i].recs| && q < |run[j].recs| && run[i].recs[p].Past? && run[j].recs[q].Past?
    ensures run[i].recs[p].seed == run[j].recs[q].seed == run[j].obj.statusSeed != ""
  {
    RunKeepsInv(run, actions, i);
    RunKeepsInv(run, actions, j);
    ClaimIsPermanent(run, actions, i, j);
    assert RecOk(run[i].obj, run[i].recs[p]) && RecOk(run[j].obj, run[j].recs[q]);
  }

  lemma Extend(run: seq<System>, actions: seq<Action>, a: Action) returns (run': seq<System>, actions': seq<Action>)
    requires IsRun(run, actions) && Enabled(run[|run| - 1], a)
    ensures run' == run + [Act(run[|run| - 1], a)] && actions' == actions + [a] && IsRun(run', actions')
  {
    run', actions' := run + [Act(run[|run| - 1], a)], actions + [a];
    forall i | 0 <= i < |actions'|
      ensures Enabled(run'[i], actions'[i]) && run'[i + 1] == Act(run'[i], actions'[i])
    {
      if i < |actions| {
        assert run'[i] == run[i] && run'[i + 1] == run[i + 1] && actions'[i] == actions[i];
      }
    }
  }

  // The agreement does need the spec to stay empty: every run with a reconciler past
  // resolveSeed extends to one in which another node is written into the spec and a
  // second reconciler gets past with that one.
  lemma EditedSpecSplitsSeeds(run: seq<System>, actions: seq<Action>, p: nat, q: nat, node: string)
    returns (run': seq<System>, actions': seq<Action>)
    requires IsRun(run, actions) && p < |run[|run| - 1].recs| && q < |run[|run| - 1].recs| && p != q
    requires run[|run| - 1].recs[p].Past? && run[|run| - 1].recs[p].seed != node && node != ""
    ensures IsRun(run', actions') && run <= run'
    ensures var s, s' := run[|run| - 1], run'[|run'| - 1];
            |s'.recs| == |s.recs| && s'.recs[p] == s.recs[p] && s'.recs[q] == Past(node)
  {
    run', actions' := Extend(run, actions, EditSpec(node));
    run', actions' := Extend(run', actions', Get(q));
    run', actions' := Extend(run', actions', Resolve(q, []));
    if run'[|run'| - 1].recs[q].Claiming? {
      run', actions' := Extend(run', actions', Claim(q, Done));
    }
  }

  // So does the version: a claim that carries none overwrites another node's.
  lemma UnversionedClaimOverwrites(obj: Object, read: Object, node: string)
    requires read.version == 0 && obj.statusSeed != node
    ensures var (obj', rec) := ClaimStep(obj, read, node, Done);
            rec == Past(node) && obj'.statusSeed == node && (obj.statusSeed != "" ==> !KeepsSeed(obj, obj'))
  {
  }

  class ApiObject {
    var version: nat
    var specSeed: string
    var statusSeed: string

    function Value(): Object
      reads this
    {
      Object(version, specSeed, statusSeed)
    }

    method ClaimSeed(read: Object, node: string, o: Outcome) returns (ok: bool)
      modifies this
      ensures Value() == ClaimStep(old(Value()), read, node, o).0
      ensures ok <==> ClaimStep(old(Value()), read, node, o).1 == Past(node)
    {
      if read.version != 0 {
        if version != read.version {
          return false;
        }
      }
      if o == Refused {
        return false;
      }
      statusSeed := node;
      version := version + 1;
      return o == Done;
    }

    // resolveSeed on an object read earlier; seed is c.Spec.SeedNodeName on return.
    method ResolveSeed(read: Object, nodes: seq<string>, o: Outcome) returns (ok: bool, seed: string)
      requires forall n :: n in nodes ==> n != ""
      modifies this
      ensures var plan := ResolveStep(read, nodes);
              if plan.Claiming?
              then var (obj, rec) := ClaimStep(old(Value()), plan.read, plan.node, o);
                   Value() == obj && (ok <==> rec == Past(plan.node)) && (ok ==> seed == plan.node)
              else Value() == old(Value()) && ok && seed == if plan.Past? then plan.seed else ""
    {
      var want := read.specSeed;
      if want == "" {
        want := read.statusSeed;
      }
      if want == "" {
        if nodes == [] {
          return true, "";
        }
        want := Least(nodes);
        ok := ClaimSeed(read, want, o);
        return ok, if ok then want else "";
      }
      if read.statusSeed != want {
        ok := ClaimSeed(read, want, o);
        return ok, if ok then want else read.specSeed;
      }
      return true, want;
    }
  }
}
