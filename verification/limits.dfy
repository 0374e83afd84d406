/** A limit of what the handlers promise: a create over an existing release goes on with whatever the
    upgrade it made returned, error or not. When its success speaks for the release all the same. */
module Limits {
  import opened Wrappers
  import opened Kube
  import opened Installer
  import opened Landing
  import RbacGen
  import opened Applicability
  import opened Meta
  import opened Resolver
  import opened Managed
  import Hasher
  import opened Lifecycle
  import opened Faultless
  import opened Outcomes
  import R = Reconcile

  function Fines(n: nat): (s: seq<Fault>)
    ensures |s| == n
  {
    seq(n, _ => Fine)
  }

  lemma FinesFirst(n: nat, rest: seq<Fault>)
    requires n > 0
    ensures Head(Fines(n) + rest) == Fine && Tail(Fines(n) + rest) == Fines(n - 1) + rest
    ensures n == 1 ==> Tail(Fines(n) + rest) == rest
  {
  }

  /** An undisturbed apply of one object makes k calls, whatever comes after them. */
  ghost predicate TakesOne(store: Store, o: Object, k: nat) {
    forall rest :: ApplyObject(Api(store, Fines(k) + rest), o) == (Api(store[o.key := Landed(store, o)], rest), true)
  }

  ghost predicate Takes(store: Store, objects: seq<Object>, n: nat) {
    forall rest :: ApplyAll(Api(store, Fines(n) + rest), objects) == (Api(LandAll(store, objects), rest), true)
  }

  lemma ApplyObjectTakes(store: Store, o: Object) returns (k: nat)
    requires Accepts(store, o.key, Landed(store, o))
    ensures TakesOne(store, o, k)
  {
    k := if o.key in store && o.key.HoldsRules() && Landed(store, o) == store[o.key] then 1 else 2;
    forall rest
      ensures ApplyObject(Api(store, Fines(k) + rest), o) == (Api(store[o.key := Landed(store, o)], rest), true)
    {
      FinesFirst(k, rest);
      if k == 1 {
        assert store[o.key := Landed(store, o)] == store;
      } else {
        FinesFirst(1, rest);
      }
    }
  }

  lemma ApplyAllThen(a: Api, objects: seq<Object>, o: Object)
    requires ApplyAll(a, objects).1
    ensures ApplyAll(a, objects + [o]) == ApplyObject(ApplyAll(a, objects).0, o)
  {
    assert (objects + [o])[..|objects|] == objects;
  }

  lemma LandNext(store: Store, a: Api, init: seq<Object>, last: Object, more: seq<Fault>, rest: seq<Fault>)
    requires ApplyAll(a, init) == (Api(LandAll(store, init), more), true)
    requires ApplyObject(Api(LandAll(store, init), more), last) ==
             (Api(LandAll(store, init)[last.key := Landed(LandAll(store, init), last)], rest), true)
    ensures ApplyAll(a, init + [last]) == (Api(LandAll(store, init + [last]), rest), true)
  {
    ApplyAllThen(a, init, last);
    assert (init + [last])[..|init|] == init;
  }

  lemma FinesSplit(m: nat, k: nat, rest: seq<Fault>)
    ensures Fines(m + k) + rest == Fines(m) + (Fines(k) + rest)
  {
  }

  lemma TakesNext(store: Store, init: seq<Object>, last: Object, m: nat, k: nat)
    requires Takes(store, init, m) && TakesOne(LandAll(store, init), last, k)
    ensures Takes(store, init + [last], m + k)
  {
    forall rest
      ensures ApplyAll(Api(store, Fines(m + k) + rest), init + [last]) == (Api(LandAll(store, init + [last]), rest), true)
    {
      FinesSplit(m, k, rest);
      LandNext(store, Api(store, Fines(m + k) + rest), init, last, Fines(k) + rest, rest);
    }
  }

  lemma {:induction false} ApplyAllTakes(store: Store, objects: seq<Object>) returns (n: nat)
    requires AcceptsAll(store, objects)
    ensures Takes(store, objects, n)
  {
    if objects == [] {
      assert forall rest: seq<Fault> :: Fines(0) + rest == rest;
      n := 0;
    } else {
      var init, last := objects[..|objects| - 1], objects[|objects| - 1];
      AcceptsLast(store, objects);
      var m := ApplyAllTakes(store, init);
      var k := ApplyObjectTakes(LandAll(store, init), last);
      TakesNext(store, init, last, m, k);
      assert init + [last] == objects;
      n := m + k;
    }
  }

  /** An upgrade that gets stuck, or is refused because an earlier operation is, leaves a pending release. */
  lemma UpgradeSticks(cfg: R.Config, env: R.Env, w: R.World, name: string, inspected: seq<RbacGen.Resource>)
    requires w.api.faults == [Stuck] && R.History(w, name) != []
    ensures var step := R.HelmUpgrade(cfg, env, w, name, inspected);
            && step.Halt? && step.w.cr == w.cr && step.w.api.faults == []
            && R.History(step.w, name) != [] && LastOf(step.w, name).pending
  {
  }

  lemma DeployContinues(cfg: R.Config, env: R.Env, w: R.World, name: string, more: seq<Fault>, granted: R.World)
    requires env.inspected.Some? && R.History(w, name) != []
    requires w.api.faults == [Fine] + more
    requires R.EnsureRBAC(cfg, env, w.(api := w.api.(faults := more)), name) == R.Go(granted, env.inspected.value)
    requires granted.api.faults == [Fine, Fine, Stuck]
    ensures var upgraded := R.HelmUpgrade(cfg, env, granted.(api := granted.api.(faults := [Stuck])), name, env.inspected.value);
            upgraded.Halt? ==> R.Deploy(cfg, env, w, name) == R.Go(upgraded.w, env.leftover)
  {
    assert Tail([Fine] + more) == more;
    assert Tail([Fine, Fine, Stuck]) == [Fine, Stuck] && Tail([Fine, Stuck]) == [Stuck];
  }

  lemma DeployHides(cfg: R.Config, env: R.Env, w: R.World, name: string, more: seq<Fault>) returns (after: R.World)
    requires env.inspected.Some? && R.History(w, name) != []
    requires w.api.faults == [Fine] + more
    requires var inp := R.PolicyInput(cfg, w, name, env.inspected.value);
             var (api, ok) := ApplyAll(Api(w.api.store, more), inp.Writes(env.order));
             ok && api.faults == [Fine, Fine, Stuck]
    ensures R.Deploy(cfg, env, w, name) == R.Go(after, env.leftover)
    ensures after.cr == w.cr && after.api.faults == [] && R.History(after, name) != [] && LastOf(after, name).pending
  {
    var granted := R.EnsureRBAC(cfg, env, w.(api := w.api.(faults := more)), name).w;
    DeployContinues(cfg, env, w, name, more, granted);
    var at := granted.(api := granted.api.(faults := [Stuck]));
    UpgradeSticks(cfg, env, at, name, env.inspected.value);
    after := R.HelmUpgrade(cfg, env, at, name, env.inspected.value).w;
  }

  lemma ConcludeLeftover(cfg: R.Config, env: R.Env, w: R.World, info: Info, step: R.Step<()>)
    requires w.api.faults == [] && step == R.Conclude(cfg, w, w.cr, info, env.leftover)
    requires Publishable(cfg, env.leftover, w.cr.namespace)
    requires R.History(w, GetReleaseName(w.cr)) != [] && LastOf(w, GetReleaseName(w.cr)).pending
    ensures step.Go? && !Deployed(env, step.w, GetReleaseName(step.w.cr))
  {
  }

  lemma CreateReaches(cfg: R.Config, env: R.Env, w: R.World, mg: Composition, info: Info, more: seq<Fault>)
    requires !R.Paused(cfg, w.cr) && w.api.faults == [Fine, Fine, Fine] + more
    requires R.Named(cfg, env, w, w.cr) == R.Go(w, mg) && mg == w.cr.(labels := mg.labels)
    requires Fetch(env.definitions, Wanted(mg.labels, mg.kind)) == Some(info)
    ensures var at := w.(cr := mg, api := w.api.(faults := [Fine] + more));
            var deployed := R.Deploy(cfg, env, at, GetReleaseName(mg));
            deployed.Go? ==> R.Create(cfg, env, w) == R.Conclude(cfg, deployed.w, mg, info, deployed.v)
  {
    assert Tail([Fine, Fine, Fine] + more) == [Fine, Fine] + more && Tail([Fine, Fine] + more) == [Fine] + more;
    var s1 := R.Local(w);
    assert R.Named(cfg, env, s1.w, s1.w.cr) == R.Go(s1.w, mg);
    assert R.UpdateCR(s1.w, mg) == R.Go(w.(cr := mg, api := w.api.(faults := [Fine] + more)), mg);
  }

  lemma StickingFaults(cfg: R.Config, env: R.Env, w: R.World, name: string) returns (more: seq<Fault>)
    requires Grantable(cfg, env, w, name)
    ensures var inp := R.PolicyInput(cfg, w, name, env.inspected.value);
            var (api, ok) := ApplyAll(Api(w.api.store, more), inp.Writes(env.order));
            ok && api.faults == [Fine, Fine, Stuck]
  {
    var writes := R.PolicyInput(cfg, w, name, env.inspected.value).Writes(env.order);
    AcceptedIffApplicable(R.PolicyInput(cfg, w, name, env.inspected.value), w.api.store, env.order);
    var n := ApplyAllTakes(w.api.store, writes);
    more := Fines(n) + [Fine, Fine, Stuck];
  }

  lemma CreateHides(cfg: R.Config, env: R.Env, w: R.World, mg: Composition, info: Info, more: seq<Fault>, after: R.World)
    requires !R.Paused(cfg, w.cr) && w.api.faults == [Fine, Fine, Fine] + more
    requires R.Named(cfg, env, w, w.cr) == R.Go(w, mg) && mg == w.cr.(labels := mg.labels)
    requires Fetch(env.definitions, Wanted(mg.labels, mg.kind)) == Some(info)
    requires R.Deploy(cfg, env, w.(cr := mg, api := w.api.(faults := [Fine] + more)), GetReleaseName(mg)) == R.Go(after, env.leftover)
    requires after.cr == mg && after.api.faults == [] && Publishable(cfg, env.leftover, mg.namespace)
    requires R.History(after, GetReleaseName(mg)) != [] && LastOf(after, GetReleaseName(mg)).pending
    ensures R.Create(cfg, env, w).Go? && !Deployed(env, R.Create(cfg, env, w).w, GetReleaseName(R.Create(cfg, env, w).w.cr))
  {
    CreateReaches(cfg, env, w, mg, info, more);
    ConcludeLeftover(cfg, env, after, info, R.Create(cfg, env, w));
  }

  /** Whenever there is a release, one stuck call can make Create succeed with a release that is not the
      rendered chart, unless what the failed upgrade returns stops it. */
  lemma CreateCanHideAFailedUpgrade(cfg: R.Config, env: R.Env, w: R.World) returns (faults: seq<Fault>)
    requires Calm(cfg, env, w) && !R.Paused(cfg, w.cr) && Publishable(cfg, env.leftover, w.cr.namespace)
    requires R.History(w, GetReleaseName(NamedCR(cfg, env, w.cr))) != []
    ensures var step := R.Create(cfg, env, Meeting(w, faults));
            step.Go? && !Deployed(env, step.w, GetReleaseName(step.w.cr))
  {
    var mg := NamedCR(cfg, env, w.cr);
    var more := StickingFaults(cfg, env, w, GetReleaseName(mg));
    faults := [Fine, Fine, Fine] + more;
    NameKeepsAnswer(env.definitions, w.cr.labels, w.cr.kind, CalculateReleaseName(w.cr, cfg.safeReleaseName, env.draw).value);
    var after := DeployHides(cfg, env, Meeting(w, [Fine] + more).(cr := mg), GetReleaseName(mg), more);
    CreateHides(cfg, env, Meeting(w, faults), mg, InfoFor(env, w.cr), more, after);
  }

  function Meeting(w: R.World, faults: seq<Fault>): R.World { w.(api := w.api.(faults := faults)) }

  /** A create that meets these faults fails, or has deployed the rendered chart and described it. */
  ghost predicate Honest(cfg: R.Config, env: R.Env, w: R.World, faults: seq<Fault>) {
    var step := R.Create(cfg, env, Meeting(w, faults));
    step.Go? ==>
      && Deployed(env, step.w, GetReleaseName(step.w.cr))
      && Describes(cfg, w.cr, step.w.cr.status, Some(env.manifest))
  }

  lemma FirstCreateIsHonest(cfg: R.Config, env: R.Env, w: R.World, faults: seq<Fault>)
    requires CalculateReleaseName(w.cr, cfg.safeReleaseName, env.draw).Some? && !R.Paused(cfg, w.cr)
    requires R.History(w, GetReleaseName(NamedCR(cfg, env, w.cr))) == []
    ensures Honest(cfg, env, w, faults)
  {
    if R.Create(cfg, env, Meeting(w, faults)).Go? {
      CreateRecordsTheRelease(cfg, env, Meeting(w, faults));
      CreateKeepsTheName(cfg, env, Meeting(w, faults));
    }
  }

  lemma ConcludeShows(cfg: R.Config, w: R.World, mg: Composition, info: Info, manifest: Option<seq<Hasher.byte>>)
    requires R.Conclude(cfg, w, mg, info, manifest).Go?
    ensures Publishable(cfg, manifest, mg.namespace)
  {
  }

  lemma HonestConclusion(cfg: R.Config, env: R.Env, before: Composition, w: R.World, info: Info,
                         manifest: Option<seq<Hasher.byte>>, step: R.Step<()>)
    requires w.cr == before.(labels := w.cr.labels) && Fetch(env.definitions, Wanted(w.cr.labels, w.cr.kind)) == Some(info)
    requires manifest == env.leftover || (manifest == Some(env.manifest) && Deployed(env, w, GetReleaseName(w.cr)))
    requires !Publishable(cfg, env.leftover, before.namespace)
    requires step == R.Conclude(cfg, w, w.cr, info, manifest) && step.Go?
    ensures Deployed(env, step.w, GetReleaseName(step.w.cr)) && Describes(cfg, before, step.w.cr.status, Some(env.manifest))
  {
    ConcludeShows(cfg, w, w.cr, info, manifest);
    ConcludeNamesChart(cfg, env, w, info, manifest);
    ConcludeDescribes(cfg, w, w.cr, info, manifest);
  }

  /** A leftover that cannot be published makes Create fail, so a success is one of the upgrade. */
  lemma UnpublishableIsHonest(cfg: R.Config, env: R.Env, w: R.World, faults: seq<Fault>)
    requires !R.Paused(cfg, w.cr) && !Publishable(cfg, env.leftover, w.cr.namespace)
    ensures Honest(cfg, env, w, faults)
  {
    if R.Create(cfg, env, Meeting(w, faults)).Go? {
      var mg, at, info := CreateEnds(cfg, env, Meeting(w, faults));
      var deployed := R.Deploy(cfg, env, at, GetReleaseName(mg));
      DeployOutcome(cfg, env, at, GetReleaseName(mg));
      HonestConclusion(cfg, env, w.cr, deployed.w, info, deployed.v, R.Create(cfg, env, Meeting(w, faults)));
    }
  }

  /** Whether Create can be taken at its word, whatever happens to its calls: if there is no release
      before the call, or else if a failed upgrade returns something that cannot be published. */
  lemma CreateIsHonestWithoutARelease(cfg: R.Config, env: R.Env, w: R.World)
    requires Calm(cfg, env, w) && !R.Paused(cfg, w.cr)
    ensures (forall faults :: Honest(cfg, env, w, faults)) <==>
            R.History(w, GetReleaseName(NamedCR(cfg, env, w.cr))) == [] || !Publishable(cfg, env.leftover, w.cr.namespace)
  {
    if R.History(w, GetReleaseName(NamedCR(cfg, env, w.cr))) == [] {
      forall faults ensures Honest(cfg, env, w, faults) {
        FirstCreateIsHonest(cfg, env, w, faults);
      }
    } else if !Publishable(cfg, env.leftover, w.cr.namespace) {
      forall faults ensures Honest(cfg, env, w, faults) {
        UnpublishableIsHonest(cfg, env, w, faults);
      }
    } else {
      var faults := CreateCanHideAFailedUpgrade(cfg, env, w);
      assert !Honest(cfg, env, w, faults);
    }
  }

  function LeavingBehind(env: R.Env, leftover: Option<seq<Hasher.byte>>): R.Env { env.(leftover := leftover) }

  /** When nothing is known about what a failed upgrade returns, only the release before the call counts. */
  lemma CreateIsHonestWhateverIsLeft(cfg: R.Config, env: R.Env, w: R.World)
    requires Calm(cfg, env, w) && !R.Paused(cfg, w.cr)
    ensures (forall faults, leftover :: Honest(cfg, LeavingBehind(env, leftover), w, faults)) <==>
            R.History(w, GetReleaseName(NamedCR(cfg, env, w.cr))) == []
  {
    if R.History(w, GetReleaseName(NamedCR(cfg, env, w.cr))) == [] {
      forall faults, leftover ensures Honest(cfg, LeavingBehind(env, leftover), w, faults) {
        FirstCreateIsHonest(cfg, LeavingBehind(env, leftover), w, faults);
      }
    } else {
      var none := LeavingBehind(env, None);
      assert Publishable(cfg, none.leftover, w.cr.namespace);
      var faults := CreateCanHideAFailedUpgrade(cfg, none, w);
      assert !Honest(cfg, LeavingBehind(env, None), w, faults);
    }
  }

  lemma StalledIsNotDeployed(env: R.Env, a: R.World, b: R.World, name: string)
    requires Stalled(a, name) && b.releases == a.releases
    ensures !Deployed(env, b, name)
  {
  }

  /** Without any faults: the success of a create speaks for the release unless Helm had an operation pending
      and what the refusal returns can be published. */
  lemma UndisturbedCreateIsHonest(cfg: R.Config, env: R.Env, w: R.World, name: string)
    requires Calm(cfg, env, w) && !R.Paused(cfg, w.cr) && name == GetReleaseName(NamedCR(cfg, env, w.cr))
    ensures Honest(cfg, env, w, []) <==> !(Stalled(w, name) && Publishable(cfg, env.leftover, w.cr.namespace))
  {
    assert Meeting(w, []) == w;
    if !Publishable(cfg, env.leftover, w.cr.namespace) {
      UnpublishableIsHonest(cfg, env, w, []);
    } else {
      var after := CreateDeploys(cfg, env, w, name);
      CreateKeepsTheName(cfg, env, w);
      if Stalled(w, name) { StalledIsNotDeployed(env, w, after, name); }
    }
  }
}
