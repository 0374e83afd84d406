/** The handlers when no call fails, from any state whatever: exactly when each of them succeeds, and the
    whole world that it leaves. */
module Outcomes {
  import opened Wrappers
  import opened Kube
  import opened Installer
  import opened Landing
  import opened Meaning
  import RbacGen
  import Hasher
  import opened Applicability
  import opened Processor
  import opened Managed
  import opened Meta
  import opened Resolver
  import opened Lifecycle
  import opened Faultless
  import A = Authorization
  import R = Reconcile

  /** The definition that the stored labels lead to. */
  ghost predicate Defined(env: R.Env, cr: Composition) {
    Fetch(env.definitions, Wanted(cr.labels, cr.kind)).Some?
  }

  /** Whatever faults an apply meets, if it succeeds then each namespace on the list is there, marked as part
      of this release and of the namespace of the composition, so that Helm takes it for its own. */
  lemma ListedNamespaces(cfg: R.Config, env: R.Env, w: R.World, name: string, listed: string)
    requires R.ValidEnv(env) && R.EnsureRBAC(cfg, env, w, name).Go?
    requires RbacGen.Resource("", "v1", "namespaces", listed, "") in env.inspected.value
    ensures var key, store := Key(NamespaceKind, "", listed), R.EnsureRBAC(cfg, env, w, name).w.api.store;
            && key in store
            && store[key] == Namespace(map["app.kubernetes.io/managed-by" := "Helm"],
                                       map["meta.helm.sh/release-name" := name, "meta.helm.sh/release-namespace" := w.cr.namespace])
  {
    var inp := R.PolicyInput(cfg, w, name, env.inspected.value);
    var n := ApplyAllLands(w.api, inp.Writes(env.order));
    assert inp.Writes(env.order)[..n] == inp.Writes(env.order);
    A.AppliedNamespaces(inp, w.api.store, env.order, listed);
  }

  // ------------------------------------------------------------ Delete

  lemma RemoveRBACCalm(cfg: R.Config, env: R.Env, w: R.World, name: string) returns (after: R.World)
    requires w.api.faults == [] && R.ValidEnv(env) && env.inspected.Some?
    ensures R.RemoveRBAC(cfg, env, w, name) == R.Go(after, ())
    ensures after == w.(api := Api(w.api.store - DeletedKeys(R.PolicyInput(cfg, w, name, env.inspected.value)), []))
  {
    var inp := R.PolicyInput(cfg, w, name, env.inspected.value);
    DeleteAllSucceeds(w.api, inp.Deletes(env.order));
    DeletesAre(inp, env.order);
    after := w.(api := Api(w.api.store - DeletedKeys(inp), []));
  }

  lemma CleanUpCalm(cfg: R.Config, env: R.Env, w: R.World, name: string) returns (after: R.World)
    requires w.api.faults == [] && R.ValidEnv(env) && env.inspected.Some?
    ensures R.CleanUp(cfg, env, w, w.cr, name) == R.Go(after, ())
    ensures after.cr == w.cr.(annotations := w.cr.annotations - {PAUSED_TIME})
    ensures after.api == Api(w.api.store - DeletedKeys(R.PolicyInput(cfg, w, name, env.inspected.value)), [])
    ensures after.releases == w.releases && after.helmLog == w.helmLog
  {
    assert R.Local(w) == R.Go(w, ());
    var removed := RemoveRBACCalm(cfg, env, w, name);
    after := removed.(cr := w.cr.(annotations := w.cr.annotations - {PAUSED_TIME}));
  }

  /** What an uninstall leaves. */
  function Uninstalled(w: R.World, name: string): R.World {
    w.(releases := w.releases - {name}, helmLog := w.helmLog + [R.HelmCall(R.Uninstall, name)])
  }

  lemma TeardownCalm(cfg: R.Config, env: R.Env, w: R.World, name: string)
    requires w.api.faults == []
    ensures R.Teardown(cfg, env, w, w.cr, name) == R.CleanUp(cfg, env, Uninstalled(w, name), w.cr, name)
  {
  }

  lemma DeleteStart(cfg: R.Config, env: R.Env, w: R.World)
    requires w.api.faults == [] && !R.Paused(cfg, w.cr) && Defined(env, w.cr)
    ensures R.Delete(cfg, env, w) ==
            if R.History(w, GetReleaseName(w.cr)) == [] then R.Go(w, ()) else R.Teardown(cfg, env, w, w.cr, GetReleaseName(w.cr))
  {
    assert R.Local(w) == R.Go(w, ());
  }

  /** A delete of a release that is there: the release is gone, and so are its roles and bindings in the
      listed scopes and the time of the pause; nothing else changes. */
  lemma DeleteSucceeds(cfg: R.Config, env: R.Env, w: R.World) returns (after: R.World)
    requires w.api.faults == [] && R.ValidEnv(env) && env.inspected.Some? && !R.Paused(cfg, w.cr) && Defined(env, w.cr)
    requires R.History(w, GetReleaseName(w.cr)) != []
    ensures R.Delete(cfg, env, w) == R.Go(after, ())
    ensures after.releases == w.releases - {GetReleaseName(w.cr)}
    ensures after.api.store == w.api.store - DeletedKeys(R.PolicyInput(cfg, w, GetReleaseName(w.cr), env.inspected.value))
    ensures after.cr == w.cr.(annotations := w.cr.annotations - {PAUSED_TIME})
    ensures after.helmLog == w.helmLog + [R.HelmCall(R.Uninstall, GetReleaseName(w.cr))]
  {
    var name := GetReleaseName(w.cr);
    DeleteStart(cfg, env, w);
    TeardownCalm(cfg, env, w, name);
    after := CleanUpCalm(cfg, env, Uninstalled(w, name), name);
  }

  /** Without the list of the inspector a delete takes the release and stops there: the roles stay. */
  lemma DeleteWithoutTheList(cfg: R.Config, env: R.Env, w: R.World)
    requires w.api.faults == [] && env.inspected.None? && !R.Paused(cfg, w.cr) && Defined(env, w.cr)
    requires R.History(w, GetReleaseName(w.cr)) != []
    ensures R.Delete(cfg, env, w) == R.Halt(Uninstalled(w, GetReleaseName(w.cr)))
  {
    DeleteStart(cfg, env, w);
    TeardownCalm(cfg, env, w, GetReleaseName(w.cr));
  }

  lemma DeleteSucceedsIff(cfg: R.Config, env: R.Env, w: R.World)
    requires w.api.faults == [] && R.ValidEnv(env) && !R.Paused(cfg, w.cr)
    ensures R.Delete(cfg, env, w).Go? <==>
            Defined(env, w.cr) && (R.History(w, GetReleaseName(w.cr)) == [] || env.inspected.Some?)
  {
    if !Defined(env, w.cr) {
      assert R.Local(w) == R.Go(w, ());
    } else if R.History(w, GetReleaseName(w.cr)) == [] {
      DeleteStart(cfg, env, w);
    } else if env.inspected.None? {
      DeleteWithoutTheList(cfg, env, w);
    } else {
      var after := DeleteSucceeds(cfg, env, w);
    }
  }

  // ------------------------------------------------------------ Update

  /** The annotations after an update: the flag decides on the time. */
  function Stamped(env: R.Env, annotations: map<string, string>): map<string, string> {
    if Lookup(annotations, "krateo.io/gracefully-paused") == "true" then annotations["krateo.io/gracefully-paused-time" := env.now]
    else annotations - {"krateo.io/gracefully-paused-time"}
  }

  lemma PublishCalmly(cfg: R.Config, env: R.Env, w: R.World, info: Info, release: R.Revision) returns (after: R.World)
    requires w.api.faults == [] && Publishable(cfg, Some(release.manifest), w.cr.namespace)
    ensures R.Publish(cfg, env, w, w.cr, info, release) == R.Go(after, ())
    ensures after.releases == w.releases && after.api == w.api && after.helmLog == w.helmLog
    ensures after.cr == w.cr.(annotations := Stamped(env, w.cr.annotations),
                              status := Status(Digest(release.manifest), w.cr.status.digest, info.url, info.version,
                                               EntriesFor(cfg.catalog, Decoded(release.manifest, cfg.grammar).value.0, w.cr.namespace)))
  {
    FastEqualsSlow(release.manifest, cfg.grammar);
    after := R.Publish(cfg, env, w, w.cr, info, release).w;
  }

  lemma UpdateStart(cfg: R.Config, env: R.Env, w: R.World)
    requires w.api.faults == [] && !R.Paused(cfg, w.cr) && Defined(env, w.cr)
    ensures R.Update(cfg, env, w) ==
            if R.History(w, GetReleaseName(w.cr)) == [] then R.Halt(w)
            else R.Publish(cfg, env, w, w.cr, InfoFor(env, w.cr), LastOf(w, GetReleaseName(w.cr)))
  {
    assert R.Local(w) == R.Go(w, ());
  }

  /** An update publishes the release as it is stored, whatever the chart renders to by now, and leaves the
      time of a pause exactly if the flag asks for one. */
  lemma UpdateSucceeds(cfg: R.Config, env: R.Env, w: R.World) returns (after: R.World)
    requires w.api.faults == [] && !R.Paused(cfg, w.cr) && Defined(env, w.cr) && R.History(w, GetReleaseName(w.cr)) != []
    requires Publishable(cfg, Some(LastOf(w, GetReleaseName(w.cr)).manifest), w.cr.namespace)
    ensures R.Update(cfg, env, w) == R.Go(after, ())
    ensures after.releases == w.releases && after.api == w.api && after.helmLog == w.helmLog
    ensures var manifest, info := LastOf(w, GetReleaseName(w.cr)).manifest, InfoFor(env, w.cr);
            after.cr == w.cr.(annotations := Stamped(env, w.cr.annotations),
                              status := Status(Digest(manifest), w.cr.status.digest, info.url, info.version,
                                               EntriesFor(cfg.catalog, Decoded(manifest, cfg.grammar).value.0, w.cr.namespace)))
  {
    UpdateStart(cfg, env, w);
    after := PublishCalmly(cfg, env, w, InfoFor(env, w.cr), LastOf(w, GetReleaseName(w.cr)));
  }

  lemma UpdateSucceedsIff(cfg: R.Config, env: R.Env, w: R.World)
    requires w.api.faults == [] && !R.Paused(cfg, w.cr)
    ensures R.Update(cfg, env, w).Go? <==>
            && Defined(env, w.cr) && R.History(w, GetReleaseName(w.cr)) != []
            && Publishable(cfg, Some(LastOf(w, GetReleaseName(w.cr)).manifest), w.cr.namespace)
  {
    if !Defined(env, w.cr) {
      assert R.Local(w) == R.Go(w, ());
    } else {
      UpdateStart(cfg, env, w);
      if R.History(w, GetReleaseName(w.cr)) != [] && Publishable(cfg, Some(LastOf(w, GetReleaseName(w.cr)).manifest), w.cr.namespace) {
        var after := UpdateSucceeds(cfg, env, w);
      }
    }
  }

  // ------------------------------------------------------------ Create

  /** Helm refuses to upgrade: an earlier operation on the release is pending. */
  predicate Stalled(w: R.World, name: string) {
    R.History(w, name) != [] && LastOf(w, name).pending
  }

  /** What a create without faults goes on with. */
  function Returned(env: R.Env, w: R.World, name: string): Option<seq<Hasher.byte>> {
    if Stalled(w, name) then env.leftover else Some(env.manifest)
  }

  lemma HelmCalm(cfg: R.Config, env: R.Env, w: R.World, name: string) returns (after: R.World)
    requires w.api.faults == [] && env.inspected.Some?
    ensures if Stalled(w, name) then after.releases == w.releases else Deployed(env, after, name)
    ensures var step := if R.History(w, name) == [] then R.HelmInstall(cfg, env, w, name, env.inspected.value)
                        else R.HelmUpgrade(cfg, env, w, name, env.inspected.value);
            step == if Stalled(w, name) then R.Halt(after) else R.Go(after, LastOf(after, name))
    ensures after.cr == w.cr && after.api == w.api
  {
    if R.History(w, name) == [] {
      InstallCalm(cfg, env, w, name, env.inspected.value);
      after := R.HelmInstall(cfg, env, w, name, env.inspected.value).w;
    } else if LastOf(w, name).pending {
      after := R.HelmUpgrade(cfg, env, w, name, env.inspected.value).w;
    } else {
      after := UpgradeCalm(cfg, env, w, name, env.inspected.value);
    }
  }

  lemma DeployAnywhere(cfg: R.Config, env: R.Env, w: R.World, name: string) returns (after: R.World)
    requires w.api.faults == [] && Grantable(cfg, env, w, name)
    ensures R.Deploy(cfg, env, w, name) == R.Go(after, Returned(env, w, name))
    ensures after.cr == w.cr && after.api == Granted(cfg, env, w, name)
    ensures if Stalled(w, name) then after.releases == w.releases else Deployed(env, after, name)
  {
    assert R.Local(w) == R.Go(w, ());
    var granted := EnsureRBACCalm(cfg, env, w, name);
    assert R.Local(granted) == R.Go(granted, ());
    after := HelmCalm(cfg, env, granted, name);
  }

  /** The status that a create leaves for what it goes on with. */
  ghost function StatusOf(cfg: R.Config, env: R.Env, cr: Composition, manifest: Option<seq<Hasher.byte>>): Status
    requires Defined(env, cr) && Publishable(cfg, manifest, cr.namespace)
  {
    var text := if manifest.Some? then manifest.value else [];
    var objects := if manifest.Some? then Decoded(text, cfg.grammar).value.0 else [];
    Status(Digest(text), "", InfoFor(env, cr).url, InfoFor(env, cr).version,
           if objects == [] then cr.status.managed else EntriesFor(cfg.catalog, objects, cr.namespace))
  }

  lemma ConcludeAnywhere(cfg: R.Config, env: R.Env, w: R.World, manifest: Option<seq<Hasher.byte>>) returns (after: R.World)
    requires w.api.faults == [] && Defined(env, w.cr) && Publishable(cfg, manifest, w.cr.namespace)
    ensures R.Conclude(cfg, w, w.cr, InfoFor(env, w.cr), manifest) == R.Go(after, ())
    ensures after.releases == w.releases && after.api == w.api
    ensures after.cr == w.cr.(status := StatusOf(cfg, env, w.cr, manifest),
                              annotations := w.cr.annotations - {"krateo.io/gracefully-paused-time"})
  {
    if manifest.Some? { FastEqualsSlow(manifest.value, cfg.grammar); }
    after := R.Conclude(cfg, w, w.cr, InfoFor(env, w.cr), manifest).w;
  }

  lemma DeployThenConclude(cfg: R.Config, env: R.Env, at: R.World, name: string) returns (deployed: R.World, after: R.World)
    requires at.api.faults == [] && Defined(env, at.cr) && Grantable(cfg, env, at, name)
    requires Publishable(cfg, Returned(env, at, name), at.cr.namespace)
    ensures R.Deploy(cfg, env, at, name) == R.Go(deployed, Returned(env, at, name))
    ensures R.Conclude(cfg, deployed, at.cr, InfoFor(env, at.cr), Returned(env, at, name)) == R.Go(after, ())
    ensures after.cr == at.cr.(status := StatusOf(cfg, env, at.cr, Returned(env, at, name)),
                               annotations := at.cr.annotations - {"krateo.io/gracefully-paused-time"})
    ensures after.api == Granted(cfg, env, at, name)
    ensures if Stalled(at, name) then after.releases == at.releases else Deployed(env, after, name)
  {
    deployed := DeployAnywhere(cfg, env, at, name);
    after := ConcludeAnywhere(cfg, env, deployed, Returned(env, at, name));
    if !Stalled(at, name) { SameReleases(env, deployed, after, name); }
  }

  lemma CreateStart(cfg: R.Config, env: R.Env, w: R.World, at: R.World)
    requires w.api.faults == [] && !R.Paused(cfg, w.cr) && CalculateReleaseName(w.cr, cfg.safeReleaseName, env.draw).Some?
    requires at == w.(cr := NamedCR(cfg, env, w.cr))
    ensures R.Create(cfg, env, w) ==
            if !Defined(env, at.cr) then R.Halt(at)
            else
              var deployed := R.Deploy(cfg, env, at, GetReleaseName(at.cr));
              if deployed.Halt? then R.Halt(deployed.w) else R.Conclude(cfg, deployed.w, at.cr, InfoFor(env, at.cr), deployed.v)
  {
    assert R.Local(w) == R.Go(w, ()) && R.Named(cfg, env, w, w.cr) == R.Go(w, at.cr);
    assert R.UpdateCR(w, at.cr) == R.Go(at, at.cr);
  }

  /** A create, over a release or not: the policy is applied, the chart is deployed, and the status describes
      it; only over a release with a pending operation does it describe what is left of the refusal. */
  lemma CreateSucceeds(cfg: R.Config, env: R.Env, w: R.World, at: R.World) returns (after: R.World)
    requires w.api.faults == [] && !R.Paused(cfg, w.cr) && CalculateReleaseName(w.cr, cfg.safeReleaseName, env.draw).Some?
    requires at == w.(cr := NamedCR(cfg, env, w.cr))
    requires Defined(env, at.cr) && Grantable(cfg, env, at, GetReleaseName(at.cr))
    requires Publishable(cfg, Returned(env, at, GetReleaseName(at.cr)), at.cr.namespace)
    ensures R.Create(cfg, env, w) == R.Go(after, ())
    ensures after.cr == at.cr.(status := StatusOf(cfg, env, at.cr, Returned(env, at, GetReleaseName(at.cr))),
                               annotations := at.cr.annotations - {"krateo.io/gracefully-paused-time"})
    ensures after.api == Granted(cfg, env, at, GetReleaseName(at.cr))
    ensures if Stalled(at, GetReleaseName(at.cr)) then after.releases == at.releases else Deployed(env, after, GetReleaseName(at.cr))
  {
    CreateStart(cfg, env, w, at);
    var deployed: R.World;
    deployed, after := DeployThenConclude(cfg, env, at, GetReleaseName(at.cr));
  }

  lemma CalmDefines(cfg: R.Config, env: R.Env, w: R.World, at: R.World)
    requires Calm(cfg, env, w) && at == w.(cr := NamedCR(cfg, env, w.cr))
    ensures Defined(env, at.cr) && Grantable(cfg, env, at, GetReleaseName(at.cr))
    ensures Publishable(cfg, Some(env.manifest), at.cr.namespace)
  {
    NameKeepsAnswer(env.definitions, w.cr.labels, w.cr.kind, CalculateReleaseName(w.cr, cfg.safeReleaseName, env.draw).value);
    assert R.PolicyInput(cfg, at, GetReleaseName(at.cr), env.inspected.value)
        == R.PolicyInput(cfg, w, GetReleaseName(at.cr), env.inspected.value);
  }

  lemma StatusDescribes(cfg: R.Config, env: R.Env, before: Composition, cr: Composition, manifest: Option<seq<Hasher.byte>>)
    requires Defined(env, cr) && Publishable(cfg, manifest, cr.namespace) && cr == before.(labels := cr.labels)
    ensures Describes(cfg, before, StatusOf(cfg, env, cr, manifest), manifest)
  {
    if manifest.Some? { FastEqualsSlow(manifest.value, cfg.grammar); }
  }

  lemma SameStall(env: R.Env, a: R.World, b: R.World, name: string)
    requires a.releases == b.releases
    ensures Stalled(a, name) == Stalled(b, name) && Returned(env, a, name) == Returned(env, b, name)
  {
  }

  /** A create without faults, over a release or not, deploys the chart and describes it, unless Helm has an
      operation pending; there its success describes the leftover of the refusal. */
  lemma CreateDeploys(cfg: R.Config, env: R.Env, w: R.World, name: string) returns (after: R.World)
    requires Calm(cfg, env, w) && !R.Paused(cfg, w.cr) && name == GetReleaseName(NamedCR(cfg, env, w.cr))
    requires Stalled(w, name) ==> Publishable(cfg, env.leftover, w.cr.namespace)
    ensures R.Create(cfg, env, w) == R.Go(after, ())
    ensures Describes(cfg, w.cr, after.cr.status, Returned(env, w, name))
    ensures if Stalled(w, name) then after.releases == w.releases else Deployed(env, after, name)
  {
    var at := w.(cr := NamedCR(cfg, env, w.cr));
    CalmDefines(cfg, env, w, at);
    SameStall(env, at, w, name);
    CreateStart(cfg, env, w, at);
    var deployed: R.World;
    deployed, after := DeployThenConclude(cfg, env, at, name);
    StatusDescribes(cfg, env, w.cr, at.cr, Returned(env, at, name));
  }

  lemma DeployNeeds(cfg: R.Config, env: R.Env, at: R.World, name: string)
    requires at.api.faults == [] && R.ValidEnv(env)
    ensures R.Deploy(cfg, env, at, name).Go? <==> Grantable(cfg, env, at, name)
  {
    assert R.Local(at) == R.Go(at, ());
    if env.inspected.Some? {
      ApplySucceedsIff(R.PolicyInput(cfg, at, name, env.inspected.value), at.api, env.order);
    }
    if Grantable(cfg, env, at, name) {
      var after := DeployAnywhere(cfg, env, at, name);
    }
  }

  lemma ConcludeNeeds(cfg: R.Config, env: R.Env, w: R.World, manifest: Option<seq<Hasher.byte>>)
    requires w.api.faults == [] && Defined(env, w.cr)
    ensures R.Conclude(cfg, w, w.cr, InfoFor(env, w.cr), manifest).Go? <==> Publishable(cfg, manifest, w.cr.namespace)
  {
  }

  lemma CreateSucceedsIff(cfg: R.Config, env: R.Env, w: R.World, at: R.World)
    requires w.api.faults == [] && R.ValidEnv(env) && !R.Paused(cfg, w.cr)
    requires CalculateReleaseName(w.cr, cfg.safeReleaseName, env.draw).Some? && at == w.(cr := NamedCR(cfg, env, w.cr))
    ensures R.Create(cfg, env, w).Go? <==>
            && Defined(env, at.cr) && Grantable(cfg, env, at, GetReleaseName(at.cr))
            && Publishable(cfg, Returned(env, at, GetReleaseName(at.cr)), at.cr.namespace)
  {
    CreateStart(cfg, env, w, at);
    if Defined(env, at.cr) {
      DeployNeeds(cfg, env, at, GetReleaseName(at.cr));
      if Grantable(cfg, env, at, GetReleaseName(at.cr)) {
        var deployed := DeployAnywhere(cfg, env, at, GetReleaseName(at.cr));
        ConcludeNeeds(cfg, env, deployed, Returned(env, at, GetReleaseName(at.cr)));
      }
    }
  }

  // ------------------------------------------------------------ Observe

  /** The composition as Observe stores it: named, with the definition recorded and without the time of a
      pause that is over. */
  ghost function Recorded(env: R.Env, mg: Composition): Composition
    requires Defined(env, mg)
  {
    LocatedCR(mg, InfoFor(env, mg))
  }

  lemma LocateNeeds(env: R.Env, w: R.World, mg: Composition)
    requires w.api.faults == [] && mg == w.cr.(labels := mg.labels) && !Defined(env, mg)
    ensures R.Locate(env, w, mg) == R.Halt(w.(cr := mg.(annotations := mg.annotations - {PAUSED_TIME})))
  {
  }

  lemma ObserveStarts(cfg: R.Config, env: R.Env, w: R.World, mg: Composition)
    requires w.api.faults == [] && !R.Paused(cfg, w.cr) && CalculateReleaseName(w.cr, cfg.safeReleaseName, env.draw).Some?
    requires mg == NamedCR(cfg, env, w.cr)
    ensures !Defined(env, mg) ==> R.Observe(cfg, env, w) == R.Halt(w.(cr := mg.(annotations := mg.annotations - {PAUSED_TIME})))
    ensures Defined(env, mg) ==>
              var at, name := w.(cr := Recorded(env, mg)), GetReleaseName(mg);
              R.Observe(cfg, env, w) ==
              if R.History(w, name) == [] then R.Go(at, R.Observation(false, false))
              else
                var refreshed := R.Refresh(cfg, env, at, name, LastOf(w, name));
                if refreshed.Halt? then R.Halt(refreshed.w)
                else R.Judge(cfg, refreshed.w, at.cr, InfoFor(env, mg), refreshed.v.0, refreshed.v.1)
  {
    assert R.Local(w) == R.Go(w, ()) && R.Named(cfg, env, w, w.cr) == R.Go(w, mg);
    if Defined(env, mg) {
      LocateCalm(env, w, mg);
      ObserveContinues(cfg, env, w, mg);
    } else {
      LocateNeeds(env, w, mg);
    }
  }

  lemma RefreshNeeds(cfg: R.Config, env: R.Env, w: R.World, name: string)
    requires w.api.faults == [] && R.ValidEnv(env) && R.History(w, name) != []
    ensures R.Refresh(cfg, env, w, name, LastOf(w, name)).Go? <==> Grantable(cfg, env, w, name)
  {
    var restored := RestoreCalm(cfg, env, w, name);
    assert R.Local(restored) == R.Go(restored, ());
    if env.inspected.Some? {
      ApplySucceedsIff(R.PolicyInput(cfg, w, name, env.inspected.value), w.api, env.order);
    }
    if Grantable(cfg, env, w, name) {
      var after := RefreshCalm(cfg, env, w, name);
    }
  }

  /** An observation of a release: the policy is applied, the rendered chart deployed, and the verdict is
      whether it differs from what was recorded or found. */
  lemma ObserveSucceeds(cfg: R.Config, env: R.Env, w: R.World, mg: Composition, name: string) returns (after: R.World)
    requires w.api.faults == [] && !R.Paused(cfg, w.cr) && CalculateReleaseName(w.cr, cfg.safeReleaseName, env.draw).Some?
    requires mg == NamedCR(cfg, env, w.cr) && name == GetReleaseName(mg) && Defined(env, mg)
    requires R.History(w, name) != [] && Grantable(cfg, env, w, name)
    ensures var settled := !Differs(env, w.cr.status, Restored(env, R.History(w, name)));
            && R.Observe(cfg, env, w) == R.Go(after, R.Observation(true, settled))
            && after.cr == Recorded(env, mg).(status := if settled then JudgedStatus(w.cr.status, InfoFor(env, mg), Digest(env.manifest))
                                                        else w.cr.status)
    ensures after.api == Granted(cfg, env, w, name) && Deployed(env, after, name)
    ensures !env.skipsUnchanged ==> LastOf(after, name).inspected == env.inspected.value
  {
    ObserveStarts(cfg, env, w, mg);
    var refreshed := RefreshOf(cfg, env, w, Recorded(env, mg), name);
    JudgeCalm(cfg, env, refreshed, InfoFor(env, mg), Restored(env, R.History(w, name)), LastOf(refreshed, name));
    after := R.Observe(cfg, env, w).w;
    SameReleases(env, refreshed, after, name);
  }

  lemma ObserveSucceedsIff(cfg: R.Config, env: R.Env, w: R.World, mg: Composition)
    requires w.api.faults == [] && R.ValidEnv(env) && !R.Paused(cfg, w.cr)
    requires CalculateReleaseName(w.cr, cfg.safeReleaseName, env.draw).Some? && mg == NamedCR(cfg, env, w.cr)
    ensures R.Observe(cfg, env, w).Go? <==>
            Defined(env, mg) && (R.History(w, GetReleaseName(mg)) == [] || Grantable(cfg, env, w, GetReleaseName(mg)))
  {
    ObserveStarts(cfg, env, w, mg);
    if Defined(env, mg) && R.History(w, GetReleaseName(mg)) != [] {
      RefreshNeeds(cfg, env, w.(cr := Recorded(env, mg)), GetReleaseName(mg));
      if Grantable(cfg, env, w, GetReleaseName(mg)) {
        var after := ObserveSucceeds(cfg, env, w, mg, GetReleaseName(mg));
      }
    }
  }

  /** Without a release name, for a UID too short to make one of, nothing is done at all, whatever the faults. */
  lemma NoNameNoProgress(cfg: R.Config, env: R.Env, w: R.World)
    requires !R.Paused(cfg, w.cr) && CalculateReleaseName(w.cr, cfg.safeReleaseName, env.draw).None?
    ensures R.Observe(cfg, env, w).Halt? && SameStored(R.Observe(cfg, env, w).w, w)
    ensures R.Create(cfg, env, w).Halt? && SameStored(R.Create(cfg, env, w).w, w)
  {
    var s1 := R.Local(w);
    if s1.Go? {
      assert R.Named(cfg, env, s1.w, s1.w.cr) == R.Halt(s1.w);
    }
  }
}
