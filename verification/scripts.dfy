/** What faults can do to a handler: cut it short, at any call, but never change what its success means. */
module Scripts {
  import opened Wrappers
  import opened Kube
  import opened Installer
  import opened Landing
  import Hasher
  import RbacGen
  import opened Meta
  import opened Managed
  import opened Resolver
  import opened Lifecycle
  import R = Reconcile

  /** The same world with nothing going wrong in it. */
  function Calmed(w: R.World): R.World { w.(api := Api(w.api.store, [])) }

  /** If one step succeeds, so does the other, and it leaves the same. */
  ghost predicate AsCalm<T(!new)>(step: R.Step<T>, calm: R.Step<T>) {
    step.Go? ==> calm == R.Go(Calmed(step.w), step.v)
  }

  lemma ApplySame(a: Api, objects: seq<Object>)
    ensures ApplyAll(a, objects).1 ==> ApplyAll(Api(a.store, []), objects) == (Api(ApplyAll(a, objects).0.store, []), true)
  {
    var n := ApplyAllLands(a, objects);
    if ApplyAll(a, objects).1 {
      assert objects[..n] == objects;
      ApplyAllSucceeds(Api(a.store, []), objects);
    }
  }

  lemma DeleteAllSame(a: Api, keys: seq<Key>)
    ensures DeleteAll(a, keys).1 ==> DeleteAll(Api(a.store, []), keys) == (Api(DeleteAll(a, keys).0.store, []), true)
  {
    var n := DeleteAllRemoves(a, keys);
    if DeleteAll(a, keys).1 {
      assert keys[..n] == keys;
      DeleteAllSucceeds(Api(a.store, []), keys);
    }
  }

  lemma EnsureRBACSame(cfg: R.Config, env: R.Env, w: R.World, name: string)
    ensures AsCalm(R.EnsureRBAC(cfg, env, w, name), R.EnsureRBAC(cfg, env, Calmed(w), name))
  {
    if env.inspected.Some? {
      ApplySame(w.api, R.PolicyInput(cfg, w, name, env.inspected.value).Writes(env.order));
    }
  }

  lemma RemoveRBACSame(cfg: R.Config, env: R.Env, w: R.World, name: string)
    ensures AsCalm(R.RemoveRBAC(cfg, env, w, name), R.RemoveRBAC(cfg, env, Calmed(w), name))
  {
    if env.inspected.Some? {
      DeleteAllSame(w.api, R.PolicyInput(cfg, w, name, env.inspected.value).Deletes(env.order));
    }
  }

  // ------------------------------------------------------------ Observe

  lemma LocateSame(env: R.Env, w: R.World, mg: Composition)
    ensures AsCalm(R.Locate(env, w, mg), R.Locate(env, Calmed(w), mg))
  {
  }

  lemma HelmSame(cfg: R.Config, env: R.Env, w: R.World, name: string, inspected: seq<RbacGen.Resource>)
    ensures AsCalm(R.HelmInstall(cfg, env, w, name, inspected), R.HelmInstall(cfg, env, Calmed(w), name, inspected))
    ensures AsCalm(R.HelmUpgrade(cfg, env, w, name, inspected), R.HelmUpgrade(cfg, env, Calmed(w), name, inspected))
    ensures AsCalm(R.HelmRollback(cfg, env, w, name), R.HelmRollback(cfg, env, Calmed(w), name))
  {
  }

  function Restoring(cfg: R.Config, env: R.Env, w: R.World, name: string, release: R.Revision): R.Step<R.Revision> {
    if release.pending then R.HelmRollback(cfg, env, w, name) else R.Go(w, release)
  }

  /** A refresh that succeeds, call by call. */
  lemma RefreshStages(cfg: R.Config, env: R.Env, w: R.World, name: string, release: R.Revision)
    returns (restored: R.World, granted: R.World)
    requires R.Refresh(cfg, env, w, name, release).Go?
    ensures Restoring(cfg, env, w, name, release).Go? && restored == Restoring(cfg, env, w, name, release).w
    ensures R.EnsureRBAC(cfg, env, R.Used(restored), name).Go? && granted == R.EnsureRBAC(cfg, env, R.Used(restored), name).w
    ensures env.inspected.Some? && R.HelmUpgrade(cfg, env, R.Used(granted), name, env.inspected.value).Go?
    ensures var upgraded := R.HelmUpgrade(cfg, env, R.Used(granted), name, env.inspected.value);
            R.Refresh(cfg, env, w, name, release) == R.Go(upgraded.w, (Restoring(cfg, env, w, name, release).v, upgraded.v))
  {
    restored := Restoring(cfg, env, w, name, release).w;
    granted := R.EnsureRBAC(cfg, env, R.Used(restored), name).w;
  }

  lemma RefreshFollows(cfg: R.Config, env: R.Env, w: R.World, name: string, release: R.Revision, restored: R.World,
                       found: R.Revision, granted: R.World, inspected: seq<RbacGen.Resource>)
    requires Restoring(cfg, env, w, name, release) == R.Go(restored, found) && restored.api.faults == []
    requires R.EnsureRBAC(cfg, env, restored, name) == R.Go(granted, inspected) && granted.api.faults == []
    requires R.HelmUpgrade(cfg, env, granted, name, inspected).Go?
    ensures var upgraded := R.HelmUpgrade(cfg, env, granted, name, inspected);
            R.Refresh(cfg, env, w, name, release) == R.Go(upgraded.w, (found, upgraded.v))
  {
    assert R.Local(restored) == R.Go(restored, ()) && R.Local(granted) == R.Go(granted, ());
  }

  lemma RefreshSame(cfg: R.Config, env: R.Env, w: R.World, name: string, release: R.Revision)
    ensures AsCalm(R.Refresh(cfg, env, w, name, release), R.Refresh(cfg, env, Calmed(w), name, release))
  {
    if R.Refresh(cfg, env, w, name, release).Go? {
      var restored, granted := RefreshStages(cfg, env, w, name, release);
      HelmSame(cfg, env, w, name, []);
      EnsureRBACSame(cfg, env, R.Used(restored), name);
      HelmSame(cfg, env, R.Used(granted), name, env.inspected.value);
      RefreshFollows(cfg, env, Calmed(w), name, release, Calmed(restored), Restoring(cfg, env, w, name, release).v,
                     Calmed(granted), env.inspected.value);
    }
  }

  lemma JudgeSame(cfg: R.Config, w: R.World, mg: Composition, info: Info, release: R.Revision, upgraded: R.Revision)
    ensures AsCalm(R.Judge(cfg, w, mg, info, release, upgraded), R.Judge(cfg, Calmed(w), mg, info, release, upgraded))
  {
  }

  /** An observation that succeeds, whatever it met, has seen and done what it would have without faults. */
  lemma ObserveSame(cfg: R.Config, env: R.Env, w: R.World)
    ensures AsCalm(R.Observe(cfg, env, w), R.Observe(cfg, env, Calmed(w)))
  {
    if R.Observe(cfg, env, w).Go? && !R.Paused(cfg, w.cr) {
      ObserveStages(cfg, env, w);
      var s1 := R.Used(w);
      assert R.Local(Calmed(w)) == R.Go(Calmed(s1), ());
      var mg := R.Named(cfg, env, s1, w.cr).v;
      LocateSame(env, s1, mg);
      var located := R.Locate(env, s1, mg);
      if located.v.release.Some? {
        RefreshSame(cfg, env, located.w, located.v.name, located.v.release.value);
        var refreshed := R.Refresh(cfg, env, located.w, located.v.name, located.v.release.value);
        JudgeSame(cfg, refreshed.w, located.v.mg, located.v.info, refreshed.v.0, refreshed.v.1);
      }
    }
  }

  // ------------------------------------------------------------ Create

  lemma DeploySame(cfg: R.Config, env: R.Env, w: R.World, name: string)
    requires R.History(w, name) == []
    ensures AsCalm(R.Deploy(cfg, env, w, name), R.Deploy(cfg, env, Calmed(w), name))
  {
    if R.Deploy(cfg, env, w, name).Go? {
      var s1 := R.Used(w);
      EnsureRBACSame(cfg, env, s1, name);
      var s2 := R.EnsureRBAC(cfg, env, s1, name);
      HelmSame(cfg, env, R.Used(R.Used(s2.w)), name, s2.v);
    }
  }

  lemma ConcludeSame(cfg: R.Config, w: R.World, mg: Composition, info: Info, manifest: Option<seq<Hasher.byte>>)
    ensures AsCalm(R.Conclude(cfg, w, mg, info, manifest), R.Conclude(cfg, Calmed(w), mg, info, manifest))
  {
  }

  lemma CreateFollows(cfg: R.Config, env: R.Env, w: R.World, at: R.World, info: Info, deployed: R.World,
                      manifest: Option<seq<Hasher.byte>>)
    requires w.api.faults == [] && !R.Paused(cfg, w.cr) && R.Named(cfg, env, w, w.cr) == R.Go(w, at.cr)
    requires at.cr == w.cr.(labels := at.cr.labels) && at.api == w.api && at.releases == w.releases && at.helmLog == w.helmLog
    requires Fetch(env.definitions, Wanted(at.cr.labels, at.cr.kind)) == Some(info)
    requires R.Deploy(cfg, env, at, GetReleaseName(at.cr)) == R.Go(deployed, manifest)
    ensures R.Create(cfg, env, w) == R.Conclude(cfg, deployed, at.cr, info, manifest)
  {
    assert R.Local(w) == R.Go(w, ());
    assert R.UpdateCR(w, at.cr) == R.Go(at, at.cr);
  }

  /** The same of a first create. */
  lemma CreateSame(cfg: R.Config, env: R.Env, w: R.World)
    requires R.Named(cfg, env, w, w.cr).Go? ==> R.History(w, GetReleaseName(R.Named(cfg, env, w, w.cr).v)) == []
    ensures AsCalm(R.Create(cfg, env, w), R.Create(cfg, env, Calmed(w)))
  {
    if R.Paused(cfg, w.cr) {
      assert R.Local(Calmed(w)) == R.Go(Calmed(w), ());
    } else if R.Create(cfg, env, w).Go? {
      var mg, at, info := CreateEnds(cfg, env, w);
      DeploySame(cfg, env, at, GetReleaseName(mg));
      var deployed := R.Deploy(cfg, env, at, GetReleaseName(mg));
      CreateFollows(cfg, env, Calmed(w), Calmed(at), info, Calmed(deployed.w), deployed.v);
      ConcludeSame(cfg, deployed.w, mg, info, deployed.v);
    }
  }

  // ------------------------------------------------------------ Update

  lemma PublishSame(cfg: R.Config, env: R.Env, w: R.World, mg: Composition, info: Info, release: R.Revision)
    ensures AsCalm(R.Publish(cfg, env, w, mg, info, release), R.Publish(cfg, env, Calmed(w), mg, info, release))
  {
  }

  /** The same of an update. */
  lemma UpdateSame(cfg: R.Config, env: R.Env, w: R.World)
    ensures AsCalm(R.Update(cfg, env, w), R.Update(cfg, env, Calmed(w)))
  {
    if R.Update(cfg, env, w).Go? && !R.Paused(cfg, w.cr) {
      UpdateFinds(cfg, env, w);
      UpdateEnds(cfg, env, w);
      PublishSame(cfg, env, R.Used(R.Used(R.Used(w))), w.cr, Fetch(env.definitions, Wanted(w.cr.labels, w.cr.kind)).value,
                  LastOf(w, GetReleaseName(w.cr)));
    }
  }

  // ------------------------------------------------------------ Delete

  lemma CleanUpSame(cfg: R.Config, env: R.Env, w: R.World, mg: Composition, name: string)
    ensures AsCalm(R.CleanUp(cfg, env, w, mg, name), R.CleanUp(cfg, env, Calmed(w), mg, name))
  {
    RemoveRBACSame(cfg, env, R.Used(w), name);
  }

  /** The uninstall is looked at again: an acknowledgement without effect does not pass. */
  lemma TeardownSame(cfg: R.Config, env: R.Env, w: R.World, mg: Composition, name: string)
    requires R.History(w, name) != []
    ensures AsCalm(R.Teardown(cfg, env, w, mg, name), R.Teardown(cfg, env, Calmed(w), mg, name))
  {
    if R.Teardown(cfg, env, w, mg, name).Go? {
      CleanUpSame(cfg, env, R.Used(R.HelmUninstall(w, name).w), mg, name);
    }
  }

  /** The same of a delete. */
  lemma DeleteSame(cfg: R.Config, env: R.Env, w: R.World)
    ensures AsCalm(R.Delete(cfg, env, w), R.Delete(cfg, env, Calmed(w)))
  {
    if R.Delete(cfg, env, w).Go? && !R.Paused(cfg, w.cr) && R.History(w, GetReleaseName(w.cr)) != [] {
      TeardownSame(cfg, env, R.Used(R.Used(R.Used(w))), w.cr, GetReleaseName(w.cr));
    }
  }

  // ------------------------------------------------------------ success means that nothing went wrong

  /** How many faults are still to come. */
  function Troubles(faults: seq<Fault>): nat {
    if faults == [] then 0 else (if faults[0] == Fine then 0 else 1) + Troubles(faults[1..])
  }

  /** If the step succeeds, it has met none of them. */
  ghost predicate Untroubled<T(!new)>(w: R.World, step: R.Step<T>) {
    step.Go? ==> Troubles(step.w.api.faults) == Troubles(w.api.faults)
  }

  lemma CallUntroubled(faults: seq<Fault>)
    requires Head(faults) == Fine
    ensures Troubles(Tail(faults)) == Troubles(faults)
  {
  }

  lemma ApplyUntroubled(a: Api, o: Object)
    ensures ApplyObject(a, o).1 ==> Troubles(ApplyObject(a, o).0.faults) == Troubles(a.faults)
  {
    if ApplyObject(a, o).1 {
      CallUntroubled(a.faults);
      if ApplyObject(a, o).0.faults != Tail(a.faults) { CallUntroubled(Tail(a.faults)); }
    }
  }

  lemma {:induction false} ApplyAllUntroubled(a: Api, objects: seq<Object>)
    ensures ApplyAll(a, objects).1 ==> Troubles(ApplyAll(a, objects).0.faults) == Troubles(a.faults)
  {
    if objects == [] {
    } else {
      ApplyAllUntroubled(a, objects[..|objects| - 1]);
      ApplyUntroubled(ApplyAll(a, objects[..|objects| - 1]).0, objects[|objects| - 1]);
    }
  }

  lemma {:induction false} DeleteAllUntroubled(a: Api, keys: seq<Key>)
    ensures DeleteAll(a, keys).1 ==> Troubles(DeleteAll(a, keys).0.faults) == Troubles(a.faults)
  {
    if keys == [] {
    } else {
      DeleteAllUntroubled(a, keys[..|keys| - 1]);
      if DeleteAll(a, keys).1 { CallUntroubled(DeleteAll(a, keys[..|keys| - 1]).0.faults); }
    }
  }

  lemma EnsureRBACUntroubled(cfg: R.Config, env: R.Env, w: R.World, name: string)
    ensures Untroubled(w, R.EnsureRBAC(cfg, env, w, name))
  {
    if env.inspected.Some? {
      ApplyAllUntroubled(w.api, R.PolicyInput(cfg, w, name, env.inspected.value).Writes(env.order));
    }
  }

  lemma UpdateCRUntroubled(w: R.World, mg: Composition)
    ensures Untroubled(w, R.UpdateCR(w, mg)) && Untroubled(w, R.UpdateStatusCR(w, mg))
  {
    if R.Next(w) == Fine { CallUntroubled(w.api.faults); }
  }

  lemma LocateUntroubled(env: R.Env, w: R.World, mg: Composition)
    ensures Untroubled(w, R.Locate(env, w, mg))
  {
    if R.Locate(env, w, mg).Go? {
      var f := w.api.faults;
      CallUntroubled(f);
      CallUntroubled(Tail(f));
      CallUntroubled(Tail(Tail(f)));
      CallUntroubled(Tail(Tail(Tail(f))));
    }
  }

  lemma HelmUntroubled(cfg: R.Config, env: R.Env, w: R.World, name: string, inspected: seq<RbacGen.Resource>)
    ensures Untroubled(w, R.HelmInstall(cfg, env, w, name, inspected)) && Untroubled(w, R.HelmUpgrade(cfg, env, w, name, inspected))
    ensures Untroubled(w, R.HelmRollback(cfg, env, w, name))
  {
    if R.Next(w) == Fine { CallUntroubled(w.api.faults); }
  }

  lemma RefreshUntroubled(cfg: R.Config, env: R.Env, w: R.World, name: string, release: R.Revision)
    ensures Untroubled(w, R.Refresh(cfg, env, w, name, release))
  {
    if R.Refresh(cfg, env, w, name, release).Go? {
      var restored, granted := RefreshStages(cfg, env, w, name, release);
      HelmUntroubled(cfg, env, w, name, []);
      CallUntroubled(restored.api.faults);
      EnsureRBACUntroubled(cfg, env, R.Used(restored), name);
      CallUntroubled(granted.api.faults);
      HelmUntroubled(cfg, env, R.Used(granted), name, env.inspected.value);
    }
  }

  lemma JudgeUntroubled(cfg: R.Config, w: R.World, mg: Composition, info: Info, release: R.Revision, upgraded: R.Revision)
    ensures Untroubled(w, R.Judge(cfg, w, mg, info, release, upgraded))
  {
    if R.Judge(cfg, w, mg, info, release, upgraded).Go? && R.Next(w) == Fine { CallUntroubled(w.api.faults); }
  }

  /** An observation that succeeds has had every call of its own answered. */
  lemma ObserveUntroubled(cfg: R.Config, env: R.Env, w: R.World)
    ensures Untroubled(w, R.Observe(cfg, env, w))
  {
    if R.Observe(cfg, env, w).Go? {
      CallUntroubled(w.api.faults);
      if !R.Paused(cfg, w.cr) {
        ObserveStages(cfg, env, w);
        var mg := R.Named(cfg, env, R.Used(w), w.cr).v;
        LocateUntroubled(env, R.Used(w), mg);
        var located := R.Locate(env, R.Used(w), mg);
        if located.v.release.Some? {
          RefreshUntroubled(cfg, env, located.w, located.v.name, located.v.release.value);
          var refreshed := R.Refresh(cfg, env, located.w, located.v.name, located.v.release.value);
          JudgeUntroubled(cfg, refreshed.w, located.v.mg, located.v.info, refreshed.v.0, refreshed.v.1);
        }
      }
    }
  }

  lemma DeployUntroubled(cfg: R.Config, env: R.Env, w: R.World, name: string)
    requires R.History(w, name) == []
    ensures Untroubled(w, R.Deploy(cfg, env, w, name))
  {
    if R.Deploy(cfg, env, w, name).Go? {
      CallUntroubled(w.api.faults);
      EnsureRBACUntroubled(cfg, env, R.Used(w), name);
      var granted := R.EnsureRBAC(cfg, env, R.Used(w), name).w;
      CallUntroubled(granted.api.faults);
      CallUntroubled(Tail(granted.api.faults));
      HelmUntroubled(cfg, env, R.Used(R.Used(granted)), name, env.inspected.value);
    }
  }

  lemma ConcludeUntroubled(cfg: R.Config, w: R.World, mg: Composition, info: Info, manifest: Option<seq<Hasher.byte>>)
    ensures Untroubled(w, R.Conclude(cfg, w, mg, info, manifest))
  {
    if R.Conclude(cfg, w, mg, info, manifest).Go? {
      CallUntroubled(w.api.faults);
      CallUntroubled(Tail(w.api.faults));
    }
  }

  lemma CreateUntroubled(cfg: R.Config, env: R.Env, w: R.World)
    requires R.Named(cfg, env, w, w.cr).Go? ==> R.History(w, GetReleaseName(R.Named(cfg, env, w, w.cr).v)) == []
    ensures Untroubled(w, R.Create(cfg, env, w))
  {
    if R.Create(cfg, env, w).Go? {
      CallUntroubled(w.api.faults);
      if !R.Paused(cfg, w.cr) {
        var mg, at, info := CreateEnds(cfg, env, w);
        CallUntroubled(Tail(w.api.faults));
        DeployUntroubled(cfg, env, at, GetReleaseName(mg));
        var deployed := R.Deploy(cfg, env, at, GetReleaseName(mg));
        ConcludeUntroubled(cfg, deployed.w, mg, info, deployed.v);
      }
    }
  }

  lemma PublishUntroubled(cfg: R.Config, env: R.Env, w: R.World, mg: Composition, info: Info, release: R.Revision)
    ensures Untroubled(w, R.Publish(cfg, env, w, mg, info, release))
  {
    if R.Publish(cfg, env, w, mg, info, release).Go? {
      CallUntroubled(w.api.faults);
      CallUntroubled(Tail(w.api.faults));
    }
  }

  lemma UpdateUntroubled(cfg: R.Config, env: R.Env, w: R.World)
    ensures Untroubled(w, R.Update(cfg, env, w))
  {
    if R.Update(cfg, env, w).Go? {
      CallUntroubled(w.api.faults);
      if !R.Paused(cfg, w.cr) {
        UpdateFinds(cfg, env, w);
        UpdateEnds(cfg, env, w);
        CallUntroubled(Tail(w.api.faults));
        CallUntroubled(Tail(Tail(w.api.faults)));
        PublishUntroubled(cfg, env, R.Used(R.Used(R.Used(w))), w.cr, Fetch(env.definitions, Wanted(w.cr.labels, w.cr.kind)).value,
                          LastOf(w, GetReleaseName(w.cr)));
      }
    }
  }

  lemma CleanUpUntroubled(cfg: R.Config, env: R.Env, w: R.World, mg: Composition, name: string)
    ensures Untroubled(w, R.CleanUp(cfg, env, w, mg, name))
  {
    if R.CleanUp(cfg, env, w, mg, name).Go? {
      CallUntroubled(w.api.faults);
      DeleteAllUntroubled(R.Used(w).api, R.PolicyInput(cfg, w, name, env.inspected.value).Deletes(env.order));
      CallUntroubled(R.RemoveRBAC(cfg, env, R.Used(w), name).w.api.faults);
    }
  }

  lemma TeardownUntroubled(cfg: R.Config, env: R.Env, w: R.World, mg: Composition, name: string)
    requires R.History(w, name) != []
    ensures Untroubled(w, R.Teardown(cfg, env, w, mg, name))
  {
    if R.Teardown(cfg, env, w, mg, name).Go? {
      CallUntroubled(w.api.faults);
      CallUntroubled(Tail(w.api.faults));
      CleanUpUntroubled(cfg, env, R.Used(R.HelmUninstall(w, name).w), mg, name);
    }
  }

  lemma DeleteUntroubled(cfg: R.Config, env: R.Env, w: R.World)
    ensures Untroubled(w, R.Delete(cfg, env, w))
  {
    if R.Delete(cfg, env, w).Go? {
      CallUntroubled(w.api.faults);
      if !R.Paused(cfg, w.cr) {
        CallUntroubled(Tail(w.api.faults));
        CallUntroubled(Tail(Tail(w.api.faults)));
        if R.History(w, GetReleaseName(w.cr)) != [] {
          TeardownUntroubled(cfg, env, R.Used(R.Used(R.Used(w))), w.cr, GetReleaseName(w.cr));
        }
      }
    }
  }

  /** Success means that nothing went wrong: every call that the handler made was answered. A create over a
      release is the exception: it does not look at the error of its upgrade. */
  lemma SuccessIsUntroubled(cfg: R.Config, env: R.Env, w: R.World)
    ensures Untroubled(w, R.Observe(cfg, env, w)) && Untroubled(w, R.Update(cfg, env, w)) && Untroubled(w, R.Delete(cfg, env, w))
    ensures R.Named(cfg, env, w, w.cr).Go? && R.History(w, GetReleaseName(R.Named(cfg, env, w, w.cr).v)) == [] ==>
              Untroubled(w, R.Create(cfg, env, w))
  {
    ObserveUntroubled(cfg, env, w);
    UpdateUntroubled(cfg, env, w);
    DeleteUntroubled(cfg, env, w);
    if R.Named(cfg, env, w, w.cr).Go? && R.History(w, GetReleaseName(R.Named(cfg, env, w, w.cr).v)) == [] {
      CreateUntroubled(cfg, env, w);
    }
  }

  /** And what it leaves is what it would have left with nothing going wrong around it either. */
  lemma SuccessIsCalm(cfg: R.Config, env: R.Env, w: R.World)
    ensures AsCalm(R.Observe(cfg, env, w), R.Observe(cfg, env, Calmed(w)))
    ensures AsCalm(R.Update(cfg, env, w), R.Update(cfg, env, Calmed(w)))
    ensures AsCalm(R.Delete(cfg, env, w), R.Delete(cfg, env, Calmed(w)))
    ensures R.Named(cfg, env, w, w.cr).Go? && R.History(w, GetReleaseName(R.Named(cfg, env, w, w.cr).v)) == [] ==>
              AsCalm(R.Create(cfg, env, w), R.Create(cfg, env, Calmed(w)))
  {
    ObserveSame(cfg, env, w);
    UpdateSame(cfg, env, w);
    DeleteSame(cfg, env, w);
    if R.Named(cfg, env, w, w.cr).Go? && R.History(w, GetReleaseName(R.Named(cfg, env, w, w.cr).v)) == [] {
      CreateSame(cfg, env, w);
    }
  }

  // ------------------------------------------------------------ what is asked of Helm

  /** The log has grown by the first calls of the plan, or by none. */
  ghost predicate Grown(before: seq<R.HelmCall>, after: seq<R.HelmCall>, plan: seq<R.HelmCall>) {
    exists n: nat :: n <= |plan| && after == before + plan[..n]
  }

  lemma GrownBy(before: seq<R.HelmCall>, after: seq<R.HelmCall>, plan: seq<R.HelmCall>, n: nat)
    requires n <= |plan| && after == before + plan[..n]
    ensures Grown(before, after, plan)
  {
  }

  function RefreshPlan(w: R.World, name: string): seq<R.HelmCall> {
    if R.History(w, name) == [] then []
    else if LastOf(w, name).pending then [R.HelmCall(R.Rollback, name), R.HelmCall(R.Upgrade, name)]
    else [R.HelmCall(R.Upgrade, name)]
  }

  lemma RefreshAsks(cfg: R.Config, env: R.Env, w: R.World, name: string)
    requires R.History(w, name) != []
    ensures Grown(w.helmLog, R.Refresh(cfg, env, w, name, LastOf(w, name)).w.helmLog, RefreshPlan(w, name))
  {
    var plan, log := RefreshPlan(w, name), R.Refresh(cfg, env, w, name, LastOf(w, name)).w.helmLog;
    assert plan[..0] == [] && plan[..|plan|] == plan;
    if LastOf(w, name).pending {
      assert plan[..1] == [R.HelmCall(R.Rollback, name)];
      assert w.helmLog + plan == w.helmLog + plan[..1] + [R.HelmCall(R.Upgrade, name)];
    }
    var n := if log == w.helmLog then 0 else if log == w.helmLog + plan then |plan| else 1;
    GrownBy(w.helmLog, log, plan, n);
  }

  /** The log after an observation that has got this far. */
  function LogAfter(cfg: R.Config, env: R.Env, located: R.Step<R.Located>): seq<R.HelmCall> {
    if located.Halt? || located.v.release.None? then located.w.helmLog
    else R.Refresh(cfg, env, located.w, located.v.name, located.v.release.value).w.helmLog
  }

  lemma LocateAsksNothing(env: R.Env, w: R.World, mg: Composition)
    ensures R.Locate(env, w, mg).w.helmLog == w.helmLog && R.Locate(env, w, mg).w.releases == w.releases
    ensures R.Locate(env, w, mg).Go? ==>
              var found := R.Locate(env, w, mg).v;
              found.name == GetReleaseName(mg)
              && found.release == if R.History(w, found.name) == [] then None else Some(LastOf(w, found.name))
  {
  }

  lemma ObserveHalts(cfg: R.Config, env: R.Env, w: R.World)
    requires R.Paused(cfg, w.cr) || R.Next(w) != Fine || R.Named(cfg, env, w, w.cr).Halt?
    ensures R.Observe(cfg, env, w).w.helmLog == w.helmLog
  {
  }

  lemma ObserveGoesOn(cfg: R.Config, env: R.Env, w: R.World, mg: Composition)
    requires !R.Paused(cfg, w.cr) && R.Next(w) == Fine && R.Named(cfg, env, w, w.cr) == R.Go(w, mg)
    ensures R.Observe(cfg, env, w).w.helmLog == LogAfter(cfg, env, R.Locate(env, R.Used(w), mg))
  {
    assert R.Named(cfg, env, R.Used(w), w.cr) == R.Go(R.Used(w), mg);
  }

  lemma SamePlan(a: R.World, b: R.World, name: string)
    requires a.releases == b.releases
    ensures RefreshPlan(a, name) == RefreshPlan(b, name) && R.History(a, name) == R.History(b, name)
  {
  }

  lemma RefreshAsksFrom(cfg: R.Config, env: R.Env, w: R.World, at: R.World, name: string)
    requires at.releases == w.releases && at.helmLog == w.helmLog && R.History(w, name) != []
    ensures Grown(w.helmLog, R.Refresh(cfg, env, at, name, LastOf(w, name)).w.helmLog, RefreshPlan(w, name))
  {
    SamePlan(at, w, name);
    RefreshAsks(cfg, env, at, name);
  }

  lemma LogGrows(cfg: R.Config, env: R.Env, w: R.World, located: R.Step<R.Located>, name: string)
    requires located.w.releases == w.releases && located.w.helmLog == w.helmLog
    requires located.Go? ==> located.v.name == name && located.v.release == if R.History(w, name) == [] then None else Some(LastOf(w, name))
    ensures Grown(w.helmLog, LogAfter(cfg, env, located), RefreshPlan(w, name))
  {
    GrownNot(w.helmLog, RefreshPlan(w, name));
    if located.Go? && R.History(w, name) != [] {
      RefreshAsksFrom(cfg, env, w, located.w, name);
    }
  }

  lemma LocatedAsks(cfg: R.Config, env: R.Env, w: R.World, mg: Composition)
    ensures Grown(w.helmLog, LogAfter(cfg, env, R.Locate(env, R.Used(w), mg)), RefreshPlan(w, GetReleaseName(mg)))
  {
    LocateAsksNothing(env, R.Used(w), mg);
    LogGrows(cfg, env, w, R.Locate(env, R.Used(w), mg), GetReleaseName(mg));
  }

  lemma GrownNot(log: seq<R.HelmCall>, plan: seq<R.HelmCall>)
    ensures Grown(log, log, plan)
  {
    assert plan[..0] == [];
    GrownBy(log, log, plan, 0);
  }

  /** Wherever it is cut short, an observation asks Helm for a rollback of a release that is stuck, then for
      an upgrade, and for nothing else. */
  lemma ObserveAsks(cfg: R.Config, env: R.Env, w: R.World, mg: Composition)
    requires R.Named(cfg, env, w, w.cr) == R.Go(w, mg)
    ensures Grown(w.helmLog, R.Observe(cfg, env, w).w.helmLog, RefreshPlan(w, GetReleaseName(mg)))
  {
    if R.Paused(cfg, w.cr) || R.Next(w) != Fine {
      GrownNot(w.helmLog, RefreshPlan(w, GetReleaseName(mg)));
      ObserveHalts(cfg, env, w);
    } else {
      ObserveGoesOn(cfg, env, w, mg);
      LocatedAsks(cfg, env, w, mg);
    }
  }

  lemma DeployAsks(cfg: R.Config, env: R.Env, w: R.World, name: string)
    ensures var log := R.Deploy(cfg, env, w, name).w.helmLog;
            log == w.helmLog || log == w.helmLog + [R.HelmCall(if R.History(w, name) == [] then R.Install else R.Upgrade, name)]
  {
  }

  /** A create asks for one installation, or for one upgrade if there is a release. */
  lemma CreateAsks(cfg: R.Config, env: R.Env, w: R.World, mg: Composition)
    requires R.Named(cfg, env, w, w.cr) == R.Go(w, mg)
    ensures var log, name := R.Create(cfg, env, w).w.helmLog, GetReleaseName(mg);
            log == w.helmLog || log == w.helmLog + [R.HelmCall(if R.History(w, name) == [] then R.Install else R.Upgrade, name)]
  {
    var s1 := R.Local(w);
    if s1.Go? && !R.Paused(cfg, w.cr) {
      assert R.Named(cfg, env, s1.w, w.cr) == R.Go(s1.w, mg);
      var s2 := R.UpdateCR(s1.w, mg);
      if s2.Go? {
        DeployAsks(cfg, env, s2.w, GetReleaseName(mg));
      }
    }
  }

  lemma UpdateAsksNothing(cfg: R.Config, env: R.Env, w: R.World)
    ensures R.Update(cfg, env, w).w.helmLog == w.helmLog && R.Update(cfg, env, w).w.releases == w.releases
  {
  }

  lemma TeardownAsks(cfg: R.Config, env: R.Env, w: R.World, mg: Composition, name: string)
    ensures R.Teardown(cfg, env, w, mg, name).w.helmLog == w.helmLog + [R.HelmCall(R.Uninstall, name)]
  {
  }

  lemma DeleteReaches(cfg: R.Config, env: R.Env, w: R.World)
    ensures || R.Delete(cfg, env, w).w.helmLog == w.helmLog
            || (R.History(w, GetReleaseName(w.cr)) != [] &&
                R.Delete(cfg, env, w) == R.Teardown(cfg, env, R.Used(R.Used(R.Used(w))), w.cr, GetReleaseName(w.cr)))
  {
  }

  /** A delete asks for one uninstall, and only of a release that is there. */
  lemma DeleteAsks(cfg: R.Config, env: R.Env, w: R.World)
    ensures var log, name := R.Delete(cfg, env, w).w.helmLog, GetReleaseName(w.cr);
            log == w.helmLog || (R.History(w, name) != [] && log == w.helmLog + [R.HelmCall(R.Uninstall, name)])
  {
    DeleteReaches(cfg, env, w);
    TeardownAsks(cfg, env, R.Used(R.Used(R.Used(w))), w.cr, GetReleaseName(w.cr));
  }
}
