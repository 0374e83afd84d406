/** Runs of the controller: any sequence of handler calls, each cut short by faults anywhere, with users
    editing annotations and other controllers at work in the same cluster in between. */
module Safety {
  import opened Wrappers
  import opened Kube
  import opened Landing
  import RbacGen
  import opened Meaning
  import A = Authorization
  import opened Workers
  import opened Meta
  import R = Reconcile
  import Resolver
  import Hasher

  // ------------------------------------------------------------ runs

  datatype Event =
    | Observing(env: R.Env)
    | Creating(env: R.Env)
    | Updating(env: R.Env)
    | Deleting(env: R.Env)
    | Annotating(annotations: map<string, string>)
    | Relabelling(labels: map<string, string>)
    | Neighbouring(store: Store)

  function Facing(w: R.World, env: R.Env): R.World { w.(api := w.api.(faults := env.faults)) }

  function Happen(cfg: R.Config, w: R.World, e: Event): R.World {
    match e
    case Observing(env) => R.Observe(cfg, env, Facing(w, env)).w
    case Creating(env) => R.Create(cfg, env, Facing(w, env)).w
    case Updating(env) => R.Update(cfg, env, Facing(w, env)).w
    case Deleting(env) => R.Delete(cfg, env, Facing(w, env)).w
    case Annotating(annotations) => w.(cr := w.cr.(annotations := annotations))
    case Relabelling(labels) => w.(cr := w.cr.(labels := labels))
    case Neighbouring(store) => w.(api := w.api.(store := store))
  }

  /** Users may edit all annotations, and all labels but the release name. Other controllers may do
      anything except to the objects of this release. Handler calls may meet any environment. */
  ghost predicate Possible(w: R.World, e: Event) {
    match e
    case Observing(env) => R.ValidEnv(env)
    case Creating(env) => R.ValidEnv(env)
    case Updating(env) => R.ValidEnv(env)
    case Deleting(env) => R.ValidEnv(env)
    case Annotating(_) => true
    case Relabelling(labels) =>
      && (RELEASE_NAME in labels <==> RELEASE_NAME in w.cr.labels)
      && (RELEASE_NAME in labels ==> labels[RELEASE_NAME] == w.cr.labels[RELEASE_NAME])
    case Neighbouring(store) => forall key :: Own(key, GetReleaseName(w.cr)) ==> Agree(store, w.api.store, key)
  }

  function Run(cfg: R.Config, w: R.World, events: seq<Event>): R.World {
    if events == [] then w else Happen(cfg, Run(cfg, w, events[..|events| - 1]), events[|events| - 1])
  }

  ghost predicate PossibleRun(cfg: R.Config, w: R.World, events: seq<Event>) {
    events == [] ||
    (PossibleRun(cfg, w, events[..|events| - 1]) &&
     Possible(Run(cfg, w, events[..|events| - 1]), events[|events| - 1]))
  }

  lemma LastEvent(cfg: R.Config, w: R.World, events: seq<Event>, e: Event)
    ensures Run(cfg, w, events + [e]) == Happen(cfg, Run(cfg, w, events), e)
    ensures PossibleRun(cfg, w, events + [e]) <==> PossibleRun(cfg, w, events) && Possible(Run(cfg, w, events), e)
  {
    assert (events + [e])[..|events|] == events;
  }

  lemma SameNext(cfg: R.Config, w: R.World, events: seq<Event>, at: R.World, others: seq<Event>, e: Event)
    requires Run(cfg, w, events) == Run(cfg, at, others)
    ensures Run(cfg, w, events + [e]) == Run(cfg, at, others + [e])
    ensures PossibleRun(cfg, w, events) && PossibleRun(cfg, at, others + [e]) ==> PossibleRun(cfg, w, events + [e])
  {
    LastEvent(cfg, w, events, e);
    LastEvent(cfg, at, others, e);
  }

  /** A run can be cut anywhere: what follows is a run from where the first part ends. */
  lemma {:induction false} RunContinues(cfg: R.Config, w: R.World, before: seq<Event>, events: seq<Event>)
    ensures Run(cfg, w, before + events) == Run(cfg, Run(cfg, w, before), events)
    ensures PossibleRun(cfg, w, before) && PossibleRun(cfg, Run(cfg, w, before), events) ==> PossibleRun(cfg, w, before + events)
  {
    if events == [] {
      assert before + events == before;
    } else {
      var init, e := events[..|events| - 1], events[|events| - 1];
      assert init + [e] == events && before + events == before + init + [e];
      RunContinues(cfg, w, before, init);
      SameNext(cfg, w, before + init, Run(cfg, w, before), init, e);
    }
  }

  // ------------------------------------------------------------ the invariant

  /** The release's own objects give the service account the permission r asks for. */
  ghost predicate OwnGrant(store: Store, base: string, sa: Subject, r: RbacGen.Resource) {
    var binder, holder := Binder(base, r.namespace), Holder(base, r.namespace);
    && binder in store && store[binder].Binding? && store[binder].roleRef == OwnRef(base, r.namespace)
    && sa in store[binder].subjects
    && holder in store && RbacGen.ToRule(r) in RulesOf(store[holder])
  }

  ghost predicate OwnGrants(store: Store, base: string, sa: Subject, resources: seq<RbacGen.Resource>) {
    forall r :: r in resources ==> OwnGrant(store, base, sa, r)
  }

  /** The release name label, once there, is not empty; every release and every Helm operation ever
      made bear that name. */
  ghost predicate NamesAgree(cr: string, labels: map<string, string>, releases: map<string, seq<R.Revision>>,
                             log: seq<R.HelmCall>)
  {
    && cr != ""
    && (RELEASE_NAME in labels ==> labels[RELEASE_NAME] != "")
    && (forall n :: n in releases ==> RELEASE_NAME in labels && n == labels[RELEASE_NAME])
    && (forall call :: call in log ==> RELEASE_NAME in labels && call.release == labels[RELEASE_NAME])
  }

  /** Permission before release: whatever revision is in the history, what the inspector listed when it
      was made is granted. */
  ghost predicate HistoryGranted(sa: Subject, releases: map<string, seq<R.Revision>>, store: Store) {
    forall n, rev :: n in releases && rev in releases[n] ==> OwnGrants(store, n, sa, rev.inspected)
  }

  ghost predicate Inv(cfg: R.Config, w: R.World) {
    && NamesAgree(w.cr.name, w.cr.labels, w.releases, w.helmLog)
    && HistoryGranted(cfg.Sa(), w.releases, w.api.store)
  }

  /** The granted permissions are permissions in the eyes of the cluster. */
  lemma OwnGrantsAuthorize(store: Store, base: string, sa: Subject, resources: seq<RbacGen.Resource>, q: Request)
    requires OwnGrants(store, base, sa, resources) && A.Covered(resources, q)
    ensures Authorized(store, sa, q)
  {
    var r :| r in resources && A.Covers(r, q);
    A.RuleMeaning(r, q);
    assert OwnGrant(store, base, sa, r);
    assert GrantedBy(store, Binder(base, r.namespace), sa, q);
  }

  // ------------------------------------------------------------ applying and the invariant

  lemma LandingKeepsOwnGrant(store: Store, inp: Input, o: Object, base: string, r: RbacGen.Resource)
    requires o.key.kind.NamespaceKind? || exists s :: o == inp.RoleIn(s) || o == inp.BindingIn(s)
    requires OwnGrant(store, base, inp.sa, r)
    ensures OwnGrant(store[o.key := Landed(store, o)], base, inp.sa, r)
  {
    if o.key == Holder(base, r.namespace) {
      MergeKeepsAndAdds(RulesOf(store[o.key]), RulesOf(o.body));
    }
  }

  lemma {:induction false} LandAllKeepsOwnGrant(store: Store, inp: Input, objects: seq<Object>, base: string, r: RbacGen.Resource)
    requires forall o :: o in objects ==> o.key.kind.NamespaceKind? || exists s :: o == inp.RoleIn(s) || o == inp.BindingIn(s)
    requires OwnGrant(store, base, inp.sa, r)
    ensures OwnGrant(LandAll(store, objects), base, inp.sa, r)
  {
    if objects == [] {
    } else {
      var init, o := objects[..|objects| - 1], objects[|objects| - 1];
      assert o in objects;
      LandAllKeepsOwnGrant(store, inp, init, base, r);
      LandingKeepsOwnGrant(LandAll(store, init), inp, o, base, r);
    }
  }

  lemma AppliedOwnGrants(inp: Input, store: Store, order: seq<string>)
    requires inp.Order(order)
    ensures OwnGrants(LandAll(store, inp.Writes(order)), inp.base, inp.sa, inp.resources)
  {
    forall r | r in inp.resources
      ensures OwnGrant(LandAll(store, inp.Writes(order)), inp.base, inp.sa, r)
    {
      A.AppliedAt(inp, store, order, r.namespace);
      RbacGen.RulesInHolds(inp.resources, r.namespace, RbacGen.ToRule(r));
      if Holder(inp.base, r.namespace) in store {
        MergeKeepsAndAdds(RulesOf(store[Holder(inp.base, r.namespace)]), RbacGen.RulesIn(inp.resources, r.namespace));
      }
    }
  }

  /** A complete apply grants what was inspected. */
  lemma EnsureRBACGrants(cfg: R.Config, env: R.Env, w: R.World, name: string)
    requires R.ValidEnv(env)
    ensures var step := R.EnsureRBAC(cfg, env, w, name);
            step.Go? ==> OwnGrants(step.w.api.store, name, ServiceAccount(cfg.saName, cfg.saNamespace), step.v)
  {
    if R.EnsureRBAC(cfg, env, w, name).Go? {
      var inp := R.PolicyInput(cfg, w, name, env.inspected.value);
      var n := ApplyAllLands(w.api, inp.Writes(env.order));
      assert inp.Writes(env.order)[..n] == inp.Writes(env.order);
      AppliedOwnGrants(inp, w.api.store, env.order);
    }
  }

  /** An apply, complete or not, takes nothing from any revision; a complete one grants what was inspected. */
  lemma EnsureRBACKeeps(cfg: R.Config, env: R.Env, w: R.World, name: string)
    requires Inv(cfg, w) && R.ValidEnv(env)
    ensures var step := R.EnsureRBAC(cfg, env, w, name);
            && step.w == w.(api := step.w.api) && Inv(cfg, step.w)
            && (step.Go? ==> OwnGrants(step.w.api.store, name, ServiceAccount(cfg.saName, cfg.saNamespace), step.v))
  {
    var step := R.EnsureRBAC(cfg, env, w, name);
    if env.inspected.Some? {
      var inp := R.PolicyInput(cfg, w, name, env.inspected.value);
      var n := ApplyAllLands(w.api, inp.Writes(env.order));
      var written := inp.Writes(env.order)[..n];
      forall base, r | OwnGrant(w.api.store, base, cfg.Sa(), r)
        ensures OwnGrant(step.w.api.store, base, cfg.Sa(), r)
      {
        forall o | o in written
          ensures o.key.kind.NamespaceKind? || exists s :: o == inp.RoleIn(s) || o == inp.BindingIn(s)
        {
          InWrites(inp, env.order, o);
        }
        LandAllKeepsOwnGrant(w.api.store, inp, written, base, r);
      }
    }
    EnsureRBACGrants(cfg, env, w, name);
  }

  // ------------------------------------------------------------ calls and the invariant

  ghost predicate Labelled(w: R.World, name: string) {
    RELEASE_NAME in w.cr.labels && w.cr.labels[RELEASE_NAME] == name
  }

  /** A write of the composition that keeps the label if there is one. */
  lemma UpdateCRKeeps(cfg: R.Config, w: R.World, mg: Composition)
    requires Inv(cfg, w)
    requires RELEASE_NAME in mg.labels ==> mg.labels[RELEASE_NAME] != ""
    requires RELEASE_NAME in w.cr.labels ==> RELEASE_NAME in mg.labels && mg.labels[RELEASE_NAME] == w.cr.labels[RELEASE_NAME]
    ensures Inv(cfg, R.UpdateCR(w, mg).w)
  {
  }

  lemma DefinitionKeepsName(labels: map<string, string>, info: DefinitionInfo)
    ensures RELEASE_NAME in WithDefinition(labels, info) <==> RELEASE_NAME in labels
    ensures RELEASE_NAME in labels ==> WithDefinition(labels, info)[RELEASE_NAME] == labels[RELEASE_NAME]
  {
  }

  lemma RecordedKeeps(cfg: R.Config, w: R.World, name: string, rev: R.Revision, maxHistory: nat)
    requires Inv(cfg, w) && Labelled(w, name)
    requires OwnGrants(w.api.store, name, cfg.Sa(), rev.inspected)
    ensures Inv(cfg, R.Recorded(w, name, rev, maxHistory))
  {
  }

  lemma LoggedKeeps(cfg: R.Config, w: R.World, verb: R.HelmVerb, name: string)
    requires Inv(cfg, w) && Labelled(w, name)
    ensures Inv(cfg, R.Logged(w, verb, name)) && Labelled(R.Logged(w, verb, name), name)
  {
  }

  lemma MakesKeeps(cfg: R.Config, fault: Fault, w: R.World, name: string, rev: R.Revision)
    requires Inv(cfg, w) && Labelled(w, name)
    requires OwnGrants(w.api.store, name, cfg.Sa(), rev.inspected)
    ensures var step := R.Makes(fault, w, name, rev, cfg.maxHistory);
            Inv(cfg, step.w) && step.w.cr == w.cr && step.w.api == w.api
  {
    RecordedKeeps(cfg, w, name, rev, cfg.maxHistory);
    RecordedKeeps(cfg, w, name, rev.(pending := true), cfg.maxHistory);
  }

  lemma UpgradeKeeps(cfg: R.Config, env: R.Env, w: R.World, name: string, inspected: seq<RbacGen.Resource>)
    requires Inv(cfg, w) && Labelled(w, name) && OwnGrants(w.api.store, name, cfg.Sa(), inspected)
    ensures Inv(cfg, R.HelmUpgrade(cfg, env, w, name, inspected).w)
    ensures R.HelmUpgrade(cfg, env, w, name, inspected).w.cr == w.cr
  {
    LoggedKeeps(cfg, w, R.Upgrade, name);
    MakesKeeps(cfg, R.Next(w), R.Logged(w, R.Upgrade, name), name,
               R.Revision(env.manifest, env.chartVersion, false, inspected));
  }

  lemma InstallKeeps(cfg: R.Config, env: R.Env, w: R.World, name: string, inspected: seq<RbacGen.Resource>)
    requires Inv(cfg, w) && Labelled(w, name) && OwnGrants(w.api.store, name, cfg.Sa(), inspected)
    ensures Inv(cfg, R.HelmInstall(cfg, env, w, name, inspected).w)
    ensures R.HelmInstall(cfg, env, w, name, inspected).w.cr == w.cr
  {
  }

  /** A rollback brings back the content of a revision that was granted already. */
  lemma RollbackKeeps(cfg: R.Config, env: R.Env, w: R.World, name: string)
    requires Inv(cfg, w) && Labelled(w, name)
    ensures Inv(cfg, R.HelmRollback(cfg, env, w, name).w)
    ensures R.HelmRollback(cfg, env, w, name).w.cr == w.cr
  {
    LoggedKeeps(cfg, w, R.Rollback, name);
    var history := R.History(w, name);
    if history != [] {
      var rev := history[env.rollbackTo % |history|];
      assert rev in history;
      MakesKeeps(cfg, R.Next(w), R.Logged(w, R.Rollback, name), name, rev.(pending := false));
    }
  }

  // ------------------------------------------------------------ the handlers and the invariant

  lemma NamedKeeps(cfg: R.Config, env: R.Env, w: R.World, mg: Composition)
    requires Inv(cfg, w) && mg == w.cr
    ensures var step := R.Named(cfg, env, w, mg);
            step.w == w && (step.Go? ==>
              && RELEASE_NAME in step.v.labels && step.v.labels[RELEASE_NAME] != ""
              && step.v == mg.(labels := step.v.labels)
              && (RELEASE_NAME in w.cr.labels ==> step.v.labels == w.cr.labels))
  {
  }

  /** Whatever happens in Locate, the label on the stored composition is untouched or the given one. */
  lemma LocateLabels(env: R.Env, w: R.World, mg: Composition)
    requires RELEASE_NAME in mg.labels
    ensures var labels := R.Locate(env, w, mg).w.cr.labels;
            labels == w.cr.labels || (RELEASE_NAME in labels && labels[RELEASE_NAME] == mg.labels[RELEASE_NAME])
    ensures R.Locate(env, w, mg).w.api.store == w.api.store
  {
    var s1 := R.UpdateCR(w, mg.(annotations := mg.annotations - {PAUSED_TIME}));
    if s1.Go? {
      var s2 := R.FetchInfo(env, s1.w, s1.v);
      if s2.Go? {
        DefinitionKeepsName(s1.v.labels, s2.v.definition);
      }
    }
  }

  lemma LocateKeeps(cfg: R.Config, env: R.Env, w: R.World, mg: Composition)
    requires Inv(cfg, w)
    requires RELEASE_NAME in mg.labels && mg.labels[RELEASE_NAME] != ""
    requires RELEASE_NAME in w.cr.labels ==> mg.labels[RELEASE_NAME] == w.cr.labels[RELEASE_NAME]
    ensures Inv(cfg, R.Locate(env, w, mg).w)
  {
    LocateLabels(env, w, mg);
  }

  /** The name that Locate looks up is the one it has stored. */
  lemma LocateStoresTheName(env: R.Env, w: R.World, mg: Composition)
    requires RELEASE_NAME in mg.labels
    requires R.Locate(env, w, mg).Go?
    ensures var step := R.Locate(env, w, mg); Labelled(step.w, step.v.name) && step.v.name == mg.labels[RELEASE_NAME]
  {
    var first := mg.(annotations := mg.annotations - {PAUSED_TIME});
    var s1 := R.UpdateCR(w, first);
    var s2 := R.FetchInfo(env, s1.w, s1.v);
    DefinitionKeepsName(s1.v.labels, s2.v.definition);
  }

  lemma RefreshKeeps(cfg: R.Config, env: R.Env, w: R.World, name: string, release: R.Revision)
    requires Inv(cfg, w) && Labelled(w, name) && R.ValidEnv(env)
    ensures Inv(cfg, R.Refresh(cfg, env, w, name, release).w)
  {
    RollbackKeeps(cfg, env, w, name);
    var s1 := if release.pending then R.HelmRollback(cfg, env, w, name) else R.Go(w, release);
    if s1.Go? {
      var s2 := R.Local(s1.w);
      if s2.Go? {
        EnsureRBACKeeps(cfg, env, s2.w, name);
        var s3 := R.EnsureRBAC(cfg, env, s2.w, name);
        if s3.Go? {
          var s4 := R.Local(s3.w);
          if s4.Go? {
            UpgradeKeeps(cfg, env, s4.w, name, s3.v);
          }
        }
      }
    }
  }

  lemma JudgeKeeps(cfg: R.Config, w: R.World, mg: Composition, info: Resolver.Info, release: R.Revision, upgraded: R.Revision)
    requires Inv(cfg, w)
    ensures Inv(cfg, R.Judge(cfg, w, mg, info, release, upgraded).w)
  {
  }

  lemma ObserveKeeps(cfg: R.Config, env: R.Env, w: R.World)
    requires Inv(cfg, w) && R.ValidEnv(env)
    ensures Inv(cfg, R.Observe(cfg, env, w).w)
  {
    var s1 := R.Local(w);
    if s1.Go? {
      NamedKeeps(cfg, env, s1.w, s1.w.cr);
      var s2 := R.Named(cfg, env, s1.w, s1.w.cr);
      if s2.Go? && !R.Paused(cfg, s2.v) {
        LocateKeeps(cfg, env, s2.w, s2.v);
        var s3 := R.Locate(env, s2.w, s2.v);
        if s3.Go? && s3.v.release.Some? {
          LocateStoresTheName(env, s2.w, s2.v);
          RefreshKeeps(cfg, env, s3.w, s3.v.name, s3.v.release.value);
          var s4 := R.Refresh(cfg, env, s3.w, s3.v.name, s3.v.release.value);
          if s4.Go? {
            JudgeKeeps(cfg, s4.w, s3.v.mg, s3.v.info, s4.v.0, s4.v.1);
          }
        }
      }
    }
  }

  lemma DeployKeeps(cfg: R.Config, env: R.Env, w: R.World, name: string)
    requires Inv(cfg, w) && Labelled(w, name) && R.ValidEnv(env)
    ensures Inv(cfg, R.Deploy(cfg, env, w, name).w)
    ensures R.Deploy(cfg, env, w, name).w.cr == w.cr
  {
    var s1 := R.Local(w);
    if s1.Go? {
      EnsureRBACKeeps(cfg, env, s1.w, name);
      var s2 := R.EnsureRBAC(cfg, env, s1.w, name);
      if s2.Go? {
        var s3 := R.Local(s2.w);
        if s3.Go? {
          var s4 := R.GetRelease(s3.w, name);
          if s4.Go? {
            UpgradeKeeps(cfg, env, s4.w, name, s2.v);
            InstallKeeps(cfg, env, s4.w, name, s2.v);
          }
        }
      }
    }
  }

  lemma ConcludeKeeps(cfg: R.Config, w: R.World, mg: Composition, info: Resolver.Info, manifest: Option<seq<Hasher.byte>>)
    requires Inv(cfg, w) && mg.labels == w.cr.labels
    ensures Inv(cfg, R.Conclude(cfg, w, mg, info, manifest).w)
  {
  }

  lemma CreateKeeps(cfg: R.Config, env: R.Env, w: R.World)
    requires Inv(cfg, w) && R.ValidEnv(env)
    ensures Inv(cfg, R.Create(cfg, env, w).w)
  {
    var s1 := R.Local(w);
    if s1.Go? && !R.Paused(cfg, w.cr) {
      NamedKeeps(cfg, env, s1.w, w.cr);
      var s2 := R.Named(cfg, env, s1.w, w.cr);
      if s2.Go? {
        UpdateCRKeeps(cfg, s2.w, s2.v);
        var s3 := R.UpdateCR(s2.w, s2.v);
        if s3.Go? {
          var s4 := R.FetchInfo(env, s3.w, s3.v);
          if s4.Go? {
            DeployKeeps(cfg, env, s4.w, GetReleaseName(s2.v));
            var s5 := R.Deploy(cfg, env, s4.w, GetReleaseName(s2.v));
            if s5.Go? {
              ConcludeKeeps(cfg, s5.w, s3.v, s4.v, s5.v);
            }
          }
        }
      }
    }
  }

  lemma StatusKeeps(cfg: R.Config, w: R.World, mg: Composition)
    requires Inv(cfg, w)
    ensures var step := R.UpdateStatusCR(w, mg);
            Inv(cfg, step.w) && step.w.cr.labels == w.cr.labels && (step.Go? ==> step.v == step.w.cr)
  {
  }

  lemma PublishKeeps(cfg: R.Config, env: R.Env, w: R.World, mg: Composition, info: Resolver.Info, release: R.Revision)
    requires Inv(cfg, w) && mg.labels == w.cr.labels
    ensures Inv(cfg, R.Publish(cfg, env, w, mg, info, release).w)
  {
    var status := R.UpdatedStatus(cfg, mg, info, release);
    if status.Some? {
      StatusKeeps(cfg, w, mg.(status := status.value));
      var s1 := R.UpdateStatusCR(w, mg.(status := status.value));
      if s1.Go? {
        UpdateCRKeeps(cfg, s1.w, s1.v.(annotations := s1.v.annotations[PAUSED_TIME := env.now]));
        UpdateCRKeeps(cfg, s1.w, s1.v.(annotations := s1.v.annotations - {PAUSED_TIME}));
      }
    }
  }

  lemma UpdateKeeps(cfg: R.Config, env: R.Env, w: R.World)
    requires Inv(cfg, w)
    ensures Inv(cfg, R.Update(cfg, env, w).w)
  {
    var s1 := R.Local(w);
    if s1.Go? && !R.Paused(cfg, w.cr) {
      var s2 := R.FetchInfo(env, s1.w, w.cr);
      if s2.Go? {
        var s3 := R.Local(s2.w);
        if s3.Go? {
          var s4 := R.GetRelease(s3.w, GetReleaseName(w.cr));
          if s4.Go? && s4.v.Some? {
            PublishKeeps(cfg, env, s4.w, w.cr, s2.v, s4.v.value);
          }
        }
      }
    }
  }

  /** Permissions only go once the release is confirmed gone. */
  lemma TeardownKeeps(cfg: R.Config, env: R.Env, w: R.World, mg: Composition, name: string)
    requires Inv(cfg, w) && R.ValidEnv(env) && mg.labels == w.cr.labels && Labelled(w, name)
    ensures Inv(cfg, R.Teardown(cfg, env, w, mg, name).w)
  {
    LoggedKeeps(cfg, w, R.Uninstall, name);
    var s1 := R.HelmUninstall(w, name);
    if s1.Go? {
      var s2 := R.GetRelease(s1.w, name);
      if s2.Go? && s2.v.None? {
        CleanUpKeeps(cfg, env, s2.w, mg, name);
      }
    }
  }

  lemma DeleteKeeps(cfg: R.Config, env: R.Env, w: R.World)
    requires Inv(cfg, w) && R.ValidEnv(env)
    ensures Inv(cfg, R.Delete(cfg, env, w).w)
  {
    var name := GetReleaseName(w.cr);
    var s1 := R.Local(w);
    if s1.Go? && !R.Paused(cfg, w.cr) {
      var s2 := R.Local(s1.w);
      if s2.Go? && R.FetchInfo(env, s2.w, w.cr).Go? {
        var s3 := R.GetRelease(s2.w, name);
        if s3.Go? && s3.v.Some? {
          assert name in w.releases;
          TeardownKeeps(cfg, env, s3.w, w.cr, name);
        }
      }
    }
  }

  lemma CleanUpKeeps(cfg: R.Config, env: R.Env, w: R.World, mg: Composition, name: string)
    requires Inv(cfg, w) && R.ValidEnv(env) && mg.labels == w.cr.labels && Labelled(w, name)
    requires R.History(w, name) == []
    ensures Inv(cfg, R.CleanUp(cfg, env, w, mg, name).w)
  {
  }

  lemma HappenKeeps(cfg: R.Config, w: R.World, e: Event)
    requires Inv(cfg, w) && Possible(w, e)
    ensures Inv(cfg, Happen(cfg, w, e))
  {
    match e
    case Observing(env) => ObserveKeeps(cfg, env, Facing(w, env));
    case Creating(env) => CreateKeeps(cfg, env, Facing(w, env));
    case Updating(env) => UpdateKeeps(cfg, env, Facing(w, env));
    case Deleting(env) => DeleteKeeps(cfg, env, Facing(w, env));
    case Annotating(_) =>
    case Relabelling(_) =>
    case Neighbouring(store) =>
      forall n, rev | n in w.releases && rev in w.releases[n]
        ensures OwnGrants(store, n, cfg.Sa(), rev.inspected)
      {
        assert n == GetReleaseName(w.cr);
        NeighboursKeepGrants(w.api.store, store, n, cfg.Sa(), rev.inspected);
      }
  }

  lemma NeighboursKeepGrants(before: Store, after: Store, base: string, sa: Subject, resources: seq<RbacGen.Resource>)
    requires forall key :: Own(key, base) ==> Agree(after, before, key)
    requires OwnGrants(before, base, sa, resources)
    ensures OwnGrants(after, base, sa, resources)
  {
    forall r | r in resources ensures OwnGrant(after, base, sa, r) {
      assert OwnGrant(before, base, sa, r);
      assert Own(Binder(base, r.namespace), base) && Own(Holder(base, r.namespace), base);
    }
  }

  /** Safety, in every state a run can reach: whatever is in the release history, the service account
      may do all that the inspector listed when it was made; and all Helm operations were about one
      and the same release. */
  lemma {:induction false} RunIsSafe(cfg: R.Config, w: R.World, events: seq<Event>)
    requires Inv(cfg, w) && PossibleRun(cfg, w, events)
    ensures Inv(cfg, Run(cfg, w, events))
  {
    if events == [] {
    } else {
      RunIsSafe(cfg, w, events[..|events| - 1]);
      HappenKeeps(cfg, Run(cfg, w, events[..|events| - 1]), events[|events| - 1]);
    }
  }

  /** A composition nothing has been deployed for yet, in any cluster. */
  ghost predicate Fresh(w: R.World) {
    && w.cr.name != "" && (RELEASE_NAME in w.cr.labels ==> w.cr.labels[RELEASE_NAME] != "")
    && w.releases == map[] && w.helmLog == []
  }

  lemma PermissionBeforeRelease(cfg: R.Config, w: R.World, events: seq<Event>, name: string, rev: R.Revision, q: Request)
    requires Fresh(w) && PossibleRun(cfg, w, events)
    requires var now := Run(cfg, w, events);
             name in now.releases && rev in now.releases[name] && A.Covered(rev.inspected, q)
    ensures Authorized(Run(cfg, w, events).api.store, ServiceAccount(cfg.saName, cfg.saNamespace), q)
  {
    RunIsSafe(cfg, w, events);
    var now := Run(cfg, w, events);
    OwnGrantsAuthorize(now.api.store, name, cfg.Sa(), rev.inspected, q);
  }

  /** Persist before use: installs, upgrades, rollbacks and uninstalls, all of them in the whole run,
      address the release that the label of the composition names, random draws or not. */
  lemma OneReleaseName(cfg: R.Config, w: R.World, events: seq<Event>, call: R.HelmCall)
    requires Fresh(w) && PossibleRun(cfg, w, events)
    requires call in Run(cfg, w, events).helmLog
    ensures Labelled(Run(cfg, w, events), call.release) && call.release != ""
  {
    RunIsSafe(cfg, w, events);
  }
}
