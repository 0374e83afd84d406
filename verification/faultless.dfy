/** The handlers when no call fails: what each does to the composition, the history and the store, and
    what Observe reports, in terms of the state before the call. */
module Faultless {
  import opened Wrappers
  import opened Kube
  import opened Landing
  import RbacGen
  import Hasher
  import opened Applicability
  import opened Processor
  import opened Managed
  import opened Meta
  import opened Resolver
  import opened Lifecycle
  import R = Reconcile

  // ------------------------------------------------------------ fixed inputs

  /** The definition of the composition is found. */
  ghost predicate Resolves(ds: Definitions, labels: map<string, string>, kind: string) {
    && Coherent(ds) && !ds.getFails && !ds.listFails
    && Fetch(ds, Wanted(labels, kind)).Some?
  }

  /** The definition is found and its status is well formed. */
  ghost predicate Answers(ds: Definitions, labels: map<string, string>, kind: string) {
    Resolves(ds, labels, kind) && ChartVersionKind(Resolve(ds, Wanted(labels, kind)).value).Some?
  }

  /** The chart renders to documents of known kinds. */
  ghost predicate Renders(cfg: R.Config, env: R.Env, namespace: string) {
    var decoded := Decoded(env.manifest, cfg.grammar);
    decoded.Some? && EntriesFor(cfg.catalog, decoded.value.0, namespace).Some?
  }

  /** What a Helm operation returned, if it returned anything, can be decoded and its kinds are known. */
  ghost predicate Publishable(cfg: R.Config, manifest: Option<seq<Hasher.byte>>, namespace: string) {
    var decoded := R.DecodeOptional(cfg, manifest);
    decoded.Some? && EntriesFor(cfg.catalog, decoded.value.0, namespace).Some?
  }

  /** The objects of the rendered chart, and the managed list that describes them. */
  ghost function Objects(cfg: R.Config, env: R.Env): seq<MinimalMetadata>
    requires Decoded(env.manifest, cfg.grammar).Some?
  {
    Decoded(env.manifest, cfg.grammar).value.0
  }

  ghost function Listing(cfg: R.Config, env: R.Env, namespace: string): Option<seq<ManagedResource>>
    requires Renders(cfg, env, namespace)
  {
    EntriesFor(cfg.catalog, Objects(cfg, env), namespace)
  }

  ghost predicate Lists(cfg: R.Config, env: R.Env, cr: Composition)
    requires Renders(cfg, env, cr.namespace)
  {
    cr.status.managed == Listing(cfg, env, cr.namespace)
  }

  ghost function InfoFor(env: R.Env, cr: Composition): Info
    requires Fetch(env.definitions, Wanted(cr.labels, cr.kind)).Some?
  {
    Fetch(env.definitions, Wanted(cr.labels, cr.kind)).value
  }

  /** What Observe works on: the stored composition with a release name. */
  function NamedCR(cfg: R.Config, env: R.Env, cr: Composition): Composition
    requires CalculateReleaseName(cr, cfg.safeReleaseName, env.draw).Some?
  {
    cr.(labels := WithReleaseName(cr.labels, CalculateReleaseName(cr, cfg.safeReleaseName, env.draw).value))
  }

  /** The API server lets the policy of the release through. */
  ghost predicate Grantable(cfg: R.Config, env: R.Env, w: R.World, name: string) {
    R.ValidEnv(env) && env.inspected.Some? && Applicable(R.PolicyInput(cfg, w, name, env.inspected.value), w.api.store)
  }

  /** No call fails, and a UID is empty or long enough to be sliced. */
  ghost predicate Calm(cfg: R.Config, env: R.Env, w: R.World) {
    && w.api.faults == []
    && (cfg.safeReleaseName ==> w.cr.uid == "" || |w.cr.uid| >= 8)
    && Grantable(cfg, env, w, GetReleaseName(NamedCR(cfg, env, w.cr)))
    && Renders(cfg, env, w.cr.namespace)
    && Answers(env.definitions, w.cr.labels, w.cr.kind)
  }

  /** What stays fixed from one call to the next; random draws, map orders, clocks and the moods of
      Helm may differ. */
  ghost predicate SameInputs(a: R.Env, b: R.Env) {
    && a.definitions == b.definitions && a.inspected == b.inspected
    && a.manifest == b.manifest && a.chartVersion == b.chartVersion
    && R.ValidEnv(b)
  }

  /** The stored release is the rendered chart, and the status carries its digest. */
  predicate Current(env: R.Env, w: R.World) {
    && RELEASE_NAME in w.cr.labels
    && Deployed(env, w, w.cr.labels[RELEASE_NAME])
    && w.cr.status.digest == Digest(env.manifest)
  }

  // ------------------------------------------------------------ labels do not disturb the resolver

  lemma SameAnswer(ds: Definitions, a: Wanted, b: Wanted)
    requires Hint(a.labels) == Hint(b.labels) && a.kind == b.kind
    requires Lookup(a.labels, COMPOSITION_VERSION) == Lookup(b.labels, COMPOSITION_VERSION)
    ensures Resolve(ds, a) == Resolve(ds, b)
  {
  }

  lemma NameKeepsAnswer(ds: Definitions, labels: map<string, string>, kind: string, name: string)
    ensures Resolve(ds, Wanted(WithReleaseName(labels, name), kind)) == Resolve(ds, Wanted(labels, kind))
  {
    KeysDiffer();
    SameAnswer(ds, Wanted(WithReleaseName(labels, name), kind), Wanted(labels, kind));
  }

  lemma DefinitionKeepsAnswer(ds: Definitions, labels: map<string, string>, kind: string)
    requires Answers(ds, labels, kind)
    ensures var recorded := WithDefinition(labels, Fetch(ds, Wanted(labels, kind)).value.definition);
            Resolve(ds, Wanted(recorded, kind)) == Resolve(ds, Wanted(labels, kind))
  {
    AskingAgain(ds, labels, kind);
  }

  // ------------------------------------------------------------ calls that do not fail

  /** The policy of the release, applied on top of what is stored. */
  ghost function Granted(cfg: R.Config, env: R.Env, w: R.World, name: string): Api
    requires env.inspected.Some?
  {
    Api(LandAll(w.api.store, R.PolicyInput(cfg, w, name, env.inspected.value).Writes(env.order)), [])
  }

  lemma EnsureRBACCalm(cfg: R.Config, env: R.Env, w: R.World, name: string) returns (after: R.World)
    requires w.api.faults == [] && Grantable(cfg, env, w, name)
    ensures R.EnsureRBAC(cfg, env, w, name) == R.Go(after, env.inspected.value)
    ensures after == w.(api := Granted(cfg, env, w, name))
  {
    ApplySucceedsIff(R.PolicyInput(cfg, w, name, env.inspected.value), w.api, env.order);
    after := w.(api := Granted(cfg, env, w, name));
  }

  lemma StillGrantable(cfg: R.Config, env: R.Env, w: R.World, name: string, next: R.Env, after: R.World)
    requires Grantable(cfg, env, w, name) && SameInputs(env, next)
    requires after.cr.namespace == w.cr.namespace
    requires after.api.store == w.api.store || after.api.store == Granted(cfg, env, w, name).store
    ensures Grantable(cfg, next, after, name)
  {
    ApplicableAfter(R.PolicyInput(cfg, w, name, env.inspected.value), w.api.store, env.order);
  }

  lemma UpgradeCalm(cfg: R.Config, env: R.Env, w: R.World, name: string, inspected: seq<RbacGen.Resource>)
    returns (after: R.World)
    requires w.api.faults == [] && R.History(w, name) != [] && !LastOf(w, name).pending
    ensures Deployed(env, after, name) && R.HelmUpgrade(cfg, env, w, name, inspected) == R.Go(after, LastOf(after, name))
    ensures after.cr == w.cr && after.api == w.api
    ensures env.skipsUnchanged && Deployed(env, w, name) ==> after.releases == w.releases
    ensures !env.skipsUnchanged ==> LastOf(after, name).inspected == inspected
  {
    after := R.HelmUpgrade(cfg, env, w, name, inspected).w;
  }

  lemma InstallCalm(cfg: R.Config, env: R.Env, w: R.World, name: string, inspected: seq<RbacGen.Resource>)
    requires w.api.faults == [] && R.History(w, name) == []
    ensures var step := R.HelmInstall(cfg, env, w, name, inspected);
            && step.Go? && step.w.cr == w.cr && step.w.api == w.api
            && Deployed(env, step.w, name) && step.v == LastOf(step.w, name) && step.v.inspected == inspected
  {
  }

  // ------------------------------------------------------------ Observe

  function LocatedCR(mg: Composition, info: Info): Composition {
    mg.(labels := WithDefinition(mg.labels, info.definition), annotations := mg.annotations - {PAUSED_TIME})
  }

  lemma LocateCalm(env: R.Env, w: R.World, mg: Composition)
    requires w.api.faults == [] && mg == w.cr.(labels := mg.labels)
    requires Fetch(env.definitions, Wanted(mg.labels, mg.kind)).Some?
    ensures var info, step := Fetch(env.definitions, Wanted(mg.labels, mg.kind)).value, R.Locate(env, w, mg);
            && step.Go? && step.w == w.(cr := LocatedCR(mg, info))
            && step.v.mg == step.w.cr && step.v.info == info && step.v.name == GetReleaseName(mg)
            && step.v.release == (if R.History(w, step.v.name) == [] then None else Some(LastOf(w, step.v.name)))
  {
  }

  /** The revision an upgrade starts from: the last one, or what a rollback makes of one that is stuck. */
  function Restored(env: R.Env, history: seq<R.Revision>): R.Revision
    requires history != []
  {
    if history[|history| - 1].pending then history[env.rollbackTo % |history|].(pending := false)
    else history[|history| - 1]
  }

  /** Rolling back if need be; the release that is then the last is not pending. */
  lemma RestoreCalm(cfg: R.Config, env: R.Env, w: R.World, name: string) returns (after: R.World)
    requires w.api.faults == [] && R.History(w, name) != []
    ensures (if LastOf(w, name).pending then R.HelmRollback(cfg, env, w, name) else R.Go(w, LastOf(w, name))) ==
            R.Go(after, Restored(env, R.History(w, name)))
    ensures after.cr == w.cr && after.api == w.api
    ensures R.History(after, name) != [] && !LastOf(after, name).pending
    ensures !LastOf(w, name).pending ==> after == w
  {
    after := if LastOf(w, name).pending then R.HelmRollback(cfg, env, w, name).w else w;
  }

  lemma RefreshContinues(cfg: R.Config, env: R.Env, w: R.World, name: string, restored: R.World, found: R.Revision,
                         granted: R.World, inspected: seq<RbacGen.Resource>, after: R.World, upgraded: R.Revision)
    requires R.History(w, name) != []
    requires (if LastOf(w, name).pending then R.HelmRollback(cfg, env, w, name) else R.Go(w, LastOf(w, name))) == R.Go(restored, found)
    requires R.EnsureRBAC(cfg, env, restored, name) == R.Go(granted, inspected)
    requires R.HelmUpgrade(cfg, env, granted, name, inspected) == R.Go(after, upgraded)
    requires restored.api.faults == [] && granted.api.faults == []
    ensures R.Refresh(cfg, env, w, name, LastOf(w, name)) == R.Go(after, (found, upgraded))
  {
    assert R.Local(restored) == R.Go(restored, ()) && R.Local(granted) == R.Go(granted, ());
  }

  /** What a refresh leaves: roles and bindings applied, the rendered chart as the last revision. */
  ghost predicate Refreshed(cfg: R.Config, env: R.Env, w: R.World, name: string, after: R.World)
    requires env.inspected.Some?
  {
    && after.cr == w.cr && after.api == Granted(cfg, env, w, name) && Deployed(env, after, name)
    && (env.skipsUnchanged && Deployed(env, w, name) ==> after.releases == w.releases)
  }

  lemma RefreshedBy(cfg: R.Config, env: R.Env, w: R.World, name: string, restored: R.World, granted: R.World, after: R.World)
    requires env.inspected.Some? && Deployed(env, after, name)
    requires restored.cr == w.cr && restored.api == w.api && (Deployed(env, w, name) ==> restored == w)
    requires granted == restored.(api := Granted(cfg, env, restored, name))
    requires after.cr == granted.cr && after.api == granted.api
    requires env.skipsUnchanged && Deployed(env, granted, name) ==> after.releases == granted.releases
    ensures Refreshed(cfg, env, w, name, after)
  {
  }

  lemma RefreshCalm(cfg: R.Config, env: R.Env, w: R.World, name: string) returns (after: R.World)
    requires w.api.faults == [] && Grantable(cfg, env, w, name) && R.History(w, name) != []
    ensures Refreshed(cfg, env, w, name, after)
    ensures R.Refresh(cfg, env, w, name, LastOf(w, name)) ==
            R.Go(after, (Restored(env, R.History(w, name)), LastOf(after, name)))
    ensures !env.skipsUnchanged ==> LastOf(after, name).inspected == env.inspected.value
  {
    var restored := RestoreCalm(cfg, env, w, name);
    var granted := EnsureRBACCalm(cfg, env, restored, name);
    after := UpgradeCalm(cfg, env, granted, name, env.inspected.value);
    RefreshedBy(cfg, env, w, name, restored, granted, after);
    RefreshContinues(cfg, env, w, name, restored, Restored(env, R.History(w, name)), granted, env.inspected.value,
                     after, LastOf(after, name));
  }

  function JudgedStatus(status: Status, info: Info, digest: string): Status {
    status.(digest := digest, previousDigest := digest, helmChartUrl := info.url, helmChartVersion := info.version)
  }

  /** The rendered chart is not what the status recorded, or, without a record, not what was found; or
      it is of another version. */
  predicate Differs(env: R.Env, status: Status, found: R.Revision) {
    || Digest(env.manifest) != (if status.digest == "" then Digest(found.manifest) else status.digest)
    || found.chartVersion != env.chartVersion
  }

  lemma JudgeCalm(cfg: R.Config, env: R.Env, w: R.World, info: Info, found: R.Revision, upgraded: R.Revision)
    requires w.api.faults == []
    requires upgraded.manifest == env.manifest && upgraded.chartVersion == env.chartVersion
    ensures var settled := !Differs(env, w.cr.status, found);
            R.Judge(cfg, w, w.cr, info, found, upgraded) ==
            R.Go(if settled then w.(cr := w.cr.(status := JudgedStatus(w.cr.status, info, Digest(env.manifest)))) else w,
                 R.Observation(true, settled))
  {
  }

  /** The composition as Observe leaves it, before the verdict. */
  ghost function Seen(cfg: R.Config, env: R.Env, w: R.World): (cr: Composition)
    requires Calm(cfg, env, w)
    ensures RELEASE_NAME in cr.labels && cr.labels[RELEASE_NAME] == GetReleaseName(NamedCR(cfg, env, w.cr))
    ensures RELEASE_NAME in w.cr.labels ==> cr.labels[RELEASE_NAME] == w.cr.labels[RELEASE_NAME]
    ensures Resolve(env.definitions, Wanted(cr.labels, cr.kind)) == Resolve(env.definitions, Wanted(w.cr.labels, w.cr.kind))
    ensures cr == w.cr.(labels := cr.labels, annotations := w.cr.annotations - {PAUSED_TIME})
  {
    var mg := NamedCR(cfg, env, w.cr);
    KeysDiffer();
    NameKeepsAnswer(env.definitions, w.cr.labels, w.cr.kind, CalculateReleaseName(w.cr, cfg.safeReleaseName, env.draw).value);
    DefinitionKeepsAnswer(env.definitions, mg.labels, mg.kind);
    LocatedCR(mg, InfoFor(env, w.cr))
  }

  lemma ObserveStart(cfg: R.Config, env: R.Env, w: R.World)
    requires Calm(cfg, env, w)
    ensures var located := R.Locate(env, w, NamedCR(cfg, env, w.cr));
            && located.Go? && located.w == w.(cr := Seen(cfg, env, w))
            && located.v.mg == Seen(cfg, env, w) && located.v.name == Seen(cfg, env, w).labels[RELEASE_NAME]
            && located.v.info == InfoFor(env, w.cr)
            && located.v.release == (if R.History(w, located.v.name) == [] then None else Some(LastOf(w, located.v.name)))
  {
    NameKeepsAnswer(env.definitions, w.cr.labels, w.cr.kind, CalculateReleaseName(w.cr, cfg.safeReleaseName, env.draw).value);
    LocateCalm(env, w, NamedCR(cfg, env, w.cr));
  }

  lemma ObserveContinues(cfg: R.Config, env: R.Env, w: R.World, mg: Composition)
    requires w.api.faults == [] && !R.Paused(cfg, w.cr)
    requires R.Named(cfg, env, w, w.cr) == R.Go(w, mg) && R.Locate(env, w, mg).Go?
    ensures var located := R.Locate(env, w, mg);
            R.Observe(cfg, env, w) ==
            if located.v.release.None? then R.Go(located.w, R.Observation(false, false))
            else
              var refreshed := R.Refresh(cfg, env, located.w, located.v.name, located.v.release.value);
              if refreshed.Halt? then R.Halt(refreshed.w)
              else R.Judge(cfg, refreshed.w, located.v.mg, located.v.info, refreshed.v.0, refreshed.v.1)
  {
    assert R.Local(w) == R.Go(w, ());
  }

  lemma ObserveOfNothing(cfg: R.Config, env: R.Env, w: R.World)
    requires Calm(cfg, env, w) && !R.Paused(cfg, w.cr)
    requires R.History(w, Seen(cfg, env, w).labels[RELEASE_NAME]) == []
    ensures R.Observe(cfg, env, w) == R.Go(w.(cr := Seen(cfg, env, w)), R.Observation(false, false))
  {
    ObserveStart(cfg, env, w);
    ObserveContinues(cfg, env, w, NamedCR(cfg, env, w.cr));
  }

  lemma ObserveRefreshes(cfg: R.Config, env: R.Env, w: R.World)
    requires Calm(cfg, env, w) && !R.Paused(cfg, w.cr)
    requires R.History(w, Seen(cfg, env, w).labels[RELEASE_NAME]) != []
    ensures var cr := Seen(cfg, env, w);
            var name := cr.labels[RELEASE_NAME];
            var refreshed := R.Refresh(cfg, env, w.(cr := cr), name, LastOf(w, name));
            refreshed.Go? ==>
              R.Observe(cfg, env, w) == R.Judge(cfg, refreshed.w, cr, InfoFor(env, w.cr), refreshed.v.0, refreshed.v.1)
  {
    ObserveStart(cfg, env, w);
    ObserveContinues(cfg, env, w, NamedCR(cfg, env, w.cr));
  }

  lemma RefreshOf(cfg: R.Config, env: R.Env, w: R.World, cr: Composition, name: string) returns (after: R.World)
    requires w.api.faults == [] && Grantable(cfg, env, w, name) && R.History(w, name) != [] && cr.namespace == w.cr.namespace
    ensures Refreshed(cfg, env, w.(cr := cr), name, after)
    ensures R.Refresh(cfg, env, w.(cr := cr), name, LastOf(w, name)) ==
            R.Go(after, (Restored(env, R.History(w, name)), LastOf(after, name)))
    ensures !env.skipsUnchanged ==> LastOf(after, name).inspected == env.inspected.value
  {
    after := RefreshCalm(cfg, env, w.(cr := cr), name);
  }

  /** With a release, Observe comes down to a judgement of what was found and what the upgrade made. */
  lemma ObserveOfRelease(cfg: R.Config, env: R.Env, w: R.World) returns (after: R.World)
    requires Calm(cfg, env, w) && !R.Paused(cfg, w.cr)
    requires R.History(w, Seen(cfg, env, w).labels[RELEASE_NAME]) != []
    ensures var cr := Seen(cfg, env, w);
            var name := cr.labels[RELEASE_NAME];
            && Refreshed(cfg, env, w.(cr := cr), name, after)
            && R.Observe(cfg, env, w) ==
               R.Judge(cfg, after, cr, InfoFor(env, w.cr), Restored(env, R.History(w, name)), LastOf(after, name))
  {
    ObserveRefreshes(cfg, env, w);
    after := RefreshOf(cfg, env, w, Seen(cfg, env, w), Seen(cfg, env, w).labels[RELEASE_NAME]);
  }

  /** There is a release, and the rendered chart is not what it should be. This is a condition on the
      state before the call. */
  predicate Drifted(cfg: R.Config, env: R.Env, w: R.World)
    requires CalculateReleaseName(w.cr, cfg.safeReleaseName, env.draw).Some?
  {
    var history := R.History(w, GetReleaseName(NamedCR(cfg, env, w.cr)));
    history != [] && Differs(env, w.cr.status, Restored(env, history))
  }

  /** An observation without faults: its verdict, and the whole world after it. */
  lemma ObserveCalm(cfg: R.Config, env: R.Env, w: R.World)
    requires Calm(cfg, env, w) && !R.Paused(cfg, w.cr)
    ensures var step, cr := R.Observe(cfg, env, w), Seen(cfg, env, w);
            var name := cr.labels[RELEASE_NAME];
            if R.History(w, name) == [] then step == R.Go(w.(cr := cr), R.Observation(false, false))
            else
              && step.Go? && step.v == R.Observation(true, !Drifted(cfg, env, w))
              && Refreshed(cfg, env, w.(cr := cr), name, step.w.(cr := cr))
              && step.w.cr == (if Drifted(cfg, env, w) then cr
                               else cr.(status := JudgedStatus(cr.status, InfoFor(env, w.cr), Digest(env.manifest))))
  {
    var cr := Seen(cfg, env, w);
    var name := cr.labels[RELEASE_NAME];
    if R.History(w, name) == [] {
      ObserveOfNothing(cfg, env, w);
    } else {
      var refreshed := ObserveOfRelease(cfg, env, w);
      JudgeCalm(cfg, env, refreshed, InfoFor(env, w.cr), Restored(env, R.History(w, name)), LastOf(refreshed, name));
    }
  }

  // ------------------------------------------------------------ Create and Update

  lemma DeployCalm(cfg: R.Config, env: R.Env, w: R.World, name: string) returns (after: R.World)
    requires w.api.faults == [] && Grantable(cfg, env, w, name) && R.History(w, name) == []
    ensures R.Deploy(cfg, env, w, name) == R.Go(after, Some(env.manifest))
    ensures after.cr == w.cr && after.api == Granted(cfg, env, w, name)
    ensures Deployed(env, after, name) && LastOf(after, name).inspected == env.inspected.value
  {
    assert R.Local(w) == R.Go(w, ());
    var granted := EnsureRBACCalm(cfg, env, w, name);
    assert R.Local(granted) == R.Go(granted, ());
    InstallCalm(cfg, env, granted, name, env.inspected.value);
    after := R.HelmInstall(cfg, env, granted, name, env.inspected.value).w;
  }

  /** The status a create leaves: a list of an earlier release stays if there is nothing to put there. */
  ghost function CreatedStatus(cfg: R.Config, env: R.Env, cr: Composition): Status
    requires Renders(cfg, env, cr.namespace) && Fetch(env.definitions, Wanted(cr.labels, cr.kind)).Some?
  {
    Status(Digest(env.manifest), "", InfoFor(env, cr).url, InfoFor(env, cr).version,
           if Objects(cfg, env) == [] then cr.status.managed else Listing(cfg, env, cr.namespace))
  }

  /** The status an update leaves. */
  ghost function UpdatedStatus(cfg: R.Config, env: R.Env, cr: Composition): Status
    requires Renders(cfg, env, cr.namespace) && Fetch(env.definitions, Wanted(cr.labels, cr.kind)).Some?
  {
    Status(Digest(env.manifest), cr.status.digest, InfoFor(env, cr).url, InfoFor(env, cr).version, Listing(cfg, env, cr.namespace))
  }

  lemma ConcludeCalm(cfg: R.Config, env: R.Env, w: R.World) returns (after: R.World)
    requires w.api.faults == [] && Renders(cfg, env, w.cr.namespace) && PAUSED_TIME !in w.cr.annotations
    requires Fetch(env.definitions, Wanted(w.cr.labels, w.cr.kind)).Some?
    ensures R.Conclude(cfg, w, w.cr, InfoFor(env, w.cr), Some(env.manifest)) == R.Go(after, ())
    ensures after.cr == w.cr.(status := CreatedStatus(cfg, env, w.cr)) && after.api == w.api && after.releases == w.releases
  {
    FastEqualsSlow(env.manifest, cfg.grammar);
    assert w.cr.annotations - {PAUSED_TIME} == w.cr.annotations;
    after := w.(cr := w.cr.(status := CreatedStatus(cfg, env, w.cr)));
  }

  lemma SameReleases(env: R.Env, a: R.World, b: R.World, name: string)
    requires a.releases == b.releases && Deployed(env, a, name)
    ensures Deployed(env, b, name) && LastOf(b, name) == LastOf(a, name)
  {
  }

  /** Create, once it has a name and an answer, is a deployment and a conclusion. */
  lemma CreateParts(cfg: R.Config, env: R.Env, w: R.World, deployed: R.World)
    requires Calm(cfg, env, w) && RELEASE_NAME in w.cr.labels && PAUSED_TIME !in w.cr.annotations
    requires R.Deploy(cfg, env, w, w.cr.labels[RELEASE_NAME]) == R.Go(deployed, Some(env.manifest))
    ensures R.Create(cfg, env, w) == R.Conclude(cfg, deployed, w.cr, InfoFor(env, w.cr), Some(env.manifest))
  {
    assert R.Local(w) == R.Go(w, ()) && R.Named(cfg, env, w, w.cr) == R.Go(w, w.cr);
    assert R.UpdateCR(w, w.cr) == R.Go(w, w.cr);
  }

  /** A first create installs the chart and describes it; nothing else of the composition changes. */
  lemma CreateCalm(cfg: R.Config, env: R.Env, w: R.World, name: string) returns (after: R.World)
    requires Calm(cfg, env, w) && RELEASE_NAME in w.cr.labels && PAUSED_TIME !in w.cr.annotations
    requires name == w.cr.labels[RELEASE_NAME] && R.History(w, name) == []
    ensures R.Create(cfg, env, w) == R.Go(after, ())
    ensures after.api == Granted(cfg, env, w, name) && after.cr == w.cr.(status := CreatedStatus(cfg, env, w.cr))
    ensures Deployed(env, after, name) && LastOf(after, name).inspected == env.inspected.value
  {
    var deployed := DeployCalm(cfg, env, w, name);
    CreateParts(cfg, env, w, deployed);
    after := ConcludeCalm(cfg, env, deployed);
    SameReleases(env, deployed, after, name);
  }

  /** The annotations an update leaves: the time is written if the flag is there. */
  function Flagged(env: R.Env, cr: Composition): map<string, string> {
    if IsGracefullyPaused(cr) then cr.annotations[PAUSED_TIME := env.now] else cr.annotations - {PAUSED_TIME}
  }

  ghost function UpdatedCR(cfg: R.Config, env: R.Env, cr: Composition): Composition
    requires Renders(cfg, env, cr.namespace) && Fetch(env.definitions, Wanted(cr.labels, cr.kind)).Some?
  {
    cr.(status := UpdatedStatus(cfg, env, cr), annotations := Flagged(env, cr))
  }

  lemma PublishCalm(cfg: R.Config, env: R.Env, w: R.World, release: R.Revision)
    requires w.api.faults == [] && Renders(cfg, env, w.cr.namespace) && release.manifest == env.manifest
    requires Fetch(env.definitions, Wanted(w.cr.labels, w.cr.kind)).Some?
    ensures R.Publish(cfg, env, w, w.cr, InfoFor(env, w.cr), release) ==
            R.Go(w.(cr := UpdatedCR(cfg, env, w.cr)), ())
  {
  }

  lemma UpdateContinues(cfg: R.Config, env: R.Env, w: R.World)
    requires w.api.faults == [] && !R.Paused(cfg, w.cr) && Fetch(env.definitions, Wanted(w.cr.labels, w.cr.kind)).Some?
    requires R.History(w, GetReleaseName(w.cr)) != []
    ensures R.Update(cfg, env, w) == R.Publish(cfg, env, w, w.cr, InfoFor(env, w.cr), LastOf(w, GetReleaseName(w.cr)))
  {
    assert R.Local(w) == R.Go(w, ());
    assert R.GetRelease(w, GetReleaseName(w.cr)) == R.Go(w, Some(LastOf(w, GetReleaseName(w.cr))));
  }

  /** An update after a refresh describes the release, writes the time if the flag is there, and changes
      nothing else. */
  lemma UpdateCalm(cfg: R.Config, env: R.Env, w: R.World)
    requires Calm(cfg, env, w) && RELEASE_NAME in w.cr.labels && PAUSED_TIME !in w.cr.annotations
    requires Deployed(env, w, w.cr.labels[RELEASE_NAME])
    ensures R.Update(cfg, env, w) ==
            R.Go(w.(cr := UpdatedCR(cfg, env, w.cr)), ())
  {
    UpdateContinues(cfg, env, w);
    PublishCalm(cfg, env, w, LastOf(w, w.cr.labels[RELEASE_NAME]));
  }
}
