/** The protocols that span several handlers: pausing, converging, and what a completed update or
    delete leaves behind. */
module Lifecycle {
  import opened Wrappers
  import opened Kube
  import opened Landing
  import RbacGen
  import Hasher
  import opened Meaning
  import opened Processor
  import opened Managed
  import opened Meta
  import opened Resolver
  import A = Authorization
  import opened Safety
  import R = Reconcile

  // ------------------------------------------------------------ pausing

  /** All that is stored outside the controller. */
  predicate SameStored(a: R.World, b: R.World) {
    a.cr == b.cr && a.releases == b.releases && a.api.store == b.api.store && a.helmLog == b.helmLog
  }

  /** While the flag and a readable time are there, no handler changes anything, and Observe reports
      that all is well unless it fails at once. */
  lemma PausedHandlersRest(cfg: R.Config, env: R.Env, w: R.World)
    requires R.Paused(cfg, w.cr)
    ensures SameStored(R.Observe(cfg, env, w).w, w) && SameStored(R.Create(cfg, env, w).w, w)
    ensures SameStored(R.Update(cfg, env, w).w, w) && SameStored(R.Delete(cfg, env, w).w, w)
    ensures R.Observe(cfg, env, w).Go? ==> R.Observe(cfg, env, w).v == R.Observation(true, true)
  {
  }

  lemma {:induction false} PausedRunRests(cfg: R.Config, w: R.World, events: seq<Event>)
    requires R.Paused(cfg, w.cr)
    requires forall e :: e in events ==> e.Observing? || e.Creating? || e.Updating? || e.Deleting?
    ensures SameStored(Run(cfg, w, events), w)
  {
    if events == [] {
    } else {
      var init, e := events[..|events| - 1], events[|events| - 1];
      assert e in events;
      PausedRunRests(cfg, w, init);
      var before := Run(cfg, w, init);
      PausedHandlersRest(cfg, e.env, Facing(before, e.env));
    }
  }

  /** What one handler call can do to the annotations: nothing, or drop the time, or, in an update
      that sees the flag, write it. */
  ghost predicate TimeRule(before: Composition, after: Composition, updating: bool) {
    || after.annotations == before.annotations
    || after.annotations == before.annotations - {PAUSED_TIME}
    || (updating && IsGracefullyPaused(before) && PAUSED_TIME in after.annotations
        && after.annotations == before.annotations[PAUSED_TIME := after.annotations[PAUSED_TIME]])
  }

  lemma ObserveTime(cfg: R.Config, env: R.Env, w: R.World)
    ensures TimeRule(w.cr, R.Observe(cfg, env, w).w.cr, false)
  {
  }

  /** The stages of an observation that is not paused and succeeds. */
  lemma ObserveStages(cfg: R.Config, env: R.Env, w: R.World)
    requires R.Observe(cfg, env, w).Go? && !R.Paused(cfg, w.cr)
    ensures var named := R.Named(cfg, env, R.Used(w), w.cr);
            && named.Go?
            && var located := R.Locate(env, R.Used(w), named.v);
              && located.Go?
              && (located.v.release.None? ==> R.Observe(cfg, env, w) == R.Go(located.w, R.Observation(false, false)))
              && (located.v.release.Some? ==>
                    var refreshed := R.Refresh(cfg, env, located.w, located.v.name, located.v.release.value);
                    && refreshed.Go?
                    && R.Observe(cfg, env, w) ==
                       R.Judge(cfg, refreshed.w, located.v.mg, located.v.info, refreshed.v.0, refreshed.v.1))
  {
  }

  /** Once the composition is not paused (the flag is cleared, say), an observation that succeeds has
      dropped the time, and has been through an upgrade if there is a release. */
  lemma ActiveObserve(cfg: R.Config, env: R.Env, w: R.World)
    requires R.Observe(cfg, env, w).Go? && !R.Paused(cfg, w.cr)
    ensures PAUSED_TIME !in R.Observe(cfg, env, w).w.cr.annotations
    ensures R.Observe(cfg, env, w).v.resourceExists ==>
              var log := R.Observe(cfg, env, w).w.helmLog;
              log != [] && log[|log| - 1].verb == R.Upgrade
  {
    ObserveStages(cfg, env, w);
  }

  /** Who rests: an observation that succeeds leaves a time of the pause in place exactly if the flag says
      "true" and the time is readable; any other flag, or none, is no pause. */
  lemma RestsExactly(cfg: R.Config, env: R.Env, w: R.World)
    requires R.Observe(cfg, env, w).Go?
    ensures "krateo.io/gracefully-paused-time" in R.Observe(cfg, env, w).w.cr.annotations <==>
            && "krateo.io/gracefully-paused" in w.cr.annotations && w.cr.annotations["krateo.io/gracefully-paused"] == "true"
            && "krateo.io/gracefully-paused-time" in w.cr.annotations
            && cfg.readable(w.cr.annotations["krateo.io/gracefully-paused-time"])
  {
    if R.Paused(cfg, w.cr) {
      PausedHandlersRest(cfg, env, w);
    } else {
      ActiveObserve(cfg, env, w);
    }
  }

  lemma CreateTime(cfg: R.Config, env: R.Env, w: R.World)
    ensures TimeRule(w.cr, R.Create(cfg, env, w).w.cr, false)
  {
    var s1 := R.Local(w);
    if s1.Go? && !R.Paused(cfg, w.cr) {
      var s2 := R.Named(cfg, env, s1.w, s1.w.cr);
      if s2.Go? {
        var s3 := R.UpdateCR(s2.w, s2.v);
        assert s3.w.cr.annotations == w.cr.annotations;
      }
    }
  }

  lemma UpdateTime(cfg: R.Config, env: R.Env, w: R.World)
    ensures TimeRule(w.cr, R.Update(cfg, env, w).w.cr, true)
  {
  }

  lemma DeleteTime(cfg: R.Config, env: R.Env, w: R.World)
    ensures TimeRule(w.cr, R.Delete(cfg, env, w).w.cr, false)
  {
  }

  /** The time of the pause is written by an update that sees the flag, and by nothing else the
      controller does. */
  lemma OnlyFlaggedUpdatesWriteTheTime(cfg: R.Config, w: R.World, e: Event)
    requires !e.Annotating?
    requires PAUSED_TIME !in w.cr.annotations && PAUSED_TIME in Happen(cfg, w, e).cr.annotations
    ensures e.Updating? && IsGracefullyPaused(w.cr)
  {
    match e
    case Observing(env) => ObserveTime(cfg, env, Facing(w, env));
    case Creating(env) => CreateTime(cfg, env, Facing(w, env));
    case Updating(env) => UpdateTime(cfg, env, Facing(w, env));
    case Deleting(env) => DeleteTime(cfg, env, Facing(w, env));
    case Relabelling(_) =>
    case Neighbouring(_) =>
  }

  // ------------------------------------------------------------ updates and deletes that succeed

  function LastOf(w: R.World, name: string): R.Revision
    requires R.History(w, name) != []
  {
    R.History(w, name)[|R.History(w, name)| - 1]
  }

  /** The stored release is the rendered chart. */
  predicate Deployed(env: R.Env, w: R.World, name: string) {
    && R.History(w, name) != []
    && var last := LastOf(w, name);
      !last.pending && last.manifest == env.manifest && last.chartVersion == env.chartVersion
  }

  /** A Helm operation that succeeds leaves the rendered chart as the last revision. */
  lemma HelmOutcome(cfg: R.Config, env: R.Env, w: R.World, name: string, inspected: seq<RbacGen.Resource>)
    ensures var step := R.HelmUpgrade(cfg, env, w, name, inspected);
            step.Go? ==> Deployed(env, step.w, name) && step.v.manifest == env.manifest
    ensures var step := R.HelmInstall(cfg, env, w, name, inspected);
            step.Go? ==> Deployed(env, step.w, name) && step.v.manifest == env.manifest
  {
  }

  /** A fault is still to come. */
  ghost predicate Disturbed(faults: seq<Fault>) {
    exists f :: f in faults && f != Fine
  }

  /** An upgrade of a release that is there fails only for a fault or a pending operation. */
  lemma UpgradeFails(cfg: R.Config, env: R.Env, w: R.World, name: string, inspected: seq<RbacGen.Resource>)
    requires R.History(w, name) != [] && R.HelmUpgrade(cfg, env, w, name, inspected).Halt?
    ensures Disturbed(w.api.faults) || LastOf(w, name).pending
  {
    if !LastOf(w, name).pending {
      assert w.api.faults[0] in w.api.faults;
    }
  }

  lemma FewerFaults(few: seq<Fault>, many: seq<Fault>)
    requires (forall f :: f in few ==> f in many) && Disturbed(few)
    ensures Disturbed(many)
  {
  }

  lemma TailUses(faults: seq<Fault>)
    ensures forall f :: f in Tail(faults) ==> f in faults
  {
  }

  /** A deployment that succeeds, call by call. */
  lemma DeployStages(cfg: R.Config, env: R.Env, w: R.World, name: string) returns (at: R.World, inspected: seq<RbacGen.Resource>)
    requires R.Deploy(cfg, env, w, name).Go?
    ensures R.History(at, name) == R.History(w, name) && forall f :: f in at.api.faults ==> f in w.api.faults
    ensures var step := if R.History(w, name) == [] then R.HelmInstall(cfg, env, at, name, inspected)
                        else R.HelmUpgrade(cfg, env, at, name, inspected);
            && (step.Go? ==> R.Deploy(cfg, env, w, name) == R.Go(step.w, Some(step.v.manifest)))
            && (step.Halt? ==> R.History(w, name) != [] && R.Deploy(cfg, env, w, name) == R.Go(step.w, env.leftover))
  {
    var s1 := R.Local(w);
    var s2 := R.EnsureRBAC(cfg, env, s1.w, name);
    ApplyAllUses(s1.w.api, R.PolicyInput(cfg, s1.w, name, env.inspected.value).Writes(env.order));
    var s3 := R.Local(s2.w);
    var s4 := R.GetRelease(s3.w, name);
    TailUses(w.api.faults);
    TailUses(s2.w.api.faults);
    TailUses(s3.w.api.faults);
    return s4.w, s2.v;
  }

  /** A deployment that succeeds has deployed the rendered chart, unless it met a release and a fault or a
      pending operation. */
  lemma DeployOutcome(cfg: R.Config, env: R.Env, w: R.World, name: string)
    requires R.Deploy(cfg, env, w, name).Go?
    ensures var step := R.Deploy(cfg, env, w, name);
            || (step.v == Some(env.manifest) && Deployed(env, step.w, name))
            || (step.v == env.leftover && R.History(w, name) != [] && (Disturbed(w.api.faults) || LastOf(w, name).pending))
  {
    var at, inspected := DeployStages(cfg, env, w, name);
    HelmOutcome(cfg, env, at, name, inspected);
    if R.History(w, name) != [] && R.HelmUpgrade(cfg, env, at, name, inspected).Halt? {
      UpgradeFails(cfg, env, at, name, inspected);
      if !LastOf(w, name).pending {
        FewerFaults(at.api.faults, w.api.faults);
      }
    }
  }

  /** What a digest and a managed list say about a manifest; Create leaves the list alone when there is
      nothing to put into it, even if it lists objects of an earlier release. */
  ghost predicate Describes(cfg: R.Config, before: Composition, after: Status, manifest: Option<seq<Hasher.byte>>) {
    var text := if manifest.Some? then manifest.value else [];
    var objects := if Blank(text) then Some([]) else ObjectsIn(cfg.grammar(text));
    && after.previousDigest == ""
    && after.digest == Digest(text)
    && objects.Some?
    && (objects.value == [] ==> after.managed == before.status.managed)
    && (objects.value != [] ==> after.managed.Some? && after.managed == EntriesFor(cfg.catalog, objects.value, before.namespace))
  }

  lemma ConcludeDescribes(cfg: R.Config, w: R.World, mg: Composition, info: Info, manifest: Option<seq<Hasher.byte>>)
    requires R.Conclude(cfg, w, mg, info, manifest).Go?
    ensures Describes(cfg, mg, R.Conclude(cfg, w, mg, info, manifest).w.cr.status, manifest)
    ensures var status := R.Conclude(cfg, w, mg, info, manifest).w.cr.status;
            status.helmChartUrl == info.url && status.helmChartVersion == info.version
  {
  }

  /** A create that succeeds ends with a deployment and a conclusion. */
  lemma CreateEnds(cfg: R.Config, env: R.Env, w: R.World) returns (mg: Composition, at: R.World, info: Info)
    requires R.Create(cfg, env, w).Go? && !R.Paused(cfg, w.cr)
    ensures R.Named(cfg, env, w, w.cr) == R.Go(w, mg)
    ensures at.releases == w.releases && at.helmLog == w.helmLog && mg == at.cr == w.cr.(labels := mg.labels)
    ensures at.api == w.api.(faults := Tail(Tail(w.api.faults)))
    ensures Fetch(env.definitions, Wanted(mg.labels, mg.kind)) == Some(info)
    ensures var deployed := R.Deploy(cfg, env, at, GetReleaseName(mg));
            deployed.Go? && R.Create(cfg, env, w) == R.Conclude(cfg, deployed.w, mg, info, deployed.v)
  {
    var s1 := R.Local(w);
    var s2 := R.Named(cfg, env, s1.w, s1.w.cr);
    var s3 := R.UpdateCR(s2.w, s2.v);
    var s4 := R.FetchInfo(env, s3.w, s3.v);
    return s3.v, s4.w, s4.v;
  }

  /** The chart that the definition of the composition names. */
  ghost predicate NamesChart(env: R.Env, cr: Composition) {
    var d := Resolve(env.definitions, Wanted(cr.labels, cr.kind));
    d.Some? && d.value.url == Some(cr.status.helmChartUrl) && d.value.version == cr.status.helmChartVersion
  }

  ghost predicate CreateOutcome(cfg: R.Config, env: R.Env, before: R.World, after: R.World) {
    var name := GetReleaseName(after.cr);
    && NamesChart(env, after.cr)
    && (|| (Deployed(env, after, name) && Describes(cfg, before.cr, after.cr.status, Some(env.manifest)))
        || (R.History(before, name) != [] && (Disturbed(before.api.faults) || LastOf(before, name).pending)
            && Describes(cfg, before.cr, after.cr.status, env.leftover)))
  }

  lemma ConcludeNamesChart(cfg: R.Config, env: R.Env, w: R.World, info: Info, manifest: Option<seq<Hasher.byte>>)
    requires Fetch(env.definitions, Wanted(w.cr.labels, w.cr.kind)) == Some(info)
    requires R.Conclude(cfg, w, w.cr, info, manifest).Go?
    ensures var after := R.Conclude(cfg, w, w.cr, info, manifest).w;
            NamesChart(env, after.cr) && after.releases == w.releases && after.cr.labels == w.cr.labels
  {
    ConcludeDescribes(cfg, w, w.cr, info, manifest);
  }

  lemma ConcludeOutcome(cfg: R.Config, env: R.Env, before: R.World, w: R.World, info: Info, manifest: Option<seq<Hasher.byte>>)
    requires w.cr == before.cr.(labels := w.cr.labels)
    requires Fetch(env.definitions, Wanted(w.cr.labels, w.cr.kind)) == Some(info)
    requires || (manifest == Some(env.manifest) && Deployed(env, w, GetReleaseName(w.cr)))
             || (manifest == env.leftover && R.History(before, GetReleaseName(w.cr)) != []
                 && (Disturbed(before.api.faults) || LastOf(before, GetReleaseName(w.cr)).pending))
    requires R.Conclude(cfg, w, w.cr, info, manifest).Go?
    ensures CreateOutcome(cfg, env, before, R.Conclude(cfg, w, w.cr, info, manifest).w)
  {
    ConcludeNamesChart(cfg, env, w, info, manifest);
    ConcludeDescribes(cfg, w, w.cr, info, manifest);
    assert Describes(cfg, before.cr, R.Conclude(cfg, w, w.cr, info, manifest).w.cr.status, manifest);
  }

  /** A create that succeeds has deployed the chart and describes it, unless the release was there before
      and the upgrade failed, for a fault or a pending operation: then its status describes whatever the
      failed upgrade returned, or nothing. */
  lemma CreateRecordsTheRelease(cfg: R.Config, env: R.Env, w: R.World)
    requires R.Create(cfg, env, w).Go? && !R.Paused(cfg, w.cr)
    ensures CreateOutcome(cfg, env, w, R.Create(cfg, env, w).w)
  {
    var mg, at, info := CreateEnds(cfg, env, w);
    var deployed := R.Deploy(cfg, env, at, GetReleaseName(mg));
    DeployOutcome(cfg, env, at, GetReleaseName(mg));
    if Disturbed(at.api.faults) { FewerFaults(at.api.faults, w.api.faults); }
    ConcludeOutcome(cfg, env, w, deployed.w, info, deployed.v);
  }

  /** The name that the outcome speaks of is the one a caller can compute. */
  lemma CreateKeepsTheName(cfg: R.Config, env: R.Env, w: R.World)
    requires R.Create(cfg, env, w).Go? && !R.Paused(cfg, w.cr)
    ensures R.Named(cfg, env, w, w.cr).Go?
    ensures GetReleaseName(R.Create(cfg, env, w).w.cr) == GetReleaseName(R.Named(cfg, env, w, w.cr).v)
  {
    var mg, at, info := CreateEnds(cfg, env, w);
  }

  ghost predicate UpdateOutcome(cfg: R.Config, env: R.Env, before: Composition, after: Composition, manifest: seq<Hasher.byte>) {
    var status := after.status;
    var objects := if Blank(manifest) then Some([]) else ObjectsIn(cfg.grammar(manifest));
    && NamesChart(env, after)
    && status.digest == Digest(manifest)
    && status.previousDigest == before.status.digest
    && objects.Some? && status.managed.Some? && status.managed == EntriesFor(cfg.catalog, objects.value, before.namespace)
  }

  lemma PublishOutcome(cfg: R.Config, env: R.Env, w: R.World, info: Info, release: R.Revision)
    requires Fetch(env.definitions, Wanted(w.cr.labels, w.cr.kind)) == Some(info)
    requires R.Publish(cfg, env, w, w.cr, info, release).Go?
    ensures var after := R.Publish(cfg, env, w, w.cr, info, release).w;
            after.releases == w.releases && UpdateOutcome(cfg, env, w.cr, after.cr, release.manifest)
  {
    FastEqualsSlow(release.manifest, cfg.grammar);
  }

  /** An update that succeeds has found a definition and a release, in three calls, and publishes them. */
  lemma UpdateFinds(cfg: R.Config, env: R.Env, w: R.World)
    requires R.Update(cfg, env, w).Go? && !R.Paused(cfg, w.cr)
    ensures R.History(w, GetReleaseName(w.cr)) != [] && Fetch(env.definitions, Wanted(w.cr.labels, w.cr.kind)).Some?
  {
  }

  lemma UpdateEnds(cfg: R.Config, env: R.Env, w: R.World)
    requires R.Update(cfg, env, w).Go? && !R.Paused(cfg, w.cr)
    requires R.History(w, GetReleaseName(w.cr)) != [] && Fetch(env.definitions, Wanted(w.cr.labels, w.cr.kind)).Some?
    ensures R.Update(cfg, env, w) ==
            R.Publish(cfg, env, R.Used(R.Used(R.Used(w))), w.cr, Fetch(env.definitions, Wanted(w.cr.labels, w.cr.kind)).value,
                      LastOf(w, GetReleaseName(w.cr)))
  {
    var s1 := R.Used(w);
    assert R.Local(w) == R.Go(s1, ());
    assert R.Local(s1) == R.Go(R.Used(s1), ());
    assert R.GetRelease(R.Used(s1), GetReleaseName(w.cr)) == R.Go(R.Used(R.Used(s1)), Some(LastOf(w, GetReleaseName(w.cr))));
  }

  /** After an update the status describes the stored release: its chart, its digest, the digest
      recorded before, and one managed entry for each of its objects. OneEntryPerObject says what the
      entries are. */
  lemma UpdateRecordsTheRelease(cfg: R.Config, env: R.Env, w: R.World)
    requires R.Update(cfg, env, w).Go? && !R.Paused(cfg, w.cr)
    ensures var name, after := GetReleaseName(w.cr), R.Update(cfg, env, w).w;
            && R.History(w, name) != [] && after.releases == w.releases
            && UpdateOutcome(cfg, env, w.cr, after.cr, LastOf(w, name).manifest)
  {
    UpdateFinds(cfg, env, w);
    UpdateEnds(cfg, env, w);
    PublishOutcome(cfg, env, R.Used(R.Used(R.Used(w))), Fetch(env.definitions, Wanted(w.cr.labels, w.cr.kind)).value,
                   LastOf(w, GetReleaseName(w.cr)));
  }

  lemma RemoveRBACRemoves(cfg: R.Config, env: R.Env, w: R.World, name: string)
    requires R.ValidEnv(env) && R.RemoveRBAC(cfg, env, w, name).Go?
    ensures R.RemoveRBAC(cfg, env, w, name).w.api.store
            == w.api.store - DeletedKeys(R.PolicyInput(cfg, w, name, env.inspected.value))
  {
    var inp := R.PolicyInput(cfg, w, name, env.inspected.value);
    var n := DeleteAllRemoves(w.api, inp.Deletes(env.order));
    assert inp.Deletes(env.order)[..n] == inp.Deletes(env.order);
    DeletesAre(inp, env.order);
  }

  lemma TeardownRemoves(cfg: R.Config, env: R.Env, w: R.World, mg: Composition, name: string)
    requires R.ValidEnv(env) && R.History(w, name) != [] && R.Teardown(cfg, env, w, mg, name).Go?
    ensures var after := R.Teardown(cfg, env, w, mg, name).w;
            && name !in after.releases && after.releases == w.releases - {name}
            && PAUSED_TIME !in after.cr.annotations
            && env.inspected.Some?
            && after.api.store == w.api.store - DeletedKeys(R.PolicyInput(cfg, w, name, env.inspected.value))
  {
    var s1 := R.HelmUninstall(w, name);
    var s2 := R.GetRelease(s1.w, name);
    var s3 := R.Local(s2.w);
    RemoveRBACRemoves(cfg, env, s3.w, name);
  }

  /** A delete that finds a release and succeeds leaves no release, none of its roles and bindings in
      the scopes of the policy, and everything else as it was. One that finds none leaves everything,
      the release's roles and bindings included. */
  lemma DeleteLeavesNothing(cfg: R.Config, env: R.Env, w: R.World)
    requires R.ValidEnv(env) && R.Delete(cfg, env, w).Go? && !R.Paused(cfg, w.cr)
    ensures var name, after := GetReleaseName(w.cr), R.Delete(cfg, env, w).w;
            && (R.History(w, name) == [] ==> SameStored(after, w))
            && (R.History(w, name) != [] ==>
                  && name !in after.releases && after.releases == w.releases - {name}
                  && PAUSED_TIME !in after.cr.annotations
                  && env.inspected.Some?
                  && after.api.store == w.api.store - DeletedKeys(R.PolicyInput(cfg, w, name, env.inspected.value)))
  {
    var name := GetReleaseName(w.cr);
    var s1 := R.Local(w);
    var s2 := R.Local(s1.w);
    var s3 := R.GetRelease(s2.w, name);
    if R.History(w, name) != [] {
      assert R.Teardown(cfg, env, s3.w, w.cr, name).Go?;
      TeardownRemoves(cfg, env, s3.w, w.cr, name);
    }
  }

  /** If the inspector still lists every namespace that an earlier apply put a role into, a delete that
      found a release takes away all that the release's roles gave, and nothing else. */
  lemma DeleteRevokes(cfg: R.Config, env: R.Env, w: R.World, q: Request)
    requires R.ValidEnv(env) && R.Delete(cfg, env, w).Go? && !R.Paused(cfg, w.cr)
    requires R.History(w, GetReleaseName(w.cr)) != [] && env.inspected.Some?
    requires forall key :: key in w.api.store && Own(key, GetReleaseName(w.cr)) ==>
               key in DeletedKeys(R.PolicyInput(cfg, w, GetReleaseName(w.cr), env.inspected.value))
    ensures Authorized(R.Delete(cfg, env, w).w.api.store, ServiceAccount(cfg.saName, cfg.saNamespace), q) <==>
            A.GrantedByOthers(w.api.store, GetReleaseName(w.cr), ServiceAccount(cfg.saName, cfg.saNamespace), q)
  {
    DeleteLeavesNothing(cfg, env, w);
    A.UninstallRevokes(R.PolicyInput(cfg, w, GetReleaseName(w.cr), env.inspected.value), w.api.store, q);
  }
}
