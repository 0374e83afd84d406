/** The controller itself: the handlers as they run, against a cluster, a Helm history and a stored
    composition that they change call by call. Each is tied to its function in Reconcile, and through it
    keeps the invariant of Safety and rests while paused; the driver's round converges. */
module Handler {
  import opened Wrappers
  import opened Kube
  import opened Installer
  import RbacGen
  import opened Meaning
  import opened Processor
  import opened Managed
  import opened Meta
  import opened Resolver
  import opened Safety
  import opened Lifecycle
  import opened Faultless
  import opened Outcomes
  import C = Convergence
  import R = Reconcile
  import Hasher

  /** Everything outside the controller. */
  class Server {
    const cluster: Cluster
    var cr: Composition
    var releases: map<string, seq<R.Revision>>
    var helmLog: seq<R.HelmCall>

    constructor (w: R.World)
      ensures World() == w && fresh(cluster)
    {
      cluster := new Cluster(w.api.store, w.api.faults);
      cr, releases, helmLog := w.cr, w.releases, w.helmLog;
    }

    function World(): R.World
      reads this, cluster
    {
      R.World(cr, releases, cluster.State(), helmLog)
    }

    method NextFault() returns (fault: Fault)
      modifies cluster
      ensures World() == R.Used(old(World())) && fault == R.Next(old(World()))
    {
      fault := Head(cluster.faults);
      cluster.faults := Tail(cluster.faults);
    }

    method Local() returns (ok: bool)
      modifies cluster
      ensures Ends(R.Local(old(World())), World(), if ok then Some(()) else None)
    {
      var fault := NextFault();
      ok := fault == Fine;
    }

    method UpdateCR(mg: Unstructured) returns (r: Option<Unstructured>)
      modifies this`cr, cluster
      ensures var step := R.UpdateCR(old(World()), mg.Value());
              World() == step.w && (r.Some? <==> step.Go?) && (r.Some? ==> fresh(r.value) && r.value.Value() == step.v)
    {
      var fault := NextFault();
      if fault.Lands() { cr := cr.(labels := mg.labels, annotations := mg.annotations); }
      if fault != Fine { return None; }
      var stored := new Unstructured.DeepCopy(cr);
      r := Some(stored);
    }

    method UpdateStatusCR(mg: Unstructured) returns (r: Option<Unstructured>)
      modifies this`cr, cluster
      ensures var step := R.UpdateStatusCR(old(World()), mg.Value());
              World() == step.w && (r.Some? <==> step.Go?) && (r.Some? ==> fresh(r.value) && r.value.Value() == step.v)
    {
      var fault := NextFault();
      if fault.Lands() { cr := cr.(status := mg.status); }
      if fault != Fine { return None; }
      var stored := new Unstructured.DeepCopy(cr);
      r := Some(stored);
    }

    function History(name: string): seq<R.Revision>
      reads this
    {
      if name in releases then releases[name] else []
    }

    method GetRelease(name: string) returns (r: Option<Option<R.Revision>>)
      modifies cluster
      ensures Ends(R.GetRelease(old(World()), name), World(), r)
    {
      var fault := NextFault();
      if fault != Fine { return None; }
      var history := History(name);
      r := Some(if |history| == 0 then None else Some(history[|history| - 1]));
    }

    /** Store a new revision, as far as the fault lets it. */
    method Make(fault: Fault, name: string, rev: R.Revision, maxHistory: nat) returns (r: Option<R.Revision>)
      modifies this`releases
      ensures Ends(R.Makes(fault, old(World()), name, rev, maxHistory), World(), r)
    {
      if fault.Lands() || fault.Stuck? {
        var history := History(name) + [rev.(pending := if fault.Stuck? then true else rev.pending)];
        if maxHistory != 0 && |history| > maxHistory {
          history := history[|history| - maxHistory..];
        }
        releases := releases[name := history];
      }
      r := if fault == Fine then Some(rev) else None;
    }

    method HelmInstall(cfg: R.Config, env: R.Env, name: string, inspected: seq<RbacGen.Resource>) returns (r: Option<R.Revision>)
      modifies this`releases, this`helmLog, cluster
      ensures Ends(R.HelmInstall(cfg, env, old(World()), name, inspected), World(), r)
    {
      var fault := NextFault();
      helmLog := helmLog + [R.HelmCall(R.Install, name)];
      if History(name) != [] { return None; }
      r := Make(fault, name, R.Revision(env.manifest, env.chartVersion, false, inspected), cfg.maxHistory);
    }

    method HelmUpgrade(cfg: R.Config, env: R.Env, name: string, inspected: seq<RbacGen.Resource>) returns (r: Option<R.Revision>)
      modifies this`releases, this`helmLog, cluster
      ensures Ends(R.HelmUpgrade(cfg, env, old(World()), name, inspected), World(), r)
    {
      var fault := NextFault();
      helmLog := helmLog + [R.HelmCall(R.Upgrade, name)];
      var history := History(name);
      if history == [] { return None; }
      var last := history[|history| - 1];
      if last.pending { return None; }
      if env.skipsUnchanged && fault == Fine
         && last.manifest == env.manifest && last.chartVersion == env.chartVersion {
        return Some(last);
      }
      r := Make(fault, name, R.Revision(env.manifest, env.chartVersion, false, inspected), cfg.maxHistory);
    }

    method HelmRollback(cfg: R.Config, env: R.Env, name: string) returns (r: Option<R.Revision>)
      modifies this`releases, this`helmLog, cluster
      ensures Ends(R.HelmRollback(cfg, env, old(World()), name), World(), r)
    {
      var fault := NextFault();
      helmLog := helmLog + [R.HelmCall(R.Rollback, name)];
      var history := History(name);
      if history == [] { return None; }
      r := Make(fault, name, history[env.rollbackTo % |history|].(pending := false), cfg.maxHistory);
    }

    method HelmUninstall(name: string) returns (ok: bool)
      modifies this`releases, this`helmLog, cluster
      ensures Ends(R.HelmUninstall(old(World()), name), World(), if ok then Some(()) else None)
    {
      var fault := NextFault();
      helmLog := helmLog + [R.HelmCall(R.Uninstall, name)];
      if fault.Lands() { releases := releases - {name}; }
      ok := fault == Fine || fault == Ignored;
    }
  }

  /** The function's outcome, seen from the method: the world it leaves and the value it returns. */
  predicate Ends<T(==)>(step: R.Step<T>, w: R.World, r: Option<T>) {
    step.w == w && (step.Go? <==> r.Some?) && (step.Go? ==> r.value == step.v)
  }

  class Handler {
    const cfg: R.Config
    const server: Server

    constructor (cfg: R.Config, server: Server)
      ensures this.cfg == cfg && this.server == server
    {
      this.cfg, this.server := cfg, server;
    }

    predicate IsPaused(mg: Unstructured)
      reads mg
    {
      PAUSED_TIME in mg.annotations && cfg.readable(mg.annotations[PAUSED_TIME]) && Lookup(mg.annotations, PAUSED) == "true"
    }

    /** Calculate the release name and record it, unless the label is there already; false is the
        panic on a UID too short to slice. */
    method NameRelease(env: R.Env, mg: Unstructured) returns (ok: bool)
      modifies mg`labels
      ensures var step := R.Named(cfg, env, server.World(), old(mg.Value()));
              ok == step.Go? && (ok ==> mg.Value() == step.v)
    {
      var name := CalculateReleaseName(mg.Value(), cfg.safeReleaseName, env.draw);
      if name.None? { return false; }
      mg.SetReleaseName(name.value);
      ok := true;
    }

    method GetInfo(env: R.Env, mg: Unstructured) returns (info: Option<Info>)
      ensures Ends(R.FetchInfo(env, server.World(), mg.Value()), server.World(), info)
    {
      var getter := new DynamicGetter(env.definitions);
      info := getter.Get(Wanted(mg.labels, mg.identity.kind));
    }

    method EnsureRBAC(env: R.Env, name: string) returns (r: Option<seq<RbacGen.Resource>>)
      requires R.ValidEnv(env)
      modifies server.cluster
      ensures Ends(R.EnsureRBAC(cfg, env, old(server.World()), name), server.World(), r)
      ensures r.Some? ==> OwnGrants(server.World().api.store, name, ServiceAccount(cfg.saName, cfg.saNamespace), r.value)
    {
      EnsureRBACGrants(cfg, env, server.World(), name);
      var rbgen := new RbacGen.RBACGen(cfg.saName, cfg.saNamespace);
      rbgen.WithBaseName(name);
      var generated := rbgen.Generate(env.inspected, server.cr.namespace);
      if generated.None? { return None; }
      var installer := new RBACInstaller(server.cluster);
      PolicyWrites(R.PolicyInput(cfg, server.World(), name, env.inspected.value), env.order);
      var ok := installer.ApplyRBAC(generated, env.order);
      r := if ok then env.inspected else None;
    }

    method RemoveRBAC(env: R.Env, name: string) returns (ok: bool)
      requires R.ValidEnv(env)
      modifies server.cluster
      ensures Ends(R.RemoveRBAC(cfg, env, old(server.World()), name), server.World(), if ok then Some(()) else None)
      ensures ok ==> env.inspected.Some? && server.World().api.store ==
                     old(server.World().api.store) - DeletedKeys(R.PolicyInput(cfg, old(server.World()), name, env.inspected.value))
    {
      if R.RemoveRBAC(cfg, env, server.World(), name).Go? { RemoveRBACRemoves(cfg, env, server.World(), name); }
      var rbgen := new RbacGen.RBACGen(cfg.saName, cfg.saNamespace);
      rbgen.WithBaseName(name);
      var generated := rbgen.Generate(env.inspected, server.cr.namespace);
      if generated.None? { return false; }
      var installer := new RBACInstaller(server.cluster);
      PolicyWrites(R.PolicyInput(cfg, server.World(), name, env.inspected.value), env.order);
      ok := installer.UninstallRBAC(generated, env.order);
    }

    // ---------------------------------------------------------- Observe

    method ObserveCalls(env: R.Env) returns (r: Option<R.Observation>)
      requires R.ValidEnv(env)
      modifies server, server.cluster
      ensures Ends(R.Observe(cfg, env, old(server.World())), server.World(), r)
    {
      var mg := new Unstructured.DeepCopy(server.cr);
      var ok := server.Local();
      if !ok { return None; }
      ok := NameRelease(env, mg);
      if !ok { return None; }
      if IsPaused(mg) { return Some(R.Observation(true, true)); }

      var found := Locate(env, mg);
      if found.None? { return None; }
      var (current, info, name, release) := found.value;
      if release.None? { return Some(R.Observation(false, false)); }
      var pair := Refresh(env, name, release.value);
      if pair.None? { return None; }
      r := Judge(current, info, pair.value.0, pair.value.1);
    }

    method Locate(env: R.Env, mg: Unstructured) returns (r: Option<(Unstructured, Info, string, Option<R.Revision>)>)
      modifies server, server.cluster, mg
      ensures var step := R.Locate(env, old(server.World()), old(mg.Value()));
              && server.World() == step.w && (r.Some? <==> step.Go?)
              && (r.Some? ==> fresh(r.value.0) && step.v == R.Located(r.value.0.Value(), r.value.1, r.value.2, r.value.3))
    {
      var name := Lookup(mg.labels, RELEASE_NAME);
      mg.RemoveGracefullyPausedTime();
      var stored := server.UpdateCR(mg);
      if stored.None? { return None; }
      var current := stored.value;
      var info := GetInfo(env, current);
      if info.None? { return None; }
      current.SetCompositionDefinitionLabels(info.value.definition);
      stored := server.UpdateCR(current);
      if stored.None? { return None; }
      current := stored.value;
      var ok := server.Local();
      if !ok { return None; }
      var release := server.GetRelease(name);
      if release.None? { return None; }
      r := Some((current, info.value, name, release.value));
    }

    method Refresh(env: R.Env, name: string, found: R.Revision) returns (r: Option<(R.Revision, R.Revision)>)
      requires R.ValidEnv(env)
      modifies server, server.cluster
      ensures Ends(R.Refresh(cfg, env, old(server.World()), name, found), server.World(), r)
    {
      var rel := found;
      if rel.pending {
        var restored := server.HelmRollback(cfg, env, name);
        if restored.None? { return None; }
        rel := restored.value;
      }
      var ok := server.Local();
      if !ok { return None; }
      var inspected := EnsureRBAC(env, name);
      if inspected.None? {
        var _ := server.NextFault();
        return None;
      }
      ok := server.Local();
      if !ok { return None; }
      var upgraded := server.HelmUpgrade(cfg, env, name, inspected.value);
      if upgraded.None? {
        var _ := server.NextFault();
        return None;
      }
      r := Some((rel, upgraded.value));
    }

    method Judge(mg: Unstructured, info: Info, rel: R.Revision, upgraded: R.Revision) returns (r: Option<R.Observation>)
      modifies server, server.cluster, mg
      ensures Ends(R.Judge(cfg, old(server.World()), old(mg.Value()), info, rel, upgraded), server.World(), r)
    {
      var digest := ComputeReleaseDigest(upgraded.manifest);
      var previousDigest := mg.status.digest;
      if previousDigest == "" {
        previousDigest := ComputeReleaseDigest(rel.manifest);
      }
      if digest != previousDigest { return Some(R.Observation(true, false)); }
      if rel.chartVersion != upgraded.chartVersion { return Some(R.Observation(true, false)); }
      var ok := mg.SetStatus(cfg.catalog, StatusOpts(info.url, info.version, [], previousDigest, digest));
      if !ok { return None; }
      var stored := server.UpdateStatusCR(mg);
      if stored.None? { return None; }
      r := Some(R.Observation(true, true));
    }

    // ---------------------------------------------------------- Create

    method CreateCalls(env: R.Env) returns (ok: bool)
      requires R.ValidEnv(env)
      modifies server, server.cluster
      ensures Ends(R.Create(cfg, env, old(server.World())), server.World(), if ok then Some(()) else None)
    {
      var mg := new Unstructured.DeepCopy(server.cr);
      ok := server.Local();
      if !ok { return; }
      if IsPaused(mg) { return true; }
      ok := NameRelease(env, mg);
      if !ok { return; }
      var name := Lookup(mg.labels, RELEASE_NAME);
      var stored := server.UpdateCR(mg);
      if stored.None? { return false; }
      mg := stored.value;
      var info := GetInfo(env, mg);
      if info.None? { return false; }
      var manifest := Deploy(env, name);
      if manifest.None? { return false; }
      ok := Conclude(mg, info.value, manifest.value);
    }

    method Deploy(env: R.Env, name: string) returns (r: Option<Option<seq<Hasher.byte>>>)
      requires R.ValidEnv(env)
      modifies server, server.cluster
      ensures Ends(R.Deploy(cfg, env, old(server.World()), name), server.World(), r)
    {
      var ok := server.Local();
      if !ok { return None; }
      var inspected := EnsureRBAC(env, name);
      if inspected.None? { return None; }
      ok := server.Local();
      if !ok { return None; }
      var release := server.GetRelease(name);
      if release.None? { return None; }
      if release.value.Some? {
        var upgraded := server.HelmUpgrade(cfg, env, name, inspected.value);
        return Some(if upgraded.Some? then Some(upgraded.value.manifest) else env.leftover);
      }
      var installed := server.HelmInstall(cfg, env, name, inspected.value);
      if installed.None? { return None; }
      r := Some(Some(installed.value.manifest));
    }

    method Conclude(mg: Unstructured, info: Info, manifest: Option<seq<Hasher.byte>>) returns (ok: bool)
      modifies server, server.cluster, mg
      ensures Ends(R.Conclude(cfg, old(server.World()), old(mg.Value()), info, manifest), server.World(),
                   if ok then Some(()) else None)
    {
      var decoded := DecodeRelease(manifest, cfg.grammar);
      if decoded.None? { return false; }
      var (all, digest) := decoded.value;
      ok := mg.SetStatus(cfg.catalog, StatusOpts(info.url, info.version, all, "", digest));
      if !ok { return; }
      var stored := server.UpdateStatusCR(mg);
      if stored.None? { return false; }
      stored.value.RemoveGracefullyPausedTime();
      stored := server.UpdateCR(stored.value);
      ok := stored.Some?;
    }

    // ---------------------------------------------------------- Update

    method UpdateCalls(env: R.Env) returns (ok: bool)
      modifies server, server.cluster
      ensures Ends(R.Update(cfg, env, old(server.World())), server.World(), if ok then Some(()) else None)
    {
      var mg := new Unstructured.DeepCopy(server.cr);
      var name := Lookup(mg.labels, RELEASE_NAME);
      ok := server.Local();
      if !ok { return; }
      if IsPaused(mg) { return true; }
      var info := GetInfo(env, mg);
      if info.None? { return false; }
      ok := server.Local();
      if !ok { return; }
      var release := server.GetRelease(name);
      if release.None? { return false; }
      if release.value.None? { return false; }
      ok := Publish(env, mg, info.value, release.value.value);
    }

    method Publish(env: R.Env, copy: Unstructured, info: Info, release: R.Revision) returns (ok: bool)
      modifies server, server.cluster, copy
      ensures Ends(R.Publish(cfg, env, old(server.World()), old(copy.Value()), info, release), server.World(),
                   if ok then Some(()) else None)
    {
      var mg := copy;
      var previousDigest := mg.status.digest;
      var decoded := DecodeRelease(Some(release.manifest), cfg.grammar);
      if decoded.None? { return false; }
      var (all, digest) := decoded.value;
      var managed := PopulateManagedResources(cfg.catalog, all, mg.identity.namespace);
      if managed.None? { return false; }
      mg.SetManagedResources(managed.value);
      ok := mg.SetStatus(cfg.catalog, StatusOpts(info.url, info.version, all, previousDigest, digest));
      if !ok { return; }
      var stored := server.UpdateStatusCR(mg);
      if stored.None? { return false; }
      mg := stored.value;
      if Lookup(mg.annotations, PAUSED) == "true" {
        mg.SetGracefullyPausedTime(env.now);
      } else {
        mg.RemoveGracefullyPausedTime();
      }
      stored := server.UpdateCR(mg);
      ok := stored.Some?;
    }

    // ---------------------------------------------------------- Delete

    method DeleteCalls(env: R.Env) returns (ok: bool)
      requires R.ValidEnv(env)
      modifies server, server.cluster
      ensures Ends(R.Delete(cfg, env, old(server.World())), server.World(), if ok then Some(()) else None)
    {
      var mg := new Unstructured.DeepCopy(server.cr);
      var name := Lookup(mg.labels, RELEASE_NAME);
      ok := server.Local();
      if !ok { return; }
      if IsPaused(mg) { return true; }
      ok := server.Local();
      if !ok { return; }
      var info := GetInfo(env, mg);
      if info.None? { return false; }
      var release := server.GetRelease(name);
      if release.None? { return false; }
      if release.value.None? { return true; }
      ok := Teardown(env, mg, name);
    }

    method Teardown(env: R.Env, mg: Unstructured, name: string) returns (ok: bool)
      requires R.ValidEnv(env)
      modifies server, server.cluster, mg
      ensures Ends(R.Teardown(cfg, env, old(server.World()), old(mg.Value()), name), server.World(),
                   if ok then Some(()) else None)
    {
      ok := server.HelmUninstall(name);
      if !ok { return; }
      var release := server.GetRelease(name);
      if release.None? { return false; }
      if release.value.Some? { return false; }
      ok := CleanUp(env, mg, name);
    }

    method CleanUp(env: R.Env, mg: Unstructured, name: string) returns (ok: bool)
      requires R.ValidEnv(env)
      modifies server, server.cluster, mg
      ensures Ends(R.CleanUp(cfg, env, old(server.World()), old(mg.Value()), name), server.World(),
                   if ok then Some(()) else None)
    {
      ok := server.Local();
      if !ok { return; }
      ok := RemoveRBAC(env, name);
      if !ok { return; }
      mg.RemoveGracefullyPausedTime();
      var stored := server.UpdateCR(mg);
      ok := stored.Some?;
    }

    // ---------------------------------------------------------- what the handlers keep

    method Observe(env: R.Env) returns (r: Option<R.Observation>)
      requires R.ValidEnv(env)
      modifies server, server.cluster
      ensures Ends(R.Observe(cfg, env, old(server.World())), server.World(), r)
      ensures Kept(cfg, old(server.World()), server.World())
    {
      ObserveKept(cfg, env, server.World());
      r := ObserveCalls(env);
    }

    method Create(env: R.Env) returns (ok: bool)
      requires R.ValidEnv(env)
      modifies server, server.cluster
      ensures Ends(R.Create(cfg, env, old(server.World())), server.World(), if ok then Some(()) else None)
      ensures Kept(cfg, old(server.World()), server.World())
      ensures Deploys(cfg, env, old(server.World())) ==> ok && DeployedAndDescribed(cfg, env, old(server.World()), server.World())
    {
      CreateKept(cfg, env, server.World());
      if Deploys(cfg, env, server.World()) {
        ghost var after := CreateDeploys(cfg, env, server.World(), GetReleaseName(NamedCR(cfg, env, server.World().cr)));
      }
      ok := CreateCalls(env);
    }

    method Update(env: R.Env) returns (ok: bool)
      modifies server, server.cluster
      ensures Ends(R.Update(cfg, env, old(server.World())), server.World(), if ok then Some(()) else None)
      ensures Kept(cfg, old(server.World()), server.World())
    {
      UpdateKept(cfg, env, server.World());
      ok := UpdateCalls(env);
    }

    method Delete(env: R.Env) returns (ok: bool)
      requires R.ValidEnv(env)
      modifies server, server.cluster
      ensures Ends(R.Delete(cfg, env, old(server.World())), server.World(), if ok then Some(()) else None)
      ensures Kept(cfg, old(server.World()), server.World())
      ensures Removes(cfg, env, old(server.World())) ==> ok && ReleaseAndRolesGone(cfg, env, old(server.World()), server.World())
    {
      DeleteKept(cfg, env, server.World());
      if Removes(cfg, env, server.World()) {
        ghost var after := DeleteSucceeds(cfg, env, server.World());
      }
      ok := DeleteCalls(env);
    }
  }

  /** Permission before release and one release name survive the call; a paused composition, its release
      and its permissions are left as they are. */
  ghost predicate Kept(cfg: R.Config, before: R.World, after: R.World) {
    && (Inv(cfg, before) ==> Inv(cfg, after))
    && (R.Paused(cfg, before.cr) ==> SameStored(after, before))
  }

  /** Nothing stands in the way of a create: no fault, no pause, and no Helm operation that is pending. */
  ghost predicate Deploys(cfg: R.Config, env: R.Env, before: R.World) {
    Calm(cfg, env, before) && !R.Paused(cfg, before.cr) && !Stalled(before, GetReleaseName(NamedCR(cfg, env, before.cr)))
  }

  /** With a release there before or without, the chart is deployed and the status describes it. */
  ghost predicate DeployedAndDescribed(cfg: R.Config, env: R.Env, before: R.World, after: R.World)
    requires Calm(cfg, env, before)
  {
    && Deployed(env, after, GetReleaseName(NamedCR(cfg, env, before.cr)))
    && Describes(cfg, before.cr, after.cr.status, Some(env.manifest))
  }

  /** Nothing stands in the way of a delete, and there is something to delete. */
  ghost predicate Removes(cfg: R.Config, env: R.Env, before: R.World) {
    && before.api.faults == [] && env.inspected.Some? && !R.Paused(cfg, before.cr) && Defined(env, before.cr)
    && R.History(before, GetReleaseName(before.cr)) != []
  }

  ghost predicate ReleaseAndRolesGone(cfg: R.Config, env: R.Env, before: R.World, after: R.World)
    requires env.inspected.Some?
  {
    && after.releases == before.releases - {GetReleaseName(before.cr)}
    && after.api.store == before.api.store - DeletedKeys(R.PolicyInput(cfg, before, GetReleaseName(before.cr), env.inspected.value))
    && after.cr == before.cr.(annotations := before.cr.annotations - {PAUSED_TIME})
  }

  lemma ObserveKept(cfg: R.Config, env: R.Env, w: R.World)
    requires R.ValidEnv(env)
    ensures Kept(cfg, w, R.Observe(cfg, env, w).w)
  {
    if Inv(cfg, w) { ObserveKeeps(cfg, env, w); }
    if R.Paused(cfg, w.cr) { PausedHandlersRest(cfg, env, w); }
  }

  lemma CreateKept(cfg: R.Config, env: R.Env, w: R.World)
    requires R.ValidEnv(env)
    ensures Kept(cfg, w, R.Create(cfg, env, w).w)
  {
    if Inv(cfg, w) { CreateKeeps(cfg, env, w); }
    if R.Paused(cfg, w.cr) { PausedHandlersRest(cfg, env, w); }
  }

  lemma UpdateKept(cfg: R.Config, env: R.Env, w: R.World)
    ensures Kept(cfg, w, R.Update(cfg, env, w).w)
  {
    if Inv(cfg, w) { UpdateKeeps(cfg, env, w); }
    if R.Paused(cfg, w.cr) { PausedHandlersRest(cfg, env, w); }
  }

  lemma DeleteKept(cfg: R.Config, env: R.Env, w: R.World)
    requires R.ValidEnv(env)
    ensures Kept(cfg, w, R.Delete(cfg, env, w).w)
  {
    if Inv(cfg, w) { DeleteKeeps(cfg, env, w); }
    if R.Paused(cfg, w.cr) { PausedHandlersRest(cfg, env, w); }
  }

  /** Whoever calls the handlers: it observes, and then does what the observation asks for. */
  class Driver {
    const handler: Handler

    constructor (handler: Handler)
      ensures this.handler == handler
    {
      this.handler := handler;
    }

    method HandleObservation(env: R.Env, observation: R.Observation) returns (ok: bool)
      requires R.ValidEnv(env)
      modifies handler.server, handler.server.cluster
      ensures Ends(C.Dispatch(handler.cfg, env, old(handler.server.World()), observation), handler.server.World(),
                   if ok then Some(()) else None)
      ensures Kept(handler.cfg, old(handler.server.World()), handler.server.World())
    {
      if observation.resourceExists && observation.resourceUpToDate {
        var again := handler.Observe(env);
        ok := again.Some?;
      } else if !observation.resourceExists && observation.resourceUpToDate {
        ok := handler.Delete(env);
      } else if observation.resourceExists && !observation.resourceUpToDate {
        ok := handler.Update(env);
      } else {
        ok := handler.Create(env);
      }
    }

    /** One round. When nothing fails and the composition is not paused, it succeeds, and the release is
        the rendered chart, its digest is recorded, and the composition is exactly as predicted. */
    method Reconcile(env: R.Env, acting: R.Env) returns (ok: bool)
      requires R.ValidEnv(env) && R.ValidEnv(acting)
      modifies handler.server, handler.server.cluster
      ensures Ends(C.Round(handler.cfg, env, acting, old(handler.server.World())), handler.server.World(),
                   if ok then Some(()) else None)
      ensures Inv(handler.cfg, old(handler.server.World())) ==> Inv(handler.cfg, handler.server.World())
      ensures var before := old(handler.server.World());
              Calm(handler.cfg, env, before) && SameInputs(env, acting) && !R.Paused(handler.cfg, before.cr) ==>
                && ok && Current(env, handler.server.World())
                && handler.server.World().cr == C.RoundCR(handler.cfg, env, acting, before)
    {
      ghost var before := handler.server.World();
      if Calm(handler.cfg, env, before) && SameInputs(env, acting) && !R.Paused(handler.cfg, before.cr) {
        C.RoundCalm(handler.cfg, env, acting, before);
        C.RoundMakesCurrent(handler.cfg, env, acting, acting, before);
      }
      var observation := handler.Observe(env);
      if observation.None? { return false; }
      ok := HandleObservation(acting, observation.value);
    }
  }
}
