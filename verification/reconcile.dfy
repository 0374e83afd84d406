/** The reconcile handlers (internal/composition/composition.go) as functions from the state of the
    outside world to the next one. Every call to the outside takes the next fault of the script, so
    that a handler can be cut short after each of them. */
module Reconcile {
  import opened Wrappers
  import opened Kube
  import opened Installer
  import Hasher
  import Policy
  import RbacGen
  import opened Meaning
  import opened Processor
  import opened Managed
  import opened Meta
  import opened Resolver

  /** A revision in Helm's history. inspected is bookkeeping: the inspector's list for which RBAC was
      applied before the revision was made. */
  datatype Revision = Revision(manifest: seq<Hasher.byte>, chartVersion: string, pending: bool, inspected: seq<RbacGen.Resource>)

  datatype HelmVerb = Install | Upgrade | Rollback | Uninstall

  datatype HelmCall = HelmCall(verb: HelmVerb, release: string)

  datatype World = World(
    cr: Composition,
    releases: map<string, seq<Revision>>,
    api: Api,
    helmLog: seq<HelmCall>)

  /** The fields of the handler, and the parts of the environment that never change. */
  datatype Config = Config(
    saName: string,
    saNamespace: string,
    safeReleaseName: bool,
    catalog: Catalog,
    grammar: Grammar,
    readable: string -> bool,
    maxHistory: nat) {
    function Sa(): Subject { ServiceAccount(saName, saNamespace) }
  }

  /** What the outside answers during one call of a handler: random draws, definitions, the chart
      inspector, a map order, the rendered chart, and the clock. skipsUnchanged tells whether the Helm
      client records an upgrade that changes nothing; rollbackTo picks the revision that a rollback
      restores; leftover is what a failed upgrade returns beside its error. */
  datatype Env = Env(
    draw: string,
    definitions: Definitions,
    inspected: Option<seq<RbacGen.Resource>>,
    order: seq<string>,
    manifest: seq<Hasher.byte>,
    chartVersion: string,
    skipsUnchanged: bool,
    rollbackTo: nat,
    leftover: Option<seq<Hasher.byte>>,
    now: string,
    faults: seq<Fault>)

  /** A handler that goes on, with a value, or has returned an error. */
  datatype Step<+T> = Go(w: World, v: T) | Halt(w: World) {
    predicate IsFailure() { Halt? }

    function PropagateFailure<U>(): Step<U>
      requires Halt?
    {
      Halt(w)
    }

    function Extract(): (World, T)
      requires Go?
    {
      (w, v)
    }
  }

  datatype Observation = Observation(resourceExists: bool, resourceUpToDate: bool)

  // ------------------------------------------------------------ calls to the outside

  function Next(w: World): Fault { Head(w.api.faults) }

  function Used(w: World): World { w.(api := w.api.(faults := Tail(w.api.faults))) }

  /** Building clients and values, converting kinds: may fail, changes nothing. */
  function Local(w: World): Step<()> {
    if Next(w) == Fine then Go(Used(w), ()) else Halt(Used(w))
  }

  /** A write reaches the server or not, and its answer reaches the caller or not. */
  function Answer<T>(fault: Fault, before: World, after: World, v: T): Step<T> {
    match fault
    case Fine => Go(after, v)
    case Unacked => Halt(after)
    case _ => Halt(before)
  }

  /** tools.Update writes everything but the status. */
  function UpdateCR(w: World, mg: Composition): Step<Composition> {
    var cr := w.cr.(labels := mg.labels, annotations := mg.annotations);
    Answer(Next(w), Used(w), Used(w).(cr := cr), cr)
  }

  /** tools.UpdateStatus writes the status only. */
  function UpdateStatusCR(w: World, mg: Composition): Step<Composition> {
    var cr := w.cr.(status := mg.status);
    Answer(Next(w), Used(w), Used(w).(cr := cr), cr)
  }

  function History(w: World, name: string): seq<Revision> {
    if name in w.releases then w.releases[name] else []
  }

  function GetRelease(w: World, name: string): Step<Option<Revision>> {
    if Next(w) != Fine then Halt(Used(w))
    else Go(Used(w), if History(w, name) == [] then None else Some(History(w, name)[|History(w, name)| - 1]))
  }

  /** Helm keeps the last maxHistory revisions, all of them when that is 0. */
  function Trim(history: seq<Revision>, maxHistory: nat): seq<Revision> {
    if maxHistory == 0 || |history| <= maxHistory then history else history[|history| - maxHistory..]
  }

  function Recorded(w: World, name: string, rev: Revision, maxHistory: nat): World {
    w.(releases := w.releases[name := Trim(History(w, name) + [rev], maxHistory)])
  }

  function Logged(w: World, verb: HelmVerb, name: string): World {
    Used(w).(helmLog := w.helmLog + [HelmCall(verb, name)])
  }

  /** A Helm operation that makes a revision: a fault may also leave it behind as pending. */
  function Makes(fault: Fault, w: World, name: string, rev: Revision, maxHistory: nat): (r: Step<Revision>)
    ensures r.w == w.(releases := r.w.releases)
  {
    match fault
    case Fine => Go(Recorded(w, name, rev, maxHistory), rev)
    case Unacked => Halt(Recorded(w, name, rev, maxHistory))
    case Stuck => Halt(Recorded(w, name, rev.(pending := true), maxHistory))
    case _ => Halt(w)
  }

  function HelmInstall(cfg: Config, env: Env, w: World, name: string, inspected: seq<RbacGen.Resource>): (r: Step<Revision>)
    ensures r.w == Logged(w, Install, name).(releases := r.w.releases)
  {
    var logged := Logged(w, Install, name);
    if History(w, name) != [] then Halt(logged)
    else Makes(Next(w), logged, name, Revision(env.manifest, env.chartVersion, false, inspected), cfg.maxHistory)
  }

  /** Helm refuses to upgrade a release that is missing or has an operation pending. */
  function HelmUpgrade(cfg: Config, env: Env, w: World, name: string, inspected: seq<RbacGen.Resource>): (r: Step<Revision>)
    ensures r.w == Logged(w, Upgrade, name).(releases := r.w.releases)
  {
    var logged, history := Logged(w, Upgrade, name), History(w, name);
    var rev := Revision(env.manifest, env.chartVersion, false, inspected);
    if history == [] || history[|history| - 1].pending then Halt(logged)
    else
      var last := history[|history| - 1];
      if env.skipsUnchanged && Next(w) == Fine
         && last.manifest == rev.manifest && last.chartVersion == rev.chartVersion
      then Go(logged, last)
      else Makes(Next(w), logged, name, rev, cfg.maxHistory)
  }

  function HelmRollback(cfg: Config, env: Env, w: World, name: string): (r: Step<Revision>)
    ensures r.w == Logged(w, Rollback, name).(releases := r.w.releases)
  {
    var logged, history := Logged(w, Rollback, name), History(w, name);
    if history == [] then Halt(logged)
    else Makes(Next(w), logged, name, history[env.rollbackTo % |history|].(pending := false), cfg.maxHistory)
  }

  /** An uninstall may also be acknowledged without effect, which is why its caller looks again. */
  function HelmUninstall(w: World, name: string): Step<()> {
    var logged := Logged(w, Uninstall, name);
    if Next(w) == Ignored then Go(logged, ())
    else Answer(Next(w), logged, logged.(releases := logged.releases - {name}), ())
  }

  function FetchInfo(env: Env, w: World, mg: Composition): Step<Info> {
    match Fetch(env.definitions, Wanted(mg.labels, mg.kind))
    case Some(info) => Go(w, info)
    case None => Halt(w)
  }

  function PolicyInput(cfg: Config, w: World, name: string, inspected: seq<RbacGen.Resource>): Input {
    Input(inspected, name, w.cr.namespace, cfg.Sa())
  }

  /** Generate the policy of the release and apply it; the value is the inspector's list. */
  function EnsureRBAC(cfg: Config, env: Env, w: World, name: string): (r: Step<seq<RbacGen.Resource>>)
    ensures r.w == w.(api := r.w.api)
  {
    if env.inspected.None? then Halt(w)
    else
      var (api, ok) := ApplyAll(w.api, PolicyInput(cfg, w, name, env.inspected.value).Writes(env.order));
      if ok then Go(w.(api := api), env.inspected.value) else Halt(w.(api := api))
  }

  /** The map order that the environment picks is an order of the policy's namespaces. */
  ghost predicate ValidEnv(env: Env) {
    env.inspected.Some? ==> Policy.IsOrder(env.order, RbacGen.NamespacesOf(env.inspected.value))
  }

  function RemoveRBAC(cfg: Config, env: Env, w: World, name: string): (r: Step<()>)
    ensures r.w == w.(api := r.w.api)
  {
    if env.inspected.None? then Halt(w)
    else
      var (api, ok) := DeleteAll(w.api, PolicyInput(cfg, w, name, env.inspected.value).Deletes(env.order));
      if ok then Go(w.(api := api), ()) else Halt(w.(api := api))
  }

  /** Observe reports these failures in a condition; the status update may fail in its turn. */
  function Reporting<T>(s: Step<T>): Step<T> {
    match s
    case Go(_, _) => s
    case Halt(w) => Halt(Used(w))
  }

  predicate Paused(cfg: Config, mg: Composition) {
    HasPausedTime(mg, cfg.readable) && IsGracefullyPaused(mg)
  }

  function Named(cfg: Config, env: Env, w: World, mg: Composition): Step<Composition> {
    match CalculateReleaseName(mg, cfg.safeReleaseName, env.draw)
    case None => Halt(w)
    case Some(name) => Go(w, mg.(labels := WithReleaseName(mg.labels, name)))
  }

  // ------------------------------------------------------------ Observe

  datatype Located = Located(mg: Composition, info: Info, name: string, release: Option<Revision>)

  function Observe(cfg: Config, env: Env, w: World): (r: Step<Observation>)
    ensures r.w.cr.annotations == w.cr.annotations || r.w.cr.annotations == w.cr.annotations - {PAUSED_TIME}
  {
    var (w, _) :- Local(w);
    var (w, mg) :- Named(cfg, env, w, w.cr);
    if Paused(cfg, mg) then Go(w, Observation(true, true))
    else
      var (w, found) :- Locate(env, w, mg);
      if found.release.None? then Go(w, Observation(false, false))
      else
        var (w, pair) :- Refresh(cfg, env, w, found.name, found.release.value);
        Judge(cfg, w, found.mg, found.info, pair.0, pair.1)
  }

  function Locate(env: Env, w: World, mg: Composition): (r: Step<Located>)
    ensures r.w == w.(cr := w.cr.(labels := r.w.cr.labels, annotations := r.w.cr.annotations), api := r.w.api)
    ensures r.w.cr.annotations == w.cr.annotations || r.w.cr.annotations == mg.annotations - {PAUSED_TIME}
    ensures r.Go? ==> r.v.mg == r.w.cr && r.w.cr.annotations == mg.annotations - {PAUSED_TIME}
  {
    assert mg.annotations - {PAUSED_TIME} - {PAUSED_TIME} == mg.annotations - {PAUSED_TIME};
    var name := GetReleaseName(mg);
    var (w, mg) :- UpdateCR(w, mg.(annotations := mg.annotations - {PAUSED_TIME}));
    var (w, info) :- FetchInfo(env, w, mg);
    var (w, mg) :- UpdateCR(w, mg.(labels := WithDefinition(mg.labels, info.definition)));
    var (w, _) :- Local(w);
    var (w, release) :- GetRelease(w, name);
    Go(w, Located(mg, info, name, release))
  }

  /** The release before and after the upgrade. */
  function Refresh(cfg: Config, env: Env, w: World, name: string, release: Revision): (r: Step<(Revision, Revision)>)
    ensures r.w.cr == w.cr
    ensures r.Go? ==> r.w.helmLog != [] && r.w.helmLog[|r.w.helmLog| - 1] == HelmCall(Upgrade, name)
  {
    var (w, release) :- if release.pending then HelmRollback(cfg, env, w, name) else Go(w, release);
    var (w, _) :- Local(w);
    var (w, inspected) :- Reporting(EnsureRBAC(cfg, env, w, name));
    var (w, _) :- Local(w);
    var (w, upgraded) :- Reporting(HelmUpgrade(cfg, env, w, name, inspected));
    Go(w, (release, upgraded))
  }

  function Judge(cfg: Config, w: World, mg: Composition, info: Info, release: Revision, upgraded: Revision)
    : (r: Step<Observation>)
    ensures r.w == w.(cr := w.cr.(status := r.w.cr.status), api := r.w.api)
    ensures r.Go? ==> r.v.resourceExists
  {
    var digest := Digest(upgraded.manifest);
    var previous := if mg.status.digest == "" then Digest(release.manifest) else mg.status.digest;
    if digest != previous || release.chartVersion != upgraded.chartVersion then Go(w, Observation(true, false))
    else
      match WithStatus(cfg.catalog, mg.status, mg.namespace, StatusOpts(info.url, info.version, [], previous, digest))
      case None => Halt(w)
      case Some(status) =>
        var (w, _) :- UpdateStatusCR(w, mg.(status := status));
        Go(w, Observation(true, true))
  }

  // ------------------------------------------------------------ Create

  function Create(cfg: Config, env: Env, w: World): Step<()> {
    var (w, _) :- Local(w);
    if Paused(cfg, w.cr) then Go(w, ())
    else
      var (w, mg) :- Named(cfg, env, w, w.cr);
      var name := GetReleaseName(mg);
      var (w, mg) :- UpdateCR(w, mg);
      var (w, info) :- FetchInfo(env, w, mg);
      var (w, manifest) :- Deploy(cfg, env, w, name);
      Conclude(cfg, w, mg, info, manifest)
  }

  /** Install, or upgrade what is there already, without a look at the error in the latter case. */
  function Deploy(cfg: Config, env: Env, w: World, name: string): (r: Step<Option<seq<Hasher.byte>>>)
    ensures r.w.cr == w.cr
  {
    var (w, _) :- Local(w);
    var (w, inspected) :- EnsureRBAC(cfg, env, w, name);
    var (w, _) :- Local(w);
    var (w, release) :- GetRelease(w, name);
    if release.Some? then
      match HelmUpgrade(cfg, env, w, name, inspected)
      case Go(w, upgraded) => Go(w, Some(upgraded.manifest))
      case Halt(w) => Go(w, env.leftover)
    else
      var (w, installed) :- HelmInstall(cfg, env, w, name, inspected);
      Go(w, Some(installed.manifest))
  }

  function DecodeOptional(cfg: Config, manifest: Option<seq<Hasher.byte>>): Option<(seq<MinimalMetadata>, string)> {
    if manifest.None? then Some(([], "")) else Decoded(manifest.value, cfg.grammar)
  }

  function Conclude(cfg: Config, w: World, mg: Composition, info: Info, manifest: Option<seq<Hasher.byte>>): (r: Step<()>)
    ensures r.w == w.(cr := w.cr.(status := r.w.cr.status, annotations := r.w.cr.annotations), api := r.w.api)
    ensures r.w.cr.annotations == w.cr.annotations || r.w.cr.annotations == w.cr.annotations - {PAUSED_TIME}
  {
    match DecodeOptional(cfg, manifest)
    case None => Halt(w)
    case Some((all, digest)) =>
      match WithStatus(cfg.catalog, mg.status, mg.namespace, StatusOpts(info.url, info.version, all, "", digest))
      case None => Halt(w)
      case Some(status) =>
        var (w, mg) :- UpdateStatusCR(w, mg.(status := status));
        var (w, _) :- UpdateCR(w, mg.(annotations := mg.annotations - {PAUSED_TIME}));
        Go(w, ())
  }

  // ------------------------------------------------------------ Update

  function Update(cfg: Config, env: Env, w: World): Step<()> {
    var mg := w.cr;
    var name := GetReleaseName(mg);
    var (w, _) :- Local(w);
    if Paused(cfg, mg) then Go(w, ())
    else
      var (w, info) :- FetchInfo(env, w, mg);
      var (w, _) :- Local(w);
      var (w, release) :- GetRelease(w, name);
      if release.None? then Halt(w)
      else Publish(cfg, env, w, mg, info, release.value)
  }

  /** The status after an update: the managed list is set even when it is empty. */
  function UpdatedStatus(cfg: Config, mg: Composition, info: Info, release: Revision): Option<Status> {
    var decoded :- Decoded(release.manifest, cfg.grammar);
    var managed :- EntriesFor(cfg.catalog, decoded.0, mg.namespace);
    WithStatus(cfg.catalog, mg.status.(managed := Some(managed)), mg.namespace,
               StatusOpts(info.url, info.version, decoded.0, mg.status.digest, decoded.1))
  }

  function Publish(cfg: Config, env: Env, w: World, mg: Composition, info: Info, release: Revision): (r: Step<()>)
    ensures r.w == w.(cr := w.cr.(status := r.w.cr.status, annotations := r.w.cr.annotations), api := r.w.api)
    ensures r.w.cr.annotations == w.cr.annotations
            || r.w.cr.annotations == if IsGracefullyPaused(w.cr) then w.cr.annotations[PAUSED_TIME := env.now]
                                     else w.cr.annotations - {PAUSED_TIME}
  {
    match UpdatedStatus(cfg, mg, info, release)
    case None => Halt(w)
    case Some(status) =>
      var (w, mg) :- UpdateStatusCR(w, mg.(status := status));
      var annotations := if IsGracefullyPaused(mg) then mg.annotations[PAUSED_TIME := env.now]
                         else mg.annotations - {PAUSED_TIME};
      var (w, _) :- UpdateCR(w, mg.(annotations := annotations));
      Go(w, ())
  }

  // ------------------------------------------------------------ Delete

  function Delete(cfg: Config, env: Env, w: World): Step<()> {
    var mg := w.cr;
    var name := GetReleaseName(mg);
    var (w, _) :- Local(w);
    if Paused(cfg, mg) then Go(w, ())
    else
      var (w, _) :- Local(w);
      var (w, info) :- FetchInfo(env, w, mg);
      var (w, release) :- GetRelease(w, name);
      if release.None? then Go(w, ())
      else Teardown(cfg, env, w, mg, name)
  }

  function Teardown(cfg: Config, env: Env, w: World, mg: Composition, name: string): (r: Step<()>)
    ensures r.w.cr == w.cr || r.w.cr == w.cr.(labels := mg.labels, annotations := mg.annotations - {PAUSED_TIME})
  {
    var (w, _) :- HelmUninstall(w, name);
    var (w, release) :- GetRelease(w, name);
    if release.Some? then Halt(w) else CleanUp(cfg, env, w, mg, name)
  }

  function CleanUp(cfg: Config, env: Env, w: World, mg: Composition, name: string): (r: Step<()>)
    ensures r.w.releases == w.releases && r.w.helmLog == w.helmLog
    ensures r.Go? ==> env.inspected.Some? && r.w.cr.annotations == mg.annotations - {PAUSED_TIME}
    ensures r.w.cr == w.cr || r.w.cr == w.cr.(labels := mg.labels, annotations := mg.annotations - {PAUSED_TIME})
  {
    var (w, _) :- Local(w);
    var (w, _) :- RemoveRBAC(cfg, env, w, name);
    var (w, _) :- UpdateCR(w, mg.(annotations := mg.annotations - {PAUSED_TIME}));
    Go(w, ())
  }
}
