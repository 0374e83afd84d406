/** Concrete inputs: one that meets the assumptions of the convergence theorems, and those at which the
    handlers do not do what one might expect of them. */
module Witnesses {
  import opened Wrappers
  import opened Kube
  import opened Meaning
  import opened Managed
  import opened Meta
  import opened Resolver
  import opened Faultless
  import opened Convergence
  import Paths
  import S = Safety
  import R = Reconcile

  /** One definition in the cluster, a chart that renders to nothing, and a cluster that knows no kinds. */
  function OneDefinition(apiVersion: Option<string>): Definition {
    Definition(DefinitionInfo("default", "d", GVR("core", "v1", "definitions")), apiVersion, Some("Kind"), Some("url"), "1.0.0", "")
  }

  function Setup(): R.Config {
    R.Config("sa", "default", false, Catalog((_, _) => None, (_, _) => None), _ => [], _ => true, 3)
  }

  function Outside(d: Definition): R.Env {
    R.Env("", Definitions(map[d.info := d], [d], false, false), Some([]), [], [], "1.0.0", true, 0, None, "", [])
  }

  const WELL_FORMED := Some("g" + "/" + "v")

  const BLANK := Status("", "", "", "", None)

  function Stored(annotations: map<string, string>, status: Status, history: seq<R.Revision>): R.World {
    R.World(Composition("c", "default", "", "Kind", map[RELEASE_NAME := "c"], annotations, status),
            if history == [] then map[] else map["c" := history], Api(map[], []), [])
  }

  const DEPLOYED := R.Revision([], "1.0.0", false, [])

  lemma DefinitionIsFound(d: Definition, w: R.World)
    requires d == OneDefinition(d.apiVersion) && w.cr.labels == map[RELEASE_NAME := "c"]
    ensures Resolves(Outside(d).definitions, w.cr.labels, w.cr.kind)
    ensures Resolve(Outside(d).definitions, Wanted(w.cr.labels, w.cr.kind)) == Some(d)
  {
    KeysDiffer();
    assert Hint(w.cr.labels) == None;
  }

  lemma StoredIsCalm(annotations: map<string, string>, status: Status, history: seq<R.Revision>)
    ensures Calm(Setup(), Outside(OneDefinition(WELL_FORMED)), Stored(annotations, status, history))
  {
    Paths.SplitSlashFree("g", "v");
    Paths.SplitSlashFree("v", "");
    DefinitionIsFound(OneDefinition(WELL_FORMED), Stored(annotations, status, history));
  }

  lemma CalmIsPossible() returns (cfg: R.Config, env: R.Env, w: R.World)
    ensures S.Fresh(w) && Calm(cfg, env, w) && !R.Paused(cfg, w.cr) && env.faults == []
  {
    cfg, env, w := Setup(), Outside(OneDefinition(WELL_FORMED)), Stored(map[], BLANK, []);
    StoredIsCalm(map[], BLANK, []);
  }

  /** A pause that is asked for while all is up to date has no effect, in this round or any later one. */
  lemma IgnoredPause() returns (cfg: R.Config, env: R.Env, w: R.World)
    ensures Calm(cfg, env, w) && Current(env, w) && IsGracefullyPaused(w.cr) && cfg.readable(env.now)
    ensures !R.Paused(cfg, w.cr) && Round(cfg, env, env, w).Go?
    ensures var after := Round(cfg, env, env, w).w;
            !R.Paused(cfg, after.cr) && IsGracefullyPaused(after.cr) && Current(env, after)
  {
    KeysDiffer();
    cfg, env, w := Setup(), Outside(OneDefinition(WELL_FORMED)), Stored(map[PAUSED := "true"], BLANK, [DEPLOYED]);
    StoredIsCalm(map[PAUSED := "true"], BLANK, [DEPLOYED]);
    CurrentIsNotDrifted(cfg, env, w);
    PauseNeedsAnUpdate(cfg, env, env, w);
    RoundCalm(cfg, env, env, w);
  }

  /** A managed list that describes an earlier release outlives the creation of one without objects, and
      the rounds after it. */
  lemma StaleList() returns (cfg: R.Config, env: R.Env, w: R.World)
    ensures Calm(cfg, env, w) && !R.Paused(cfg, w.cr) && Objects(cfg, env) == []
    ensures var first := Round(cfg, env, env, w);
            && first.Go? && first.w.cr.status.managed == w.cr.status.managed != Some([])
            && var second := Round(cfg, env, env, first.w);
              second.Go? && second.w.cr.status.managed == w.cr.status.managed
  {
    var stale := BLANK.(managed := Some([ManagedResource("v1", "pods", "p", "default", "/api/v1/namespaces/default/pods/p")]));
    cfg, env, w := Setup(), Outside(OneDefinition(WELL_FORMED)), Stored(map[], stale, []);
    StoredIsCalm(map[], stale, []);
    RoundCalm(cfg, env, env, w);
    RoundMakesCurrent(cfg, env, env, env, w);
    CurrentIsNotDrifted(cfg, env, Round(cfg, env, env, w).w);
    RoundCalm(cfg, env, env, Round(cfg, env, env, w).w);
  }

  /** A digest that an update keeps as the previous one is gone after the next observation. */
  lemma ForgottenDigest() returns (cfg: R.Config, env: R.Env, w: R.World)
    ensures Calm(cfg, env, w) && !R.Paused(cfg, w.cr)
    ensures var after := Round(cfg, env, env, w);
            && after.Go? && after.w.cr.status.previousDigest == w.cr.status.digest
            && R.Observe(cfg, env, after.w).w.cr.status.previousDigest != w.cr.status.digest
  {
    var recorded := BLANK.(digest := "0");
    cfg, env, w := Setup(), Outside(OneDefinition(WELL_FORMED)), Stored(map[], recorded, [DEPLOYED]);
    StoredIsCalm(map[], recorded, [DEPLOYED]);
    RoundCalm(cfg, env, env, w);
    PreviousDigestIsForgotten(cfg, env, env, env, w);
  }

  lemma FirstObservationOf(cfg: R.Config, env: R.Env, w: R.World)
    requires w.api.faults == [] && !cfg.safeReleaseName && RELEASE_NAME in w.cr.labels && !R.Paused(cfg, w.cr)
    requires Fetch(env.definitions, Wanted(w.cr.labels, w.cr.kind)).Some? && R.History(w, GetReleaseName(w.cr)) == []
    ensures R.Observe(cfg, env, w).Go?
  {
    LocateCalm(env, w, w.cr);
    ObserveContinues(cfg, env, w, w.cr);
  }

  /** A definition without a well-formed status, alone in the cluster, is good enough for one observation
      and for nothing after it. */
  lemma LoneMalformedDefinition() returns (cfg: R.Config, env: R.Env, w: R.World)
    ensures w.api.faults == [] && !R.Paused(cfg, w.cr)
    ensures R.Observe(cfg, env, w).Go? && Round(cfg, env, env, w).Halt?
  {
    cfg, env, w := Setup(), Outside(OneDefinition(None)), Stored(map[], BLANK, []);
    DefinitionIsFound(OneDefinition(None), w);
    FirstObservationOf(cfg, env, w);
    RoundNeedsAWellFormedDefinition(cfg, env, env, w);
  }

  /** A delete that finds no release succeeds and leaves the roles of the release in the cluster. */
  lemma RolesLeftBehind() returns (cfg: R.Config, env: R.Env, w: R.World, key: Key)
    ensures w.api.faults == [] && Own(key, GetReleaseName(w.cr)) && key in w.api.store && !R.Paused(cfg, w.cr)
    ensures R.Delete(cfg, env, w).Go? && key in R.Delete(cfg, env, w).w.api.store
  {
    cfg, env, key := Setup(), Outside(OneDefinition(WELL_FORMED)), Key(ClusterRoleKind, "", "c");
    w := Stored(map[], BLANK, []).(api := Api(map[key := Role([])], []));
    DefinitionIsFound(OneDefinition(WELL_FORMED), w);
    assert R.FetchInfo(env, w, w.cr).Go?;
  }

  /** A pause asked for together with a new chart version: if the one update is lost, later rounds find
      nothing to update and the composition stays active. */
  lemma ForgottenDrift() returns (cfg: R.Config, env: R.Env, w: R.World)
    ensures Calm(cfg, env, w) && IsGracefullyPaused(w.cr) && !R.Paused(cfg, w.cr) && cfg.readable(env.now)
    ensures var seen := R.Observe(cfg, env, w);
            && seen.Go? && seen.v == R.Observation(true, false)
            && Round(cfg, env, env, seen.w).Go? && !R.Paused(cfg, Round(cfg, env, env, seen.w).w.cr)
  {
    var flag, behind := map[PAUSED := "true"], [DEPLOYED.(chartVersion := "0.9.0")];
    KeysDiffer();
    cfg, env, w := Setup(), Outside(OneDefinition(WELL_FORMED)), Stored(flag, BLANK, behind);
    StoredIsCalm(flag, BLANK, behind);
    assert DEPLOYED.chartVersion[0] != behind[0].chartVersion[0];
    var at := DriftIsForgotten(cfg, env, env, w);
    PauseNeedsAnUpdate(cfg, env, env, at);
  }

  /** Two compositions whose UIDs differ in their first character, and that share one release. */
  lemma SharedRelease() returns (a: Composition, b: Composition)
    ensures |a.uid| == |b.uid| == 8 && a.uid != b.uid && a.namespace != b.namespace
    ensures CalculateReleaseName(a, true, "").Some? && CalculateReleaseName(a, true, "") == CalculateReleaseName(b, true, "")
  {
    a := Composition("c", "one", "0aaaaaaa", "Kind", map[], map[], BLANK);
    b := Composition("c", "two", "faaaaaaa", "Kind", map[], map[], BLANK);
    assert a.uid[..8] == a.uid && b.uid[..8] == b.uid;
    assert a.uid[0] != b.uid[0] && a.namespace[0] != b.namespace[0];
    EncodingsMeet(a.uid, b.uid);
  }
}
