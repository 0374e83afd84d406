/** A limit of what deletes promise: they take the release away before its roles and bindings, and the
    release is how a later delete knows that there is something to take away. */
module Leftovers {
  import opened Kube
  import opened Meta
  import opened Resolver
  import opened Lifecycle
  import opened Faultless
  import opened Convergence
  import A = Authorization
  import S = Safety
  import R = Reconcile

  /** The faults of a call that dies right after the Helm uninstall. */
  const CUT_SHORT := [Fine, Fine, Fine, Fine, Lost]

  lemma DeleteCutShort(cfg: R.Config, env: R.Env, w: R.World) returns (after: R.World)
    requires w.api.faults == CUT_SHORT && !R.Paused(cfg, w.cr)
    requires Fetch(env.definitions, Wanted(w.cr.labels, w.cr.kind)).Some? && R.History(w, GetReleaseName(w.cr)) != []
    ensures R.Delete(cfg, env, w) == R.Halt(after)
    ensures after.cr == w.cr && after.api.store == w.api.store && R.History(after, GetReleaseName(w.cr)) == []
  {
    var s1 := R.Used(w);
    assert R.Local(w) == R.Go(s1, ());
    var s2 := R.Used(s1);
    assert R.Local(s1) == R.Go(s2, ());
    after := R.Delete(cfg, env, w).w;
  }

  lemma DeleteWithoutRelease(cfg: R.Config, env: R.Env, w: R.World)
    requires R.History(w, GetReleaseName(w.cr)) == []
    ensures SameStored(R.Delete(cfg, env, w).w, w)
    ensures w.api.faults == [] && Fetch(env.definitions, Wanted(w.cr.labels, w.cr.kind)).Some? ==> R.Delete(cfg, env, w).Go?
  {
  }

  /** Once the release is gone, no delete touches anything, whatever faults it meets. */
  lemma {:induction false} DeletesRest(cfg: R.Config, w: R.World, deletes: seq<S.Event>)
    requires forall e :: e in deletes ==> e.Deleting? && R.ValidEnv(e.env)
    requires R.History(w, GetReleaseName(w.cr)) == []
    ensures S.PossibleRun(cfg, w, deletes) && SameStored(S.Run(cfg, w, deletes), w)
  {
    if deletes == [] {
    } else {
      var init, e := deletes[..|deletes| - 1], deletes[|deletes| - 1];
      assert e in deletes;
      DeletesRest(cfg, w, init);
      DeleteWithoutRelease(cfg, e.env, S.Facing(S.Run(cfg, w, init), e.env));
    }
  }

  lemma DeleteDies(cfg: R.Config, env: R.Env, cut: R.Env, at: R.World) returns (gone: R.World)
    requires Calm(cfg, env, at) && Current(env, at) && !R.Paused(cfg, at.cr)
    requires SameInputs(env, cut) && cut.faults == CUT_SHORT
    ensures S.Possible(at, S.Deleting(cut)) && S.Happen(cfg, at, S.Deleting(cut)) == gone
    ensures gone.cr == at.cr && gone.api.store == at.api.store && R.History(gone, GetReleaseName(gone.cr)) == []
  {
    gone := DeleteCutShort(cfg, cut, S.Facing(at, cut));
  }

  /** The run: a composition is deployed, its delete is cut short, and any number of deletes follow. */
  function Abandoned(env: R.Env, acting: R.Env, cut: R.Env, deletes: seq<S.Event>): seq<S.Event> {
    [S.Observing(env), S.Creating(acting)] + [S.Deleting(cut)] + deletes
  }

  /** Permissions can outlive the release for good: after a delete that died between the release and its
      roles, everything that was inspected is still permitted, whatever deletes follow, and although
      those that meet no faults report success. */
  lemma RolesOutliveTheRelease(cfg: R.Config, env: R.Env, acting: R.Env, cut: R.Env, deletes: seq<S.Event>, w: R.World, q: Request)
    requires S.Fresh(w) && Calm(cfg, env, w) && SameInputs(env, acting) && SameInputs(env, cut) && !R.Paused(cfg, w.cr)
    requires env.faults == [] && acting.faults == [] && cut.faults == CUT_SHORT
    requires forall e :: e in deletes ==> e.Deleting? && R.ValidEnv(e.env)
    ensures S.PossibleRun(cfg, w, Abandoned(env, acting, cut, deletes))
    ensures var after := S.Run(cfg, w, Abandoned(env, acting, cut, deletes));
            && R.History(after, GetReleaseName(after.cr)) == []
            && (A.Covered(env.inspected.value, q) ==> Authorized(after.api.store, ServiceAccount(cfg.saName, cfg.saNamespace), q))
            && R.Delete(cfg, env, S.Facing(after, env)).Go?
  {
    var first := [S.Observing(env), S.Creating(acting)];
    FirstRoundDeploys(cfg, env, acting, w, q);
    var gone := DeleteDies(cfg, env, cut, S.Run(cfg, w, first));
    S.LastEvent(cfg, w, first, S.Deleting(cut));
    DeletesRest(cfg, gone, deletes);
    S.RunContinues(cfg, w, first + [S.Deleting(cut)], deletes);
    DeleteWithoutRelease(cfg, env, S.Facing(S.Run(cfg, gone, deletes), env));
  }
}
