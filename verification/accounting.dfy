/** Where the permissions of a release come from: in every state a run can reach, its own roles hold
    nothing that the inspector did not list in the run. */
module Accounting {
  import opened Wrappers
  import opened Kube
  import opened Landing
  import RbacGen
  import opened Meaning
  import A = Authorization
  import opened Meta
  import opened Resolver
  import Hasher
  import Workers
  import opened Safety
  import opened Lifecycle
  import R = Reconcile

  /** What the inspector answers in the course of an event, and of a run. */
  function ListedBy(e: Event): seq<RbacGen.Resource> {
    if (e.Observing? || e.Creating? || e.Updating? || e.Deleting?) && e.env.inspected.Some? then e.env.inspected.value else []
  }

  function ListedIn(events: seq<Event>): seq<RbacGen.Resource> {
    if events == [] then [] else ListedIn(events[..|events| - 1]) + ListedBy(events[|events| - 1])
  }

  ghost predicate IsScope(s: string, listed: seq<RbacGen.Resource>) {
    s == "" || exists r :: r in listed && r.namespace == s
  }

  ghost predicate RulesListed(rules: seq<Rule>, s: string, listed: seq<RbacGen.Resource>) {
    forall rule :: rule in rules ==> exists r :: r in listed && r.namespace == s && RbacGen.ToRule(r) == rule
  }

  /** The object is the role or the binding of a listed scope, with listed rules or for the service account. */
  ghost predicate AccountedIn(key: Key, body: Body, base: string, sa: Subject, listed: seq<RbacGen.Resource>, s: string) {
    && IsScope(s, listed)
    && (|| (key == Holder(base, s) && body.Role? && RulesListed(body.rules, s, listed))
        || (key == Binder(base, s) && body == Binding(OwnRef(base, s), [sa])))
  }

  ghost predicate Accounted(store: Store, base: string, sa: Subject, listed: seq<RbacGen.Resource>) {
    forall key :: key in store && Own(key, base) ==> exists s :: AccountedIn(key, store[key], base, sa, listed, s)
  }

  /** The permissions that accounted objects give are permissions that were listed. */
  lemma AccountedMeansListed(store: Store, base: string, sa: Subject, listed: seq<RbacGen.Resource>, key: Key, q: Request)
    requires Accounted(store, base, sa, listed) && Own(key, base) && GrantedBy(store, key, sa, q)
    ensures A.Covered(listed, q)
  {
    var s :| AccountedIn(key, store[key], base, sa, listed, s);
    var target := Target(key, store[key].roleRef);
    assert target == Holder(base, s);
    var t :| AccountedIn(target, store[target], base, sa, listed, t);
    var rule :| rule in RulesOf(store[target]) && RuleAllows(rule, q);
    var r :| r in listed && r.namespace == t && RbacGen.ToRule(r) == rule;
    A.RuleMeaning(r, q);
    assert A.Covers(r, q);
  }

  lemma AccountedLater(store: Store, base: string, sa: Subject, some: seq<RbacGen.Resource>, more: seq<RbacGen.Resource>)
    requires Accounted(store, base, sa, some)
    ensures Accounted(store, base, sa, some + more)
  {
    forall key | key in store && Own(key, base)
      ensures exists s :: AccountedIn(key, store[key], base, sa, some + more, s)
    {
      var s :| AccountedIn(key, store[key], base, sa, some, s);
      assert AccountedIn(key, store[key], base, sa, some + more, s);
    }
  }

  lemma AccountedWithout(store: Store, gone: set<Key>, base: string, sa: Subject, listed: seq<RbacGen.Resource>)
    requires Accounted(store, base, sa, listed)
    ensures Accounted(store - gone, base, sa, listed)
  {
    forall key | key in store - gone && Own(key, base)
      ensures exists s :: AccountedIn(key, (store - gone)[key], base, sa, listed, s)
    {
      var s :| AccountedIn(key, store[key], base, sa, listed, s);
      assert AccountedIn(key, (store - gone)[key], base, sa, listed, s);
    }
  }

  // ------------------------------------------------------------ applying

  lemma RoleAccounted(store: Store, inp: Input, s: string, listed: seq<RbacGen.Resource>)
    requires Accounted(store, inp.base, inp.sa, listed) && s in inp.Scopes()
    requires forall r :: r in inp.resources ==> r in listed
    ensures AccountedIn(Holder(inp.base, s), Landed(store, inp.RoleIn(s)), inp.base, inp.sa, listed, s)
  {
    var key, wanted := Holder(inp.base, s), RbacGen.RulesIn(inp.resources, s);
    forall rule | rule in wanted ensures exists r :: r in listed && r.namespace == s && RbacGen.ToRule(r) == rule {
      RbacGen.RulesInHolds(inp.resources, s, rule);
    }
    if key in store {
      var t :| AccountedIn(key, store[key], inp.base, inp.sa, listed, t);
      assert t == s;
      MergeKeepsAndAdds(RulesOf(store[key]), wanted);
    }
  }

  lemma LandingAccounts(store: Store, inp: Input, o: Object, base: string, listed: seq<RbacGen.Resource>)
    requires Accounted(store, base, inp.sa, listed) && (forall r :: r in inp.resources ==> r in listed)
    requires o.key.kind.NamespaceKind? || exists s :: s in inp.Scopes() && (o == inp.RoleIn(s) || o == inp.BindingIn(s))
    ensures Accounted(store[o.key := Landed(store, o)], base, inp.sa, listed)
  {
    if Own(o.key, base) {
      var s :| s in inp.Scopes() && (o == inp.RoleIn(s) || o == inp.BindingIn(s));
      if o == inp.RoleIn(s) {
        RoleAccounted(store, inp, s, listed);
      }
      assert AccountedIn(o.key, Landed(store, o), base, inp.sa, listed, s);
    }
  }

  lemma {:induction false} LandAllAccounts(store: Store, inp: Input, objects: seq<Object>, base: string, listed: seq<RbacGen.Resource>)
    requires Accounted(store, base, inp.sa, listed) && (forall r :: r in inp.resources ==> r in listed)
    requires forall o :: o in objects ==>
               o.key.kind.NamespaceKind? || exists s :: s in inp.Scopes() && (o == inp.RoleIn(s) || o == inp.BindingIn(s))
    ensures Accounted(LandAll(store, objects), base, inp.sa, listed)
  {
    if objects == [] {
    } else {
      var init, o := objects[..|objects| - 1], objects[|objects| - 1];
      assert o in objects;
      LandAllAccounts(store, inp, init, base, listed);
      LandingAccounts(LandAll(store, init), inp, o, base, listed);
    }
  }

  lemma EnsureRBACAccounts(cfg: R.Config, env: R.Env, w: R.World, name: string, base: string, listed: seq<RbacGen.Resource>)
    requires R.ValidEnv(env) && Accounted(w.api.store, base, cfg.Sa(), listed)
    requires env.inspected.Some? ==> forall r :: r in env.inspected.value ==> r in listed
    ensures Accounted(R.EnsureRBAC(cfg, env, w, name).w.api.store, base, cfg.Sa(), listed)
  {
    if env.inspected.Some? {
      var inp := R.PolicyInput(cfg, w, name, env.inspected.value);
      var n := ApplyAllLands(w.api, inp.Writes(env.order));
      forall o | o in inp.Writes(env.order)[..n]
        ensures o.key.kind.NamespaceKind? || exists s :: s in inp.Scopes() && (o == inp.RoleIn(s) || o == inp.BindingIn(s))
      {
        InWrites(inp, env.order, o);
      }
      LandAllAccounts(w.api.store, inp, inp.Writes(env.order)[..n], base, listed);
    }
  }

  lemma RemoveRBACAccounts(cfg: R.Config, env: R.Env, w: R.World, name: string, base: string, listed: seq<RbacGen.Resource>)
    requires Accounted(w.api.store, base, cfg.Sa(), listed)
    ensures Accounted(R.RemoveRBAC(cfg, env, w, name).w.api.store, base, cfg.Sa(), listed)
  {
    if env.inspected.Some? {
      var keys := R.PolicyInput(cfg, w, name, env.inspected.value).Deletes(env.order);
      var n := DeleteAllRemoves(w.api, keys);
      AccountedWithout(w.api.store, KeySet(keys[..n]), base, cfg.Sa(), listed);
    }
  }

  // ------------------------------------------------------------ the handlers

  lemma HelmKeepsStore(cfg: R.Config, env: R.Env, w: R.World, name: string, inspected: seq<RbacGen.Resource>)
    ensures R.HelmUpgrade(cfg, env, w, name, inspected).w.api.store == w.api.store
    ensures R.HelmInstall(cfg, env, w, name, inspected).w.api.store == w.api.store
  {
  }

  lemma UndoingKeepsStore(cfg: R.Config, env: R.Env, w: R.World, name: string)
    ensures R.HelmRollback(cfg, env, w, name).w.api.store == w.api.store
    ensures R.HelmUninstall(w, name).w.api.store == w.api.store
  {
  }

  lemma RefreshAccounts(cfg: R.Config, env: R.Env, w: R.World, name: string, release: R.Revision, base: string,
                        listed: seq<RbacGen.Resource>)
    requires R.ValidEnv(env) && Accounted(w.api.store, base, cfg.Sa(), listed)
    requires env.inspected.Some? ==> forall r :: r in env.inspected.value ==> r in listed
    ensures Accounted(R.Refresh(cfg, env, w, name, release).w.api.store, base, cfg.Sa(), listed)
  {
    UndoingKeepsStore(cfg, env, w, name);
    var s1 := if release.pending then R.HelmRollback(cfg, env, w, name) else R.Go(w, release);
    if s1.Go? {
      var s2 := R.Local(s1.w);
      if s2.Go? {
        EnsureRBACAccounts(cfg, env, s2.w, name, base, listed);
        var s3 := R.EnsureRBAC(cfg, env, s2.w, name);
        if s3.Go? {
          var s4 := R.Local(s3.w);
          if s4.Go? {
            HelmKeepsStore(cfg, env, s4.w, name, s3.v);
          }
        }
      }
    }
  }

  lemma JudgeKeepsStore(cfg: R.Config, w: R.World, mg: Composition, info: Info, found: R.Revision, upgraded: R.Revision)
    ensures R.Judge(cfg, w, mg, info, found, upgraded).w.api.store == w.api.store
  {
  }

  lemma ObserveAccounts(cfg: R.Config, env: R.Env, w: R.World, base: string, listed: seq<RbacGen.Resource>)
    requires R.ValidEnv(env) && Accounted(w.api.store, base, cfg.Sa(), listed)
    requires env.inspected.Some? ==> forall r :: r in env.inspected.value ==> r in listed
    ensures Accounted(R.Observe(cfg, env, w).w.api.store, base, cfg.Sa(), listed)
  {
    var s1 := R.Local(w);
    if s1.Go? {
      var s2 := R.Named(cfg, env, s1.w, s1.w.cr);
      if s2.Go? && !R.Paused(cfg, s2.v) {
        LocateLabels(env, s2.w, s2.v);
        var s3 := R.Locate(env, s2.w, s2.v);
        if s3.Go? && s3.v.release.Some? {
          RefreshAccounts(cfg, env, s3.w, s3.v.name, s3.v.release.value, base, listed);
          var s4 := R.Refresh(cfg, env, s3.w, s3.v.name, s3.v.release.value);
          if s4.Go? {
            JudgeKeepsStore(cfg, s4.w, s3.v.mg, s3.v.info, s4.v.0, s4.v.1);
          }
        }
      }
    }
  }

  lemma DeployAccounts(cfg: R.Config, env: R.Env, w: R.World, name: string, base: string, listed: seq<RbacGen.Resource>)
    requires R.ValidEnv(env) && Accounted(w.api.store, base, cfg.Sa(), listed)
    requires env.inspected.Some? ==> forall r :: r in env.inspected.value ==> r in listed
    ensures Accounted(R.Deploy(cfg, env, w, name).w.api.store, base, cfg.Sa(), listed)
  {
    var s1 := R.Local(w);
    if s1.Go? {
      EnsureRBACAccounts(cfg, env, s1.w, name, base, listed);
      var s2 := R.EnsureRBAC(cfg, env, s1.w, name);
      if s2.Go? {
        var s3 := R.Local(s2.w);
        if s3.Go? {
          var s4 := R.GetRelease(s3.w, name);
          if s4.Go? {
            HelmKeepsStore(cfg, env, s4.w, name, s2.v);
          }
        }
      }
    }
  }

  lemma ConcludeKeepsStore(cfg: R.Config, w: R.World, mg: Composition, info: Info, manifest: Option<seq<Hasher.byte>>)
    ensures R.Conclude(cfg, w, mg, info, manifest).w.api.store == w.api.store
  {
  }

  lemma CreateAccounts(cfg: R.Config, env: R.Env, w: R.World, base: string, listed: seq<RbacGen.Resource>)
    requires R.ValidEnv(env) && Accounted(w.api.store, base, cfg.Sa(), listed)
    requires env.inspected.Some? ==> forall r :: r in env.inspected.value ==> r in listed
    ensures Accounted(R.Create(cfg, env, w).w.api.store, base, cfg.Sa(), listed)
  {
    var s1 := R.Local(w);
    if s1.Go? && !R.Paused(cfg, w.cr) {
      var s2 := R.Named(cfg, env, s1.w, s1.w.cr);
      if s2.Go? {
        var s3 := R.UpdateCR(s2.w, s2.v);
        if s3.Go? {
          var s4 := R.FetchInfo(env, s3.w, s3.v);
          if s4.Go? {
            DeployAccounts(cfg, env, s4.w, GetReleaseName(s2.v), base, listed);
            var s5 := R.Deploy(cfg, env, s4.w, GetReleaseName(s2.v));
            if s5.Go? {
              ConcludeKeepsStore(cfg, s5.w, s3.v, s4.v, s5.v);
            }
          }
        }
      }
    }
  }

  lemma PublishKeepsStore(cfg: R.Config, env: R.Env, w: R.World, mg: Composition, info: Info, release: R.Revision)
    ensures R.Publish(cfg, env, w, mg, info, release).w.api.store == w.api.store
  {
  }

  lemma UpdateKeepsStore(cfg: R.Config, env: R.Env, w: R.World)
    ensures R.Update(cfg, env, w).w.api.store == w.api.store
  {
    var s1 := R.Local(w);
    if s1.Go? && !R.Paused(cfg, w.cr) {
      var s2 := R.FetchInfo(env, s1.w, w.cr);
      if s2.Go? {
        var s3 := R.Local(s2.w);
        if s3.Go? {
          var s4 := R.GetRelease(s3.w, GetReleaseName(w.cr));
          if s4.Go? && s4.v.Some? {
            PublishKeepsStore(cfg, env, s4.w, w.cr, s2.v, s4.v.value);
          }
        }
      }
    }
  }

  lemma CleanUpAccounts(cfg: R.Config, env: R.Env, w: R.World, mg: Composition, name: string, base: string,
                        listed: seq<RbacGen.Resource>)
    requires Accounted(w.api.store, base, cfg.Sa(), listed)
    ensures Accounted(R.CleanUp(cfg, env, w, mg, name).w.api.store, base, cfg.Sa(), listed)
  {
    var s1 := R.Local(w);
    if s1.Go? {
      RemoveRBACAccounts(cfg, env, s1.w, name, base, listed);
    }
  }

  lemma TeardownAccounts(cfg: R.Config, env: R.Env, w: R.World, mg: Composition, name: string, base: string,
                         listed: seq<RbacGen.Resource>)
    requires Accounted(w.api.store, base, cfg.Sa(), listed)
    ensures Accounted(R.Teardown(cfg, env, w, mg, name).w.api.store, base, cfg.Sa(), listed)
  {
    UndoingKeepsStore(cfg, env, w, name);
    var s1 := R.HelmUninstall(w, name);
    if s1.Go? {
      var s2 := R.GetRelease(s1.w, name);
      if s2.Go? && s2.v.None? {
        CleanUpAccounts(cfg, env, s2.w, mg, name, base, listed);
      }
    }
  }

  lemma DeleteAccounts(cfg: R.Config, env: R.Env, w: R.World, base: string, listed: seq<RbacGen.Resource>)
    requires Accounted(w.api.store, base, cfg.Sa(), listed)
    ensures Accounted(R.Delete(cfg, env, w).w.api.store, base, cfg.Sa(), listed)
  {
    var s1 := R.Local(w);
    if s1.Go? && !R.Paused(cfg, w.cr) {
      var s2 := R.Local(s1.w);
      if s2.Go? && R.FetchInfo(env, s2.w, w.cr).Go? {
        var s3 := R.GetRelease(s2.w, GetReleaseName(w.cr));
        if s3.Go? && s3.v.Some? {
          TeardownAccounts(cfg, env, s3.w, w.cr, GetReleaseName(w.cr), base, listed);
        }
      }
    }
  }

  // ------------------------------------------------------------ runs

  /** Other controllers leave the objects called base alone, in every event of the run. */
  ghost predicate Spares(cfg: R.Config, w: R.World, events: seq<Event>, base: string) {
    events == [] ||
    (Spares(cfg, w, events[..|events| - 1], base) &&
     var e := events[|events| - 1];
     e.Neighbouring? ==>
       forall key :: Own(key, base) ==> Workers.Agree(e.store, Run(cfg, w, events[..|events| - 1]).api.store, key))
  }

  lemma HappenAccounts(cfg: R.Config, w: R.World, e: Event, base: string, listed: seq<RbacGen.Resource>)
    requires Possible(w, e) && Accounted(w.api.store, base, cfg.Sa(), listed)
    requires forall r :: r in ListedBy(e) ==> r in listed
    requires e.Neighbouring? ==> forall key :: Own(key, base) ==> Workers.Agree(e.store, w.api.store, key)
    ensures Accounted(Happen(cfg, w, e).api.store, base, cfg.Sa(), listed)
  {
    match e
    case Observing(env) => ObserveAccounts(cfg, env, Facing(w, env), base, listed);
    case Creating(env) => CreateAccounts(cfg, env, Facing(w, env), base, listed);
    case Updating(env) => UpdateKeepsStore(cfg, env, Facing(w, env));
    case Deleting(env) => DeleteAccounts(cfg, env, Facing(w, env), base, listed);
    case Annotating(_) =>
    case Relabelling(_) =>
    case Neighbouring(store) =>
      forall key | key in store && Own(key, base)
        ensures exists s :: AccountedIn(key, store[key], base, cfg.Sa(), listed, s)
      {
        assert Workers.Agree(store, w.api.store, key);
      }
  }

  /** In every state a run can reach, whatever failed on the way, the objects of a release that was not
      there at first are accounted for by what the inspector listed in the run. */
  lemma {:induction false} RunIsAccounted(cfg: R.Config, w: R.World, events: seq<Event>, base: string)
    requires PossibleRun(cfg, w, events) && Spares(cfg, w, events, base)
    requires Accounted(w.api.store, base, ServiceAccount(cfg.saName, cfg.saNamespace), [])
    ensures Accounted(Run(cfg, w, events).api.store, base, ServiceAccount(cfg.saName, cfg.saNamespace), ListedIn(events))
  {
    if events == [] {
    } else {
      var init, e := events[..|events| - 1], events[|events| - 1];
      RunIsAccounted(cfg, w, init, base);
      AccountedLater(Run(cfg, w, init).api.store, base, cfg.Sa(), ListedIn(init), ListedBy(e));
      HappenAccounts(cfg, Run(cfg, w, init), e, base, ListedIn(events));
    }
  }

  /** Least privilege over time: what the release's own objects permit is covered by the lists of the run. */
  lemma OnlyListedPermissions(cfg: R.Config, w: R.World, events: seq<Event>, base: string, key: Key, q: Request)
    requires PossibleRun(cfg, w, events) && Spares(cfg, w, events, base)
    requires forall k :: k in w.api.store ==> !Own(k, base)
    requires Own(key, base) && GrantedBy(Run(cfg, w, events).api.store, key, ServiceAccount(cfg.saName, cfg.saNamespace), q)
    ensures A.Covered(ListedIn(events), q)
  {
    RunIsAccounted(cfg, w, events, base);
    AccountedMeansListed(Run(cfg, w, events).api.store, base, cfg.Sa(), ListedIn(events), key, q);
  }

  lemma AccountedKeysAreDeleted(store: Store, inp: Input, listed: seq<RbacGen.Resource>, key: Key)
    requires Accounted(store, inp.base, inp.sa, listed) && key in store && Own(key, inp.base)
    requires forall r :: r in listed && r.namespace != "" ==> r.namespace in RbacGen.NamespacesOf(inp.resources)
    ensures key in DeletedKeys(inp)
  {
    var s :| AccountedIn(key, store[key], inp.base, inp.sa, listed, s);
    assert s in inp.Scopes();
  }

  /** A run that ends with a delete: if its list still names every namespace that was listed before, it
      takes away everything the release ever gave, and nothing else. */
  lemma DeleteAfterRunRevokes(cfg: R.Config, w: R.World, events: seq<Event>, env: R.Env, q: Request)
    requires PossibleRun(cfg, w, events) && R.ValidEnv(env) && env.inspected.Some?
    requires var before := Run(cfg, w, events);
             && Spares(cfg, w, events, GetReleaseName(before.cr))
             && (forall k :: k in w.api.store ==> !Own(k, GetReleaseName(before.cr)))
             && R.Delete(cfg, env, Facing(before, env)).Go? && !R.Paused(cfg, before.cr)
             && R.History(before, GetReleaseName(before.cr)) != []
    requires forall r :: r in ListedIn(events) && r.namespace != "" ==> r.namespace in RbacGen.NamespacesOf(env.inspected.value)
    ensures var before := Run(cfg, w, events);
            Authorized(R.Delete(cfg, env, Facing(before, env)).w.api.store, ServiceAccount(cfg.saName, cfg.saNamespace), q) <==>
            A.GrantedByOthers(before.api.store, GetReleaseName(before.cr), ServiceAccount(cfg.saName, cfg.saNamespace), q)
  {
    var before := Run(cfg, w, events);
    var name := GetReleaseName(before.cr);
    RunIsAccounted(cfg, w, events, name);
    var inp := R.PolicyInput(cfg, Facing(before, env), name, env.inspected.value);
    forall key | key in before.api.store && Own(key, name) ensures key in DeletedKeys(inp) {
      AccountedKeysAreDeleted(before.api.store, inp, ListedIn(events), key);
    }
    DeleteRevokes(cfg, env, Facing(before, env), q);
  }
}
