/** Who may do what: the authorisation meaning of applying and uninstalling a generated policy. */
module Authorization {
  import opened Kube
  import P = Policy
  import opened Installer
  import opened Landing
  import opened RbacGen
  import opened Meaning

  /** The inspected resource, as a permission: every verb on its group and resource, in its
      namespace or, without one, everywhere. */
  predicate Covers(r: Resource, q: Request) {
    && Listed(q.group, [r.group])
    && Listed(q.resource, [r.resource])
    && (r.namespace == "" || r.namespace == q.namespace)
  }

  /** What is listed as "*" covers every group, or every resource. */
  lemma CoversExactly(r: Resource, q: Request)
    ensures Covers(r, q) <==>
            && (r.group == q.group || r.group == "*") && (r.resource == q.resource || r.resource == "*")
            && (r.namespace == "" || r.namespace == q.namespace)
  {
  }

  ghost predicate Covered(resources: seq<Resource>, q: Request) {
    exists r :: r in resources && Covers(r, q)
  }

  /** Same-named bindings point at same-named roles. */
  ghost predicate OwnRefs(store: Store, base: string) {
    forall s :: Binder(base, s) in store && store[Binder(base, s)].Binding? ==>
                  store[Binder(base, s)].roleRef == OwnRef(base, s)
  }

  /** Rules that an earlier, perhaps interrupted, apply left in a role the policy is about to bind. */
  ghost predicate Latent(store: Store, inp: Input, q: Request) {
    exists s :: s in inp.Scopes() && (s == "" || s == q.namespace) &&
                Holder(inp.base, s) in store && Allows(RulesOf(store[Holder(inp.base, s)]), q)
  }

  lemma RuleMeaning(r: Resource, q: Request)
    ensures RuleAllows(ToRule(r), q) <==> Listed(q.group, [r.group]) && Listed(q.resource, [r.resource])
  {
  }

  /** The rules of one scope allow what its resources ask for. */
  lemma RulesMeaning(resources: seq<Resource>, scope: string, q: Request)
    requires scope == "" || scope == q.namespace
    ensures Allows(RulesIn(resources, scope), q) <==> exists r :: r in resources && r.namespace == scope && Covers(r, q)
  {
    if rule :| rule in RulesIn(resources, scope) && RuleAllows(rule, q) {
      RulesInHolds(resources, scope, rule);
      var r :| r in resources && r.namespace == scope && ToRule(r) == rule;
      RuleMeaning(r, q);
      assert Covers(r, q);
    }
    if r :| r in resources && r.namespace == scope && Covers(r, q) {
      RulesInHolds(resources, scope, ToRule(r));
      RuleMeaning(r, q);
    }
  }

  lemma MergeMeaning(existing: seq<Rule>, wanted: seq<Rule>, q: Request)
    ensures Allows(MergeRules(existing, wanted), q) <==> Allows(existing, q) || Allows(wanted, q)
  {
  }

  // ------------------------------------------------------------ every single write

  /** Landing one object of the policy takes nothing away. */
  lemma LandingKeepsGrants(store: Store, inp: Input, o: Object, q: Request)
    requires OwnRefs(store, inp.base)
    requires o.key.kind.NamespaceKind? || exists s :: o == inp.RoleIn(s) || o == inp.BindingIn(s)
    requires o.key.kind.NamespaceKind? ==> o.body.Namespace?
    ensures Authorized(store, inp.sa, q) ==> Authorized(store[o.key := Landed(store, o)], inp.sa, q)
    ensures OwnRefs(store[o.key := Landed(store, o)], inp.base)
  {
    var after := store[o.key := Landed(store, o)];
    if key :| GrantedBy(store, key, inp.sa, q) {
      var target := Target(key, store[key].roleRef);
      if target == o.key {
        MergeMeaning(RulesOf(store[target]), RulesOf(o.body), q);
      }
      assert GrantedBy(after, key, inp.sa, q);
    }
  }

  lemma {:induction false} ObjectsKeepGrants(store: Store, inp: Input, objects: seq<Object>, q: Request)
    requires OwnRefs(store, inp.base)
    requires forall o :: o in objects ==>
               || (o.key.kind.NamespaceKind? && o.body.Namespace?)
               || exists s :: o == inp.RoleIn(s) || o == inp.BindingIn(s)
    ensures Authorized(store, inp.sa, q) ==> Authorized(LandAll(store, objects), inp.sa, q)
    ensures OwnRefs(LandAll(store, objects), inp.base)
  {
    if objects == [] {
    } else {
      var init, o := objects[..|objects| - 1], objects[|objects| - 1];
      ObjectsKeepGrants(store, inp, init, q);
      assert o in objects;
      LandingKeepsGrants(LandAll(store, init), inp, o, q);
    }
  }

  /** After any number of writes of an apply the service account may do all it could before. */
  lemma ApplyNeverShrinks(inp: Input, store: Store, order: seq<string>, n: nat, q: Request)
    requires inp.Order(order) && OwnRefs(store, inp.base) && n <= |inp.Writes(order)|
    ensures Authorized(store, inp.sa, q) ==> Authorized(LandAll(store, inp.Writes(order)[..n]), inp.sa, q)
    ensures OwnRefs(LandAll(store, inp.Writes(order)[..n]), inp.base)
  {
    forall o | o in inp.Writes(order)[..n]
      ensures || (o.key.kind.NamespaceKind? && o.body.Namespace?)
              || exists s :: o == inp.RoleIn(s) || o == inp.BindingIn(s)
    {
      InWrites(inp, order, o);
    }
    ObjectsKeepGrants(store, inp, inp.Writes(order)[..n], q);
  }

  lemma {:induction false} RoleComesFirst(inp: Input, scopes: seq<string>, n: nat, s: string)
    requires n <= |inp.Pairs(scopes)| && inp.BindingIn(s) in inp.Pairs(scopes)[..n]
    ensures inp.RoleIn(s) in inp.Pairs(scopes)[..n]
  {
    var front, last := scopes[..|scopes| - 1], scopes[|scopes| - 1];
    var init := inp.Pairs(front);
    if n <= |init| {
      assert inp.Pairs(scopes)[..n] == init[..n];
      RoleComesFirst(inp, front, n, s);
    } else {
      assert n == |init| + 1 ==> inp.Pairs(scopes)[..n] == init + [inp.RoleIn(last)];
      assert n == |init| + 2 ==> inp.Pairs(scopes)[..n] == init + [inp.RoleIn(last), inp.BindingIn(last)];
      if inp.BindingIn(s) in init {
        assert init[..|init|] == init;
        RoleComesFirst(inp, front, |init|, s);
      }
    }
  }

  lemma NamespaceWritesAre(inp: Input, o: Object)
    ensures o in inp.NamespaceWrites() <==>
            exists r :: r in inp.resources && IsNamespace(r) && o == P.CreateNamespace(r.name, inp.base, inp.namespace)
    ensures o in inp.NamespaceWrites() ==> o.key.kind.NamespaceKind? && o.body.Namespace?
  {
    NamespaceKinds(inp.resources, inp.base, inp.namespace);
    InPresentAll(NamespaceObjects(inp.resources, inp.base, inp.namespace), o);
  }

  lemma WritesPrefix(inp: Input, order: seq<string>, n: nat)
    requires n <= |inp.Writes(order)|
    ensures var names := inp.NamespaceWrites();
            inp.Writes(order)[..n] ==
            if n <= |names| then names[..n] else names + inp.Pairs([""] + order)[..n - |names|]
  {
  }

  /** A binding is never written before the role it points at. */
  lemma RoleWrittenFirst(inp: Input, order: seq<string>, n: nat, s: string)
    requires inp.Order(order) && n <= |inp.Writes(order)|
    requires inp.BindingIn(s) in inp.Writes(order)[..n]
    ensures inp.RoleIn(s) in inp.Writes(order)[..n]
  {
    WritesPrefix(inp, order, n);
    NamespaceWritesAre(inp, inp.BindingIn(s));
    RoleComesFirst(inp, [""] + order, n - |inp.NamespaceWrites()|, s);
  }

  lemma PrefixConsistent(inp: Input, order: seq<string>, n: nat)
    requires inp.Order(order) && n <= |inp.Writes(order)|
    ensures Consistent(inp.Writes(order)[..n])
  {
    WritesConsistent(inp, order);
  }

  /** After any number of writes, every binding written so far points at a role that is there. */
  lemma BindingsNeverDangle(inp: Input, store: Store, order: seq<string>, n: nat, s: string)
    requires inp.Order(order) && n <= |inp.Writes(order)|
    requires inp.BindingIn(s) in inp.Writes(order)[..n]
    ensures var now := LandAll(store, inp.Writes(order)[..n]);
            && Binder(inp.base, s) in now && now[Binder(inp.base, s)] == inp.BindingIn(s).body
            && Target(Binder(inp.base, s), OwnRef(inp.base, s)) in now
  {
    RoleWrittenFirst(inp, order, n, s);
    PrefixConsistent(inp, order, n);
    LandAllAt(store, inp.Writes(order)[..n], Binder(inp.base, s));
    LandAllAt(store, inp.Writes(order)[..n], Holder(inp.base, s));
  }

  /** The namespace is itself one of the inspected resources. */
  ghost predicate Brings(inp: Input, ns: string) {
    exists r :: r in inp.resources && IsNamespace(r) && r.name == ns
  }

  /** Namespaces are written first: no role or binding is sent to a namespace that is missing, unless it
      is missing from the cluster and from the list. */
  lemma NamespacesComeFirst(inp: Input, store: Store, order: seq<string>, n: nat)
    requires inp.Order(order) && n < |inp.Writes(order)|
    ensures var ns := inp.Writes(order)[n].key.namespace;
            ns == "" || (Key(NamespaceKind, "", ns) in LandAll(store, inp.Writes(order)[..n]) <==>
                         Key(NamespaceKind, "", ns) in store || Brings(inp, ns))
  {
    var o, names := inp.Writes(order)[n], inp.NamespaceWrites();
    InWrites(inp, order, o);
    if o.key.namespace != "" {
      var key := Key(NamespaceKind, "", o.key.namespace);
      PrefixConsistent(inp, order, n);
      LandAllAt(store, inp.Writes(order)[..n], key);
      if Brings(inp, o.key.namespace) {
        var r :| r in inp.resources && IsNamespace(r) && r.name == o.key.namespace;
        var created := P.CreateNamespace(r.name, inp.base, inp.namespace);
        NamespaceWritesAre(inp, created);
        if n < |names| { NamespaceWritesAre(inp, names[n]); }
        WritesPrefix(inp, order, n);
        assert created in inp.Writes(order)[..n];
      }
      if p :| p in inp.Writes(order)[..n] && p.key == key {
        InWrites(inp, order, p);
      }
    }
  }

  // ------------------------------------------------------------ a completed apply

  lemma LandedMeaning(store: Store, inp: Input, s: string, q: Request)
    requires s == "" || s == q.namespace
    ensures Allows(RulesOf(Landed(store, inp.RoleIn(s))), q) <==>
            || (Holder(inp.base, s) in store && Allows(RulesOf(store[Holder(inp.base, s)]), q))
            || exists r :: r in inp.resources && r.namespace == s && Covers(r, q)
  {
    RulesMeaning(inp.resources, s, q);
    if Holder(inp.base, s) in store {
      MergeMeaning(RulesOf(store[Holder(inp.base, s)]), RulesIn(inp.resources, s), q);
    }
  }

  /** What a completed apply leaves in each scope of the policy. */
  lemma AppliedAt(inp: Input, store: Store, order: seq<string>, s: string)
    requires inp.Order(order) && s in inp.Scopes()
    ensures var after := LandAll(store, inp.Writes(order));
            && Binder(inp.base, s) in after && after[Binder(inp.base, s)] == inp.BindingIn(s).body
            && Holder(inp.base, s) in after && after[Holder(inp.base, s)] == Landed(store, inp.RoleIn(s))
  {
    InWrites(inp, order, inp.RoleIn(s));
    InWrites(inp, order, inp.BindingIn(s));
    WritesConsistent(inp, order);
    LandAllAt(store, inp.Writes(order), Binder(inp.base, s));
    LandAllAt(store, inp.Writes(order), Holder(inp.base, s));
  }

  /** What a completed apply leaves of namespaces: each one that is listed is there, and marked as Helm's,
      as part of this release; the others are as they were. */
  lemma AppliedNamespaces(inp: Input, store: Store, order: seq<string>, name: string)
    requires inp.Order(order)
    ensures var after, key := LandAll(store, inp.Writes(order)), Key(NamespaceKind, "", name);
            if Resource("", "v1", "namespaces", name, "") in inp.resources then
              key in after && after[key] ==
                Namespace(map["app.kubernetes.io/managed-by" := "Helm"],
                          map["meta.helm.sh/release-name" := inp.base, "meta.helm.sh/release-namespace" := inp.namespace])
            else (key in after <==> key in store) && (key in store ==> after[key] == store[key])
  {
    var key := Key(NamespaceKind, "", name);
    WritesConsistent(inp, order);
    LandAllAt(store, inp.Writes(order), key);
    if Resource("", "v1", "namespaces", name, "") in inp.resources {
      var o := P.CreateNamespace(name, inp.base, inp.namespace);
      assert IsNamespace(Resource("", "v1", "namespaces", name, ""));
      InWrites(inp, order, o);
    } else if o :| o in inp.Writes(order) && o.key == key {
      InWrites(inp, order, o);
    }
  }

  /** What a completed apply leaves elsewhere: everything but namespaces is untouched. */
  lemma AppliedElsewhere(inp: Input, store: Store, order: seq<string>, key: Key)
    requires inp.Order(order) && key.kind != NamespaceKind
    requires forall s :: s in inp.Scopes() ==> key != Holder(inp.base, s) && key != Binder(inp.base, s)
    ensures var after := LandAll(store, inp.Writes(order));
            (key in after <==> key in store) && (key in store ==> after[key] == store[key])
  {
    WritesConsistent(inp, order);
    LandAllAt(store, inp.Writes(order), key);
    if o :| o in inp.Writes(order) && o.key == key {
      InWrites(inp, order, o);
    }
  }

  /** Soundness: whoever is authorised afterwards was so before, or is covered by the inspector's
      list, or by rules an earlier apply left behind. */
  lemma ApplyGrantsNoMore(inp: Input, store: Store, order: seq<string>, key: Key, q: Request)
    requires inp.Order(order) && OwnRefs(store, inp.base)
    requires GrantedBy(LandAll(store, inp.Writes(order)), key, inp.sa, q)
    ensures Authorized(store, inp.sa, q) || Covered(inp.resources, q) || Latent(store, inp, q)
  {
    var after := LandAll(store, inp.Writes(order));
    var target := Target(key, after[key].roleRef);
    if s :| s in inp.Scopes() && key == Binder(inp.base, s) {
      AppliedAt(inp, store, order, s);
      LandedMeaning(store, inp, s, q);
    } else {
      if s :| s in inp.Scopes() && key == Holder(inp.base, s) {
        AppliedAt(inp, store, order, s);
        assert false;
      }
      AppliedElsewhere(inp, store, order, key);
      if s :| s in inp.Scopes() && target == Holder(inp.base, s) {
        AppliedAt(inp, store, order, s);
        LandedMeaning(store, inp, s, q);
      } else {
        AppliedElsewhere(inp, store, order, target);
      }
      if target in store && Allows(RulesOf(store[target]), q) {
        assert GrantedBy(store, key, inp.sa, q);
      }
    }
  }

  /** What the role of a scope allows after an apply is permitted. */
  lemma AppliedScopeGrants(inp: Input, store: Store, order: seq<string>, s: string, q: Request)
    requires inp.Order(order) && s in inp.Scopes() && (s == "" || s == q.namespace)
    requires Allows(RulesOf(Landed(store, inp.RoleIn(s))), q)
    ensures Authorized(LandAll(store, inp.Writes(order)), inp.sa, q)
  {
    AppliedAt(inp, store, order, s);
    assert GrantedBy(LandAll(store, inp.Writes(order)), Binder(inp.base, s), inp.sa, q);
  }

  /** Completeness: nothing that was possible before is lost, everything the inspector lists becomes
      possible, and so does what earlier applies left in the roles. */
  lemma ApplyGrantsNoLess(inp: Input, store: Store, order: seq<string>, q: Request)
    requires inp.Order(order) && OwnRefs(store, inp.base)
    requires Authorized(store, inp.sa, q) || Covered(inp.resources, q) || Latent(store, inp, q)
    ensures Authorized(LandAll(store, inp.Writes(order)), inp.sa, q)
  {
    if Authorized(store, inp.sa, q) {
      ApplyNeverShrinks(inp, store, order, |inp.Writes(order)|, q);
      assert inp.Writes(order)[..|inp.Writes(order)|] == inp.Writes(order);
    } else if Covered(inp.resources, q) {
      var r :| r in inp.resources && Covers(r, q);
      LandedMeaning(store, inp, r.namespace, q);
      AppliedScopeGrants(inp, store, order, r.namespace, q);
    } else {
      var s :| s in inp.Scopes() && (s == "" || s == q.namespace) &&
               Holder(inp.base, s) in store && Allows(RulesOf(store[Holder(inp.base, s)]), q);
      LandedMeaning(store, inp, s, q);
      AppliedScopeGrants(inp, store, order, s, q);
    }
  }

  /** The meaning of a completed apply, for every request. */
  lemma ApplyMeaning(inp: Input, store: Store, order: seq<string>, q: Request)
    requires inp.Order(order) && OwnRefs(store, inp.base)
    ensures Authorized(LandAll(store, inp.Writes(order)), inp.sa, q) <==>
            Authorized(store, inp.sa, q) || Covered(inp.resources, q) || Latent(store, inp, q)
  {
    if Authorized(store, inp.sa, q) || Covered(inp.resources, q) || Latent(store, inp, q) {
      ApplyGrantsNoLess(inp, store, order, q);
    }
    if Authorized(LandAll(store, inp.Writes(order)), inp.sa, q) {
      var key :| GrantedBy(LandAll(store, inp.Writes(order)), key, inp.sa, q);
      ApplyGrantsNoMore(inp, store, order, key, q);
    }
  }

  /** Every same-named role is bound to the service account already, as a completed apply leaves it. */
  ghost predicate Bound(store: Store, base: string, sa: Subject) {
    forall s :: Holder(base, s) in store ==>
                  && Binder(base, s) in store && store[Binder(base, s)].Binding?
                  && store[Binder(base, s)].roleRef == OwnRef(base, s) && sa in store[Binder(base, s)].subjects
  }

  lemma NothingLatent(store: Store, inp: Input, q: Request)
    requires Bound(store, inp.base, inp.sa) && Latent(store, inp, q)
    ensures Authorized(store, inp.sa, q)
  {
    var s :| s in inp.Scopes() && (s == "" || s == q.namespace) &&
             Holder(inp.base, s) in store && Allows(RulesOf(store[Holder(inp.base, s)]), q);
    assert GrantedBy(store, Binder(inp.base, s), inp.sa, q);
  }

  /** ApplyRBAC(Generate(R)), from a cluster without half-finished applies: the service account may do
      exactly what it could before and what R lists. This holds of every run that reports success;
      PolicyWrites says that inp.Writes is what the installer goes through. */
  lemma AppliedPolicyMeansItsList(inp: Input, before: Api, order: seq<string>, q: Request)
    requires inp.Order(order) && OwnRefs(before.store, inp.base) && Bound(before.store, inp.base, inp.sa)
    requires ApplyAll(before, inp.Writes(order)).1
    ensures Authorized(ApplyAll(before, inp.Writes(order)).0.store, inp.sa, q) <==>
            Authorized(before.store, inp.sa, q) || Covered(inp.resources, q)
  {
    var n := ApplyAllLands(before, inp.Writes(order));
    assert inp.Writes(order)[..n] == inp.Writes(order);
    ApplyMeaning(inp, before.store, order, q);
    if Latent(before.store, inp, q) { NothingLatent(before.store, inp, q); }
  }

  /** A completed apply keeps the two conditions of AppliedPolicyMeansItsList, so that they hold
      before the next one as well. */
  lemma ApplyKeepsBound(inp: Input, store: Store, order: seq<string>)
    requires inp.Order(order) && OwnRefs(store, inp.base) && Bound(store, inp.base, inp.sa)
    ensures var after := LandAll(store, inp.Writes(order)); OwnRefs(after, inp.base) && Bound(after, inp.base, inp.sa)
  {
    forall s
      ensures var after := LandAll(store, inp.Writes(order));
              || (s in inp.Scopes() && Binder(inp.base, s) in after && after[Binder(inp.base, s)] == inp.BindingIn(s).body)
              || ((Binder(inp.base, s) in after <==> Binder(inp.base, s) in store) &&
                  (Binder(inp.base, s) in store ==> after[Binder(inp.base, s)] == store[Binder(inp.base, s)]) &&
                  (Holder(inp.base, s) in after <==> Holder(inp.base, s) in store))
    {
      if s in inp.Scopes() {
        AppliedAt(inp, store, order, s);
      } else {
        AppliedElsewhere(inp, store, order, Binder(inp.base, s));
        AppliedElsewhere(inp, store, order, Holder(inp.base, s));
      }
    }
  }

  // ------------------------------------------------------------ uninstalling

  /** Deleting objects never lets anyone do more; this covers every step of an uninstall. */
  lemma DeletingNeverGrants(store: Store, gone: set<Key>, sa: Subject, q: Request)
    requires Authorized(store - gone, sa, q)
    ensures Authorized(store, sa, q)
  {
    var key :| GrantedBy(store - gone, key, sa, q);
    assert GrantedBy(store, key, sa, q);
  }

  /** The objects of the release that lie in the scopes of the policy, and no others, are gone. */
  lemma UninstallRemovesExactly(inp: Input, before: Api, order: seq<string>, key: Key)
    requires inp.Order(order)
    requires DeleteAll(before, inp.Deletes(order)).1
    ensures var after := DeleteAll(before, inp.Deletes(order)).0.store;
            && (key in after <==> key in before.store && key !in DeletedKeys(inp))
            && (key in after ==> after[key] == before.store[key])
            && (key.kind.NamespaceKind? || key.name != inp.base ==> (key in after <==> key in before.store))
  {
    var n := DeleteAllRemoves(before, inp.Deletes(order));
    assert inp.Deletes(order)[..n] == inp.Deletes(order);
    DeletesAre(inp, order);
  }

  /** What is granted without the objects of the release called base. */
  ghost predicate GrantedByOthers(store: Store, base: string, sa: Subject, q: Request) {
    exists key :: !Own(key, base) && GrantedBy(store, key, sa, q) && !Own(Target(key, store[key].roleRef), base)
  }

  /** When the scopes of the policy cover what earlier applies of the release left in the cluster,
      all the permissions those gave are gone, and every other permission is still there. */
  lemma UninstallRevokes(inp: Input, store: Store, q: Request)
    requires forall key :: key in store && Own(key, inp.base) ==> key in DeletedKeys(inp)
    ensures Authorized(store - DeletedKeys(inp), inp.sa, q) <==> GrantedByOthers(store, inp.base, inp.sa, q)
  {
    var after := store - DeletedKeys(inp);
    if key :| GrantedBy(after, key, inp.sa, q) {
      assert GrantedBy(store, key, inp.sa, q) && !Own(key, inp.base);
    }
    if key :| !Own(key, inp.base) && GrantedBy(store, key, inp.sa, q) && !Own(Target(key, store[key].roleRef), inp.base) {
      assert GrantedBy(after, key, inp.sa, q);
    }
  }

  /** Applying a policy and uninstalling it gives back the RBAC objects one started with, provided
      none of the release's own objects were there in its scopes. */
  lemma ApplyThenUninstall(inp: Input, store: Store, order: seq<string>, key: Key)
    requires inp.Order(order) && key.kind != NamespaceKind
    requires forall k :: k in DeletedKeys(inp) ==> k !in store
    ensures var after := LandAll(store, inp.Writes(order)) - DeletedKeys(inp);
            (key in after <==> key in store) && (key in store ==> after[key] == store[key])
  {
    if key !in DeletedKeys(inp) {
      AppliedElsewhere(inp, store, order, key);
    }
  }
}
