/** What a generated policy consists of: the objects that an apply writes and the keys that an uninstall
    deletes. */
module Meaning {
  import opened Wrappers
  import opened Kube
  import P = Policy
  import opened Installer
  import opened Landing
  import opened RbacGen

  // ------------------------------------------------------------ the objects of a generated policy

  /** The RBAC objects that belong to the release called base. */
  predicate Own(key: Key, base: string) {
    key.kind != NamespaceKind && key.name == base
  }

  /** A scope is a namespace, or "" for the cluster. In each scope there is one role, its holder,
      and one binding. */
  function Binder(base: string, scope: string): Key {
    if scope == "" then Key(ClusterRoleBindingKind, "", base) else Key(RoleBindingKind, scope, base)
  }

  function Holder(base: string, scope: string): Key {
    if scope == "" then Key(ClusterRoleKind, "", base) else Key(RoleKind, scope, base)
  }

  function OwnRef(base: string, scope: string): RoleRef {
    RoleRef(if scope == "" then "ClusterRole" else "Role", base)
  }

  /** What the generator is given. */
  datatype Input = Input(resources: seq<Resource>, base: string, namespace: string, sa: Subject) {
    function Policy(): P.RBAC { Generated(resources, base, namespace, sa) }

    function RoleIn(scope: string): Object { Object(Holder(base, scope), Role(RulesIn(resources, scope))) }

    function BindingIn(scope: string): Object { Object(Binder(base, scope), Binding(OwnRef(base, scope), [sa])) }

    function Pairs(scopes: seq<string>): seq<Object> {
      if scopes == [] then []
      else
        var s := scopes[|scopes| - 1];
        Pairs(scopes[..|scopes| - 1]) + [RoleIn(s), BindingIn(s)]
    }

    function NamespaceWrites(): seq<Object> { P.PresentAll(NamespaceObjects(resources, base, namespace)) }

    /** The writes of one apply, when the range over the namespaced map goes in the given order. */
    function Writes(order: seq<string>): seq<Object> { NamespaceWrites() + Pairs([""] + order) }

    /** The deletes of one uninstall. */
    function Deletes(order: seq<string>): seq<Key> { P.Keys(Pairs([""] + order)) }

    ghost predicate Order(order: seq<string>) { P.IsOrder(order, NamespacesOf(resources)) }

    /** The namespaces a policy has a role in, and the cluster. */
    function Scopes(): set<string> { NamespacesOf(resources) + {""} }
  }

  lemma {:induction false} PairsOfEntries(inp: Input, order: seq<string>)
    requires forall ns :: ns in order ==> ns in inp.Policy().namespaced
    ensures P.NamespacedObjects(inp.Policy().namespaced, order) == inp.Pairs(order)
  {
    if order == [] {
    } else {
      var init, ns := order[..|order| - 1], order[|order| - 1];
      PairsOfEntries(inp, init);
      NamespacedAt(inp.resources, inp.base, inp.sa);
      var entry := inp.Policy().namespaced[ns];
      assert P.Present(entry.role) + P.Present(entry.roleBinding) == [inp.RoleIn(ns), inp.BindingIn(ns)];
    }
  }

  lemma {:induction false} PairsConcat(inp: Input, xs: seq<string>, ys: seq<string>)
    ensures inp.Pairs(xs + ys) == inp.Pairs(xs) + inp.Pairs(ys)
  {
    if ys == [] {
      assert xs + ys == xs;
    } else {
      assert (xs + ys)[..|xs + ys| - 1] == xs + ys[..|ys| - 1];
      PairsConcat(inp, xs, ys[..|ys| - 1]);
    }
  }

  /** The installer, given a generated policy, writes and deletes exactly these objects. */
  lemma PolicyWrites(inp: Input, order: seq<string>)
    requires inp.Order(order)
    ensures inp.Policy().namespaced.Keys == NamespacesOf(inp.resources)
    ensures P.Objects(inp.Policy(), order) == inp.Writes(order)
    ensures P.Removals(inp.Policy(), order) == inp.Deletes(order)
    ensures RBACInstaller.WellTyped(inp.Policy())
  {
    NamespacedAt(inp.resources, inp.base, inp.sa);
    PairsOfEntries(inp, order);
    PairsConcat(inp, [""], order);
    assert [""][..0] == [];
    assert inp.Pairs([""]) == [inp.RoleIn(""), inp.BindingIn("")] == P.ClusterObjects(inp.Policy());
    NamespaceKinds(inp.resources, inp.base, inp.namespace);
  }

  lemma {:induction false} NamespaceKinds(resources: seq<Resource>, base: string, ns: string)
    ensures forall o :: o in NamespaceObjects(resources, base, ns) <==>
                        exists r :: r in resources && IsNamespace(r) && o == Some(P.CreateNamespace(r.name, base, ns))
  {
    if resources == [] {
    } else {
      var init, last := resources[..|resources| - 1], resources[|resources| - 1];
      assert resources == init + [last];
      NamespaceKinds(init, base, ns);
    }
  }

  lemma {:induction false} InPresentAll(os: seq<Option<Object>>, o: Object)
    ensures o in P.PresentAll(os) <==> Some(o) in os
  {
    if os == [] {
    } else {
      assert os == os[..|os| - 1] + [os[|os| - 1]];
      InPresentAll(os[..|os| - 1], o);
    }
  }

  lemma {:induction false} InPairs(inp: Input, scopes: seq<string>, o: Object)
    ensures o in inp.Pairs(scopes) <==> exists s :: s in scopes && (o == inp.RoleIn(s) || o == inp.BindingIn(s))
  {
    if scopes == [] {
    } else {
      assert scopes == scopes[..|scopes| - 1] + [scopes[|scopes| - 1]];
      InPairs(inp, scopes[..|scopes| - 1], o);
    }
  }

  /** Which objects an apply writes: the order has no part in it. */
  lemma InWrites(inp: Input, order: seq<string>, o: Object)
    requires inp.Order(order)
    ensures o in inp.Writes(order) <==>
            || (exists r :: r in inp.resources && IsNamespace(r) && o == P.CreateNamespace(r.name, inp.base, inp.namespace))
            || (exists s :: s in inp.Scopes() && (o == inp.RoleIn(s) || o == inp.BindingIn(s)))
  {
    NamespaceKinds(inp.resources, inp.base, inp.namespace);
    InPresentAll(NamespaceObjects(inp.resources, inp.base, inp.namespace), o);
    InPairs(inp, [""] + order, o);
    forall s ensures s in [""] + order <==> s in inp.Scopes() {}
  }

  lemma WritesConsistent(inp: Input, order: seq<string>)
    requires inp.Order(order)
    ensures Consistent(inp.Writes(order))
    ensures forall o :: o in inp.Writes(order) ==> o.key.kind.NamespaceKind? || Own(o.key, inp.base)
  {
    forall o | o in inp.Writes(order)
      ensures o.key.kind.NamespaceKind? || Own(o.key, inp.base)
      ensures forall p :: p in inp.Writes(order) && o.key == p.key ==> o == p
    {
      InWrites(inp, order, o);
      forall p | p in inp.Writes(order) && o.key == p.key
        ensures o == p
      {
        InWrites(inp, order, p);
      }
    }
  }

  lemma SameWrites(inp: Input, xs: seq<string>, ys: seq<string>)
    requires inp.Order(xs) && inp.Order(ys)
    ensures forall o :: o in inp.Writes(xs) <==> o in inp.Writes(ys)
  {
    forall o ensures o in inp.Writes(xs) <==> o in inp.Writes(ys) {
      InWrites(inp, xs, o);
      InWrites(inp, ys, o);
    }
  }

  // ------------------------------------------------------------ the keys an uninstall deletes

  function DeletedKeys(inp: Input): set<Key> {
    (set s | s in inp.Scopes() :: Holder(inp.base, s)) + (set s | s in inp.Scopes() :: Binder(inp.base, s))
  }

  lemma DeletesAre(inp: Input, order: seq<string>)
    requires inp.Order(order)
    ensures KeySet(inp.Deletes(order)) == DeletedKeys(inp)
  {
    forall s ensures s in [""] + order <==> s in inp.Scopes() {}
    var pairs := inp.Pairs([""] + order);
    forall k | k in KeySet(inp.Deletes(order)) ensures k in DeletedKeys(inp) {
      var i :| 0 <= i < |pairs| && pairs[i].key == k;
      InPairs(inp, [""] + order, pairs[i]);
    }
    forall k | k in DeletedKeys(inp) ensures k in KeySet(inp.Deletes(order)) {
      var s :| s in inp.Scopes() && (k == Holder(inp.base, s) || k == Binder(inp.base, s));
      var o := if k == Holder(inp.base, s) then inp.RoleIn(s) else inp.BindingIn(s);
      InPairs(inp, [""] + order, o);
      var i :| 0 <= i < |pairs| && pairs[i] == o;
      assert inp.Deletes(order)[i] == k;
    }
  }
}
