/** The RBAC installer (internal/tools/rbac/installer.go): what it sends to the API server, call by
    call, and what each call leaves behind. */
module Installer {
  import opened Wrappers
  import opened Kube
  import opened Policy

  /** The rules of an existing role after those of another one have been merged into it. */
  function MergeRules(existing: seq<Rule>, wanted: seq<Rule>): seq<Rule> {
    if wanted == [] then existing
    else
      var merged := MergeRules(existing, wanted[..|wanted| - 1]);
      var rule := wanted[|wanted| - 1];
      if rule in merged then merged else merged + [rule]
  }

  /** What an apply leaves under a key that is taken: roles are merged, and left alone when nothing
      is new; bindings and namespaces are replaced. */
  function Settled(key: Key, existing: Body, wanted: Body): Body {
    if key.HoldsRules() then
      var rules := MergeRules(RulesOf(existing), RulesOf(wanted));
      if rules == RulesOf(existing) then existing else Role(rules)
    else wanted
  }

  /** ApplyNamespace, ApplyRole, ApplyRoleBinding, ApplyClusterRole, ApplyClusterRoleBinding: a get,
      then at most one write. */
  function ApplyObject(a: Api, o: Object): (Api, bool) {
    var (a1, reply) := GetCall(a, o.key);
    match reply
    case Failed => (a1, false)
    case NotFound => CreateCall(a1, o.key, o.body)
    case Found(existing) =>
      if o.key.HoldsRules() && Settled(o.key, existing, o.body) == existing then (a1, true)
      else UpdateCall(a1, o.key, Settled(o.key, existing, o.body))
  }

  /** Apply the objects one after another and stop at the first error. */
  function ApplyAll(a: Api, objects: seq<Object>): (Api, bool) {
    if objects == [] then (a, true)
    else
      var (a1, ok) := ApplyAll(a, objects[..|objects| - 1]);
      if ok then ApplyObject(a1, objects[|objects| - 1]) else (a1, false)
  }

  function DeleteAll(a: Api, keys: seq<Key>): (Api, bool) {
    if keys == [] then (a, true)
    else
      var (a1, ok) := DeleteAll(a, keys[..|keys| - 1]);
      if ok then DeleteCall(a1, keys[|keys| - 1]) else (a1, false)
  }

  lemma {:induction false} ApplyAllSplits(a: Api, xs: seq<Object>, ys: seq<Object>)
    ensures ApplyAll(a, xs + ys) ==
            (if ApplyAll(a, xs).1 then ApplyAll(ApplyAll(a, xs).0, ys) else ApplyAll(a, xs))
  {
    if ys == [] {
      assert xs + ys == xs;
    } else {
      var init := ys[..|ys| - 1];
      assert (xs + ys)[..|xs + ys| - 1] == xs + init;
      ApplyAllSplits(a, xs, init);
    }
  }

  lemma {:induction false} DeleteAllSplits(a: Api, xs: seq<Key>, ys: seq<Key>)
    ensures DeleteAll(a, xs + ys) ==
            (if DeleteAll(a, xs).1 then DeleteAll(DeleteAll(a, xs).0, ys) else DeleteAll(a, xs))
  {
    if ys == [] {
      assert xs + ys == xs;
    } else {
      var init := ys[..|ys| - 1];
      assert (xs + ys)[..|xs + ys| - 1] == xs + init;
      DeleteAllSplits(a, xs, init);
    }
  }

  /** The cluster as the dynamic client sees it, with the faults it is going to produce. */
  class Cluster {
    var store: Store
    var faults: seq<Fault>

    constructor (store: Store, faults: seq<Fault>)
      ensures State() == Api(store, faults)
    {
      this.store, this.faults := store, faults;
    }

    function State(): Api
      reads this
    {
      Api(store, faults)
    }

    method Get(key: Key) returns (reply: Reply<Body>)
      modifies this
      ensures (State(), reply) == GetCall(old(State()), key)
    {
      var fault := Head(faults);
      faults := Tail(faults);
      if fault != Fine { return Failed; }
      reply := if key in store then Found(store[key]) else NotFound;
    }

    method Create(key: Key, body: Body) returns (ok: bool)
      modifies this
      ensures (State(), ok) == CreateCall(old(State()), key, body)
    {
      var fault := Head(faults);
      faults := Tail(faults);
      if key in store || !Accepts(store, key, body) { return false; }
      if fault.Lands() { store := store[key := body]; }
      ok := fault == Fine;
    }

    method Update(key: Key, body: Body) returns (ok: bool)
      modifies this
      ensures (State(), ok) == UpdateCall(old(State()), key, body)
    {
      var fault := Head(faults);
      faults := Tail(faults);
      if key !in store || !Accepts(store, key, body) { return false; }
      if fault.Lands() { store := store[key := body]; }
      ok := fault == Fine;
    }

    method Delete(key: Key) returns (ok: bool)
      modifies this
      ensures (State(), ok) == DeleteCall(old(State()), key)
    {
      var fault := Head(faults);
      faults := Tail(faults);
      if fault.Lands() { store := store - {key}; }
      ok := fault == Fine;
    }
  }

  method RuleExists(rules: seq<Rule>, target: Rule) returns (found: bool)
    ensures found <==> target in rules
  {
    for i := 0 to |rules|
      invariant target !in rules[..i]
    {
      if rules[i] == target { return true; }
    }
    return false;
  }

  class RBACInstaller {
    const client: Cluster

    constructor (client: Cluster)
      ensures this.client == client
    {
      this.client := client;
    }

    /** ApplyRole and ApplyClusterRole, which differ only in the resource they address. */
    method ApplyRole(role: Object) returns (ok: bool)
      requires role.key.HoldsRules()
      modifies client
      ensures (client.State(), ok) == ApplyObject(old(client.State()), role)
    {
      var reply := client.Get(role.key);
      if reply.NotFound? {
        ok := client.Create(role.key, role.body);
        return;
      }
      if reply.Failed? { return false; }

      var rules := RulesOf(reply.value);
      var wanted := RulesOf(role.body);
      var modified := false;
      for i := 0 to |wanted|
        invariant rules == MergeRules(RulesOf(reply.value), wanted[..i])
        invariant RulesOf(reply.value) <= rules
        invariant modified <==> rules != RulesOf(reply.value)
        invariant client.State() == GetCall(old(client.State()), role.key).0
      {
        assert wanted[..i + 1][..i] == wanted[..i];
        var known := RuleExists(rules, wanted[i]);
        if !known {
          rules := rules + [wanted[i]];
          modified := true;
        }
      }
      assert wanted[..|wanted|] == wanted;
      assert rules == MergeRules(RulesOf(reply.value), RulesOf(role.body));
      if !modified {
        assert Settled(role.key, reply.value, role.body) == reply.value;
        return true;
      }
      ok := client.Update(role.key, Role(rules));
    }

    /** ApplyNamespace, ApplyRoleBinding and ApplyClusterRoleBinding: what is there is replaced. */
    method ApplyWhole(o: Object) returns (ok: bool)
      requires !o.key.HoldsRules()
      modifies client
      ensures (client.State(), ok) == ApplyObject(old(client.State()), o)
    {
      var reply := client.Get(o.key);
      if reply.NotFound? {
        ok := client.Create(o.key, o.body);
        return;
      }
      if reply.Failed? { return false; }
      ok := client.Update(o.key, o.body);
    }

    /** The types that the RBAC struct gives its fields. */
    static ghost predicate WellTyped(p: RBAC) {
      && (forall o :: o in p.namespaces && o.Some? ==> o.value.key.kind.NamespaceKind?)
      && (p.clusterRole.Some? ==> p.clusterRole.value.key.kind.ClusterRoleKind?)
      && (p.clusterRoleBinding.Some? ==> p.clusterRoleBinding.value.key.kind.ClusterRoleBindingKind?)
      && TypedEntries(p.namespaced)
    }

    static ghost predicate TypedEntries(m: map<string, Namespaced>) {
      forall ns :: ns in m ==>
        && (m[ns].role.Some? ==> m[ns].role.value.key.kind.RoleKind?)
        && (m[ns].roleBinding.Some? ==> m[ns].roleBinding.value.key.kind.RoleBindingKind?)
    }

    /** A role, then the binding that refers to it; a nil pointer is skipped. */
    method ApplyPair(role: Option<Object>, binding: Option<Object>) returns (ok: bool)
      requires role.Some? ==> role.value.key.HoldsRules()
      requires binding.Some? ==> binding.value.key.HoldsBinding()
      modifies client
      ensures (client.State(), ok) == ApplyAll(old(client.State()), Present(role) + Present(binding))
    {
      ghost var start := client.State();
      if role.Some? {
        ok := ApplyRole(role.value);
        ApplyAllOne(start, role.value);
        ApplyAllSplits(start, Present(role), Present(binding));
        if !ok { return; }
      }
      if binding.Some? {
        ApplyAllOne(client.State(), binding.value);
        ok := ApplyWhole(binding.value);
        return;
      }
      return true;
    }

    method ApplyNamespaces(namespaces: seq<Option<Object>>) returns (ok: bool)
      requires forall o :: o in namespaces && o.Some? ==> o.value.key.kind.NamespaceKind?
      modifies client
      ensures (client.State(), ok) == ApplyAll(old(client.State()), PresentAll(namespaces))
    {
      ghost var start := client.State();
      for i := 0 to |namespaces|
        invariant (client.State(), true) == ApplyAll(start, PresentAll(namespaces[..i]))
      {
        PresentAllStep(namespaces, i);
        if namespaces[i].Some? {
          ApplyAllOne(client.State(), namespaces[i].value);
          ok := ApplyWhole(namespaces[i].value);
          ApplyNext(start, PresentAll(namespaces[..i]), [namespaces[i].value], PresentAll(namespaces));
          if !ok { return; }
        }
      }
      assert namespaces[..|namespaces|] == namespaces;
      return true;
    }

    method ApplyNamespaced(namespaced: map<string, Namespaced>, order: seq<string>) returns (ok: bool)
      requires TypedEntries(namespaced) && IsOrder(order, namespaced.Keys)
      modifies client
      ensures (client.State(), ok) == ApplyAll(old(client.State()), NamespacedObjects(namespaced, order))
    {
      ghost var start := client.State();
      for i := 0 to |order|
        invariant (client.State(), true) == ApplyAll(start, NamespacedObjects(namespaced, order[..i]))
      {
        assert order[..i + 1][..i] == order[..i];
        NamespacedPrefix(namespaced, order, i + 1);
        var ns := namespaced[order[i]];
        ok := ApplyPair(ns.role, ns.roleBinding);
        ApplyNext(start, NamespacedObjects(namespaced, order[..i]), Present(ns.role) + Present(ns.roleBinding),
                  NamespacedObjects(namespaced, order));
        if !ok { return; }
      }
      assert order[..|order|] == order;
      return true;
    }

    /** order stands for the order in which the range over rbac.Namespaced happens to go. */
    method ApplyRBAC(rbac: Option<RBAC>, order: seq<string>) returns (ok: bool)
      requires rbac.Some? ==> WellTyped(rbac.value) && IsOrder(order, rbac.value.namespaced.Keys)
      modifies client
      ensures rbac.None? ==> !ok && client.State() == old(client.State())
      ensures rbac.Some? ==> (client.State(), ok) == ApplyAll(old(client.State()), Objects(rbac.value, order))
    {
      if rbac.None? { return false; }
      var p := rbac.value;
      ghost var start := client.State();
      ApplyAllSplits(start, PresentAll(p.namespaces), ClusterObjects(p) + NamespacedObjects(p.namespaced, order));
      ok := ApplyNamespaces(p.namespaces);
      if !ok { return; }
      ApplyAllSplits(client.State(), ClusterObjects(p), NamespacedObjects(p.namespaced, order));
      ok := ApplyPair(p.clusterRole, p.clusterRoleBinding);
      if !ok { return; }
      ok := ApplyNamespaced(p.namespaced, order);
    }

    method DeletePair(role: Option<Object>, binding: Option<Object>) returns (ok: bool)
      modifies client
      ensures (client.State(), ok) == DeleteAll(old(client.State()), Keys(Present(role) + Present(binding)))
    {
      ghost var start := client.State();
      if role.Some? {
        ok := client.Delete(role.value.key);
        DeleteAllOne(start, role.value.key);
        DeleteAllSplits(start, Keys(Present(role)), Keys(Present(binding)));
        assert Keys(Present(role)) + Keys(Present(binding)) == Keys(Present(role) + Present(binding));
        assert Keys(Present(role)) == [role.value.key];
        if !ok { return; }
      }
      if binding.Some? {
        DeleteAllOne(client.State(), binding.value.key);
        assert Keys(Present(binding)) == [binding.value.key];
        assert role.None? ==> Present(role) + Present(binding) == Present(binding);
        ok := client.Delete(binding.value.key);
        return;
      }
      return true;
    }

    method DeleteNamespaced(namespaced: map<string, Namespaced>, order: seq<string>) returns (ok: bool)
      requires IsOrder(order, namespaced.Keys)
      modifies client
      ensures (client.State(), ok) == DeleteAll(old(client.State()), Keys(NamespacedObjects(namespaced, order)))
    {
      ghost var start := client.State();
      for i := 0 to |order|
        invariant (client.State(), true) == DeleteAll(start, Keys(NamespacedObjects(namespaced, order[..i])))
      {
        assert order[..i + 1][..i] == order[..i];
        NamespacedPrefix(namespaced, order, i + 1);
        var ns := namespaced[order[i]];
        ok := DeletePair(ns.role, ns.roleBinding);
        DeleteNext(start, NamespacedObjects(namespaced, order[..i]), Present(ns.role) + Present(ns.roleBinding),
                   NamespacedObjects(namespaced, order));
        if !ok { return; }
      }
      assert order[..|order|] == order;
      return true;
    }

    method UninstallRBAC(rbac: Option<RBAC>, order: seq<string>) returns (ok: bool)
      requires rbac.Some? ==> IsOrder(order, rbac.value.namespaced.Keys)
      modifies client
      ensures rbac.None? ==> !ok && client.State() == old(client.State())
      ensures rbac.Some? ==> (client.State(), ok) == DeleteAll(old(client.State()), Removals(rbac.value, order))
    {
      if rbac.None? { return false; }
      var p := rbac.value;
      KeysSplit(ClusterObjects(p), NamespacedObjects(p.namespaced, order));
      DeleteAllSplits(client.State(), Keys(ClusterObjects(p)), Keys(NamespacedObjects(p.namespaced, order)));
      ok := DeletePair(p.clusterRole, p.clusterRoleBinding);
      if !ok { return; }
      ok := DeleteNamespaced(p.namespaced, order);
    }
  }

  // ------------------------------------------------------------ steps of the loops above

  lemma ApplyAllOne(a: Api, o: Object)
    ensures ApplyAll(a, [o]) == ApplyObject(a, o)
  {
  }

  /** After the objects in done, the objects in next decide what a run over all of them does. */
  lemma ApplyNext(a: Api, done: seq<Object>, next: seq<Object>, all: seq<Object>)
    requires done + next <= all && ApplyAll(a, done).1
    ensures ApplyAll(a, done + next) == ApplyAll(ApplyAll(a, done).0, next)
    ensures !ApplyAll(a, done + next).1 ==> ApplyAll(a, all) == ApplyAll(a, done + next)
  {
    ApplyAllSplits(a, done, next);
    ApplyAllSplits(a, done + next, all[|done + next|..]);
    assert done + next + all[|done + next|..] == all;
  }

  lemma DeleteAllOne(a: Api, k: Key)
    ensures DeleteAll(a, [k]) == DeleteCall(a, k)
  {
  }

  lemma DeleteNext(a: Api, done: seq<Object>, next: seq<Object>, all: seq<Object>)
    requires done + next <= all && DeleteAll(a, Keys(done)).1
    ensures DeleteAll(a, Keys(done + next)) == DeleteAll(DeleteAll(a, Keys(done)).0, Keys(next))
    ensures !DeleteAll(a, Keys(done + next)).1 ==> DeleteAll(a, Keys(all)) == DeleteAll(a, Keys(done + next))
  {
    var rest := all[|done + next|..];
    KeysSplit(done, next);
    KeysSplit(done + next, rest);
    DeleteAllSplits(a, Keys(done), Keys(next));
    DeleteAllSplits(a, Keys(done + next), Keys(rest));
    assert done + next + rest == all;
  }

  lemma KeysSplit(xs: seq<Object>, ys: seq<Object>)
    ensures Keys(xs + ys) == Keys(xs) + Keys(ys)
  {
  }

  lemma PresentAllStep(os: seq<Option<Object>>, i: nat)
    requires i < |os|
    ensures PresentAll(os[..i + 1]) ==
            (if os[i].Some? then PresentAll(os[..i]) + [os[i].value] else PresentAll(os[..i]))
    ensures PresentAll(os[..i + 1]) <= PresentAll(os)
  {
    assert os[..i + 1][..i] == os[..i];
    PresentAllPrefix(os, i + 1);
  }

  lemma {:induction false} PresentAllPrefix(os: seq<Option<Object>>, i: nat)
    requires i <= |os|
    ensures PresentAll(os[..i]) <= PresentAll(os)
    decreases |os|
  {
    if i == |os| {
      assert os[..i] == os;
    } else {
      assert os[..|os| - 1][..i] == os[..i];
      PresentAllPrefix(os[..|os| - 1], i);
    }
  }

  lemma {:induction false} NamespacedPrefix(m: map<string, Namespaced>, order: seq<string>, i: nat)
    requires i <= |order| && forall ns :: ns in order ==> ns in m
    ensures NamespacedObjects(m, order[..i]) <= NamespacedObjects(m, order)
    decreases |order|
  {
    if i == |order| {
      assert order[..i] == order;
    } else {
      assert order[..|order| - 1][..i] == order[..i];
      NamespacedPrefix(m, order[..|order| - 1], i);
    }
  }
}
