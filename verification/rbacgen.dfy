/** The policy generator (internal/rbacgen/rbacgen.go). */
module RbacGen {
  import opened Wrappers
  import opened Kube
  import opened Policy

  /** An entry of the chart inspector's answer. */
  datatype Resource = Resource(group: string, version: string, resource: string, name: string, namespace: string)

  function ToRule(r: Resource): Rule {
    Rule([r.group], [r.resource], ["*"], [])
  }

  predicate IsNamespace(r: Resource) {
    r.namespace == "" && r.group == "" && r.resource == "namespaces" && r.version == "v1"
  }

  /** The rules for the resources of one namespace ("" for the cluster-scoped ones), in the
      inspector's order. */
  function RulesIn(resources: seq<Resource>, namespace: string): seq<Rule> {
    if resources == [] then []
    else
      var rules := RulesIn(resources[..|resources| - 1], namespace);
      var r := resources[|resources| - 1];
      if r.namespace == namespace then rules + [ToRule(r)] else rules
  }

  function NamespacesOf(resources: seq<Resource>): set<string> {
    set r | r in resources && r.namespace != "" :: r.namespace
  }

  function NamespaceObjects(resources: seq<Resource>, baseName: string, namespace: string): seq<Option<Object>> {
    if resources == [] then []
    else
      var objects := NamespaceObjects(resources[..|resources| - 1], baseName, namespace);
      var r := resources[|resources| - 1];
      if IsNamespace(r) then objects + [Some(CreateNamespace(r.name, baseName, namespace))] else objects
  }

  function EntryOf(rules: seq<Rule>, baseName: string, namespace: string, sa: Subject): Namespaced {
    Namespaced(Some(InitRole(baseName, namespace).(body := Role(rules))),
               Some(InitRoleBinding(baseName, baseName, namespace, sa)))
  }

  /** One entry per namespace, extended as its resources come along. */
  function NamespacedOf(resources: seq<Resource>, baseName: string, sa: Subject): map<string, Namespaced> {
    if resources == [] then map[]
    else
      var before := NamespacedOf(resources[..|resources| - 1], baseName, sa);
      var ns := resources[|resources| - 1].namespace;
      if ns == "" then before else before[ns := EntryOf(RulesIn(resources, ns), baseName, ns, sa)]
  }

  /** The map holds exactly the namespaces of the list, each with exactly its own rules. */
  lemma {:induction false} NamespacedAt(resources: seq<Resource>, baseName: string, sa: Subject)
    ensures NamespacedOf(resources, baseName, sa).Keys == NamespacesOf(resources)
    ensures forall ns :: ns in NamespacedOf(resources, baseName, sa) ==>
                         NamespacedOf(resources, baseName, sa)[ns] == EntryOf(RulesIn(resources, ns), baseName, ns, sa)
  {
    if resources == [] {
    } else {
      var init, last := resources[..|resources| - 1], resources[|resources| - 1];
      NamespacedAt(init, baseName, sa);
      NextNamespaces(resources, |init|);
      assert resources[..|init| + 1] == resources;
    }
  }

  function Generated(resources: seq<Resource>, baseName: string, compositionNamespace: string, sa: Subject): RBAC {
    RBAC(
      NamespaceObjects(resources, baseName, compositionNamespace),
      NamespacedOf(resources, baseName, sa),
      Some(InitClusterRole(baseName).(body := Role(RulesIn(resources, "")))),
      Some(InitClusterRoleBinding(baseName, baseName, sa)))
  }

  class RBACGen {
    const sa: Subject
    var baseName: string

    constructor (saName: string, saNamespace: string)
      ensures sa == ServiceAccount(saName, saNamespace) && baseName == ""
    {
      sa := ServiceAccount(saName, saNamespace);
      baseName := "";
    }

    method WithBaseName(name: string)
      modifies this
      ensures baseName == name
    {
      baseName := name;
    }

    /** The else branch of Generate's loop: rules are those that the namespace's role has so far. */
    static method AddRule(namespaced: map<string, Namespaced>, r: Resource, base: string, sa: Subject, ghost rules: seq<Rule>)
      returns (extended: map<string, Namespaced>)
      requires if r.namespace in namespaced then namespaced[r.namespace] == EntryOf(rules, base, r.namespace, sa)
               else rules == []
      ensures extended == namespaced[r.namespace := EntryOf(rules + [ToRule(r)], base, r.namespace, sa)]
    {
      extended := namespaced;
      if r.namespace !in extended {
        extended := extended[r.namespace := Namespaced(Some(InitRole(base, r.namespace)),
                                                       Some(InitRoleBinding(base, base, r.namespace, sa)))];
      }
      var entry := extended[r.namespace];
      var role := entry.role.value;
      extended := extended[r.namespace := entry.(role := Some(role.(body := Role(role.body.rules + [ToRule(r)]))))];
    }

    /** inspected is the chart inspector's answer, None when the request to it failed. */
    method Generate(inspected: Option<seq<Resource>>, compositionNamespace: string) returns (policy: Option<RBAC>)
      ensures policy.None? <==> inspected.None?
      ensures inspected.Some? ==> policy == Some(Generated(inspected.value, baseName, compositionNamespace, sa))
    {
      if inspected.None? { return None; }
      var base, resources := baseName, inspected.value;
      var namespaces: seq<Option<Object>> := [];
      var namespaced: map<string, Namespaced> := map[];
      var clusterRules: seq<Rule> := [];

      for i := 0 to |resources|
        invariant namespaces == NamespaceObjects(resources[..i], base, compositionNamespace)
        invariant namespaced == NamespacedOf(resources[..i], base, sa)
        invariant clusterRules == RulesIn(resources[..i], "")
      {
        var r := resources[i];
        assert resources[..i + 1][..i] == resources[..i];
        NamespacedAt(resources[..i], base, sa);
        if r.namespace != "" && r.namespace !in namespaced { NoRules(resources[..i], r.namespace); }
        if r.namespace == "" {
          if r.group == "" && r.resource == "namespaces" && r.version == "v1" {
            namespaces := namespaces + [Some(CreateNamespace(r.name, base, compositionNamespace))];
          }
          clusterRules := clusterRules + [ToRule(r)];
        } else {
          namespaced := AddRule(namespaced, r, base, sa, RulesIn(resources[..i], r.namespace));
        }
      }
      assert resources[..|resources|] == resources;
      policy := Some(RBAC(namespaces, namespaced,
                          Some(InitClusterRole(base).(body := Role(clusterRules))),
                          Some(InitClusterRoleBinding(base, base, sa))));
    }
  }

  // ------------------------------------------------------------ the partition

  /** A rule is in a namespace's list exactly when some resource of that namespace asks for it. */
  lemma {:induction false} RulesInHolds(resources: seq<Resource>, ns: string, rule: Rule)
    ensures rule in RulesIn(resources, ns) <==> exists r :: r in resources && r.namespace == ns && ToRule(r) == rule
  {
    if resources == [] {
    } else {
      var init, last := resources[..|resources| - 1], resources[|resources| - 1];
      assert resources == init + [last];
      RulesInHolds(init, ns, rule);
    }
  }

  /** The inspector's order is kept within each list. */
  lemma {:induction false} RulesInConcat(xs: seq<Resource>, ys: seq<Resource>, ns: string)
    ensures RulesIn(xs + ys, ns) == RulesIn(xs, ns) + RulesIn(ys, ns)
  {
    if ys == [] {
      assert xs + ys == xs;
    } else {
      assert (xs + ys)[..|xs + ys| - 1] == xs + ys[..|ys| - 1];
      RulesInConcat(xs, ys[..|ys| - 1], ns);
    }
  }

  function RuleTotal(resources: seq<Resource>, order: seq<string>): nat {
    if order == [] then 0 else RuleTotal(resources, order[..|order| - 1]) + |RulesIn(resources, order[|order| - 1])|
  }

  lemma {:induction false} RuleTotalStep(init: seq<Resource>, last: Resource, order: seq<string>)
    requires forall i, j :: 0 <= i < j < |order| ==> order[i] != order[j]
    ensures RuleTotal(init + [last], order) == RuleTotal(init, order) + (if last.namespace in order then 1 else 0)
  {
    if order == [] {
    } else {
      var front, ns := order[..|order| - 1], order[|order| - 1];
      assert order == front + [ns];
      RuleTotalStep(init, last, front);
      assert (init + [last])[..|init|] == init;
    }
  }

  /** No resource is lost and none is counted twice: the lists together are as long as the
      inspector's answer. */
  lemma {:induction false} PartitionTotal(resources: seq<Resource>, order: seq<string>)
    requires forall i, j :: 0 <= i < j < |order| ==> order[i] != order[j]
    requires "" !in order && forall r :: r in resources && r.namespace != "" ==> r.namespace in order
    ensures |RulesIn(resources, "")| + RuleTotal(resources, order) == |resources|
  {
    if resources == [] {
      NoRulesAtAll(order);
    } else {
      var init, last := resources[..|resources| - 1], resources[|resources| - 1];
      assert resources == init + [last];
      PartitionTotal(init, order);
      RuleTotalStep(init, last, order);
    }
  }

  lemma {:induction false} NoRulesAtAll(order: seq<string>)
    ensures RuleTotal([], order) == 0
  {
    if order == [] {
    } else {
      NoRulesAtAll(order[..|order| - 1]);
    }
  }

  lemma {:induction false} NoRules(resources: seq<Resource>, ns: string)
    requires forall r :: r in resources ==> r.namespace != ns
    ensures RulesIn(resources, ns) == []
  {
    if resources == [] {
    } else {
      NoRules(resources[..|resources| - 1], ns);
    }
  }

  lemma NextNamespaces(resources: seq<Resource>, i: nat)
    requires i < |resources|
    ensures NamespacesOf(resources[..i + 1]) ==
            NamespacesOf(resources[..i]) + (if resources[i].namespace == "" then {} else {resources[i].namespace})
  {
  }
}
