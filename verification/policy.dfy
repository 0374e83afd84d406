/** The RBAC policy of one release (internal/tools/rbac/rbac.go) and the writes it stands for. */
module Policy {
  import opened Wrappers
  import opened Kube

  datatype Namespaced = Namespaced(role: Option<Object>, roleBinding: Option<Object>)

  datatype RBAC = RBAC(
    namespaces: seq<Option<Object>>,
    namespaced: map<string, Namespaced>,
    clusterRole: Option<Object>,
    clusterRoleBinding: Option<Object>)

  function CreateNamespace(name: string, releaseName: string, releaseNamespace: string): Object {
    Object(Key(NamespaceKind, "", name),
           Body.Namespace(map["app.kubernetes.io/managed-by" := "Helm"],
                          map["meta.helm.sh/release-name" := releaseName, "meta.helm.sh/release-namespace" := releaseNamespace]))
  }

  function InitRole(name: string, namespace: string): Object {
    Object(Key(RoleKind, namespace, name), Role([]))
  }

  function InitRoleBinding(name: string, roleRefName: string, namespace: string, sa: Subject): Object {
    Object(Key(RoleBindingKind, namespace, name), Binding(RoleRef("Role", roleRefName), [sa]))
  }

  function InitClusterRole(name: string): Object {
    Object(Key(ClusterRoleKind, "", name), Role([]))
  }

  function InitClusterRoleBinding(name: string, roleRefName: string, sa: Subject): Object {
    Object(Key(ClusterRoleBindingKind, "", name), Binding(RoleRef("ClusterRole", roleRefName), [sa]))
  }

  /** order is one of the orders in which a range over the namespaced map may go. */
  ghost predicate IsOrder(order: seq<string>, keys: set<string>) {
    && (forall ns :: ns in order <==> ns in keys)
    && (forall i, j :: 0 <= i < j < |order| ==> order[i] != order[j])
  }

  function Present(o: Option<Object>): seq<Object> {
    if o.Some? then [o.value] else []
  }

  function PresentAll(os: seq<Option<Object>>): seq<Object> {
    if os == [] then [] else PresentAll(os[..|os| - 1]) + Present(os[|os| - 1])
  }

  function NamespacedObjects(m: map<string, Namespaced>, order: seq<string>): seq<Object>
    requires forall ns :: ns in order ==> ns in m
  {
    if order == [] then []
    else
      var n := m[order[|order| - 1]];
      NamespacedObjects(m, order[..|order| - 1]) + (Present(n.role) + Present(n.roleBinding))
  }

  function ClusterObjects(p: RBAC): seq<Object> {
    Present(p.clusterRole) + Present(p.clusterRoleBinding)
  }

  /** Every object of the policy, in the order in which ApplyRBAC goes through them. */
  function Objects(p: RBAC, order: seq<string>): seq<Object>
    requires forall ns :: ns in order ==> ns in p.namespaced
  {
    PresentAll(p.namespaces) + (ClusterObjects(p) + NamespacedObjects(p.namespaced, order))
  }

  function Keys(objects: seq<Object>): (keys: seq<Key>)
    ensures |keys| == |objects| && forall i :: 0 <= i < |keys| ==> keys[i] == objects[i].key
  {
    seq(|objects|, i requires 0 <= i < |objects| => objects[i].key)
  }

  /** UninstallRBAC goes through the same objects except the namespaces, which are Helm's. */
  function Removals(p: RBAC, order: seq<string>): (keys: seq<Key>)
    requires forall ns :: ns in order ==> ns in p.namespaced
  {
    Keys(ClusterObjects(p) + NamespacedObjects(p.namespaced, order))
  }
}
