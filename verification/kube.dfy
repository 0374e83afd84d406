/** The part of the Kubernetes API that the RBAC installer talks to: objects addressed by
    resource kind, namespace and name, as the dynamic client addresses them. */
module Kube {
  datatype Kind = NamespaceKind | ClusterRoleKind | ClusterRoleBindingKind | RoleKind | RoleBindingKind

  /** namespace is "" for the cluster-scoped kinds. */
  datatype Key = Key(kind: Kind, namespace: string, name: string) {
    predicate HoldsRules() { kind.ClusterRoleKind? || kind.RoleKind? }
    predicate HoldsBinding() { kind.ClusterRoleBindingKind? || kind.RoleBindingKind? }
  }

  datatype Rule = Rule(apiGroups: seq<string>, resources: seq<string>, verbs: seq<string>, resourceNames: seq<string>)

  datatype RoleRef = RoleRef(kind: string, name: string)

  datatype Subject = ServiceAccount(name: string, namespace: string) | OtherSubject(id: string)

  datatype Body =
    | Namespace(labels: map<string, string>, annotations: map<string, string>)
    | Role(rules: seq<Rule>)
    | Binding(roleRef: RoleRef, subjects: seq<Subject>)

  datatype Object = Object(key: Key, body: Body)

  type Store = map<Key, Body>

  /** Reading an object as a role: content without a rules field converts to an empty list. */
  function RulesOf(body: Body): seq<Rule> {
    if body.Role? then body.rules else []
  }

  /** What the environment does to one API call: answers it, loses the request, applies it but
      loses the answer, leaves it half done (a Helm operation that dies on the way), or
      acknowledges it without doing anything. */
  datatype Fault = Fine | Lost | Unacked | Stuck | Ignored {
    predicate Lands() { Fine? || Unacked? }
  }

  /** The faults still to come, one per call; once they are used up every call is answered. */
  function Head(faults: seq<Fault>): Fault {
    if faults == [] then Fine else faults[0]
  }

  function Tail(faults: seq<Fault>): (r: seq<Fault>)
  {
    if faults == [] then [] else faults[1..]
  }

  datatype Api = Api(store: Store, faults: seq<Fault>)

  datatype Reply<+T> = Found(value: T) | NotFound | Failed

  function GetCall(a: Api, key: Key): (Api, Reply<Body>) {
    (a.(faults := Tail(a.faults)),
     if Head(a.faults) != Fine then Failed else if key in a.store then Found(a.store[key]) else NotFound)
  }

  /** What the API server lets through: no object is created in a missing namespace, and no binding is
      made to refer to another role. */
  predicate Accepts(store: Store, key: Key, body: Body) {
    if key in store then !(store[key].Binding? && body.Binding? && store[key].roleRef != body.roleRef)
    else key.namespace == "" || Key(NamespaceKind, "", key.namespace) in store
  }

  /** Creating an object that is already there is refused. */
  function CreateCall(a: Api, key: Key, body: Body): (Api, bool) {
    if key in a.store || !Accepts(a.store, key, body) then (a.(faults := Tail(a.faults)), false)
    else (Api(if Head(a.faults).Lands() then a.store[key := body] else a.store, Tail(a.faults)), Head(a.faults) == Fine)
  }

  /** Updating an object that is not there is refused. */
  function UpdateCall(a: Api, key: Key, body: Body): (Api, bool) {
    if key !in a.store || !Accepts(a.store, key, body) then (a.(faults := Tail(a.faults)), false)
    else (Api(if Head(a.faults).Lands() then a.store[key := body] else a.store, Tail(a.faults)), Head(a.faults) == Fine)
  }

  /** Deleting an object that is not there is answered with NotFound, which callers accept. */
  function DeleteCall(a: Api, key: Key): (Api, bool) {
    (Api(if Head(a.faults).Lands() then a.store - {key} else a.store, Tail(a.faults)), Head(a.faults) == Fine)
  }

  // ------------------------------------------------------------ authorisation

  datatype Request = Request(verb: string, group: string, resource: string, namespace: string, name: string)

  predicate Listed(item: string, items: seq<string>) {
    item in items || "*" in items
  }

  predicate RuleAllows(rule: Rule, q: Request) {
    && Listed(q.verb, rule.verbs)
    && Listed(q.group, rule.apiGroups)
    && Listed(q.resource, rule.resources)
    && (rule.resourceNames == [] || q.name in rule.resourceNames)
  }

  predicate Allows(rules: seq<Rule>, q: Request) {
    exists rule :: rule in rules && RuleAllows(rule, q)
  }

  /** The role that a binding stored under key points at; cluster role bindings only know cluster roles. */
  function Target(key: Key, ref: RoleRef): Key {
    if key.kind.ClusterRoleBindingKind? || ref.kind == "ClusterRole" then Key(ClusterRoleKind, "", ref.name)
    else Key(RoleKind, key.namespace, ref.name)
  }

  /** Cluster role bindings reach every request, role bindings those of their own namespace. */
  predicate Reaches(key: Key, q: Request) {
    || key.kind.ClusterRoleBindingKind?
    || (key.kind.RoleBindingKind? && q.namespace != "" && key.namespace == q.namespace)
  }

  predicate GrantedBy(store: Store, key: Key, sa: Subject, q: Request) {
    && key in store && store[key].Binding? && sa in store[key].subjects && Reaches(key, q)
    && var target := Target(key, store[key].roleRef);
      target in store && Allows(RulesOf(store[target]), q)
  }

  ghost predicate Authorized(store: Store, sa: Subject, q: Request) {
    exists key :: GrantedBy(store, key, sa, q)
  }
}
