/** API paths: printed for status.managed (buildpath in internal/composition/support.go), read back
    from observed requests (internal/tools/tracer/tracer.go). */
module Paths {
  import opened Wrappers

  datatype Resource = Resource(group: string, version: string, resource: string, name: string, namespace: string)

  function Join(parts: seq<string>): string {
    if parts == [] then "" else "/" + parts[0] + Join(parts[1..])
  }

  /** The slash-separated parts, as strings.Split returns them: n slashes make n + 1 parts. */
  function Split(s: string): (parts: seq<string>)
    ensures |parts| > 0
  {
    if s == "" then [""]
    else
      var rest := Split(s[1..]);
      if s[0] == '/' then [""] + rest else [[s[0]] + rest[0]] + rest[1..]
  }

  function BuildPath(r: Resource): string {
    var prefix := if r.group == "" then "/api/" + r.version else "/apis/" + r.group + "/" + r.version;
    var suffix := if r.namespace == "" then "/" + r.resource + "/" + r.name
                  else "/namespaces/" + r.namespace + "/" + r.resource + "/" + r.name;
    prefix + suffix
  }

  predicate ApiRoot(s: string) {
    s == "apis" || s == "api"
  }

  /** The case split of RoundTrip on the parts of a request path. */
  function FromParts(split: seq<string>): Option<Resource> {
    if |split| == 8 && ApiRoot(split[1]) && split[4] == "namespaces" then
      Some(Resource(split[2], split[3], split[6], split[7], split[5]))
    else if |split| == 7 && ApiRoot(split[1]) && split[3] == "namespaces" then
      Some(Resource("", split[2], split[5], split[6], split[4]))
    else if |split| == 6 && ApiRoot(split[1]) then
      Some(Resource(split[2], split[3], split[4], split[5], ""))
    else if |split| == 5 && ApiRoot(split[1]) then
      Some(Resource("", split[2], split[3], split[4], ""))
    else None
  }

  function ParsePath(path: string): Option<Resource> {
    FromParts(Split(path))
  }

  predicate SlashFree(r: Resource) {
    '/' !in r.group && '/' !in r.version && '/' !in r.resource && '/' !in r.name && '/' !in r.namespace
  }

  function PartsOf(r: Resource): seq<string> {
    (if r.group == "" then ["api"] else ["apis", r.group]) + [r.version]
    + (if r.namespace == "" then [] else ["namespaces", r.namespace]) + [r.resource, r.name]
  }

  lemma {:induction false} SplitSlashFree(s: string, rest: string)
    requires '/' !in s
    ensures Split(s + "/" + rest) == [s] + Split(rest)
    ensures Split(s) == [s]
  {
    if s == "" {
      assert s + "/" + rest == "/" + rest;
    } else {
      SplitSlashFree(s[1..], rest);
      assert (s + "/" + rest)[1..] == s[1..] + "/" + rest;
      assert [s[0]] + s[1..] == s;
    }
  }

  lemma SplitSlash(s: string)
    ensures Split("/" + s) == [""] + Split(s)
  {
  }

  lemma {:induction false} SplitJoin(parts: seq<string>)
    requires forall p :: p in parts ==> '/' !in p
    ensures Split(Join(parts)) == [""] + parts
  {
    if parts == [] {
    } else {
      var s, rest := parts[0], Join(parts[1..]);
      assert Join(parts) == "/" + (s + rest);
      SplitSlash(s + rest);
      SplitJoin(parts[1..]);
      if parts[1..] == [] {
        SplitSlashFree(s, "");
        assert s + rest == s;
      } else {
        var tail := rest[1..];
        assert rest == "/" + tail;
        SplitSlash(tail);
        SplitSlashFree(s, tail);
        assert s + rest == s + "/" + tail;
        assert Split(tail) == Split(rest)[1..] == parts[1..];
      }
    }
  }

  lemma JoinTwo(p: string, q: string)
    ensures Join([p]) == "/" + p
    ensures Join([p, q]) == "/" + p + "/" + q
  {
    assert [p][1..] == [] && [p, q][1..] == [q] && [q][1..] == [];
    assert "/" + p + ("/" + q + "") == "/" + p + "/" + q;
    assert "/" + p + "" == "/" + p;
  }

  lemma PrefixJoins(r: Resource)
    ensures (if r.group == "" then "/api/" + r.version else "/apis/" + r.group + "/" + r.version)
            == Join(if r.group == "" then ["api", r.version] else ["apis", r.group, r.version])
  {
    JoinTwo("api", r.version);
    assert "/" + "api" + "/" == "/api/";
    JoinTwo("apis", r.group);
    JoinTwo(r.version, "");
    JoinConcat(["apis", r.group], [r.version]);
    assert ["apis", r.group] + [r.version] == ["apis", r.group, r.version];
    assert "/" + "apis" + "/" == "/apis/";
    assert "/apis/" + r.group + "/" + r.version == "/apis/" + r.group + ("/" + r.version);
  }

  lemma SuffixJoins(r: Resource)
    ensures (if r.namespace == "" then "/" + r.resource + "/" + r.name
             else "/namespaces/" + r.namespace + "/" + r.resource + "/" + r.name)
            == Join(if r.namespace == "" then [r.resource, r.name]
                    else ["namespaces", r.namespace] + [r.resource, r.name])
  {
    JoinTwo(r.resource, r.name);
    JoinTwo("namespaces", r.namespace);
    JoinConcat(["namespaces", r.namespace], [r.resource, r.name]);
    assert "/" + "namespaces" + "/" == "/namespaces/";
    assert "/namespaces/" + r.namespace + "/" + r.resource + "/" + r.name ==
           "/namespaces/" + r.namespace + ("/" + r.resource + "/" + r.name);
  }

  lemma BuildPathJoins(r: Resource)
    ensures BuildPath(r) == Join(PartsOf(r))
  {
    PrefixJoins(r);
    SuffixJoins(r);
    var head := if r.group == "" then ["api", r.version] else ["apis", r.group, r.version];
    var rest := if r.namespace == "" then [r.resource, r.name]
                else ["namespaces", r.namespace] + [r.resource, r.name];
    JoinConcat(head, rest);
    assert head + rest == PartsOf(r);
  }

  lemma {:induction false} JoinConcat(xs: seq<string>, ys: seq<string>)
    ensures Join(xs + ys) == Join(xs) + Join(ys)
  {
    if xs == [] {
      assert xs + ys == ys;
    } else {
      assert (xs + ys)[1..] == xs[1..] + ys;
      JoinConcat(xs[1..], ys);
    }
  }

  /** Round trip: what is printed is read back, for core and named groups, in both scopes. */
  lemma RoundTrip(r: Resource)
    requires SlashFree(r)
    ensures ParsePath(BuildPath(r)) == Some(r)
  {
    BuildPathJoins(r);
    SplitJoin(PartsOf(r));
  }

  /** So different resources never share a path. */
  lemma PathsAreInjective(r: Resource, s: Resource)
    requires SlashFree(r) && SlashFree(s)
    requires BuildPath(r) == BuildPath(s)
    ensures r == s
  {
    RoundTrip(r);
    RoundTrip(s);
  }

  lemma {:induction false} SplitReads(s: string)
    ensures s == Split(s)[0] + Join(Split(s)[1..])
    ensures forall p :: p in Split(s) ==> '/' !in p
  {
    if s != "" {
      var rest := Split(s[1..]);
      SplitReads(s[1..]);
      assert s == [s[0]] + s[1..];
      if s[0] == '/' {
        assert Split(s)[1..] == rest;
        assert "/" + rest[0] + Join(rest[1..]) == "/" + (rest[0] + Join(rest[1..]));
      } else {
        assert Split(s)[1..] == rest[1..];
        assert [s[0]] + rest[0] + Join(rest[1..]) == [s[0]] + (rest[0] + Join(rest[1..]));
      }
    }
  }

  /** The paths that buildpath can have printed, among those the tracer reads. */
  predicate Canonical(split: seq<string>)
    requires FromParts(split).Some?
  {
    var r := FromParts(split).value;
    && split[0] == ""
    && (|split| % 2 == 0 ==> split[1] == "apis" && r.group != "")
    && (|split| % 2 == 1 ==> split[1] == "api")
    && (|split| >= 7 ==> r.namespace != "")
  }

  lemma CanonicalParts(split: seq<string>)
    requires FromParts(split).Some?
    ensures Canonical(split) <==> split == [""] + PartsOf(FromParts(split).value)
  {
  }

  /** The other way round: a path that is read is printed again as it was exactly when it starts
      with /apis and a group, or with /api, and its namespaced form names a namespace. */
  lemma ReadAndPrint(path: string)
    requires ParsePath(path).Some?
    ensures BuildPath(ParsePath(path).value) == path <==> Canonical(Split(path))
  {
    var split, r := Split(path), ParsePath(path).value;
    SplitReads(path);
    BuildPathJoins(r);
    CanonicalParts(split);
    if Canonical(split) {
      assert split[1..] == PartsOf(r) && split[0] == "";
      assert "" + Join(PartsOf(r)) == Join(PartsOf(r));
    }
    if BuildPath(r) == path {
      PartsSlashFree(split);
      SplitJoin(PartsOf(r));
    }
  }

  lemma PartsSlashFree(split: seq<string>)
    requires FromParts(split).Some? && forall p :: p in split ==> '/' !in p
    ensures forall p :: p in PartsOf(FromParts(split).value) ==> '/' !in p
  {
  }

  /** A request as the tracer sees it: fieldManager is the query parameter, "" when there is none. */
  datatype Request = Request(verb: string, path: string, fieldManager: string) {
    predicate Traced() { verb != "GET" && (verb == "DELETE" || fieldManager != "") }
  }

  /** What the tracer records of one request. */
  function TraceOf(req: Request, answered: bool): seq<Resource> {
    if answered && req.Traced() && ParsePath(req.path).Some? then [ParsePath(req.path).value] else []
  }

  /** A request about a resource leaves the resource in the trace when it is answered and either deletes
      it or changes it under a field manager; reads never do. */
  lemma TraceOfResource(req: Request, r: Resource, answered: bool)
    requires SlashFree(r) && req.path == BuildPath(r)
    ensures req.verb == "GET" ==> TraceOf(req, answered) == []
    ensures req.verb == "DELETE" ==> TraceOf(req, answered) == if answered then [r] else []
    ensures req.verb != "GET" && req.verb != "DELETE" ==>
              TraceOf(req, answered) == if answered && req.fieldManager != "" then [r] else []
  {
    RoundTrip(r);
    assert "DELETE"[0] != "GET"[0];
  }

  /** The path consists of slash-free parts that name the resource: after what comes before the first
      slash, either root, with or without a group, with or without a namespace. */
  ghost predicate Spells(path: string, lead: string, parts: seq<string>, r: Resource) {
    && path == lead + Join(parts) && '/' !in lead && (forall p :: p in parts ==> '/' !in p)
    && |parts| > 0 && (parts[0] == "api" || parts[0] == "apis")
    && (|| parts[1..] == [r.group, r.version, "namespaces", r.namespace, r.resource, r.name]
        || (r.group == "" && parts[1..] == [r.version, "namespaces", r.namespace, r.resource, r.name])
        || (r.namespace == "" && parts[1..] == [r.group, r.version, r.resource, r.name])
        || (r.group == r.namespace == "" && parts[1..] == [r.version, r.resource, r.name]))
  }

  lemma JoinTail(parts: seq<string>) returns (tail: string)
    requires parts != [] && forall p :: p in parts ==> '/' !in p
    ensures Join(parts) == "/" + tail && Split(tail) == parts
  {
    tail := parts[0] + Join(parts[1..]);
    assert Join(parts) == "/" + tail;
    SplitJoin(parts);
    SplitSlash(tail);
    assert ([""] + Split(tail))[1..] == Split(tail) && ([""] + parts)[1..] == parts;
  }

  lemma SplitAfter(lead: string, parts: seq<string>)
    requires '/' !in lead && parts != [] && forall p :: p in parts ==> '/' !in p
    ensures Split(lead + Join(parts)) == [lead] + parts
  {
    var tail := JoinTail(parts);
    SplitSlashFree(lead, tail);
    assert lead + ("/" + tail) == lead + "/" + tail;
  }

  /** Which paths are read, and as what: those that spell a resource, and no others. */
  lemma ReadExactly(path: string, r: Resource)
    ensures ParsePath(path) == Some(r) <==> exists lead, parts :: Spells(path, lead, parts, r)
  {
    if ParsePath(path) == Some(r) {
      var split := Split(path);
      SplitReads(path);
      assert Spells(path, split[0], split[1..], r);
    }
    if lead, parts :| Spells(path, lead, parts, r) {
      SplitAfter(lead, parts);
      assert parts == [parts[0]] + parts[1..];
    }
  }

  class Tracer {
    var resources: seq<Resource>

    constructor ()
      ensures resources == []
    {
      resources := [];
    }

    /** answered tells whether the wrapped round tripper came back without an error. */
    method RoundTrip(req: Request, answered: bool) returns (ok: bool)
      modifies this
      ensures ok == answered
      ensures resources == old(resources) + TraceOf(req, answered)
    {
      if !answered { return false; }
      if req.verb != "GET" && (req.verb == "DELETE" || req.fieldManager != "") {
        var split := Split(req.path);
        if |split| > 2 {
          if |split| == 8 && (split[1] == "apis" || split[1] == "api") && split[4] == "namespaces" {
            resources := resources + [Resource(split[2], split[3], split[6], split[7], split[5])];
          } else if |split| == 7 && (split[1] == "apis" || split[1] == "api") && split[3] == "namespaces" {
            resources := resources + [Resource("", split[2], split[5], split[6], split[4])];
          } else if |split| == 6 && (split[1] == "apis" || split[1] == "api") {
            resources := resources + [Resource(split[2], split[3], split[4], split[5], "")];
          } else if |split| == 5 && (split[1] == "apis" || split[1] == "api") {
            resources := resources + [Resource("", split[2], split[3], split[4], "")];
          }
        }
      }
      return true;
    }
  }
}
