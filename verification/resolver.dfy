/** Which composition definition a composition belongs to (internal/tools/archive/getter.go): the one
    named by its labels if that still fits, and otherwise the one a search finds. */
module Resolver {
  import opened Wrappers
  import opened Managed
  import opened Meta
  import Paths

  /** apiVersion and kind are the status fields of the definition, None when missing; the chart
      fields are those of its spec. */
  datatype Definition = Definition(
    info: DefinitionInfo,
    apiVersion: Option<string>,
    kind: Option<string>,
    url: Option<string>,
    version: string,
    repo: string)

  datatype Info = Info(url: string, version: string, repo: string, definition: DefinitionInfo)

  /** What the API server answers: single objects by their coordinates, and the list of composition
      definitions; either request may fail. */
  datatype Definitions = Definitions(
    objects: map<DefinitionInfo, Definition>,
    listing: seq<Definition>,
    getFails: bool,
    listFails: bool)

  /** The side of the composition: its labels and its kind. */
  datatype Wanted = Wanted(labels: map<string, string>, kind: string)

  function ChartVersionKind(d: Definition): Option<(string, string)> {
    var apiVersion :- d.apiVersion;
    if |Paths.Split(apiVersion)| != 2 then None
    else
      var kind :- d.kind;
      Some((Paths.Split(apiVersion)[1], kind))
  }

  predicate Matches(d: Definition, w: Wanted) {
    ChartVersionKind(d) == Some((Lookup(w.labels, COMPOSITION_VERSION), w.kind))
  }

  /** The labels name a definition only when all five of them are there and not empty. */
  function Hint(labels: map<string, string>): Option<DefinitionInfo> {
    var gvr := GVR(Lookup(labels, DEFINITION_GROUP), Lookup(labels, DEFINITION_VERSION), Lookup(labels, DEFINITION_RESOURCE));
    var name, namespace := Lookup(labels, DEFINITION_NAME), Lookup(labels, DEFINITION_NAMESPACE);
    if gvr.group != "" && gvr.resource != "" && gvr.version != "" && name != "" && namespace != ""
    then Some(DefinitionInfo(namespace, name, gvr)) else None
  }

  /** The index of the first definition that matches, or the length of the list. */
  function FirstMatch(listing: seq<Definition>, w: Wanted): (i: nat)
    ensures i <= |listing|
    ensures i < |listing| ==> Matches(listing[i], w)
    ensures forall j :: 0 <= j < i ==> !Matches(listing[j], w)
  {
    if listing == [] then 0 else if Matches(listing[0], w) then 0 else 1 + FirstMatch(listing[1..], w)
  }

  /** A list of one is taken as it is. */
  function Search(ds: Definitions, w: Wanted): Option<Definition> {
    if ds.listFails || |ds.listing| == 0 then None
    else if |ds.listing| == 1 then Some(ds.listing[0])
    else if FirstMatch(ds.listing, w) < |ds.listing| then Some(ds.listing[FirstMatch(ds.listing, w)])
    else None
  }

  function Hinted(ds: Definitions, w: Wanted): Option<Definition> {
    var info :- Hint(w.labels);
    if !ds.getFails && info in ds.objects then Some(ds.objects[info]) else None
  }

  function Resolve(ds: Definitions, w: Wanted): Option<Definition> {
    match Hinted(ds, w)
    case None => Search(ds, w)
    case Some(d) =>
      if ChartVersionKind(d).None? then None
      else if Matches(d, w) then Some(d)
      else Search(ds, w)
  }

  function InfoOf(d: Definition): Option<Info> {
    var url :- d.url;
    Some(Info(url, d.version, d.repo, d.info))
  }

  function Fetch(ds: Definitions, w: Wanted): Option<Info> {
    var d :- Resolve(ds, w);
    InfoOf(d)
  }

  class DynamicGetter {
    const definitions: Definitions

    constructor (definitions: Definitions)
      ensures this.definitions == definitions
    {
      this.definitions := definitions;
    }

    method SearchCompositionDefinition(w: Wanted) returns (r: Option<Definition>)
      ensures r == Search(definitions, w)
    {
      if definitions.listFails { return None; }
      var all := definitions.listing;
      var tot := |all|;
      if tot == 0 { return None; }
      var compositionDefinition := all[0];
      if tot > 1 {
        var found := false;
        for i := 0 to tot
          invariant !found && forall j :: 0 <= j < i ==> !Matches(all[j], w)
        {
          var versionKind := ChartVersionKind(all[i]);
          if versionKind.None? { continue; }
          if versionKind.value.0 == Lookup(w.labels, COMPOSITION_VERSION) && versionKind.value.1 == w.kind {
            compositionDefinition := all[i];
            found := true;
            break;
          }
        }
        if !found { return None; }
      }
      return Some(compositionDefinition);
    }

    method Get(w: Wanted) returns (r: Option<Info>)
      ensures r == Fetch(definitions, w)
    {
      var cdInfo := Hint(w.labels);
      var compositionDefinition: Option<Definition> := None;
      if cdInfo.Some? {
        if !definitions.getFails && cdInfo.value in definitions.objects {
          compositionDefinition := Some(definitions.objects[cdInfo.value]);
        }
        if compositionDefinition.Some? {
          var versionKind := ChartVersionKind(compositionDefinition.value);
          if versionKind.None? { return None; }
          if versionKind.value.0 != Lookup(w.labels, COMPOSITION_VERSION) || versionKind.value.1 != w.kind {
            compositionDefinition := None;
          }
        }
      }
      if compositionDefinition.None? {
        compositionDefinition := SearchCompositionDefinition(w);
        if compositionDefinition.None? { return None; }
      }
      var d := compositionDefinition.value;
      if d.url.None? { return None; }
      return Some(Info(d.url.value, d.version, d.repo, d.info));
    }
  }

  // ------------------------------------------------------------ properties

  /** A status that reads as kind k of group g and version v. */
  predicate Reads(d: Definition, g: string, v: string, k: string) {
    '/' !in g && '/' !in v && d.apiVersion == Some(g + "/" + v) && d.kind == Some(k)
  }

  lemma StatusReads(d: Definition, g: string, v: string, k: string)
    requires Reads(d, g, v, k)
    ensures ChartVersionKind(d) == Some((v, k))
  {
    Paths.SplitSlashFree(g, v);
    Paths.SplitSlashFree(v, "");
  }

  lemma WellFormedReads(d: Definition) returns (g: string)
    requires ChartVersionKind(d).Some?
    ensures Reads(d, g, ChartVersionKind(d).value.0, ChartVersionKind(d).value.1)
  {
    var parts := Paths.Split(d.apiVersion.value);
    g := parts[0];
    Paths.SplitReads(d.apiVersion.value);
    assert parts == [g] + [parts[1]] && parts[1..] == [parts[1]];
    Paths.JoinTwo(parts[1], "");
    assert g + ("/" + parts[1]) == g + "/" + parts[1];
  }

  /** A status is well formed if it has a kind and an API version with exactly one slash. */
  lemma WellFormed(d: Definition)
    ensures ChartVersionKind(d).Some? <==> exists g, v, k :: Reads(d, g, v, k)
  {
    if ChartVersionKind(d).Some? {
      var g := WellFormedReads(d);
    }
    if g, v, k :| Reads(d, g, v, k) {
      StatusReads(d, g, v, k);
    }
  }

  /** A definition matches if its status reads as the kind of the composition, in some group, and in the
      version that the composition is labelled with. */
  lemma MatchesExactly(d: Definition, w: Wanted, version: string)
    requires version == if "krateo.io/composition-version" in w.labels then w.labels["krateo.io/composition-version"] else ""
    ensures Matches(d, w) <==> exists g :: Reads(d, g, version, w.kind)
  {
    if Matches(d, w) {
      var g := WellFormedReads(d);
    }
    if g :| Reads(d, g, version, w.kind) {
      StatusReads(d, g, version, w.kind);
    }
  }

  predicate Says(labels: map<string, string>, key: string, value: string) {
    key in labels && labels[key] == value != ""
  }

  /** The labels name a definition if all five are there and none is empty, and each says its part. */
  lemma HintExactly(labels: map<string, string>, info: DefinitionInfo)
    ensures Hint(labels) == Some(info) <==>
            && Says(labels, "krateo.io/composition-definition-name", info.name)
            && Says(labels, "krateo.io/composition-definition-namespace", info.namespace)
            && Says(labels, "krateo.io/composition-definition-group", info.gvr.group)
            && Says(labels, "krateo.io/composition-definition-version", info.gvr.version)
            && Says(labels, "krateo.io/composition-definition-resource", info.gvr.resource)
  {
  }

  /** What is found, exactly: the definition that the labels name, if it is there and matches; with a
      malformed status there, nothing; and otherwise what the list holds: a lone definition, or the first
      of several that matches. */
  lemma ResolvedExactly(ds: Definitions, w: Wanted, d: Definition)
    ensures Resolve(ds, w) == Some(d) <==>
            || (Hinted(ds, w) == Some(d) && Matches(d, w))
            || ((Hinted(ds, w).None? || (ChartVersionKind(Hinted(ds, w).value).Some? && !Matches(Hinted(ds, w).value, w)))
                && !ds.listFails
                && (ds.listing == [d] ||
                    (|ds.listing| >= 2 && Matches(d, w) &&
                     exists i :: 0 <= i < |ds.listing| && ds.listing[i] == d && forall j :: 0 <= j < i ==> !Matches(ds.listing[j], w))))
  {
    if |ds.listing| == 1 {
      assert ds.listing == [ds.listing[0]];
    }
  }

  /** The chart that is fetched is the one in the spec of the definition. */
  lemma FetchedChart(ds: Definitions, w: Wanted, info: Info)
    ensures Fetch(ds, w) == Some(info) <==>
            exists d :: Resolve(ds, w) == Some(d) && d.url == Some(info.url) && d.version == info.version && d.repo == info.repo
                        && d.info == info.definition
  {
    if Resolve(ds, w).Some? {
      var d := Resolve(ds, w).value;
      assert Resolve(ds, w) == Some(d);
    }
  }

  /** A result always matches, except for a list of one that had no matching hint before it. */
  lemma ResolvedMatches(ds: Definitions, w: Wanted)
    requires Resolve(ds, w).Some?
    ensures Matches(Resolve(ds, w).value, w) <==>
            !(|ds.listing| == 1 && !Matches(ds.listing[0], w) &&
              (Hinted(ds, w).None? || !Matches(Hinted(ds, w).value, w)))
    ensures |ds.listing| >= 2 ==> Matches(Resolve(ds, w).value, w)
  {
  }

  /** Where there is no usable hint the first match of the list is taken. */
  lemma SearchTakesTheFirst(ds: Definitions, w: Wanted, i: nat)
    requires Hinted(ds, w).None? && !ds.listFails && |ds.listing| >= 2
    ensures Resolve(ds, w).None? <==> forall j :: 0 <= j < |ds.listing| ==> !Matches(ds.listing[j], w)
    ensures i < |ds.listing| && Matches(ds.listing[i], w) && (forall j :: 0 <= j < i ==> !Matches(ds.listing[j], w)) ==>
              Resolve(ds, w) == Some(ds.listing[i])
  {
  }

  lemma HintRecorded(labels: map<string, string>, info: DefinitionInfo)
    requires info.name != "" && info.namespace != ""
    requires info.gvr.group != "" && info.gvr.version != "" && info.gvr.resource != ""
    ensures Hint(WithDefinition(labels, info)) == Some(info)
    ensures Lookup(WithDefinition(labels, info), COMPOSITION_VERSION) == Lookup(labels, COMPOSITION_VERSION)
  {
    DefinitionKeysDiffer();
  }

  /** Stability. Once the labels of a resolved definition are recorded, a later Get in whatever
      cluster, with however many other definitions, yields that definition as long as it is there, its
      status is well formed and it matches. Otherwise the outcome is spelled out. */
  lemma RecordedLabelsStick(info: DefinitionInfo, labels: map<string, string>, kind: string, later: Definitions)
    requires info.name != "" && info.namespace != ""
    requires info.gvr.group != "" && info.gvr.version != "" && info.gvr.resource != ""
    ensures var w := Wanted(WithDefinition(labels, info), kind);
            Resolve(later, w) ==
            if later.getFails || info !in later.objects then Search(later, w)
            else if ChartVersionKind(later.objects[info]).None? then None
            else if Matches(later.objects[info], Wanted(labels, kind)) then Some(later.objects[info])
            else Search(later, w)
  {
  }

  /** The listed definitions are the stored ones, and Kubernetes objects have no empty coordinates. */
  ghost predicate Coherent(ds: Definitions) {
    && (forall d :: d in ds.listing ==> d.info in ds.objects && ds.objects[d.info] == d)
    && (forall info :: info in ds.objects ==>
          && ds.objects[info].info == info && info.name != "" && info.namespace != ""
          && info.gvr.group != "" && info.gvr.version != "" && info.gvr.resource != "")
  }

  /** Recording the labels of what was found and asking again gives the same answer exactly when the
      status of that definition is well formed: a definition that was alone in the list is accepted
      without a look at its status, but not a second time, when the labels name it. */
  lemma AskingAgain(ds: Definitions, labels: map<string, string>, kind: string)
    requires Coherent(ds) && !ds.getFails && !ds.listFails
    requires Resolve(ds, Wanted(labels, kind)).Some?
    ensures var d := Resolve(ds, Wanted(labels, kind)).value;
            Resolve(ds, Wanted(WithDefinition(labels, d.info), kind)) == Some(d) <==> ChartVersionKind(d).Some?
  {
    var w := Wanted(labels, kind);
    var d := Resolve(ds, w).value;
    if Hinted(ds, w) != Some(d) {
      assert d in ds.listing;
    }
    RecordedLabelsStick(d.info, labels, kind, ds);
    HintRecorded(labels, d.info);
    var w' := Wanted(WithDefinition(labels, d.info), kind);
    if ChartVersionKind(d).Some? && !Matches(d, w) {
      assert ds.listing == [d];
    }
  }
}
