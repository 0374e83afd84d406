/** The composition resource and what the controller records in its labels and annotations
    (pkg/meta/meta.go). */
module Meta {
  import opened Wrappers
  import opened Managed

  const RELEASE_NAME := "krateo.io/release-name"
  const DEFINITION_NAME := "krateo.io/composition-definition-name"
  const DEFINITION_NAMESPACE := "krateo.io/composition-definition-namespace"
  const DEFINITION_GROUP := "krateo.io/composition-definition-group"
  const DEFINITION_VERSION := "krateo.io/composition-definition-version"
  const DEFINITION_RESOURCE := "krateo.io/composition-definition-resource"
  const DEFINITION_KEYS := {DEFINITION_NAME, DEFINITION_NAMESPACE, DEFINITION_GROUP, DEFINITION_VERSION, DEFINITION_RESOURCE}
  const COMPOSITION_VERSION := "krateo.io/composition-version"
  const PAUSED := "krateo.io/gracefully-paused"
  const PAUSED_TIME := "krateo.io/gracefully-paused-time"

  datatype DefinitionInfo = DefinitionInfo(namespace: string, name: string, gvr: GVR)

  datatype Composition = Composition(
    name: string,
    namespace: string,
    uid: string,
    kind: string,
    labels: map<string, string>,
    annotations: map<string, string>,
    status: Status)

  function Lookup(m: map<string, string>, key: string): string {
    if key in m then m[key] else ""
  }

  function GetReleaseName(o: Composition): string { Lookup(o.labels, RELEASE_NAME) }

  /** The characters that stay clear of vowels and of look-alikes. */
  const SAFE: string := "bcdfghjklmnpqrstvwxz2456789"

  function SafeEncode(s: string): (r: string)
    ensures |r| == |s|
  {
    assert |SAFE| == 27;
    seq(|s|, i requires 0 <= i < |s| => SAFE[(s[i] as int) % 27])
  }

  /** draw is what the random generator returns, should it be asked. A UID that is present but shorter
      than eight characters cannot be sliced: the caller panics. */
  function CalculateReleaseName(o: Composition, safe: bool, draw: string): Option<string> {
    if !safe then Some(o.name)
    else if o.uid == "" then Some(o.name + "-" + SafeEncode(draw))
    else if |o.uid| < 8 then None
    else Some(o.name + "-" + SafeEncode(o.uid[..8]))
  }

  /** What a safe name is made from, besides the name of the composition: eight characters. */
  function Seed(o: Composition, draw: string): string {
    if o.uid != "" && |o.uid| >= 8 then o.uid[..8] else draw
  }

  /** 27 letters cannot tell all characters apart: those that are equal modulo 27 look the same. */
  lemma EncodingsMeet(s: string, t: string)
    requires |s| == |t|
    ensures SafeEncode(s) == SafeEncode(t) <==> forall i :: 0 <= i < |s| ==> s[i] as int % 27 == t[i] as int % 27
  {
    assert forall a, b :: 0 <= a < b < 27 ==> SAFE[a] != SAFE[b];
    if SafeEncode(s) == SafeEncode(t) {
      forall i | 0 <= i < |s| ensures s[i] as int % 27 == t[i] as int % 27 {
        assert SafeEncode(s)[i] == SafeEncode(t)[i];
      }
    }
  }

  /** Two compositions are given the same release name if and only if they have the same name and, where
      names are made safe, seeds that are equal modulo 27. The namespace plays no part. */
  lemma SameReleaseName(a: Composition, b: Composition, safe: bool, drawA: string, drawB: string)
    requires CalculateReleaseName(a, safe, drawA).Some? && CalculateReleaseName(b, safe, drawB).Some?
    requires |drawA| == |drawB| == 8
    ensures CalculateReleaseName(a, safe, drawA) == CalculateReleaseName(b, safe, drawB) <==>
            && a.name == b.name
            && (safe ==> forall i :: 0 <= i < 8 ==> Seed(a, drawA)[i] as int % 27 == Seed(b, drawB)[i] as int % 27)
  {
    if safe {
      var s, t := SafeEncode(Seed(a, drawA)), SafeEncode(Seed(b, drawB));
      EncodingsMeet(Seed(a, drawA), Seed(b, drawB));
      assert a.name + "-" + s == a.name + ("-" + s) && b.name + "-" + t == b.name + ("-" + t);
      SuffixesMatch(a.name, "-" + s, b.name, "-" + t);
      assert ("-" + s)[1..] == s && ("-" + t)[1..] == t;
    }
  }

  lemma SuffixesMatch(x: string, s: string, y: string, t: string)
    requires |s| == |t|
    ensures x + s == y + t <==> x == y && s == t
  {
    if x + s == y + t {
      assert (x + s)[..|x|] == x && (y + t)[..|y|] == y;
      assert (x + s)[|x|..] == s && (y + t)[|y|..] == t;
    }
  }

  function WithReleaseName(labels: map<string, string>, name: string): map<string, string> {
    if RELEASE_NAME in labels then labels else labels[RELEASE_NAME := name]
  }

  /** The name that is recorded: what the label says if it is there; else the name of the composition, with
      eight letters and digits that look like no others behind it where names are made safe. */
  lemma RecordedName(o: Composition, safe: bool, draw: string, i: nat)
    requires |draw| == 8 && i < 8
    ensures CalculateReleaseName(o, safe, draw).None? <==> safe && 0 < |o.uid| < 8
    ensures CalculateReleaseName(o, safe, draw).Some? ==>
              var name := CalculateReleaseName(o, safe, draw).value;
              && (!safe ==> name == o.name)
              && (safe ==> |name| == |o.name| + 9 && name[..|o.name| + 1] == o.name + "-"
                           && name[|o.name| + 1 + i] ==
                              "bcdfghjklmnpqrstvwxz2456789"[(if o.uid == "" then draw[i] else o.uid[i]) as int % 27])
              && WithReleaseName(o.labels, name) ==
                 (if "krateo.io/release-name" in o.labels then o.labels else o.labels["krateo.io/release-name" := name])
  {
    if safe && (o.uid == "" || |o.uid| >= 8) {
      var name, code := CalculateReleaseName(o, safe, draw).value, SafeEncode(if o.uid == "" then draw else o.uid[..8]);
      assert name == (o.name + "-") + code && name[|o.name| + 1 + i] == code[i];
    }
  }

  function WithDefinition(labels: map<string, string>, info: DefinitionInfo): map<string, string> {
    labels[DEFINITION_NAME := info.name][DEFINITION_NAMESPACE := info.namespace]
          [DEFINITION_GROUP := info.gvr.group][DEFINITION_VERSION := info.gvr.version][DEFINITION_RESOURCE := info.gvr.resource]
  }

  predicate IsGracefullyPaused(o: Composition) { Lookup(o.annotations, PAUSED) == "true" }

  /** readable decides which annotation values parse as an RFC 3339 time. */
  predicate HasPausedTime(o: Composition, readable: string -> bool) {
    PAUSED_TIME in o.annotations && readable(o.annotations[PAUSED_TIME])
  }

  /** The keys are different strings; comparing them once here is cheaper than everywhere. */
  lemma KeysDiffer()
    ensures RELEASE_NAME !in {DEFINITION_NAME, DEFINITION_NAMESPACE, DEFINITION_GROUP, DEFINITION_VERSION,
                              DEFINITION_RESOURCE, COMPOSITION_VERSION}
    ensures PAUSED != PAUSED_TIME
  {
  }

  lemma DefinitionKeysDiffer()
    ensures DEFINITION_NAME !in {DEFINITION_NAMESPACE, DEFINITION_GROUP, DEFINITION_VERSION, DEFINITION_RESOURCE}
    ensures DEFINITION_NAMESPACE !in {DEFINITION_GROUP, DEFINITION_VERSION, DEFINITION_RESOURCE}
    ensures DEFINITION_GROUP !in {DEFINITION_VERSION, DEFINITION_RESOURCE}
    ensures DEFINITION_VERSION != DEFINITION_RESOURCE
    ensures COMPOSITION_VERSION !in {DEFINITION_NAME, DEFINITION_NAMESPACE, DEFINITION_GROUP, DEFINITION_VERSION,
                                     DEFINITION_RESOURCE}
  {
  }

  /** The object a handler works on: a deep copy of what the API server returned. */
  class Unstructured {
    const identity: Composition
    var labels: map<string, string>
    var annotations: map<string, string>
    var status: Status

    constructor DeepCopy(o: Composition)
      ensures Value() == o
    {
      identity, labels, annotations, status := o, o.labels, o.annotations, o.status;
    }

    function Value(): Composition
      reads this
    {
      identity.(labels := labels, annotations := annotations, status := status)
    }

    method SetReleaseName(name: string)
      modifies this`labels
      ensures RELEASE_NAME in labels
      ensures labels[RELEASE_NAME] == if RELEASE_NAME in old(labels) then old(labels)[RELEASE_NAME] else name
      ensures forall key :: key != RELEASE_NAME ==>
                (key in labels <==> key in old(labels)) && (key in labels ==> labels[key] == old(labels)[key])
      ensures Value() == old(Value()).(labels := WithReleaseName(old(labels), name))
    {
      if RELEASE_NAME !in labels {
        labels := labels[RELEASE_NAME := name];
      }
    }

    method SetCompositionDefinitionLabels(info: DefinitionInfo)
      modifies this`labels
      ensures labels.Keys == old(labels).Keys + DEFINITION_KEYS
      ensures labels[DEFINITION_NAME] == info.name && labels[DEFINITION_NAMESPACE] == info.namespace
      ensures labels[DEFINITION_GROUP] == info.gvr.group && labels[DEFINITION_VERSION] == info.gvr.version
      ensures labels[DEFINITION_RESOURCE] == info.gvr.resource
      ensures forall key :: key in old(labels) && key !in DEFINITION_KEYS ==> labels[key] == old(labels)[key]
      ensures Value() == old(Value()).(labels := WithDefinition(old(labels), info))
    {
      DefinitionKeysDiffer();
      labels := labels[DEFINITION_NAME := info.name];
      labels := labels[DEFINITION_NAMESPACE := info.namespace];
      labels := labels[DEFINITION_GROUP := info.gvr.group];
      labels := labels[DEFINITION_VERSION := info.gvr.version];
      labels := labels[DEFINITION_RESOURCE := info.gvr.resource];
    }

    method SetGracefullyPausedTime(now: string)
      modifies this`annotations
      ensures Value() == old(Value()).(annotations := old(annotations)[PAUSED_TIME := now])
    {
      annotations := annotations[PAUSED_TIME := now];
    }

    method RemoveGracefullyPausedTime()
      modifies this`annotations
      ensures Value() == old(Value()).(annotations := old(annotations) - {PAUSED_TIME})
    {
      annotations := annotations - {PAUSED_TIME};
    }

    method SetManagedResources(managed: seq<ManagedResource>)
      modifies this`status
      ensures Value() == old(Value()).(status := old(status).(managed := Some(managed)))
    {
      status := status.(managed := Some(managed));
    }

    method SetStatus(catalog: Catalog, opts: StatusOpts) returns (ok: bool)
      modifies this`status
      ensures var result := WithStatus(catalog, old(status), identity.namespace, opts);
              ok == result.Some? && Value() == old(Value()).(status := if ok then result.value else old(status))
    {
      if |opts.resources| > 0 {
        var managed := PopulateManagedResources(catalog, opts.resources, identity.namespace);
        if managed.None? { return false; }
        SetManagedResources(managed.value);
      }
      status := status.(previousDigest := opts.previousDigest);
      status := status.(digest := opts.digest);
      status := status.(helmChartUrl := opts.chartURL);
      status := status.(helmChartVersion := opts.chartVersion);
      return true;
    }
  }
}
