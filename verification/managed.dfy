/** The status of a composition (internal/composition/support.go). */
module Managed {
  import opened Wrappers
  import opened Processor
  import opened Paths

  datatype GVR = GVR(group: string, version: string, resource: string)

  /** What the cluster knows about kinds: the pluralizer and the REST mapper, either of which may not
      know a kind. */
  datatype Catalog = Catalog(resourceOf: (string, string) -> Option<GVR>, isNamespaced: (string, string) -> Option<bool>)

  datatype ManagedResource = ManagedResource(apiVersion: string, resource: string, name: string, namespace: string, path: string)

  datatype Status = Status(
    digest: string,
    previousDigest: string,
    helmChartUrl: string,
    helmChartVersion: string,
    managed: Option<seq<ManagedResource>>)

  function EntryFor(catalog: Catalog, ref: MinimalMetadata, releaseNamespace: string): Option<ManagedResource> {
    var gvr :- catalog.resourceOf(ref.apiVersion, ref.kind);
    var namespaced :- catalog.isNamespaced(ref.apiVersion, ref.kind);
    var namespace := if !namespaced then "" else if ref.namespace == "" then releaseNamespace else ref.namespace;
    Some(ManagedResource(ref.apiVersion, gvr.resource, ref.name, namespace,
                         BuildPath(Resource(gvr.group, gvr.version, gvr.resource, ref.name, namespace))))
  }

  function EntriesFor(catalog: Catalog, refs: seq<MinimalMetadata>, releaseNamespace: string): Option<seq<ManagedResource>> {
    if refs == [] then Some([])
    else
      var entries :- EntriesFor(catalog, refs[..|refs| - 1], releaseNamespace);
      var entry :- EntryFor(catalog, refs[|refs| - 1], releaseNamespace);
      Some(entries + [entry])
  }

  method PopulateManagedResources(catalog: Catalog, resources: seq<MinimalMetadata>, releaseNamespace: string)
    returns (managed: Option<seq<ManagedResource>>)
    ensures managed == EntriesFor(catalog, resources, releaseNamespace)
  {
    var entries: seq<ManagedResource> := [];
    for i := 0 to |resources|
      invariant EntriesFor(catalog, resources[..i], releaseNamespace) == Some(entries)
    {
      assert resources[..i + 1][..i] == resources[..i];
      EntriesPrefix(catalog, resources, i + 1, releaseNamespace);
      var ref := resources[i];
      var gvr := catalog.resourceOf(ref.apiVersion, ref.kind);
      if gvr.None? { return None; }
      var namespaced := catalog.isNamespaced(ref.apiVersion, ref.kind);
      if namespaced.None? { return None; }
      if !namespaced.value {
        ref := ref.(namespace := "");
      } else if |ref.namespace| == 0 {
        ref := ref.(namespace := releaseNamespace);
      }
      var path := BuildPath(Resource(gvr.value.group, gvr.value.version, gvr.value.resource, ref.name, ref.namespace));
      entries := entries + [ManagedResource(ref.apiVersion, gvr.value.resource, ref.name, ref.namespace, path)];
    }
    assert resources[..|resources|] == resources;
    return Some(entries);
  }

  lemma {:induction false} EntriesPrefix(catalog: Catalog, refs: seq<MinimalMetadata>, i: nat, ns: string)
    requires i <= |refs|
    ensures EntriesFor(catalog, refs, ns).Some? ==> EntriesFor(catalog, refs[..i], ns).Some?
  {
    if i < |refs| {
      assert refs[..|refs| - 1][..i] == refs[..i];
      EntriesPrefix(catalog, refs[..|refs| - 1], i, ns);
    } else {
      assert refs[..i] == refs;
    }
  }

  /** One entry for each object of the manifest, in its order: cluster-scoped objects without a
      namespace whatever their manifest says, namespaced ones in the release namespace unless they
      name one, and a path that leads back to the object. */
  lemma {:induction false} OneEntryPerObject(catalog: Catalog, refs: seq<MinimalMetadata>, ns: string, i: nat)
    requires EntriesFor(catalog, refs, ns).Some? && i < |refs|
    ensures |EntriesFor(catalog, refs, ns).value| == |refs|
    ensures var entry, ref := EntriesFor(catalog, refs, ns).value[i], refs[i];
            var gvr, scoped := catalog.resourceOf(ref.apiVersion, ref.kind), catalog.isNamespaced(ref.apiVersion, ref.kind);
            && gvr.Some? && scoped.Some?
            && entry.apiVersion == ref.apiVersion && entry.name == ref.name && entry.resource == gvr.value.resource
            && (!scoped.value ==> entry.namespace == "")
            && (scoped.value && ref.namespace != "" ==> entry.namespace == ref.namespace)
            && (scoped.value && ref.namespace == "" ==> entry.namespace == ns)
            && var r := Resource(gvr.value.group, gvr.value.version, gvr.value.resource, ref.name, entry.namespace);
              SlashFree(r) ==> ParsePath(entry.path) == Some(r)
  {
    var init, last := refs[..|refs| - 1], |refs| - 1;
    if i == last {
      EntriesLength(catalog, init, ns);
      var entry := EntryFor(catalog, refs[i], ns).value;
      var gvr := catalog.resourceOf(refs[i].apiVersion, refs[i].kind).value;
      var r := Resource(gvr.group, gvr.version, gvr.resource, refs[i].name, entry.namespace);
      if SlashFree(r) { RoundTrip(r); }
    } else {
      OneEntryPerObject(catalog, init, ns, i);
    }
  }

  lemma {:induction false} EntriesLength(catalog: Catalog, refs: seq<MinimalMetadata>, ns: string)
    requires EntriesFor(catalog, refs, ns).Some?
    ensures |EntriesFor(catalog, refs, ns).value| == |refs|
  {
    if refs == [] {
    } else {
      EntriesLength(catalog, refs[..|refs| - 1], ns);
    }
  }

  /** The list fails only on a kind that the pluralizer or the REST mapper does not know. */
  lemma {:induction false} EntriesExist(catalog: Catalog, refs: seq<MinimalMetadata>, ns: string)
    ensures EntriesFor(catalog, refs, ns).Some? <==>
            forall i :: 0 <= i < |refs| ==>
              && catalog.resourceOf(refs[i].apiVersion, refs[i].kind).Some?
              && catalog.isNamespaced(refs[i].apiVersion, refs[i].kind).Some?
  {
    if refs == [] {
    } else {
      EntriesExist(catalog, refs[..|refs| - 1], ns);
      assert forall i :: 0 <= i < |refs| - 1 ==> refs[..|refs| - 1][i] == refs[i];
    }
  }

  // ------------------------------------------------------------ setStatus

  datatype StatusOpts = StatusOpts(
    chartURL: string,
    chartVersion: string,
    resources: seq<MinimalMetadata>,
    previousDigest: string,
    digest: string)

  /** The managed list is only touched when there are resources to put into it. */
  function WithStatus(catalog: Catalog, status: Status, releaseNamespace: string, opts: StatusOpts): Option<Status> {
    var managed :- if |opts.resources| == 0 then Some(status.managed)
                   else
                     var entries :- EntriesFor(catalog, opts.resources, releaseNamespace);
                     Some(Some(entries));
    Some(Status(opts.digest, opts.previousDigest, opts.chartURL, opts.chartVersion, managed))
  }
}
