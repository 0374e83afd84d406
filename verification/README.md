# A verified model of the Composition Dynamic Controller

The controller watches `Composition` resources, installs one Helm release for each, and provisions the
RBAC objects under which its service account may do so. This project models that core in Dafny and
proves what it keeps in every run:

* **RBAC as it is understood by the cluster.** `rbacgen.dfy`, `policy.dfy` and `installer.dfy` hold the
  generator and the installer, call by call; `landing.dfy` says what those calls leave in the store;
  `meaning.dfy` and `authorization.dfy` say what the stored roles and bindings *permit*, after every
  single write, after a completed apply, and after an uninstall; `applicability.dfy` says when the API
  server lets a policy through, `retries.dfy` what crashes and retries leave; `workers.dfy`,
  `races.dfy` and `sharing.dfy` let many installers share a cluster, interleaved at single API calls.
* **The reconcile handlers.** `reconcile.dfy` gives `Observe`, `Create`, `Update` and `Delete` as
  functions on the world outside (stored composition, Helm history, RBAC store); `handler.dfy` gives
  them as they run, on mutable objects, each method proved equal to its function and so to keep what is
  proved of it. `outcomes.dfy` says exactly when each handler succeeds if no call fails, and what it
  leaves; `scripts.dfy` what faults can change about that. `safety.dfy`, `accounting.dfy`,
  `lifecycle.dfy`, `faultless.dfy`, `convergence.dfy`, `limits.dfy` and `leftovers.dfy` prove the protocols
  that span handler calls; `witnesses.dfy` holds concrete inputs.
* **What they rest on.** The digest in its one-shot and its streaming form (`hasher.dfy`,
  `processor.dfy`), the blank manifests (`whitespace.dfy`), the printer and the parser of API paths
  (`paths.dfy`), the managed list (`managed.dfy`), labels and annotations (`meta.dfy`), the definition
  resolver (`resolver.dfy`).

**Faults.** Every call to the outside consumes the next fault of a script that the theorems quantify
over: the request is lost, or carried out and its answer lost, or a Helm operation dies half-way, or is
acknowledged without effect. Apart from faults, the API server refuses to create what is there or in a
namespace that is not, and to make a binding refer to another role. A crash after the n-th call is the
script that loses all the calls that follow, so a statement about the end of every handler call is also
one about every point inside it.

**Choices that Go leaves open** are parameters: the order of a range over the policy's map, the sizes of
the decoder's reads, random draws, the clock.

## What the proofs found in the code

Each of these comes with an input at which it happens and with its exact condition.

* `Create` over an existing release does not look at the error of its upgrade, and goes on with what the
  failed upgrade returned (composition.go:465-472, 485). Whatever happens to its calls, its success
  speaks for the release if and only if there was none before the call or what a failed upgrade returns
  cannot be published (`Limits.CreateIsHonestWithoutARelease`); whatever is returned, if and only if there
  was none (`Limits.CreateIsHonestWhateverIsLeft`, input `Limits.CreateCanHideAFailedUpgrade`). No fault is
  needed if Helm has an operation pending: then alone does success without faults say nothing
  (`Limits.UndisturbedCreateIsHonest`). The next round repairs it: `Convergence.OneRoundConverges` starts
  from any status and any release.
* A round corrects a wrong or missing managed list if and only if it updates, or creates a release that
  has objects (`Convergence.RoundListsTheObjects`). So creating a chart without objects leaves the list of
  an earlier release in place (`Witnesses.StaleList`; support.go:84-91, composition.go:589-593), and a
  release that is up to date never gets a list it lacks (composition.go:306-313, 332).
* In a round without faults, a pause takes effect if and only if the composition has drifted when it is
  asked for (`Convergence.PauseNeedsAnUpdate`): pausing an up-to-date one leaves it active
  (`Witnesses.IgnoredPause`).
* `Observe` upgrades before it judges, so drift can be reported once and never again: if the update that
  is asked for is lost, the next observation reports it if and only if a digest was recorded and differs
  (`Convergence.DriftIsForgotten`). A new chart version with the same manifest, and a pause that came with
  it, are forgotten (`Witnesses.ForgottenDrift`; composition.go:269-328).
* The observation after an update overwrites `status.previousDigest` with the current digest
  (composition.go:330-339): it survives if and only if the two are equal
  (`Convergence.PreviousDigestIsForgotten`, `Witnesses.ForgottenDigest`).
* A definition that is alone in the cluster is accepted whatever its status, but recorded in the labels
  it is refused if its status is malformed (getter.go:173-176, 316-317): the first observation succeeds
  and what it asks for fails, if and only if the status is malformed
  (`Convergence.RoundNeedsAWellFormedDefinition`, `Witnesses.LoneMalformedDefinition`).
* `Delete` of a composition whose release is already gone leaves its roles and bindings behind
  (composition.go:691-695); a successful one leaves everything as it was if there is no release, and
  nothing of the policy if there is (`Lifecycle.DeleteLeavesNothing`, `Witnesses.RolesLeftBehind`). A run
  gets there: a delete that dies between the release and its roles leaves all permissions in place, and
  no later delete takes them away, although it reports success (`Leftovers.RolesOutliveTheRelease`). An
  inspector that does not answer is enough (`Outcomes.DeleteWithoutTheList`).
* Installers of different releases, every call answered, can never fail in any interleaving if and only
  if each policy is applicable (its namespaces are there, brought by it, or not needed; its bindings
  refer to its roles) and no two lists share a namespace that is missing
  (`Races.InstallationsNeverFail`, inputs `Races.NamespaceRace` and `Races.MissingNamespace`).
* Release names are not unique: two compositions are given the same one if and only if they have the same
  name and, where names are made safe, the first eight characters of their UIDs (without a UID, eight
  drawn ones) are equal modulo 27; the namespace plays no part (`Meta.SameReleaseName`, input
  `Witnesses.SharedRelease`; meta.go:38-51). `Workers.Isolation` and what follows from it assume that they
  do not; what installers keep even then is in `sharing.dfy`.

## Model

| member | source | states |
|---|---|---|
| RbacGen.RBACGen.Generate | internal/rbacgen/rbacgen.go:52-105 | The loop builds the policy that the specification describes: namespaces, cluster rules and per-namespace entries; no policy when the inspector fails |
| RbacGen.RBACGen.AddRule | internal/rbacgen/rbacgen.go:88-102 | Appending through the map extends the rules of one namespace by one and creates its role and binding the first time |
| RbacGen.NamespacedAt | internal/rbacgen/rbacgen.go:75-103 | The keys are exactly the non-empty namespaces; each entry has exactly its namespace's rules and names its own namespace |
| RbacGen.RulesInHolds | internal/rbacgen/rbacgen.go:75-103 | A rule is in a scope's role iff a resource of that scope asks for it |
| RbacGen.RulesInConcat | internal/rbacgen/rbacgen.go:75-103 | Every role keeps the inspector's order |
| RbacGen.PartitionTotal | internal/rbacgen/rbacgen.go:75-103 | The rule counts of all roles sum to the length of the inspector's list |
| Installer.RuleExists | internal/tools/rbac/installer.go:447-454 | The scan finds a rule iff it is there |
| Installer.RBACInstaller.ApplyRole | internal/tools/rbac/installer.go:115-184 | Get, then create, nothing, or update with the merged rules; the whole state of the cluster and the outcome, whatever call fails (also 232-300) |
| Installer.RBACInstaller.ApplyWhole | internal/tools/rbac/installer.go:186-230 | Get, then create or replace; whole state and outcome under any fault (also 74-113 and 302-346) |
| Installer.RBACInstaller.ApplyRBAC | internal/tools/rbac/installer.go:28-72 | Goes through namespaces, cluster pair and namespaced pairs in any map order and stops at the first error, with exactly the state of that many applies |
| Installer.RBACInstaller.UninstallRBAC | internal/tools/rbac/installer.go:348-381 | The same for the deletes; namespaces are not among them |
| Installer.ApplyAllSplits | internal/tools/rbac/installer.go:33-70 | A run over two lists is a run over the first followed, if that succeeded, by one over the second |
| Landing.MergeKeepsAndAdds | internal/tools/rbac/installer.go:148-164 | Old rules stay as a prefix, the result is the union, a new rule is added exactly once, old multiplicities stay |
| Landing.MergeNothingNew | internal/tools/rbac/installer.go:154-164 | Nothing changes (and nothing is written) iff every wanted rule is there |
| Landing.MergeHistoryRules | internal/tools/rbac/installer.go:148-164 | After any sequence of applies a role holds the old rules and those of all applies |
| Landing.MergeOrderIrrelevant | internal/tools/rbac/installer.go:148-164 | Two sequences with the same applies, in any order and multiplicity, give the same set of rules, each new one once |
| Landing.LandingTwice | internal/tools/rbac/installer.go:115-346 | Applying an object that has been applied changes nothing |
| Landing.LandAllAt | internal/tools/rbac/installer.go:28-72 | The store after an apply, key by key, without reference to the order of writes |
| Landing.LandAllOrderIrrelevant | internal/tools/rbac/installer.go:56-69 | The map order has no influence on the resulting store |
| Landing.LandAllAbsorbs | internal/tools/rbac/installer.go:28-72 | What a partial run has landed makes no difference to a complete one |
| Landing.ApplyAllLands | internal/tools/rbac/installer.go:28-72 | Under any faults the calls amount to landing a prefix of the objects, all of them on success |
| Landing.ApplyAllSucceeds | internal/tools/rbac/installer.go:28-72 | Without faults a run succeeds iff the API server lets every write through, and then lands everything |
| Landing.DeleteAllRemoves | internal/tools/rbac/installer.go:348-445 | Under any faults the deletes remove a prefix of the keys, all of them on success |
| Meaning.PolicyWrites | internal/tools/rbac/installer.go:33-69 | Given a generated policy, the installer writes and deletes exactly the objects the theorems below speak of |
| Meaning.InWrites | internal/rbacgen/rbacgen.go:68-104 | Which objects an apply of a generated policy writes: namespaces from the list, and a role and a binding in each scope |
| Meaning.WritesConsistent | internal/tools/rbac/rbac.go:22-96 | The objects of a policy have distinct keys and all but the namespaces bear the release's name |
| Authorization.RulesMeaning | internal/rbacgen/rbacgen.go:82-101 | The rules of a scope allow a request iff a resource of that scope covers it, wildcards included |
| Authorization.ApplyNeverShrinks | internal/tools/rbac/installer.go:33-69 | After any number of writes the service account may do all it could before |
| Authorization.BindingsNeverDangle | internal/tools/rbac/installer.go:44-69 | After any number of writes every binding written so far refers to a role that exists |
| Authorization.NamespacesComeFirst | internal/tools/rbac/installer.go:33-69 | When a role or binding is written its namespace is there iff it was before the apply or is in the list |
| Authorization.ApplyMeaning | internal/rbacgen/rbacgen.go:68-104 | A completed apply permits exactly: what was permitted, what the list covers, what unfinished applies had left in the roles |
| Authorization.AppliedPolicyMeansItsList | internal/tools/rbac/installer.go:28-72 | From a store without unfinished applies, a successful ApplyRBAC of a generated policy permits exactly what was permitted before or is covered by the list, for every request |
| Authorization.ApplyKeepsBound | internal/tools/rbac/installer.go:28-72 | A completed apply leaves a store of the kind the previous theorem starts from |
| Authorization.AppliedNamespaces | internal/tools/rbac/rbac.go:22-37 | After a completed apply each listed core v1 namespace is there with Helm's label and the annotations of this release and its namespace; other namespaces are as they were (also rbacgen.go:75-79) |
| Authorization.CoversExactly | internal/rbacgen/rbacgen.go:82-87 | What a listed resource covers: every verb on its group and resource, in its namespace or everywhere |
| Authorization.DeletingNeverGrants | internal/tools/rbac/installer.go:354-379 | At no step of an uninstall does anyone gain a permission |
| Authorization.UninstallRemovesExactly | internal/tools/rbac/installer.go:348-445 | The release's roles and bindings in the listed scopes are gone, everything else, namespaces included, is as it was |
| Authorization.UninstallRevokes | internal/tools/rbac/installer.go:348-381 | If the listed scopes cover what was applied, what remains permitted is exactly what others grant |
| Authorization.ApplyThenUninstall | internal/tools/rbac/installer.go:28-381 | Uninstalling after applying restores every RBAC object |
| Applicability.AcceptedIffApplicable | internal/tools/rbac/installer.go:33-70 | The API server lets every write of a policy through, in any map order, iff before the apply each scope's namespace is there, brought or not needed and each binding that is there refers to the policy's role |
| Applicability.ApplySucceedsIff | internal/tools/rbac/installer.go:28-72 | An apply without faults succeeds iff that condition holds, and then lands everything |
| Applicability.AttemptTells | internal/tools/rbac/installer.go:33-70 | No attempt, however it ends, makes a policy applicable that was not |
| Retries.ApplyRetried | internal/tools/rbac/installer.go:33-70 | Any number of attempts that failed anywhere, each with its own map order, followed by one that succeeds, give exactly the store of one undisturbed run, which would have succeeded |
| Retries.UninstallRetried | internal/tools/rbac/installer.go:354-380 | The same for uninstalling, as far as the installer goes; `Delete` does not come back to it once the release is gone |
| Workers.StepOwn | internal/tools/rbac/installer.go:115-184 | One API call of a worker keeps its view: its release's objects are as if it were alone, and what it has read is still so |
| Workers.Isolation | internal/tools/rbac/installer.go:28-381 | For every interleaving of single calls and all faults, no release with a name of its own is disturbed by another |
| Workers.Serializable | internal/tools/rbac/installer.go:28-381 | An interleaving in which all finish leaves the roles and bindings of performing the programs one after another, in every order in which they succeed |
| Workers.SerializableMeaning | internal/tools/rbac/installer.go:28-381 | The same for permissions: who is authorised afterwards does not depend on the interleaving |
| Workers.AnsweredStepFails | internal/tools/rbac/installer.go:88-101 | One step of a worker: an answered call fails iff it creates a namespace that came up since the worker looked, or its write is refused for a missing namespace or another role |
| Races.NoClashNoFailure | internal/tools/rbac/installer.go:88-101 | If each program would succeed alone and no two bring the same missing namespace, no interleaving of answered calls makes anyone fail |
| Races.FailuresAreClashes | internal/tools/rbac/installer.go:33-101 | Over all interleavings of answered calls: nobody ever fails iff no two workers bring the same missing namespace and each would succeed alone |
| Races.InAnyOrder | internal/tools/rbac/installer.go:28-381 | Under that condition the programs also succeed one after another, in any order |
| Races.SerializableInAnyOrder | internal/tools/rbac/installer.go:28-381 | Under that condition every interleaving that finishes leaves the roles and bindings of every sequence |
| Races.InstallationsNeverFail | internal/tools/rbac/installer.go:33-101 | The same for generated policies, as a condition on the lists and the cluster: each policy is applicable and no two lists share a missing namespace |
| Races.NamespaceRace | internal/tools/rbac/installer.go:88-92 | For any two releases whose lists share a namespace that is missing, an interleaving in which one fails |
| Races.MissingNamespace | internal/tools/rbac/installer.go:61-69 | A lone release whose list has a resource in a namespace that is neither there nor listed fails |
| Races.OneWorkerIsTheInstaller | internal/tools/rbac/installer.go:28-381 | A worker on its own, under any faults, leaves the store of ApplyRBAC or UninstallRBAC and succeeds when that does |
| Sharing.NoRuleIsLost | internal/tools/rbac/installer.go:115-184 | Installers that may share names and objects, in any interleaving and under any faults: no role loses a rule, and all that a worker has applied stays in place |
| Sharing.FinishedIsPermitted | internal/tools/rbac/installer.go:28-72 | An installer that has finished has all that its list asks for permitted, whatever the others with the same or other names have done in between |
| Workers.AloneApplies | internal/tools/rbac/installer.go:28-72 | The effects of an apply's operations, one after another, are its objects landed |
| Workers.InstallerMinds | internal/rbacgen/rbacgen.go:68-104 | The programs of ApplyRBAC and UninstallRBAC touch their own release's objects and namespaces only |
| Hasher.RoundInverts | internal/tools/hasher/hasher.go:53-55 | For each octet the FNV-1 round on 64-bit states has an inverse (multiplication by the prime modulo 2^64 is undone) |
| Hasher.FnvSeparates | internal/tools/hasher/hasher.go:21-29 | Inputs that differ in exactly one octet have different hashes |
| Hasher.FnvConcat | internal/tools/hasher/hasher.go:31-44 | The hash is cumulative over pieces |
| Hasher.HexReadsBack | internal/tools/hasher/hasher.go:49-51 | The printed form can be read back, hence is injective; it is never empty |
| Hasher.HexUnpadded | internal/tools/hasher/hasher.go:49-51 | No leading zeros |
| Hasher.HexDigits | internal/tools/hasher/hasher.go:49-51 | Digits and letters from a to f only |
| Hasher.TestVectors | internal/tools/hasher/hasher.go:53-55 | The parameters are those of 64-bit FNV-1: its hashes of no octets and of "a" |
| Hasher.ObjectHash.Write | internal/tools/hasher/hasher.go:11-13 | The state is that of everything written since the start |
| Hasher.ObjectHash.SumHashStrings | internal/tools/hasher/hasher.go:21-29 | Equals writing the concatenation |
| Hasher.ObjectHash.GetHash | internal/tools/hasher/hasher.go:49-51 | Prints the hash of everything written, however it was split |
| Processor.ComputeReleaseDigest | internal/tools/processor/processor.go:79-91 | The digest of the manifest, "" for a blank one |
| Processor.Decoder.Decode | internal/tools/processor/processor.go:41-61 | With reads of any sizes at any moments, documents come in order and the end is reported only when the source is exhausted and hashed |
| Processor.DecodeRelease | internal/tools/processor/processor.go:24-76 | Fast equals slow: the streaming loop fails iff a document is malformed, and otherwise returns the one-shot digest and the documents with an apiVersion |
| Processor.FastEqualsSlow | internal/tools/processor/processor.go:24-91 | When a decoding succeeds, and that its digest is that of ComputeReleaseDigest |
| Processor.ObjectsAre | internal/tools/processor/processor.go:50-73 | The objects are exactly the documents with a non-empty apiVersion |
| Processor.ObjectsConcat | internal/tools/processor/processor.go:50-73 | The objects keep the order of the manifest |
| Processor.ChangeDetected | internal/composition/composition.go:314 | Manifests that differ in one octet have the same digest iff both are blank |
| Whitespace.BlankMeansSpaces | internal/tools/processor/processor.go:32-34 | A manifest is blank iff it is a sequence of Unicode white space characters, encoded in UTF-8 |
| Whitespace.VisibleIsNotBlank | internal/tools/processor/processor.go:32-34 | A printed ASCII character anywhere makes a manifest not blank |
| Whitespace.AsciiSpacesAreBlank | internal/tools/processor/processor.go:80-82 | Tabs, line ends and blanks alone are blank |
| Whitespace.VisibleChangeDetected | internal/tools/processor/processor.go:79-91 | Manifests that differ in one octet have different digests if one of them has anything visible |
| Paths.RoundTrip | internal/tools/tracer/tracer.go:67-102 | For slash-free fields, what buildpath prints is parsed to the same five fields, in all four shapes |
| Paths.PathsAreInjective | internal/composition/support.go:155-171 | Different resources never share a managed path |
| Paths.ReadAndPrint | internal/tools/tracer/tracer.go:67-102 | The converse: exactly which parsed paths are printed again unchanged |
| Paths.SplitJoin | internal/tools/tracer/tracer.go:67 | Splitting at slashes undoes joining slash-free parts |
| Paths.Tracer.RoundTrip | internal/tools/tracer/tracer.go:48-103 | Which requests are recorded, and as what; nothing else changes |
| Paths.TraceOfResource | internal/tools/tracer/tracer.go:60-66 | Of a request about a resource the tracer records that resource iff it is answered and deletes it, or changes it under a field manager; reads leave no trace |
| Paths.ReadExactly | internal/tools/tracer/tracer.go:67-102 | Which paths are read, and as what: either root, with or without group and namespace, and no other path |
| Managed.PopulateManagedResources | internal/composition/support.go:136-183 | The loop over a local copy yields the specified list, or nothing if a kind is unknown; its input is a value and stays as it is |
| Managed.OneEntryPerObject | internal/composition/support.go:136-183 | One entry per object in order, no namespace for cluster-scoped kinds, the release namespace by default, a path that leads back to the object |
| Managed.EntriesExist | internal/composition/support.go:139-149 | The list fails iff some kind is unknown to the pluralizer or the mapper |
| Meta.Unstructured.SetReleaseName | pkg/meta/meta.go:58-68 | Writes the label once and changes nothing else |
| Meta.Unstructured.SetCompositionDefinitionLabels | pkg/meta/meta.go:80-93 | Writes the five labels and changes nothing else |
| Meta.Unstructured.SetStatus | internal/composition/support.go:79-120 | Sets digests and chart, and the managed list if there are resources; leaves the status alone when a kind is unknown |
| Meta.EncodingsMeet | pkg/meta/meta.go:47-48 | Two strings have the same safe encoding iff their characters are equal modulo 27 |
| Meta.SameReleaseName | pkg/meta/meta.go:38-51 | Exactly when two compositions are given the same release name |
| Meta.RecordedName | pkg/meta/meta.go:38-68 | The recorded name, letter by letter, for safe and plain names; none iff a UID is too short; a label that is there stays |
| Resolver.DynamicGetter.SearchCompositionDefinition | internal/tools/archive/getter.go:298-341 | The loop returns the first match, a lone definition without a look, or an error |
| Resolver.DynamicGetter.Get | internal/tools/archive/getter.go:122-200 | Hint, check, fallback to search and their errors are those of the specification |
| Resolver.ResolvedMatches | internal/tools/archive/getter.go:162-191 | A result matches version and kind, except exactly for an unmatched definition that is alone; with two or more it always matches |
| Resolver.SearchTakesTheFirst | internal/tools/archive/getter.go:316-336 | Without a usable hint the first match of the list is taken, and nothing iff there is none |
| Resolver.RecordedLabelsStick | internal/tools/archive/getter.go:131-191 | With recorded labels later answers are the same definition, whatever others are added, while it exists, matches and is well formed; the other outcomes are spelled out |
| Resolver.AskingAgain | internal/tools/archive/getter.go:173-176 | Recording and asking again gives the same definition iff its status is well formed |
| Resolver.WellFormed | internal/tools/archive/getter.go:343-365 | A status is well formed iff it has a kind and an API version of a group and a version with one slash between them |
| Resolver.MatchesExactly | internal/tools/archive/getter.go:172-180 | A definition matches iff its status reads as the kind of the composition in the version it is labelled with, whatever the group |
| Resolver.HintExactly | internal/tools/archive/getter.go:131-160 | The labels name a definition iff all five are there and not empty, each saying its part |
| Resolver.ResolvedExactly | internal/tools/archive/getter.go:162-341 | The definition that is found, as an iff: by hint and match, or alone in the list, or the first of several that matches |
| Resolver.FetchedChart | internal/tools/archive/getter.go:193-262 | URL, version, repository and coordinates of the answer are those of the definition found; no answer without a URL |
| Handler.Handler.EnsureRBAC | internal/composition/composition.go:403-426 | Generate with the release name and apply: whole new world and outcome under any fault; on success all that was inspected is granted to the configured service account |
| Handler.Handler.RemoveRBAC | internal/composition/composition.go:721-745 | Generate and uninstall: whole new world and outcome; on success exactly the policy's keys are gone |
| Handler.Handler.Observe | internal/composition/composition.go:109-355 | The whole new world and the outcome for every fault script; permission-before-release and the release name survive, and a paused composition is left as it is |
| Handler.Handler.Create | internal/composition/composition.go:357-520 | The whole new world and the outcome for every fault script; what Observe keeps; without faults, and unless Helm has an operation pending, it succeeds over a release or without one, the chart is deployed and the status describes it |
| Handler.Handler.Update | internal/composition/composition.go:522-638 | The whole new world and the outcome for every fault script; permission-before-release and the release name survive, and a paused composition is left as it is |
| Handler.Handler.Delete | internal/composition/composition.go:640-757 | The whole new world and the outcome for every fault script; what Observe keeps; without faults it succeeds on a release that is there, and release, roles, bindings and the time of the pause are gone, and nothing else |
| Handler.Driver.HandleObservation | internal/composition/composition_test.go:642-674 | Does what the observation asks for, and keeps what the handlers keep |
| Handler.Driver.Reconcile | internal/composition/composition_test.go:642-674 | A round keeps the invariant under any faults; without faults it succeeds and leaves exactly the predicted composition and the rendered chart |
| Outcomes.ListedNamespaces | internal/tools/rbac/rbac.go:22-37 | The same of the namespaces for the handlers' apply, under any faults it survives: marked with the release name and the namespace of the composition |
| Outcomes.ObserveSucceeds | internal/composition/composition.go:109-355 | An observation of a release without faults, for any manifest and any definition found: verdict, composition, roles and release |
| Outcomes.ObserveSucceedsIff | internal/composition/composition.go:109-355 | Without faults it succeeds iff a definition is found and, with a release there, the policy is applicable |
| Outcomes.CreateSucceeds | internal/composition/composition.go:357-520 | A create without faults, from any composition and any release: the exact composition, roles and release |
| Outcomes.CreateSucceedsIff | internal/composition/composition.go:357-520 | Without faults it succeeds iff a definition is found, the policy is applicable and what Helm returned can be decoded and listed |
| Outcomes.CreateDeploys | internal/composition/composition.go:460-517 | Over a release or without one, the chart is deployed and described, unless an operation is pending |
| Outcomes.UpdateSucceeds | internal/composition/composition.go:522-638 | An update without faults, whatever the release holds: the exact composition, with the time of the pause iff the flag says "true" |
| Outcomes.UpdateSucceedsIff | internal/composition/composition.go:522-638 | Without faults it succeeds iff a definition and a release are found and the stored manifest can be decoded and listed |
| Outcomes.DeleteSucceeds | internal/composition/composition.go:640-757 | A delete of a release without faults: release, roles, bindings and the time of the pause are gone, nothing else changes |
| Outcomes.DeleteSucceedsIff | internal/composition/composition.go:640-757 | Without faults it succeeds iff a definition is found and there is no release or the inspector answers |
| Outcomes.DeleteWithoutTheList | internal/composition/composition.go:698-734 | Without an answer of the inspector the release goes, the roles stay, and the delete fails |
| Outcomes.NoNameNoProgress | pkg/meta/meta.go:40-48 | With a UID too short to make a name of, observing and creating fail and change nothing |
| Scripts.SuccessIsUntroubled | internal/composition/composition.go:109-757 | A handler that succeeds, under any faults, has met none of them: every call it made was answered, the upgrade of a create over a release apart |
| Scripts.SuccessIsCalm | internal/composition/composition.go:109-757 | And it leaves, and returns, exactly what it would have without faults |
| Scripts.ObserveAsks | internal/composition/composition.go:183-284 | Under any faults an observation asks Helm for a rollback of a stuck release, then for one upgrade, and for nothing else |
| Scripts.CreateAsks | internal/composition/composition.go:460-482 | Under any faults a create asks Helm for one installation, or one upgrade if there is a release |
| Scripts.UpdateAsksNothing | internal/composition/composition.go:522-638 | Under any faults an update asks Helm to change nothing |
| Scripts.DeleteAsks | internal/composition/composition.go:687-720 | Under any faults a delete asks for one uninstall, of a release that is there |
| Safety.EnsureRBACKeeps | internal/composition/composition.go:204-243 | An apply that stops anywhere takes nothing from any revision; a complete one grants what was inspected |
| Safety.ObserveKeeps | internal/composition/composition.go:109-355 | Observe keeps the invariant (release names agree, history is granted) wherever it stops |
| Safety.CreateKeeps | internal/composition/composition.go:357-520 | Create keeps the invariant wherever it stops |
| Safety.UpdateKeeps | internal/composition/composition.go:522-638 | Update keeps the invariant wherever it stops |
| Safety.DeleteKeeps | internal/composition/composition.go:640-757 | Delete keeps the invariant wherever it stops: permissions go only after the release is confirmed gone |
| Safety.LocateStoresTheName | internal/composition/composition.go:130-175 | The release that Observe looks up is the one whose name it has just stored |
| Safety.RunIsSafe | internal/composition/composition.go:109-757 | The invariant holds after every run of handlers, failures, edits of annotations and labels and other controllers' work |
| Safety.PermissionBeforeRelease | internal/composition/composition.go:204-284 | In every reachable state the service account is authorised for every request covered by what was inspected for any revision still in the history |
| Safety.OneReleaseName | internal/composition/composition.go:130-142 | All installs, upgrades, rollbacks and uninstalls of a run address the one release that the stored label names, even if the name was drawn at random |
| Accounting.RunIsAccounted | internal/composition/composition.go:204-243 | In every reachable state the release's own roles and bindings are those of scopes, and hold only rules, that the inspector listed in the run |
| Accounting.OnlyListedPermissions | internal/rbacgen/rbacgen.go:68-104 | Every permission the release's objects give in a reachable state is covered by what was listed in the run |
| Accounting.DeleteAfterRunRevokes | internal/composition/composition.go:698-745 | After any run, a delete whose list still names all namespaces listed before leaves exactly the permissions others grant |
| Lifecycle.PausedHandlersRest | internal/composition/composition.go:132-139 | With flag and readable time, no handler changes composition, history or store, and Observe reports all well (also 377-381, 544-548, 663-667) |
| Lifecycle.PausedRunRests | internal/composition/composition.go:132-139 | The same for any sequence of handler calls |
| Lifecycle.RestsExactly | pkg/meta/meta.go:97-115 | A successful observation leaves the time of a pause iff the flag says "true" and the time is readable; any other flag is no pause |
| Lifecycle.OnlyFlaggedUpdatesWriteTheTime | internal/composition/composition.go:622-637 | The time appears only through an Update that sees the flag |
| Lifecycle.ActiveObserve | internal/composition/composition.go:140-145 | Once not paused, a successful observation has dropped the time and, if there is a release, gone through an upgrade |
| Lifecycle.CreateRecordsTheRelease | internal/composition/composition.go:460-517 | A successful create has deployed the chart and recorded its digest, objects and chart, unless the release was there before and a fault or a pending operation stopped the upgrade |
| Lifecycle.UpdateRecordsTheRelease | internal/composition/composition.go:570-637 | After a successful update digest, previous digest, managed list and chart fields describe the stored release, which is untouched |
| Lifecycle.DeleteLeavesNothing | internal/composition/composition.go:687-756 | A delete that found a release leaves no release and none of its roles and bindings in the listed scopes, and everything else; one that found none changes nothing |
| Lifecycle.DeleteRevokes | internal/composition/composition.go:698-745 | If the list still covers what was applied, exactly the release's permissions are gone |
| Faultless.ObserveCalm | internal/composition/composition.go:109-355 | An observation without faults: its verdict, and the exact composition, roles and release after it, in terms of the state before |
| Faultless.CreateCalm | internal/composition/composition.go:357-520 | A first create without faults: the chart deployed and the exact status, digests, list and chart fields |
| Faultless.UpdateCalm | internal/composition/composition.go:522-638 | An update without faults: the exact world after it, with the time iff the flag is set |
| Convergence.Verdict | internal/composition/composition.go:297-354 | Observe asks for a create iff there is no release, and for an update iff the digest of the rendered chart differs from the recorded one (or, without a record, from the release found or restored) or the chart version does |
| Convergence.OctetChangeIsReported | internal/composition/composition.go:297-328 | A deployed manifest that changes in one octet is reported, unless it is blank before and after |
| Convergence.VisibleChangeIsReported | internal/composition/composition.go:297-328 | A change of one octet is reported if the manifest has anything visible before or after |
| Convergence.RoundCalm | internal/composition/composition_test.go:642-674 | The exact composition after a round, and the rendered chart as the last revision, from any release and any status |
| Convergence.OneRoundConverges | internal/composition/composition_test.go:642-674 | With inputs fixed and no faults: observe, do what it asks for, observe again, and the release is the rendered chart, its digest is recorded, and the answer is exists and up-to-date |
| Convergence.RoundListsTheObjects | internal/composition/composition.go:570-593 | The managed list describes the release after a round iff it did before, or the round updated, or it created a release with objects |
| Convergence.PreviousDigestIsForgotten | internal/composition/composition.go:330-339 | The previous digest of an update survives the next observation iff it equals the new one |
| Convergence.FirstRoundDeploys | internal/composition/composition.go:109-520 | For a new composition, observing and creating is a run in the sense of the safety theorems that ends with the chart deployed, its digest recorded and all that was inspected permitted |
| Convergence.CurrentIsObserved | internal/composition/composition.go:297-354 | A current composition is reported up-to-date |
| Convergence.ObservingAgainChangesNothing | internal/composition/composition.go:297-354 | After an up-to-date verdict the next observation leaves the composition and the RBAC store as they are, and the history too if Helm skips empty upgrades |
| Convergence.PauseNeedsAnUpdate | internal/composition/composition.go:622-637 | A pause takes effect in the round that sees the flag iff the composition had drifted before it |
| Convergence.DriftIsForgotten | internal/composition/composition.go:245-328 | After an observation that reported drift, the next one reports it iff a digest was recorded and differs from the rendered one, the flag of a pause being still there |
| Convergence.RoundNeedsAWellFormedDefinition | internal/tools/archive/getter.go:173-176 | After a good observation the round succeeds iff the status of the definition is well formed |
| Convergence.NoAnswerNoProgress | internal/composition/composition.go:150-153 | Without an answer of the resolver all four handlers fail (also 394-397, 556-559, 681-684) |
| Limits.FirstCreateIsHonest | internal/composition/composition.go:474-482 | Without a release before the call, success means under any faults that the chart is deployed and described |
| Limits.CreateCanHideAFailedUpgrade | internal/composition/composition.go:465-487 | Whenever there is a release, one stuck upgrade that returns nothing, or anything that can be decoded and listed, makes Create succeed with a release that is not the rendered chart |
| Limits.UnpublishableIsHonest | internal/composition/composition.go:485-507 | If what a failed upgrade returns cannot be decoded or listed, success means under any faults that the chart is deployed and described |
| Limits.CreateIsHonestWithoutARelease | internal/composition/composition.go:460-507 | Success means that for all faults iff there was no release before the call or what a failed upgrade returns cannot be published |
| Limits.CreateIsHonestWhateverIsLeft | internal/composition/composition.go:460-507 | Success means that for all faults and all that a failed upgrade may return iff there was no release before the call |
| Limits.UndisturbedCreateIsHonest | internal/composition/composition.go:460-507 | Success without faults means that iff Helm had no operation pending or what its refusal returns cannot be published |
| Leftovers.DeletesRest | internal/composition/composition.go:691-695 | Once the release is gone, no sequence of deletes, with any faults, changes what is stored |
| Leftovers.RolesOutliveTheRelease | internal/composition/composition.go:687-757 | A run from a new composition: deployed, its delete cut short after the Helm uninstall, any deletes after that; no release is left, all that was inspected is still permitted, and a delete without faults reports success |
| Witnesses.CalmIsPossible | internal/composition/composition.go:109-173 | The assumptions of the convergence theorems can be met |
| Witnesses.IgnoredPause | internal/composition/composition.go:622-637 | A flagged, up-to-date composition that stays active |
| Witnesses.StaleList | internal/composition/support.go:84-91 | A managed list of an earlier release that outlives a create without objects and the round after it |
| Witnesses.ForgottenDigest | internal/composition/composition.go:330-339 | A previous digest that the next observation overwrites |
| Witnesses.RolesLeftBehind | internal/composition/composition.go:691-695 | A successful delete after which a role of the release is still there |
| Witnesses.LoneMalformedDefinition | internal/tools/archive/getter.go:316-317 | A definition that is good for the first observation and refused by what follows |
| Witnesses.ForgottenDrift | internal/composition/composition.go:314-328 | A pause asked for together with a new chart version that a lost update makes ineffective for good |
| Witnesses.SharedRelease | pkg/meta/meta.go:38-51 | Two compositions in different namespaces with different UIDs and one release name |

## Left out

- Real Kubernetes, Helm and HTTP clients: they are a store, a release history and a fault script.
- Helm's own behaviour is left open where it may vary: whether an upgrade that changes nothing makes a revision (the Helm client library is not part of this model; both ways are covered), which revision a rollback restores (any), how many revisions are kept (any number). It refuses to upgrade a release that is missing or pending. Helm never touches RBAC objects or namespaces in the model.
- Rendering, the chart inspector, the pluralizer and the REST mapper are functions of the environment; their bodies, `chartinspector.Validate` and the building of its query are not modelled.
- YAML decoding: a grammar turns the manifest into documents; the decoder reads in arbitrary pieces and reports the end only when the source is exhausted. A document that cannot be decoded is an error.
- RFC 3339: a predicate says which annotation values are readable times; a written time is whatever the clock yields.
- Conditions, events, logs, metrics, traces of request bodies, command-line flags. In particular the paused condition, which is chosen after the status has been written and so never reaches the resource.
- Secrets, credentials, TLS options, and the URL kind tests.
- The static getter, which carries no definition.
- `SumHash` over arbitrary values and `Reset`, which nothing in the core calls.
- Handlers are given the stored composition. A stale copy, rejected by the API server, is a lost write.
- In runs, users edit annotations and labels between handler calls, but not the release-name label, and the work of other controllers comes between handler calls and spares this release's objects; interleaving at single calls is the subject of `workers.dfy`.
- Kubernetes objects carry only what the controller reads or writes: rules, subjects and references, and the labels and annotations of namespaces. Namespace deletion and garbage collection are not modelled.
- Of what the API server refuses, the missing namespace, the changed roleRef, the object that exists already and the missing one are modelled; terminating namespaces, admission, quotas and the check that nobody grants more than they have are not.
- Sharing.FinishedIsPermitted: of installers only, and of one service account for all releases with the same name, as one controller has; an uninstall of a release takes the roles of another with its name.
- A nil and an empty list are one value: `reflect.DeepEqual` on rules and the managed list of an empty manifest do not distinguish them here.
- ApplyWhole: stands for ApplyNamespace, ApplyRoleBinding and ApplyClusterRoleBinding, which differ in the resource they address only, as ApplyRole stands for ApplyClusterRole too; the conversions between typed and unstructured objects cannot fail in it.
- Lifecycle.CreateRecordsTheRelease: for a release that was there before and an upgrade that failed, success says less, because the code does not check the upgrade; the status then describes what the failed call returned.
- Convergence.OneRoundConverges: assumes that the chart's documents decode and have known kinds, that the definition is found with a well-formed status, that the policy is applicable, and that a UID is empty or at least eight characters long; where these fail the handlers return errors by design.
- Safety.OneReleaseName: assumes a composition with a non-empty name, which Kubernetes enforces, and no editing of the release-name label.
