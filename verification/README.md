# Verified models of controller bookkeeping, credentials and document tooling

Dafny models of the parts of this repository that carry real state or transform data, with proofs
about every input, every run or every interleaving. `dafny verify dfyconfig.toml` checks the whole
project.

| module | models |
|---|---|
| `Expectations`, `AtomicCounters`, `ConcurrentExpectations` | what a controller waits for: add/del counters, the UID-tracking wrapper, and both under concurrency |
| `PodOrder` | the two six-level pod comparators |
| `ControllerRefs` | classifying, adopting and releasing pods and ReplicaSets through owner-reference patches |
| `Cloner` | the reflective deep copier over a store of cells |
| `Keyring`, `DockerAuth` | the Docker credential index, its lookup, and the base64 auth field |
| `MungeLines`, `MacroBlocks`, `Analytics`, `TableOfContents`, `Whitespace`, `Preformatted`, `HeaderLines`, `MungePipeline`, `AnalyticsOnDisk`, `GeneratedBlocks`, `Neatness`, `Visit`, `AllMunges` | the markdown munges of mungedocs and the driver that runs them on a file |
| `PodStatus`, `PodResources`, `Sysctls` | pod conditions, resource totals, the sysctl annotation |
| `RetryClient` | the retry loop of the Python HTTP client |
| `Text`, `Collections`, `Options` | splitting and joining; iteration in arbitrary order; values that may be missing |

Loops of the source are methods with loops, proved against specification functions; objects whose
methods update fields are classes. Maps are iterated in an arbitrary order chosen anew each time.
The clock, HTTP responses, URL parsing, host/port splitting, glob matching, lower-casing and label
selectors are parameters about which nothing is assumed.

Some properties one would expect are false of the code. Each has a lemma with the failing input and
the exact condition under which it holds:

- A true answer of `Fulfilled` is not lasting once `RaiseExpectations` is in use
  (`AtomicCounters.TrueAnswersStableIffOnlyLowered`).
- Releasing a pod that carries two owner references with the controller's UID deletes the first of
  them, which may be the wrong one (`ControllerRefs.ReleasedUnlessShadowed`, `ShadowedPodStays`).
- A struct with a field that cannot be set is returned unchanged, so its "copy" shares cells with
  the input (`Cloner.UnsettableFieldIsShared`).
- `updatePreformatted` needs two passes if and only if the document ends with a closing fence
  (`Preformatted.PreformattedConverges`, `LastFenceNeedsTwoPasses`), and `updateTOC` if and only if
  a header stands inside a TOC block (`TableOfContents.TocIdempotentIff`,
  `HeaderInBlockNeedsTwoRuns`).
- In memory `updateAnalytics` is idempotent if and only if its generated lines are absorbed when
  they are removed; for lines without analytics marks, if and only if none is preformatted
  (`Analytics.AnalyticsIdempotentIff`). A file name with a line break and a fence breaks this: in
  memory each run adds lines (`LineBreakNameGrows`), and on a balanced file a second run on what was
  written fails, because the end mark is read back inside the fence (`LineBreakNameFailsOnDisk`).
- For ordinary file names a second run of `updateAnalytics` on what it wrote changes nothing if and
  only if the lines it kept are read back balanced and with nothing to remove
  (`AnalyticsOnDisk.StableOnDiskIff`). Without fences inside analytics blocks this says that the file
  does not end inside a fence (`AnalyticsStableOnDiskIff`). A fence inside an analytics block breaks
  it on a balanced file too (`FencedBlockIsUnstable`).
- When the kept lines are read back ending inside a fence and with nothing to remove, visits by the
  balance check and the analytics munge report an error and append one more block each time, from
  the second visit on (`Visit.FenceGrowsForEver`, `UnclosedFenceGrowsForEver`, `UnclosedFileGrows`).
- A header of bare sharps never verifies: `updateHeaderLines` appends the space that
  `updateWhitespace` trims. After two visits by the line munges a file verifies if and only if it is
  balanced and has no such header (`Visit.VerifiesIff`, `BareHeaderNeverVerifies`). With the TOC and
  analytics munges in their places, and generated blocks that keep apart, such a header counts only
  outside those blocks (`AllMunges.AllVerifyIff`).
- When the analytics marks do not balance, `updateAnalytics` returns a nil document with its error.
  A visit then overwrites the file with one line break if an earlier munge made a change, and with
  later munges that keep lines, only then (`Visit.ErasedIff`, `UnbalancedFileIsErased`).
- Total requests stay within total limits for all quantities of a given shape if and only if every
  container and init container that requests the resource also limits it
  (`PodResources.BoundedIffCovered`, `MissingLimitExceeds`).

## Model

| member | source | states |
|---|---|---|
| Expectations.ControllerExpectations.constructor | k8s-nof-poc/pkg/controller/controller_utils.go:249-252 | a new store has no expectations |
| Expectations.ControllerExpectations.DeleteExpectations | k8s-nof-poc/pkg/controller/controller_utils.go:130-136 | removes exactly the key, present or not |
| Expectations.ControllerExpectations.SatisfiedExpectations | k8s-nof-poc/pkg/controller/controller_utils.go:141-172 | true exactly when the key is absent, both counters are at most 0, or more than five minutes have passed |
| Expectations.ControllerExpectations.SetExpectations | k8s-nof-poc/pkg/controller/controller_utils.go:175-179 | replaces the counters and the timestamp of the key and nothing else |
| Expectations.ControllerExpectations.ExpectCreations | k8s-nof-poc/pkg/controller/controller_utils.go:181-183 | sets add to the count and del to 0 |
| Expectations.ControllerExpectations.ExpectDeletions | k8s-nof-poc/pkg/controller/controller_utils.go:185-187 | sets del to the count and add to 0 |
| Expectations.ControllerExpectations.LowerExpectations | k8s-nof-poc/pkg/controller/controller_utils.go:190-196 | shifts both counters down, keeps the timestamp, ignores unknown keys |
| Expectations.ControllerExpectations.RaiseExpectations | k8s-nof-poc/pkg/controller/controller_utils.go:199-205 | shifts both counters up, keeps the timestamp, ignores unknown keys |
| Expectations.ControllerExpectations.CreationObserved | k8s-nof-poc/pkg/controller/controller_utils.go:208-210 | lowers add by one |
| Expectations.ControllerExpectations.DeletionObserved | k8s-nof-poc/pkg/controller/controller_utils.go:213-215 | lowers del by one |
| Expectations.UidTrackingExpectations.constructor | k8s-nof-poc/pkg/controller/controller_utils.go:344-346 | wraps the given store with no UID sets |
| Expectations.UidTrackingExpectations.ExpectDeletions | k8s-nof-poc/pkg/controller/controller_utils.go:297-313 | stores the set of keys, duplicates dropped, and expects as many deletions as the set has members |
| Expectations.UidTrackingExpectations.DeletionObserved | k8s-nof-poc/pkg/controller/controller_utils.go:316-326 | lowers del and drops the UID exactly when the UID was outstanding, otherwise changes nothing |
| Expectations.UidTrackingExpectations.DeleteExpectations | k8s-nof-poc/pkg/controller/controller_utils.go:330-340 | removes the key from both stores |
| Expectations.UidTrackingExpectations.ExpectCreations | k8s-nof-poc/pkg/controller/controller_utils.go:276-284 | promoted from the inner store: sets add to the count and del to 0, and the UID sets stay as they are |
| Expectations.UidTrackingExpectations.CreationObserved | k8s-nof-poc/pkg/controller/controller_utils.go:276-284 | promoted from the inner store: lowers add by one, and the UID sets stay as they are |
| Expectations.UidTrackingExpectations.SetExpectations | k8s-nof-poc/pkg/controller/controller_utils.go:276-284 | promoted from the inner store: replaces the counters and the timestamp of the key, and the UID sets stay as they are |
| Expectations.DeletionsAreCountedOnce | k8s-nof-poc/pkg/controller/controller_utils.go:296-326 | after ExpectDeletions, in every run of observations in any order with duplicates and unknown UIDs, and with anything happening to other controllers, del is the number of expected UIDs not yet seen, and an unexpired check is false exactly while some remain |
| Expectations.CreationsAreCounted | k8s-nof-poc/pkg/controller/controller_utils.go:181-210 | after ExpectCreations, whatever observations arrive and whatever happens to other keys, add is the expected number less the creations reported, and the controller is due exactly when all were reported or five minutes have passed |
| Expectations.ShiftsAre | k8s-nof-poc/pkg/controller/controller_utils.go:189-205 | over all states, raising and lowering shift add by the first amount and del by the second, and keep the timestamp and the UID sets |
| Expectations.UidSetsBoundDeletions | k8s-nof-poc/pkg/controller/controller_utils.go:270-340 | over every run of the wrapper's operations from empty stores, UID sets exist only where counters exist, del never exceeds the outstanding UIDs, and deletions do not block a controller whose UID set is empty |
| AtomicCounters.TrueAnswerIsStable | k8s-nof-poc/pkg/controller/controller_utils.go:233-242 | in every interleaving of the halves of Add and Fulfilled with only lowering threads, a true answer means both counters are at most 0 from the second load on |
| AtomicCounters.TrueAnswersStableIffOnlyLowered | k8s-nof-poc/pkg/controller/controller_utils.go:86-86 | that guarantee holds for all initial counters and schedules if and only if no thread raises a counter |
| AtomicCounters.FalseAnswerWasWitnessed | k8s-nof-poc/pkg/controller/controller_utils.go:239-242 | a false answer comes from a step of that call that loaded a positive counter |
| AtomicCounters.UpdatesAreNeverLost | k8s-nof-poc/pkg/controller/controller_utils.go:233-236 | in every reachable state each counter is its initial value plus exactly the halves performed so far |
| AtomicCounters.WholeCall | k8s-nof-poc/pkg/controller/controller_utils.go:233-242 | two steps of one thread in a row are a whole Add or a whole Fulfilled, each counter by its own amount |
| ConcurrentExpectations.ExecKeepsInv | k8s-nof-poc/pkg/controller/controller_utils.go:276-340 | mutual exclusion, valid pointers and the bound on del hold in every state of every interleaving, also when a goroutine lowers counters that were replaced meanwhile |
| ConcurrentExpectations.BoundedWheneverUnlocked | k8s-nof-poc/pkg/controller/controller_utils.go:296-340 | in every interleaving, whenever the lock is free, UID sets exist only where counters exist and del is at most the number of outstanding UIDs |
| ConcurrentExpectations.BoundedWhileInFlight | k8s-nof-poc/pkg/controller/controller_utils.go:297-313 | the bound also holds in mid-call, except for the key whose counters ExpectDeletions is about to replace |
| ConcurrentExpectations.ExactWheneverUnlocked | k8s-nof-poc/pkg/controller/controller_utils.go:270-326 | if ExpectCreations does not replace the key's counters, del equals the number of outstanding UIDs whenever the lock is free, in every interleaving |
| ConcurrentExpectations.CountersAreConserved | k8s-nof-poc/pkg/controller/controller_utils.go:207-236 | in every interleaving the add and del of each stored object are what they were less one for each atomic step that lowered them, and its timestamp stays |
| ConcurrentExpectations.AloneIsSequential | k8s-nof-poc/pkg/controller/controller_utils.go:174-340 | a call that no other call interrupts does what the sequential operation does to both stores |
| ConcurrentExpectations.StoreStaysInjective | k8s-nof-poc/pkg/controller/controller_utils.go:174-179 | in every interleaving no two keys share an object |
| PodOrder.PodReadyTime | k8s-nof-poc/pkg/controller/controller_utils.go:714-724 | the transition time of the first true Ready condition of a ready pod, else the zero time |
| PodOrder.MaxContainerRestarts | k8s-nof-poc/pkg/controller/controller_utils.go:726-732 | the largest restart count, at least 0 |
| PodOrder.ActiveIsLexicographic | k8s-nof-poc/pkg/controller/controller_utils.go:671-703 | ActivePods.Less is the lexicographic order of an eight-part key in which the zero time is latest |
| PodOrder.LoggingIsLexicographic | k8s-nof-poc/pkg/controller/controller_utils.go:634-663 | ByLogging.Less is the lexicographic order of its own key |
| PodOrder.ComparatorsAreLegal | k8s-nof-poc/pkg/controller/controller_utils.go:628-712 | both comparators are strict weak orders over all pods, with unlisted phases and zero times |
| PodOrder.TiedIffSameKey | k8s-nof-poc/pkg/controller/controller_utils.go:634-703 | two pods are tied in either order exactly when their keys agree in every part |
| PodOrder.OppositeIff | k8s-nof-poc/pkg/controller/controller_utils.go:634-703 | on listed phases the two orders are reverses of each other if and only if restart counts do not decide |
| PodOrder.UnlistedPhaseIsFirstInBoth | k8s-nof-poc/pkg/controller/controller_utils.go:640-680 | a phase outside the maps comes before Unknown in both orders |
| PodOrder.UnassignedDecides | k8s-nof-poc/pkg/controller/controller_utils.go:635-676 | if one of two pods has no node, it is first to be deleted and last for logs, whatever else they are |
| PodOrder.PhaseDecides | k8s-nof-poc/pkg/controller/controller_utils.go:639-681 | with equal assignment, Pending is deleted before Unknown before Running, and logs are read in the reverse order |
| PodOrder.ReadinessDecides | k8s-nof-poc/pkg/controller/controller_utils.go:644-686 | then the pod that is not ready is deleted first and is last for logs |
| PodOrder.ReadinessIs | k8s-nof-poc/pkg/controller/controller_utils.go:644-686 | a pod is ready exactly when its first Ready condition has the status True |
| PodOrder.ReadyTimeDecides | k8s-nof-poc/pkg/controller/controller_utils.go:650-693 | then, of two ready pods, the one that became ready later, or at the zero time, is deleted first and is last for logs |
| PodOrder.RestartsDecide | k8s-nof-poc/pkg/controller/controller_utils.go:654-697 | then the pod with more restarts is first in both orders |
| PodOrder.CreationDecides | k8s-nof-poc/pkg/controller/controller_utils.go:658-703 | then the younger pod, or the one without a creation time, is deleted first and is last for logs; pods alike in all of this are tied |
| ControllerRefs.GetControllerOf | k8s-nof-poc/pkg/controller/controller_ref_manager.go:96-105 | the first reference whose controller flag is set and true, or none |
| ControllerRefs.Classify | k8s-nof-poc/pkg/controller/controller_ref_manager.go:58-92 | the three lists are the objects of each class in input order; inactive pods and foreign-owned objects are in none |
| ControllerRefs.ClassByReferences | k8s-nof-poc/pkg/controller/controller_ref_manager.go:58-105 | the class of an object from its references, labels, phase and deletion mark alone: ended and deleted pods are ignored, and otherwise the first controlling reference decides, then the selector |
| ControllerRefs.ListedIff | k8s-nof-poc/pkg/controller/controller_ref_manager.go:58-92 | a list holds the objects of its class and no others, as often and in the order they are given |
| ControllerRefs.ForeignIsUntouched | k8s-nof-poc/pkg/controller/controller_ref_manager.go:70-83 | an object whose first controlling reference has another UID is in none of the lists, and a sync leaves it as it is |
| ControllerRefs.IgnoredIsUntouched | k8s-nof-poc/pkg/controller/controller_ref_manager.go:58-92 | an object that the list shows as ignored under its present UID is left as it is by a sync, however stale the rest of the list |
| ControllerRefs.SyncWrites | k8s-nof-poc/pkg/controller/controller_ref_manager.go:109-128 | adopting adds the controller's own reference with the controller flag, releasing deletes by the controller's UID, and nothing else is written |
| ControllerRefs.MergedAt | k8s-nof-poc/pkg/util/strategicpatch/patch.go:690-719 | an added reference takes the place of the first one with its UID, or stands at the end |
| ControllerRefs.DeletedAt | k8s-nof-poc/pkg/util/strategicpatch/patch.go:656-667 | deleting removes the first reference with the UID, or nothing |
| ControllerRefs.Server.Apply | k8s-nof-poc/pkg/util/strategicpatch/patch.go:626-722 | a patch merges into or deletes the first reference with the UID, appends a new one, and does nothing to an object with another UID |
| ControllerRefs.Adopt | k8s-nof-poc/pkg/controller/controller_ref_manager.go:109-120 | refuses while the controller is being deleted, otherwise sends the adding patch |
| ControllerRefs.Release | k8s-nof-poc/pkg/controller/controller_ref_manager.go:124-147 | sends the deleting patch and ignores not-found and invalid errors |
| ControllerRefs.Reconcile | k8s-nof-poc/pkg/controller/controller_ref_manager.go:50-147 | from any list of objects, stale and repeated ones included, adopts the second list and then releases the third, patch by patch |
| ControllerRefs.SyncTouchesOnlyNamed | k8s-nof-poc/pkg/controller/controller_ref_manager.go:109-147 | however stale the list, a sync changes nothing but owner references, and only of objects that the list names with the UID they have on the server |
| ControllerRefs.SyncedObjects | k8s-nof-poc/pkg/controller/controller_ref_manager.go:50-147 | from distinct objects as the server has them, a sync changes each listed object as specified and no other object |
| ControllerRefs.AdoptedIsOurs | k8s-nof-poc/pkg/util/strategicpatch/patch.go:690-719 | merging a controlling reference into references without a controller makes it the controller |
| ControllerRefs.ReleasedUnlessShadowed | k8s-nof-poc/pkg/util/strategicpatch/patch.go:656-667 | deleting the first reference with our UID leaves us in control if and only if a controlling reference of ours is preceded by another reference with our UID and by no foreign controller |
| ControllerRefs.DistinctOwnersAreNotShadowed | k8s-nof-poc/pkg/controller/controller_ref_manager.go:122-147 | owner references with distinct UIDs are never shadowed, so their release takes effect |
| ControllerRefs.ReconciledClass | k8s-nof-poc/pkg/controller/controller_ref_manager.go:58-147 | the class of every object after a sync, with refused patches and a controller being deleted |
| ControllerRefs.SyncReachesFixedPoint | k8s-nof-poc/pkg/controller/controller_ref_manager.go:58-147 | re-classifying after a sync finds the last two lists empty if and only if every needed patch was possible and no reference was shadowed; the first list is the old first and adopted second in input order; ignored objects are untouched |
| ControllerRefs.ServerReachesFixedPoint | k8s-nof-poc/pkg/controller/controller_ref_manager.go:58-147 | on the server: listing and classifying the objects again after a sync finds nothing to do if and only if every needed patch was possible and no reference was shadowed, with the first list in order |
| ControllerRefs.ShadowedPodStays | k8s-nof-poc/pkg/controller/controller_ref_manager.go:181-247 | an object with one controlling reference of ours behind a plain one stays ours after its release |
| Cloner.Heap.DeepCopy | k8s-nof-poc/pkg/conversion/cloner.go:137-157 | errs exactly when a refused kind is met; otherwise the copy unfolds to the same tree, reaches an old cell exactly when a shallow struct keeps it, and no old cell is changed |
| Cloner.Heap.CopyBytes | k8s-nof-poc/pkg/conversion/cloner.go:45-53 | the same for a pointer to a byte slice, nil or not |
| Cloner.Heap.CopyArray | k8s-nof-poc/pkg/conversion/cloner.go:175-184 | the same for arrays, element by element |
| Cloner.Heap.CopyInterface | k8s-nof-poc/pkg/conversion/cloner.go:185-189 | the same for interfaces: the copied element is stored as an interface again |
| Cloner.Heap.CopyMap | k8s-nof-poc/pkg/conversion/cloner.go:190-202 | the same for maps, filled in any key order |
| Cloner.Heap.CopyPtr | k8s-nof-poc/pkg/conversion/cloner.go:203-213 | the same for pointers |
| Cloner.Heap.CopySlice | k8s-nof-poc/pkg/conversion/cloner.go:214-226 | the same for slices, which may be windows on shared backing arrays |
| Cloner.Heap.CopyStruct | k8s-nof-poc/pkg/conversion/cloner.go:227-243 | the same for structs, with the shallow return at the first field that cannot be set |
| Cloner.Frame | k8s-nof-poc/pkg/conversion/cloner.go:171-249 | what a value unfolds to, reaches and keeps depends only on the cells it reaches |
| Cloner.UnfoldingIsUnique | k8s-nof-poc/pkg/conversion/cloner.go:120-135 | a value has one unfolding, so equal unfoldings are structural equality |
| Cloner.UnfoldsByKind | k8s-nof-poc/pkg/conversion/cloner.go:171-249 | what a value unfolds to, kind by kind, in both directions: a pointer to its pointee, a slice to the elements of its window, a map to its entries, an interface to its element, a struct to its fields |
| Cloner.RefusedIffUncopyable | k8s-nof-poc/pkg/conversion/cloner.go:172-174 | with only settable fields, the copier errs exactly when a chan, func, unsafe pointer or uintptr is reachable |
| Cloner.WritesToTheInputDoNotShow | k8s-nof-poc/pkg/conversion/cloner.go:137-157 | with only settable fields the copy shares no cell with the input, and any later overwriting of the input's cells leaves it unchanged |
| Cloner.UnsettableFieldIsShared | k8s-nof-poc/pkg/conversion/cloner.go:230-236 | whatever the copier returns for a struct with a pointer in a private field, a later write to the input's cell shows in it |
| Keyring.SchemeIsOptional | k8s-nof-poc/pkg/credentialprovider/keyring.go:91-95 | a location means the same with and without https:// |
| Keyring.VersionPathIsDropped | k8s-nof-poc/pkg/credentialprovider/keyring.go:101-116 | /v1/ and /v2/ are dropped from a location's path, and alone mean the host |
| Keyring.KeyIs | k8s-nof-poc/pkg/credentialprovider/keyring.go:91-116 | other locations: no key when the URL does not parse, the host alone for an empty path or a slash, and the host with the path otherwise |
| Keyring.SortDescending | k8s-nof-poc/pkg/credentialprovider/keyring.go:121-128 | the index is strictly descending and has exactly the given elements |
| Keyring.DescendingIsUnique | k8s-nof-poc/pkg/credentialprovider/keyring.go:121-128 | a strictly descending list is determined by its elements |
| Keyring.LessIff | k8s-nof-poc/pkg/credentialprovider/keyring.go:128-128 | the order of the index: a string is less exactly when it is a proper prefix or has the smaller character at the first difference |
| Keyring.BasicDockerKeyring.constructor | k8s-nof-poc/pkg/credentialprovider/keyring.go:45-49 | a new keyring has no credentials |
| Keyring.BasicDockerKeyring.Add | k8s-nof-poc/pkg/credentialprovider/keyring.go:75-129 | after visiting the entries in some order the index is strictly descending, lists exactly the keys of the credential map, and no credential list is empty |
| Keyring.CredentialCount | k8s-nof-poc/pkg/credentialprovider/keyring.go:80-119 | how often a credential ends up under a key is the old count plus the number of locations that map to it |
| Keyring.CredentialsAreAppended | k8s-nof-poc/pkg/credentialprovider/keyring.go:117-117 | the credentials that stood under a key stay in front, and those of later entries come behind those of earlier ones |
| Keyring.IterationOrderDoesNotMatter | k8s-nof-poc/pkg/credentialprovider/keyring.go:34-43 | for every sequence of Add calls and any two choices of map iteration orders, the index is the same and each key has the same multiset of credentials |
| Keyring.UrlsMatchLoop | k8s-nof-poc/pkg/credentialprovider/keyring.go:206-234 | matches when ports, number of host parts, path prefix and every part agree; the first part that errs or differs decides |
| Keyring.UrlsMatchIff | k8s-nof-poc/pkg/credentialprovider/keyring.go:176-234 | a pattern matches exactly when the ports are equal, the names have equally many parts, the pattern's path is a prefix of the target's and every part matches at its position; it errs exactly when, with the rest in order, a malformed part is met before one that differs |
| Keyring.MatchesIff | k8s-nof-poc/pkg/credentialprovider/keyring.go:165-196 | a key matches an image exactly when both parse as https URLs and those match, so errors match nothing |
| Keyring.DefaultRegistryIff | k8s-nof-poc/pkg/credentialprovider/keyring.go:139-161 | the default registry rule by characters: a non-empty name without a slash, a first part that names the registry, or one with neither dot nor colon |
| Keyring.MatchExtends | k8s-nof-poc/pkg/credentialprovider/keyring.go:217-220 | a pattern that matches a URL matches every URL of the same host with a longer path |
| Keyring.BasicDockerKeyring.LookupLoop | k8s-nof-poc/pkg/credentialprovider/keyring.go:239-264 | returns the credentials of the matching keys in index order, else those of the default registry when it applies |
| Keyring.LookupResult | k8s-nof-poc/pkg/credentialprovider/keyring.go:239-264 | the default registry is consulted exactly when no key matches; otherwise the result holds exactly the credentials of the matching keys |
| Keyring.OneEntryLookup | k8s-nof-poc/pkg/credentialprovider/keyring.go:80-119 | a keyring filled from one entry gives matching images its user, password and address, or its provider when it has one, and other images nothing outside the default registry |
| Keyring.MoreSpecificFirst | k8s-nof-poc/pkg/credentialprovider/keyring.go:124-128 | a key stands before each of its proper prefixes |
| Keyring.SpecificCredentialsFirst | k8s-nof-poc/pkg/credentialprovider/keyring.go:124-128 | the credentials of a matching key come before those of each matching proper prefix |
| Keyring.LookupIsPredictable | k8s-nof-poc/pkg/credentialprovider/keyring.go:239-254 | two keyrings filled by the same Add calls, whatever the iteration orders were, find the same multiset of credentials and agree on whether any were found |
| Keyring.LazyLookup | k8s-nof-poc/pkg/credentialprovider/keyring.go:268-276 | a lazy keyring answers as a fresh keyring filled from the providers in turn |
| DockerAuth.FullGroup | k8s-nof-poc/pkg/credentialprovider/config.go:291-295 | section 4 of RFC 4648: the k-th full group of three bytes becomes the four base-64 digits of its 24-bit number |
| DockerAuth.PaddedGroup | k8s-nof-poc/pkg/credentialprovider/config.go:291-295 | a last group of one or two bytes is padded with zero bits and equals signs |
| DockerAuth.EncodedLength | k8s-nof-poc/pkg/credentialprovider/config.go:291-295 | four characters for every three bytes begun |
| DockerAuth.Alphabet | k8s-nof-poc/pkg/credentialprovider/config.go:291-295 | table 1 of RFC 4648: the 64 digits in order, and nothing else is a digit |
| DockerAuth.DecodesIff | k8s-nof-poc/pkg/credentialprovider/config.go:273-277 | a text without line breaks decodes exactly when its length is a multiple of four and it is digits with at most two equals signs at the end |
| DockerAuth.BreaksAreSkipped | k8s-nof-poc/pkg/credentialprovider/config.go:273-277 | line breaks are skipped wherever they stand |
| DockerAuth.Base64RoundTrip | k8s-nof-poc/pkg/credentialprovider/config.go:273-295 | decoding inverts encoding on every byte string |
| DockerAuth.AuthRoundTrip | k8s-nof-poc/pkg/credentialprovider/config.go:271-295 | decode of encode gives the user name and password back if and only if the user name has no colon |
| DockerAuth.DecodedIsNormal | k8s-nof-poc/pkg/credentialprovider/config.go:271-295 | what a field decodes to survives being encoded and decoded again |
| DockerAuth.EntryReads | k8s-nof-poc/pkg/credentialprovider/config.go:245-262 | without an auth field the written user name, password and address are read; with one, those in it, or nothing when it does not decode |
| DockerAuth.EntryRoundTrip | k8s-nof-poc/pkg/credentialprovider/config.go:245-269 | a configuration entry survives marshalling if and only if its user name has no colon, and its own fields are written beside the auth field |
| MungeLines.GetMungeLines | k8s-nof-poc/cmd/mungedocs/util.go:248-270 | splits a document into lines and flags them by the fence automaton |
| MungeLines.FlagLinesIsFlagged | k8s-nof-poc/cmd/mungedocs/util.go:253-268 | every line carries the flags its text and the flag before it call for, and no line is lost |
| MungeLines.ParsedLine | k8s-nof-poc/cmd/mungedocs/util.go:255-268 | a line is flagged exactly when the one before is and it is no fence, or the one before is not and it is a fence that does not close on the same line |
| MungeLines.FenceIff | k8s-nof-poc/cmd/mungedocs/util.go:211-211 | a fence is three ticks behind blanks |
| MungeLines.InlineFenceIff | k8s-nof-poc/cmd/mungedocs/util.go:212-212 | an inline fence is three ticks behind blanks and three more behind them on the same line |
| MungeLines.HasLinkIff | k8s-nof-poc/cmd/mungedocs/util.go:216-216 | a link is a text in brackets with a target in parentheses directly behind it |
| MungeLines.NewLineIs | k8s-nof-poc/cmd/mungedocs/util.go:224-232 | the flags of a new line: a sharp at its start, a link, and the openings of the two marks |
| MungeLines.PrintParse | k8s-nof-poc/cmd/mungedocs/util.go:195-270 | writing what was read gives the text back, with a line break at its end if there was none |
| MungeLines.ParsePrint | k8s-nof-poc/cmd/mungedocs/util.go:195-270 | writing flagged lines out and reading them back gives the same lines and flags, exactly when there are any |
| MungeLines.Reread | k8s-nof-poc/cmd/mungedocs/util.go:195-270 | whatever the flags, the texts are read back, and the lines are if and only if they carry the flags the parser gives them |
| MacroBlocks.UpdateMacroBlock | k8s-nof-poc/cmd/mungedocs/util.go:33-67 | replaces the text of every block of the token, or fails on marks that do not balance |
| MacroBlocks.RemoveMacroBlock | k8s-nof-poc/cmd/mungedocs/util.go:81-112 | drops every block of the token except its preformatted lines, or fails |
| MacroBlocks.MarksByText | k8s-nof-poc/cmd/mungedocs/util.go:162-170 | a line is a mark of a token exactly when it has the mark's text |
| MacroBlocks.UpdateByBlocks | k8s-nof-poc/cmd/mungedocs/util.go:38-66 | text without marks stays; in the first block what stood between the marks is replaced, and the rest is updated in the same way |
| MacroBlocks.UpdateFails | k8s-nof-poc/cmd/mungedocs/util.go:45-65 | an end mark outside a block, a begin mark inside one and a block that is not closed fail |
| MacroBlocks.RemoveByBlocks | k8s-nof-poc/cmd/mungedocs/util.go:86-111 | text without marks stays; of the first block only the preformatted lines stay, and the rest is treated in the same way |
| MacroBlocks.RemoveFails | k8s-nof-poc/cmd/mungedocs/util.go:92-110 | removal fails on the same three faults |
| MacroBlocks.ClosesByBlocks | k8s-nof-poc/cmd/mungedocs/util.go:38-62 | a document without active marks closes no block, and one with a whole block closes one |
| MacroBlocks.LastWriteWins | k8s-nof-poc/cmd/mungedocs/util.go:28-67 | updating with a and then b is updating with b, success included, when a has no marks of the token |
| MacroBlocks.LastWriteWinsIff | k8s-nof-poc/cmd/mungedocs/util.go:28-67 | on a document with a block this holds if and only if a has no marks of the token |
| Analytics.UpdateAnalytics | k8s-nof-poc/cmd/mungedocs/analytics.go:27-58 | removes, strips, appends and updates as specified; without a relative path it returns the input, and after a failing removal a nil document, each with an error |
| Analytics.AnalyticsOutput | k8s-nof-poc/cmd/mungedocs/analytics.go:36-57 | the output is the document without analytics blocks and floating links, in order, and one generated block; it fails exactly when removal does |
| Analytics.OutputReads | k8s-nof-poc/cmd/mungedocs/analytics.go:52-57 | the output line by line: the kept lines, a blank line unless there is one, the begin mark, the generated lines and the end mark |
| Analytics.StripsLinks | k8s-nof-poc/cmd/mungedocs/analytics.go:42-51 | a line is dropped exactly when it is unflagged and starts with the link text |
| Analytics.LinkLineReads | k8s-nof-poc/cmd/mungedocs/analytics.go:25-35 | the generated line of a file whose name has no line break |
| Analytics.AnalyticsIdempotentIff | k8s-nof-poc/cmd/mungedocs/analytics.go:27-58 | a second run in memory changes nothing if and only if no generated line is preformatted, their marks alternate and what stands outside them is a floating link; without marks, if and only if none is preformatted |
| Analytics.AnalyticsIdempotent | k8s-nof-poc/cmd/mungedocs/analytics.go:27-58 | so it is for every file name without a line break |
| Analytics.PreformattedInsertGrows | k8s-nof-poc/cmd/mungedocs/util.go:87-90 | a generated line that parses as preformatted makes every run in memory succeed and add lines |
| Analytics.LineBreakNameGrows | k8s-nof-poc/cmd/mungedocs/analytics.go:34-35 | for a markdown file name with a line break and a fence, on every document, each run in memory adds lines |
| Analytics.AnalyticsReadsBack | k8s-nof-poc/cmd/mungedocs/mungedocs.go:93-149 | what a run writes is read back as the same lines if and only if the kept lines carry their flags and neither they nor the generated lines end inside a fence; without fences in analytics blocks this is the balance of the document |
| Analytics.FenceByBlocks | k8s-nof-poc/cmd/mungedocs/util.go:86-107 | a fence is in an analytics block exactly when the first block has a preformatted line or the rest of the document has a fence in one |
| AnalyticsOnDisk.RereadOutput | k8s-nof-poc/cmd/mungedocs/mungedocs.go:93-149 | how what a run writes is read back: the kept texts with the flags the parser gives them, and the appended lines inside the fence if the kept lines end in one |
| AnalyticsOnDisk.RemovalShrinks | k8s-nof-poc/cmd/mungedocs/util.go:81-112 | a removal that meets marks drops at least two lines |
| AnalyticsOnDisk.FirstDrop | k8s-nof-poc/cmd/mungedocs/analytics.go:36-51 | when the document ends inside a fence, either nothing is dropped or the kept texts differ from the originals at some line |
| AnalyticsOnDisk.StableOnDiskIff | k8s-nof-poc/cmd/mungedocs/mungedocs.go:93-149 | for every file and ordinary name, a second run on the written file changes nothing if and only if the kept lines are read back balanced and with nothing to remove |
| AnalyticsOnDisk.UnbalancedAppends | k8s-nof-poc/cmd/mungedocs/analytics.go:52-57 | if they are read back ending inside a fence and with nothing to remove, the second run appends a second block |
| AnalyticsOnDisk.FencelessReadsBack | k8s-nof-poc/cmd/mungedocs/util.go:87-90 | without a fence inside an analytics block the kept lines are read back as they were, with nothing to remove, and balanced exactly when the file is |
| AnalyticsOnDisk.AnalyticsStableOnDiskIff | k8s-nof-poc/cmd/mungedocs/mungedocs.go:93-149 | so for such files a second run changes nothing if and only if the file does not end inside a fence; otherwise it appends a second block |
| AnalyticsOnDisk.FencedBlockIsUnstable | k8s-nof-poc/cmd/mungedocs/util.go:87-90 | a balanced file with a fence inside its analytics block, which a second run changes |
| Analytics.UnbalancedInsertFailsOnDisk | k8s-nof-poc/cmd/mungedocs/util.go:106-108 | generated lines that end inside a fence make a second run on the written file fail |
| Analytics.LineBreakNameFailsOnDisk | k8s-nof-poc/cmd/mungedocs/analytics.go:34-39 | so it is for the file name with a line break and a fence |
| TableOfContents.BuildTOC | k8s-nof-poc/cmd/mungedocs/toc.go:52-89 | lists the headers outside preformatted text between two blank lines, or nothing |
| TableOfContents.EntryAt | k8s-nof-poc/cmd/mungedocs/toc.go:64-81 | the i-th header gets the i-th entry, its anchor numbered by the earlier headers with the same bookmark |
| TableOfContents.BookmarksAreClean | k8s-nof-poc/cmd/mungedocs/toc.go:70-72 | anchors hold only letters, digits and dashes |
| TableOfContents.BookmarkStep | k8s-nof-poc/cmd/mungedocs/toc.go:70-72 | the anchor character by character: lower case, spaces become dashes, letters, digits and dashes stay, the rest is dropped |
| TableOfContents.EntryReads | k8s-nof-poc/cmd/mungedocs/toc.go:64-80 | the entry of a header: two spaces for each level below the first, the title without sharps and padding, and its anchor, numbered from the second use on |
| TableOfContents.DecimalIs | k8s-nof-poc/cmd/mungedocs/toc.go:76-78 | repeated anchors are numbered in decimal without leading zeros |
| TableOfContents.TocReads | k8s-nof-poc/cmd/mungedocs/toc.go:52-89 | the list has the headers outside preformatted text in order, framed by blank lines, and none for a document without them |
| TableOfContents.TocIsInert | k8s-nof-poc/cmd/mungedocs/toc.go:79-87 | generated lines are never headers or marks |
| TableOfContents.UpdateTOC | k8s-nof-poc/cmd/mungedocs/toc.go:36-43 | writes the list into every TOC block |
| TableOfContents.TocConverges | k8s-nof-poc/cmd/mungedocs/toc.go:36-89 | from the second application on nothing changes, on every document where it succeeds |
| TableOfContents.TocIdempotentIff | k8s-nof-poc/cmd/mungedocs/toc.go:36-89 | the second application changes nothing if and only if no header stands inside a TOC block |
| TableOfContents.HeaderInBlockNeedsTwoRuns | k8s-nof-poc/cmd/mungedocs/toc.go:36-89 | a file with a header line in a TOC block, on which the second application differs from the first |
| TableOfContents.TocOnDisk | k8s-nof-poc/cmd/mungedocs/mungedocs.go:93-149 | what the munge writes is read back as the same lines if and only if no TOC block ends inside a fence opened in it |
| TableOfContents.TocConvergesOnDisk | k8s-nof-poc/cmd/mungedocs/mungedocs.go:93-149 | on such files the second run on the written file writes what further runs leave alone, and the first does if and only if no header stands inside a TOC block |
| Preformatted.UpdatePreformattedLoop | k8s-nof-poc/cmd/mungedocs/preformatted.go:23-43 | adds blank lines where the specification says |
| Preformatted.BlocksAreSurrounded | k8s-nof-poc/cmd/mungedocs/preformatted.go:21-43 | every opening is preceded and every closing fence followed by a blank line |
| Preformatted.PreformattedConverges | k8s-nof-poc/cmd/mungedocs/preformatted.go:23-43 | a second pass changes nothing if and only if the last line does not close a block; a third never does |
| Preformatted.LastFenceNeedsTwoPasses | k8s-nof-poc/cmd/mungedocs/preformatted.go:36-39 | a file that ends with a closing fence, on which the second pass differs from the first |
| Preformatted.PreformattedKeepsLines | k8s-nof-poc/cmd/mungedocs/preformatted.go:23-43 | the non-blank lines and their flags are the input's |
| Preformatted.PreformattedOnDisk | k8s-nof-poc/cmd/mungedocs/mungedocs.go:93-149 | writing the result and reading it back yields the same flagged lines |
| Whitespace.UpdateWhitespaceLoop | k8s-nof-poc/cmd/mungedocs/whitespace.go:20-31 | trims every line outside preformatted text and copies the others |
| Whitespace.UnicodeSpaces | k8s-nof-poc/cmd/mungedocs/util.go:234-236 | the characters that are trimmed |
| Whitespace.TrimKeepsFences | k8s-nof-poc/cmd/mungedocs/util.go:211-236 | trimming neither makes nor breaks a fence, so it changes no flag |
| Whitespace.TrimmedIsFlagged | k8s-nof-poc/cmd/mungedocs/mungedocs.go:93-149 | the trimmed lines carry the flags the parser gives them, the same as before |
| Whitespace.WhitespaceIdempotent | k8s-nof-poc/cmd/mungedocs/whitespace.go:20-31 | a second pass changes nothing |
| Whitespace.FixedIsTrimmedIff | k8s-nof-poc/cmd/mungedocs/headers.go:46-48 | the header munge leaves a trimmed header trimmed if and only if it is not bare sharps |
| Whitespace.BareTextIff | k8s-nof-poc/cmd/mungedocs/headers.go:24-24 | a bare header is at least one sharp with nothing but white space behind |
| HeaderLines.FixHeaderLine | k8s-nof-poc/cmd/mungedocs/headers.go:26-56 | the lines a header contributes, given the output so far |
| HeaderLines.UpdateHeaderLines | k8s-nof-poc/cmd/mungedocs/headers.go:59-74 | rewrites header lines and copies all others |
| HeaderLines.OnlySpacingChanges | k8s-nof-poc/cmd/mungedocs/headers.go:24-47 | a header line is its sharps, white space and its title; only the white space is rewritten |
| HeaderLines.FixedReads | k8s-nof-poc/cmd/mungedocs/headers.go:24-47 | a header is sharps, blanks and a title on the same line, and is rewritten with one space |
| HeaderLines.NormalizedLine | k8s-nof-poc/cmd/mungedocs/headers.go:61-71 | only headers outside preformatted text are rewritten |
| HeaderLines.HeadersAreTidy | k8s-nof-poc/cmd/mungedocs/headers.go:38-55 | every header outside preformatted text has one space after its sharps and a blank line on each side, except at the document's ends |
| HeaderLines.HeadersIdempotent | k8s-nof-poc/cmd/mungedocs/headers.go:59-74 | a second pass changes nothing |
| HeaderLines.HeadersKeepLines | k8s-nof-poc/cmd/mungedocs/headers.go:59-74 | the non-blank lines are the input's, headers normalized |
| HeaderLines.HeadersOnDisk | k8s-nof-poc/cmd/mungedocs/mungedocs.go:93-149 | writing the result and reading it back yields the same flagged lines |
| MungePipeline.HeadersKeepSurrounded | k8s-nof-poc/cmd/mungedocs/mungedocs.go:61-62 | the header munge keeps every preformatted block surrounded by blank lines |
| MungePipeline.SecondRunIsStable | k8s-nof-poc/cmd/mungedocs/mungedocs.go:61-62 | after two runs of both blank-line munges neither changes anything |
| MungePipeline.TwoRunsSuffice | k8s-nof-poc/cmd/mungedocs/mungedocs.go:61-62 | two runs of both reach a document that further runs of both leave alone |
| MungePipeline.RunKeepsBare | k8s-nof-poc/cmd/mungedocs/mungedocs.go:58-62 | no run of trimming and the blank-line munges makes or removes a header of bare sharps |
| MungePipeline.RunIsTrimmed | k8s-nof-poc/cmd/mungedocs/mungedocs.go:58-62 | without such headers, what a run makes is trimmed |
| MungePipeline.TwoRunsAreStable | k8s-nof-poc/cmd/mungedocs/mungedocs.go:58-62 | without such headers, after two runs none of the three munges changes anything |
| MungePipeline.BareIsChanged | k8s-nof-poc/cmd/mungedocs/mungedocs.go:58-62 | with such a header every run changes some text |
| Visit.VisitLoop | k8s-nof-poc/cmd/mungedocs/mungedocs.go:93-149 | passes over files that are not markdown, reports read errors, runs the munges in turn and decides what is reported and written |
| Visit.IsMarkdownIff | k8s-nof-poc/cmd/mungedocs/mungedocs.go:94-96 | only files whose name ends in .md are read |
| Visit.MungesReport | k8s-nof-poc/cmd/mungedocs/toc.go:36-43 | a failing table of contents leaves the document, a failing analytics munge empties it, and the balance check reports exactly the documents that end flagged |
| Visit.VisitReports | k8s-nof-poc/cmd/mungedocs/mungedocs.go:105-148 | a visit writes exactly when some munge changed a line without failing, and is in order exactly when no munge failed and, when verifying, nothing is to be written |
| Visit.VerifyAgreesWithVisit | k8s-nof-poc/cmd/mungedocs/mungedocs.go:136-149 | verify mode never writes and succeeds exactly when an ordinary visit would neither write nor fail, with every line unchanged |
| Visit.VerifiedStays | k8s-nof-poc/cmd/mungedocs/mungedocs.go:136-149 | a file that verifies is left alone by every number of visits |
| Visit.VisitReadsBack | k8s-nof-poc/cmd/mungedocs/mungedocs.go:93-149 | after a visit by munges whose results keep the parser's flags and that change nothing when they fail, the file reads as the document they made |
| Visit.TwoVisitsVerify | k8s-nof-poc/cmd/mungedocs/mungedocs.go:108-149 | when only the two blank-line munges run, every file verifies after two or more visits |
| Visit.VerifiesIff | k8s-nof-poc/cmd/mungedocs/mungedocs.go:54-149 | with the balance check and trimming before them, a file verifies after two or more visits if and only if it is balanced and has no header of bare sharps; with such a header it never verifies |
| Visit.BareHeaderNeverVerifies | k8s-nof-poc/cmd/mungedocs/headers.go:46-48 | a file with one bare sharp, which no number of visits makes verify |
| Visit.ErasedIff | k8s-nof-poc/cmd/mungedocs/analytics.go:36-39 | whatever munges run before it, and whatever munges that leave an empty document empty run after it, the file is overwritten with one line break when one before changed the document and the analytics marks do not balance; with later munges that keep two or more lines, in no other case |
| Visit.LineMungesAreMild | k8s-nof-poc/cmd/mungedocs/mungedocs.go:56-62 | the balance check, trimming and the blank-line munges leave an empty document empty and keep two or more lines |
| Visit.FailingTocKeepsText | k8s-nof-poc/cmd/mungedocs/toc.go:38-42 | whatever munges run before and after it, a failing TOC munge changes only that the visit reports an error |
| Visit.UnbalancedFileIsErased | k8s-nof-poc/cmd/mungedocs/mungedocs.go:133-143 | a header without its space and a stray end mark make such a file |
| Visit.FenceGrowsForEver | k8s-nof-poc/cmd/mungedocs/mungedocs.go:108-143 | a file whose kept lines are read back ending inside a fence and with nothing to remove: from the second visit on, every visit by the balance check and the analytics munge reports an error and appends one more analytics block |
| Visit.UnclosedFenceGrowsForEver | k8s-nof-poc/cmd/mungedocs/mungedocs.go:108-143 | so it is for a file that ends inside a fence and has none inside its analytics blocks |
| Visit.UnclosedFileGrows | k8s-nof-poc/cmd/mungedocs/preformatted.go:46-51 | a file with one opening fence, which grows so |
| GeneratedBlocks.TocZones | k8s-nof-poc/cmd/mungedocs/util.go:33-67 | the TOC munge succeeds where generated blocks keep apart, leaves them apart, and leaves no header in a TOC block |
| GeneratedBlocks.OrderlyByBlocks | k8s-nof-poc/cmd/mungedocs/util.go:33-112 | which documents keep their generated blocks apart: text without active marks, and blocks of plain lines followed by such a document |
| GeneratedBlocks.KeptZones | k8s-nof-poc/cmd/mungedocs/analytics.go:36-51 | removing analytics blocks and floating links succeeds there and leaves the TOC blocks as they are |
| Neatness.NeatIff | k8s-nof-poc/cmd/mungedocs/mungedocs.go:61-62 | checking blank lines line by line agrees with headers being tidy and preformatted blocks spaced |
| Neatness.TocIsNeat | k8s-nof-poc/cmd/mungedocs/toc.go:36-43 | writing TOC blocks keeps the blank lines around headers and preformatted blocks |
| Neatness.KeptIsNeat | k8s-nof-poc/cmd/mungedocs/analytics.go:36-51 | so does removing analytics blocks and floating links |
| AllMunges.RunOnReady | k8s-nof-poc/cmd/mungedocs/mungedocs.go:54-66 | a run of all six munges succeeds where generated blocks keep apart; on a balanced document its output is trimmed up to bare headers, neat, and ends with the one analytics block |
| AllMunges.SecondRunSettles | k8s-nof-poc/cmd/mungedocs/mungedocs.go:54-66 | from such an output without bare headers outside its blocks, the next run makes a document that every munge leaves alone |
| AllMunges.BalancedVisits | k8s-nof-poc/cmd/mungedocs/mungedocs.go:93-149 | over any number of visits a balanced file stays balanced, its blocks stay apart, and bare headers outside them neither come nor go |
| AllMunges.UnbalancedVisits | k8s-nof-poc/cmd/mungedocs/mungedocs.go:93-149 | over any number of visits an unbalanced file stays unbalanced and its blocks stay apart |
| AllMunges.AllVerifyIff | k8s-nof-poc/cmd/mungedocs/mungedocs.go:54-149 | with all six munges in the tool's order, a file whose generated blocks keep apart verifies after two or more visits if and only if it is balanced and has no header of bare sharps outside those blocks; otherwise it never verifies |
| PodStatus.GetPodCondition | k8s-nof-poc/pkg/api/resource_helpers.go:118-128 | the index of the first condition of the type, or -1 |
| PodStatus.Status.UpdatePodCondition | k8s-nof-poc/pkg/api/resource_helpers.go:147-172 | stores the stamped condition, leaves it with the caller, and returns true exactly when the stored list changes |
| PodStatus.TransitionTimesMarkStreaks | k8s-nof-poc/pkg/api/resource_helpers.go:144-172 | over every run there is at most one condition per type, it is the last one reported, and its transition time is the clock reading that began its unbroken streak of equal status |
| PodResources.AddInto | k8s-nof-poc/pkg/api/resource_helpers.go:189-196 | adds one list of quantities to the totals, in any key order |
| PodResources.RaiseInto | k8s-nof-poc/pkg/api/resource_helpers.go:208-217 | raises the totals to at least the quantities of one list |
| PodResources.PodRequestsAndLimits | k8s-nof-poc/pkg/api/resource_helpers.go:186-230 | computes both totals from all containers and init containers |
| PodResources.TotalsMeaning | k8s-nof-poc/pkg/api/resource_helpers.go:184-230 | exactly the mentioned names are mapped, each to the larger of the sum over containers and the maximum over init containers, whichever exist |
| PodResources.TotalIsUnique | k8s-nof-poc/pkg/api/resource_helpers.go:184-230 | that value is unique |
| PodResources.TotalsPermute | k8s-nof-poc/pkg/api/resource_helpers.go:188-207 | totals do not depend on the order of containers or init containers |
| PodResources.RequestsWithinLimits | k8s-nof-poc/pkg/api/resource_helpers.go:186-230 | requests within non-negative limits in every container carry over to the totals |
| PodResources.ContainerExceeds | k8s-nof-poc/pkg/api/resource_helpers.go:186-230 | whatever the other quantities, a container that requests without limiting can ask for more than the total limit |
| PodResources.InitContainerExceeds | k8s-nof-poc/pkg/api/resource_helpers.go:208-228 | so can an init container |
| PodResources.BoundedIffCovered | k8s-nof-poc/pkg/api/resource_helpers.go:186-230 | total requests stay within total limits for all non-negative quantities with requests within the limits beside them if and only if every container and init container that requests the resource also limits it; if a missing total limit counts as none, it is enough that nothing limits it |
| PodResources.MissingLimitExceeds | k8s-nof-poc/pkg/api/resource_helpers.go:197-204 | one such pod |
| Sysctls.SysctlsFromPodAnnotation | k8s-nof-poc/pkg/api/helpers.go:602-618 | parses name=value pairs, failing on the first that is not one |
| Sysctls.PodAnnotationsFromSysctls | k8s-nof-poc/pkg/api/helpers.go:621-631 | prints the pairs separated by commas |
| Sysctls.ParsedPairs | k8s-nof-poc/pkg/api/helpers.go:602-618 | an annotation parses exactly when it is empty or each comma-separated part is a pair, and the i-th name is what stands before the equals sign of the i-th part |
| Sysctls.PairSyntaxIff | k8s-nof-poc/pkg/api/helpers.go:608-612 | a part is a pair exactly when it has one equals sign, not at its start |
| Sysctls.PrintedPairs | k8s-nof-poc/pkg/api/helpers.go:621-631 | a list prints as its pairs, each name before its value, separated by commas |
| Sysctls.PrintParse | k8s-nof-poc/pkg/api/helpers.go:602-631 | printing what an annotation parses to gives the annotation back |
| Sysctls.ParsePrint | k8s-nof-poc/pkg/api/helpers.go:602-631 | parsing a printed list gives it back if and only if names are non-empty and no name or value has a comma or equals sign |
| RetryClient.HTTPClient.Request | intel-sds-proto/python-sdsclient/sdsclient/client.py:257-300 | against every server it ends after at most retries + 2 requests, waits 2^k - 1 seconds for k waits within the retries, goes on only after retryable errors and at most one 401, and reports the last response, giving up on a retryable error only with the retries used up; it gives up before a request only because its last authentication raised or left no URL, and says how often it authenticated and what URL and token it is left with |
| RetryClient.HTTPClient.EnsureAuthenticated | intel-sds-proto/python-sdsclient/sdsclient/client.py:263-264 | authenticates exactly when the URL or the token is missing or empty, and keeps what the authentication sets |
| RetryClient.WorkingLogins | intel-sds-proto/python-sdsclient/sdsclient/client.py:263-281 | when authentications work, every request is sent with a URL and a token, after one authentication for every 401 before it and one more if the client had no login, and with what the last of them set |
| RetryClient.WorkingCall | intel-sds-proto/python-sdsclient/sdsclient/client.py:257-300 | the outcome is then decided by the responses: success with the n-th exactly when it is a success and all before were connection errors, 400 or 5xx within the retries, apart from at most one 401 |
| RetryClient.StoppedBecause | intel-sds-proto/python-sdsclient/sdsclient/client.py:263-270 | a call stops before a request only when an authentication that it needed raised, or set no URL |
| RetryClient.SucceedsExactlyWhen | intel-sds-proto/python-sdsclient/sdsclient/client.py:257-300 | when authentication goes through it succeeds with the n-th response exactly when that is a success and what came before was retryable within the retries, apart from one 401 |

## Left out

- Wrap-around of the 64-bit counters: the counters are unbounded integers.
- Expectations: the error results of the local store, which its own code never produces, and logging.
- ConcurrentExpectations: SetExpectations, RaiseExpectations and LowerExpectations called from outside the wrapper.
- ControllerRefs: API server behaviour beyond the owner-reference patches; a patch is guarded by the object's UID, and other failures are a set of keys that refuse patches. ReplicaSets are classified as pods are, without the activity filter.
- Cloner: other registered and generated copy functions, map keys that hold references, and cyclic values, on which the copier does not terminate.
- Keyring: union keyrings, secrets and JSON, which only add plumbing.
- DockerAuth: reading configuration files; entries are values, not receivers that are written to.
- DockerAuth.EntryRoundTrip: JSON text is not modelled, and it alters bytes of an email that are not UTF-8.
- The tests for the presence of a line or a block, and prepending a block, which no modelled munge uses.
- Munges that depend on the file system, links or whole paths (md-links, kubectl-dash-f, sync-examples).
- Visit.VerifiesIff: only four munges run; `AllMunges.AllVerifyIff` has all six modelled ones.
- AllMunges.AllVerifyIff: files whose TOC and analytics blocks overlap, do not close or hold preformatted text.
- TableOfContents.TocConvergesOnDisk: files in which a TOC block ends inside a fence opened in it; what they are read back as is another document, about which only `TocOnDisk` speaks.
- Visit: texts are sequences of Unicode characters, so bytes that are not UTF-8 are not modelled.
- Analytics.UpdateAnalytics: how the path relative to the repository is computed; the path or its failure is a parameter.
- Sysctls: the text of the parse error.
- RetryClient: headers, bodies and the steps of an authentication, which is one outcome that raises or sets the URL and token.
- Command-line parsing, server start-up, API plumbing, generated code and the other vendored packages.
