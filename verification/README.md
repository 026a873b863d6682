# Multi-operator-manager library: a verified model

The multi-operator manager runs operators without a cluster. It prunes a must-gather down to the resources an operator
needs, runs the operator's controllers once against the pruned directory, writes the mutation requests they produce to
an output directory, and tests operators by comparing such output directories. This project models that behaviour in
Dafny and proves what it keeps. A cluster is a client that answers reads; a directory is a map from paths to contents;
an order of map iteration, a shuffle and the order of a directory walk are arbitrary.

## The main results

**Pruning a must-gather** (`Prune`, `Packing`, `RoundTrip`, `Replay`, `PruneAgain`)

- The selection is sound and complete against the text of the resource list: what is listed by ID or label, what refers,
  and what the path of a referring resource names, as text or in a list. It holds every ID once, in the order of the
  list, and the errors are exactly the failed reads and the unusable paths.
- Packing conserves every object, gives each group, kind and namespace one list in input order, and succeeds exactly
  when each group-kind has one version. Every object is in the file spelled out by its namespace, group and resource,
  comes back as often as it went in, and what is packed, written, read back in any order and packed again is the same.
- The pruned directory is sufficient under exactly two conditions. Pruning it again with the same resource list, through
  the client that reads must-gather directories, reports no error and gives the same selection in the same order *if and
  only if no core Namespace was selected, and the directory's own discovery serves every label selection*: it knows the
  type, and gives it the kind of the selected resources in scope. The first condition is there because Namespaces are
  packed into `cluster-scoped-resources/core/namespaces.yaml`, and the client looks for them only in
  `namespaces/NAME/NAME.yaml`; the loss is silent. The second is there because pruning copies no discovery files, so the
  pruned directory is served with the client's built-in discovery; a listing that discovery does not serve fails. An
  input for each failure is given (`NamespaceIsLost`, `ListingIsLost`).
- What is left in any case is stated too: everything but the Namespaces and what only Namespaces refer to. The pruned
  directory is a truthful client of its own, serves every resource list whose reads the first list covers under the same
  two conditions, and pruning is idempotent where it is sufficient.

**Running the controllers** (`StableSort`, `Controllers`)

- Every controller has one result, in strictly ascending order of names, that says field by field what became of it:
  skipped, succeeded, failed with its one error, or panicked with its stack; the errors returned are those of the
  controllers that failed, once each.
- The canonical results, and the errors and the tracked requests up to order, do not depend on the shuffle. This needs
  the rejection of duplicate names: the comparator does not see error details, and with a repeated name two orders give
  two results.

**Output and the allow list** (`Requests`, `AllowList`, `Unspecified`, `OutputFiles`, `ApplyConfiguration`)

- Every tracked request is handed to the writer for the configuration, management and user workload cluster exactly when
  the list of that cluster allows it, and as unspecified exactly when none of the three does. The validation after
  filtering never fires.
- A run panics, before anything is written, exactly when the allow list, the mutations or a cluster type's getter is
  nil: `UnspecifiedOutputResources` uses them before the validation that checks for nil. A repeated controller name or a
  mistyped controller flag is such an input: `RunOnce` returns nil mutations, and its error is never reported.
- Otherwise the output directory is the given one after writing every batch, file by file, and the report says exactly
  what went wrong, for every way in which writes can fail. Read back, the results are those of the run, field by field,
  and the very same exactly if there are any and none has an empty list of errors; an operator's always come back.

**The files of requests** (`MutationFiles`, `MutationNames`, `MutationPaths`, `MutationRoundTrip`,
`MutationCoincidence`, `WriteOrder`, `OperatorRun`)

- A request is written to files named by its action, namespace, group, resource, a hash of its body and its name, and
  later requests overwrite the files of earlier ones. The names leave out the controller instance, the field manager,
  the patch type, the version, and the options beside a body. Two requests share files exactly when these keys agree.
- Requests that can each be read from their own files (a known action, a name, the kind of the body), written completely
  into an empty directory, read back exactly, each once, *if and only if no two of them share files*, when no name is
  mistaken; and *if and only if no name is mistaken*, when no two share files. A name is mistaken if "-body-" occurs in
  it with something behind, or "body-" at its start: the reader takes the other files of such a request for bodies. When
  both may occur, the requests conflict in no way if and only if every part of them, in whatever order, reads back
  exactly; for one set alone sharing and a mistaken name can cancel out (`MutationCoincidence.CoincidenceInput`).
- Two controllers that create the same config map are an input that loses a request without an error
  (`MutationRoundTrip.TwinsOverwrite`), and the shuffle decides which one (`WriteOrder.ShuffleDecides`). One config map
  with "-body-" inside its name makes the whole directory unreadable (`MutationRoundTrip.BodyInName`).
- End to end, the controllers and the flags determine which requests an operator's run writes to each directory, the
  results file and the report. The files left are those of writing these requests in the order of the shuffle, and they
  are the same for every shuffle *if and only if no two controllers leave different contents at one path*.

**Comparing and testing** (`RequestDiff`, `ResourceDiff`, `DirectoryResult`, `Harness`, `OperatorTest`)

- The request diff reports nothing exactly for equivalent sides. Its reasons are exact: everything missing on the right
  is explained and nothing else is, and what is suppressed on the left shares its metadata with something explained.
  Requests about events, of the core group or of their own, are invisible.
- `EquivalentResources` decides equality of maps for distinct filenames. With a repeated filename the verdict is not
  symmetric; what it decides then is stated for all lists.
- When a run passes a test is stated exactly, in terms of what its files read as; where the requests written conflict in
  no way, these are the produced requests that the lists allow. From end to end, an operator whose writes succeed then
  passes *if and only if* it left no directory of unspecified requests, ended as desired, and the test expects its
  canonical results and the requests its controllers make, where the list of each cluster allows them. A run that leaves
  a directory of unspecified requests passes none; one that produced some and could begin to write none of them can
  still pass a test that desires its failure, if everything else can be read.
- A test without a result never passes, although the verdict has a branch for it. A failing exit whose output holds an
  unreadable cluster directory makes the suite panic.

## Where the code and its documentation differ

The model follows the code.

- The comment on generated names promises prefix matching on requests other than creates
  (`pkg/library/libraryoutputresources/types.go:24-26`); the code compares for equality.
- Explicit namespaced and cluster-scoped references are part of the input format, but have no effect on the selection
  beyond selecting the referring resource.
- The input format requires one version for all resources of one group and resource
  (`pkg/library/libraryinputresources/types.go:106-108`), but only packing checks versions, by group and kind.
- `DifferenceOfSerializedRequests` and its callers speak of equivalent requests; the comparison leaves out no field, so
  equivalent requests are equal (`Requests.EquivalentIsEqual`).
- A comment in the test harness calls a desired failure without a result a success
  (`pkg/test/testapplyconfiguration/tester.go:260-263`); no execution gives an exit error without a result.
- File names of requests are meant to be told apart by a hash of the body
  (`vendor/github.com/openshift/library-go/pkg/manifestclient/serialized_request.go:325`); requests with equal bodies
  share files even without a collision of hashes, if they differ only in what the names leave out.
- The reader's expression for body files is not anchored and matches the metadata and options files of some names too
  (`vendor/github.com/openshift/library-go/pkg/manifestclient/mutation_directory_reader.go:98`).
- `LenientResourcesFromDirRecursive` reports errors, but panics on a missing directory: the walk passes no directory
  entry for its root then, and the entry is asked whether it is a directory.

## Layout

| file | models |
|---|---|
| `Seqs`, `GoStrings`, `Paths`, `Dedup`, `StableSort` | filtering loops, byte-wise string order, `path.Join`, keeping first occurrences, stable sorting |
| `Kube`, `ResourceSet` | objects, resource IDs, discovery; the mutable set of unique resources |
| `Prune`, `SelectionOrder`, `Packing`, `MustGatherDir`, `PruneMustGather` | selecting, packing, writing and reading back; the whole prune command |
| `RoundTrip`, `ResourceDiff` | the pack/unpack round trip; comparing lists of resources |
| `MustGatherClient`, `IndividualFiles`, `NamespaceOrder`, `Sufficiency`, `Replay`, `PruneAgain` | the client over a must-gather directory and the sufficiency of the pruned one |
| `Controllers` | the run-once scheduler |
| `Requests`, `AllowList`, `Unspecified` | requests and their tracker, filtering, validation |
| `MutationFiles`, `MutationNames`, `MutationPaths`, `MutationRoundTrip`, `MutationCoincidence` | the files of requests: their names, writing and reading them, when they read back as they were |
| `OutputFiles`, `ApplyConfiguration` | the output directory, a whole run |
| `WriteOrder`, `OperatorRun` | what the order of writing decides; an operator end to end |
| `RequestDiff`, `DirectoryResult`, `Harness`, `OperatorTest` | the diff, reading an output directory, the verdict on a test and a suite, an operator under test |

## Assumptions

- A client is `Truthful` in a read when a read that does not fail answers with exactly the matching resources of one
  `Coherent` set, listings once each and namespace by namespace, as the must-gather client lists. Coherence demands that
  types and kinds match a discovery in both directions, one version per group and resource, path segments that each name
  a directory entry, no group spelled "core", and no resource called "namespaces" outside the core group. That the
  pruned directory's own client meets this is proved (`PruneAgain.PrunedDirectoryIsTruthful`).
- A request is `PlainRequest` when its action, namespace, group and resource each name a directory entry and its name
  holds no slash and no line break, as an API server accepts them. A `Coding` is `Sound` when hashes are hexadecimal and
  lookup metadata survives encoding; which hash it is does not matter.
- What a controller does, its requests and its outcome, is fixed per controller: the client it acts through answers
  writes without regard to earlier ones.

## Model

| member | source | states |
|---|---|---|
| `Kube.IDInjective` | `pkg/library/libraryinputresources/resource.go:28-35` | two resources get one ID exactly when group, resource, namespace and name agree, if the components before the name hold no slash and no namespace is the placeholder |
| `Kube.IDConfuses` | `pkg/library/libraryinputresources/resource.go:28-35` | both restrictions are needed: a namespace spelled like the placeholder, or a slash in a component, makes different resources collide |
| `Dedup.FirstOccurrencesSet` | `pkg/library/libraryinputresources/resource.go:258-269` | keeping first occurrences keeps every key, each once, and invents nothing |
| `Dedup.FirstOccurrencesAppend` | `pkg/library/libraryinputresources/resource.go:258-269` | a batch without repetition adds exactly its elements with new keys, in order |
| `Dedup.FirstOccurrencesBatch` | `pkg/library/libraryinputresources/resource.go:258-269` | inserting in two batches equals deduplicating the whole history |
| `ResourceSet.UniqueResourceSet.constructor` | `pkg/library/libraryinputresources/resource.go:244-251` | a new set holds the first occurrences of its non-nil arguments |
| `ResourceSet.UniqueResourceSet.Insert` | `pkg/library/libraryinputresources/resource.go:258-269` | the set becomes the first occurrences of what it held followed by the non-nil inserts; `seen` stays the IDs of the list, all distinct |
| `ResourceSet.BatchingIsInvisible` | `pkg/library/libraryinputresources/resource.go:244-269` | after any sequence of inserts, however batched, the set holds the first occurrences of all non-nil inserts |
| `Prune.GetResourcesByLabelSelector` | `pkg/library/libraryinputresources/prune_mustgather.go:194-226` | a listing gives every item, in order, under the type asked for |
| `Prune.CollectExact` | `pkg/library/libraryinputresources/prune_mustgather.go:90-100` | present resources are inserted, missing ones skipped, failures reported, in order |
| `Prune.CollectLabelSelected` | `pkg/library/libraryinputresources/prune_mustgather.go:102-112` | listings are inserted whole, failures reported |
| `Prune.CollectReference` | `pkg/library/libraryinputresources/prune_mustgather.go:117-174` | the referring resource and then the targets its path names, one level, with the errors of path and reads |
| `Prune.GetRequiredInputResourcesForResourceList` | `pkg/library/libraryinputresources/prune_mustgather.go:86-178` | the result is the deduplicated answers to exactly the reads the list and the referring resources call for, with exactly their errors |
| `Prune.SelectionSoundComplete` | `pkg/library/libraryinputresources/prune_mustgather.go:86-178` | everything selected is wanted, the ID of everything wanted is selected, and no ID twice; wanted is what a present read of a listed ID, of a referring resource or of a target finds, where the targets are the names that the path gives, as one text or in a list, under the type and namespace of the reference, and what a listing holds |
| `Prune.NoErrorsExactly` | `pkg/library/libraryinputresources/prune_mustgather.go:86-178` | no error exactly when no read called for failed, and no path of a present referring resource failed to parse, failed to evaluate or gave a value that names nothing |
| `Prune.ErrorsExactly` | `pkg/library/libraryinputresources/prune_mustgather.go:86-178` | each kind of error is reported exactly for what was met: a failed lookup of a listed ID or a target, a failed listing, a failed read of a referring resource, or one of the three failures of its path |
| `SelectionOrder.SelectionInOrder` | `pkg/library/libraryinputresources/prune_mustgather.go:86-178` | the selection is ordered as the list: a shorter list selects a beginning of what a longer one selects, exact IDs before label selections before references, a referring resource before its targets |
| `SelectionOrder.ListedInOrder` | `pkg/library/libraryinputresources/prune_mustgather.go:194-226` | a listing of different resources alone is selected in its order |
| `SelectionOrder.TargetsInOrder` | `pkg/library/libraryinputresources/prune_mustgather.go:117-174` | the different present targets of one reference are selected behind it in the order in which its path names them |
| `Packing.Group` | `pkg/library/libraryinputresources/prune_mustgather.go:238-266` | the three maps together hold the versions, the last type and the list of every group-kind and namespace |
| `Packing.EmitLists` | `pkg/library/libraryinputresources/prune_mustgather.go:279-299` | one packed list per key, each once, for any iteration order |
| `Packing.UnstructuredToMustGatherFormat` | `pkg/library/libraryinputresources/prune_mustgather.go:232-302` | packing succeeds exactly when every group-kind has one version, and reports exactly the kinds that have several otherwise |
| `Packing.AmbiguousIffSeveralVersions` | `pkg/library/libraryinputresources/prune_mustgather.go:268-277` | a kind is refused exactly when two of its inputs differ in version; none is exactly when every kind has one version |
| `Packing.PackingConserves` | `pkg/library/libraryinputresources/prune_mustgather.go:238-301` | over all lists every input object occurs as often as in the input |
| `Packing.PackingPartitions` | `pkg/library/libraryinputresources/prune_mustgather.go:238-310` | each list holds all inputs of one group, kind and namespace in input order, no two lists share one, the list kind is every item's kind plus "List", and the resource type is that of the last input of the group and kind |
| `Paths.ResolveDots` | `pkg/library/libraryinputresources/prune_mustgather.go:295` | joining drops empty and "." segments, and ".." takes back the segment before it, if there is one |
| `Packing.FilenameSegments` | `pkg/library/libraryinputresources/prune_mustgather.go:279-299` | the path is spelled out, and can be split back into the segments it was made of |
| `Packing.FilenameInjective` | `pkg/library/libraryinputresources/prune_mustgather.go:279-299` | two packed files share a name exactly when namespace and resource agree and the groups do, "core" standing for the empty one too |
| `Packing.CoreGroupCollides` | `pkg/library/libraryinputresources/prune_mustgather.go:288-291` | a group literally named "core" is packed over the core group |
| `MustGatherDir.ResourcesFromFile` | `pkg/library/libraryinputresources/resource.go:116-175` | one resource per object with the type discovery gives it, or failure if one has none or several |
| `MustGatherDir.FileResourcesMean` | `pkg/library/libraryinputresources/resource.go:116-175` | a file can be loaded exactly if it can be decoded and discovery knows one type for each object; then it gives one resource per object, in order, of that type and under the name of the file |
| `MustGatherDir.MustGatherDirectory.WriteResource` | `pkg/library/libraryinputresources/resource.go:183-203` | succeeds exactly with a filename whose file can be written; then just that file holds the content, and otherwise nothing changes or just that file is torn |
| `MustGatherDir.MustGatherDirectory.WriteResources` | `pkg/library/libraryinputresources/prune_mustgather.go:35-42` | all writes are attempted in order; none fails exactly when each has a filename and a writable file |
| `MustGatherDir.CompleteWrites` | `pkg/library/libraryinputresources/prune_mustgather.go:35-42` | without failures the directory holds every content under its filename, the last one where a filename repeats |
| `MustGatherDir.MustGatherDirectory.LenientResourcesFromDirRecursive` | `pkg/library/libraryinputresources/resource.go:70-102` | without discovery nothing is read; a missing root panics; else every loadable file is read once, in some order, until one cannot be, and the walk succeeds exactly when all can and every directory can be listed |
| `MustGatherDir.WalkReads` | `pkg/library/libraryinputresources/resource.go:70-102` | a walk that succeeds reads exactly the objects of the files that end in ".yaml" or ".json", each under its file and of its one type |
| `PruneMustGather.WriteRequiredInputResourcesFromMustGather` | `pkg/library/libraryinputresources/prune_mustgather.go:25-57` | nothing is written unless every read succeeded, every selected kind has one version and the target exists; then a packing of the selection is written as far as files can be, and no write is refused |
| `RoundTrip.KeysGetDistinctFiles` | `pkg/library/libraryinputresources/prune_mustgather.go:279-299` | no two lists of a packable selection share a file |
| `RoundTrip.WrittenFiles` | `pkg/library/libraryinputresources/resource.go:183-203` | written to an empty directory, each packed list is in its own file and there is nothing else |
| `RoundTrip.ObjectsAreFiled` | `pkg/library/libraryinputresources/prune_mustgather.go:279-299` | every input is in the list file spelled by its namespace, group and resource, which holds the inputs of its group, kind and namespace in input order, and there is no other file |
| `RoundTrip.ReadBackItems` | `pkg/library/libraryinputresources/resource.go:116-175` | read back in any file order, the items of each key come back in input order |
| `RoundTrip.ObjectsComeBack` | `pkg/library/libraryinputresources/resource.go:70-175` | read back in any file order, every object occurs as often as it went in, in input order within its group, kind and namespace, with the type it had |
| `RoundTrip.SameGroupsEquivalent` | `pkg/library/libraryinputresources/prune_mustgather.go:232-302` | inputs with the same items per key pack to the same files for all map iteration orders |
| `RoundTrip.PackRoundTrip` | `pkg/library/libraryinputresources/prune_mustgather.go:232-302` | pack, write, read back in any order, pack again: all files readable, packing succeeds, same files and contents, no difference reported |
| `ResourceDiff.EquivalentResources` | `pkg/library/libraryinputresources/resource.go:205-232` | a reason for each left resource missing or different on the right, then for each right resource missing on the left |
| `ResourceDiff.ReasonsMean` | `pkg/library/libraryinputresources/resource.go:205-232` | each reason means what it says: nothing of the filename on the other side, or a first one with another content |
| `ResourceDiff.FindIsFirst` | `pkg/library/libraryinputresources/resource.go:234-242` | the resource found is the first with the filename; none is found exactly when there is none |
| `ResourceDiff.EquivalentExactly` | `pkg/library/libraryinputresources/resource.go:205-242` | for all lists, no reason exactly when the left denotes what the right denotes after dropping its repetitions |
| `ResourceDiff.EquivalentIsMapEquality` | `pkg/library/libraryinputresources/resource.go:205-242` | with distinct filenames the verdict is equality of the filename-to-content maps, and symmetric |
| `ResourceDiff.EquivalentIgnoresOrder` | `pkg/library/libraryinputresources/resource.go:205-242` | with distinct filenames the verdict is unchanged by permuting either list |
| `ResourceDiff.RepeatedFilenameAsymmetric` | `pkg/library/libraryinputresources/resource.go:205-242` | a repeated filename is noticed on the left and not on the right |
| `Replay.GetIsReplayed` | `vendor/github.com/openshift/library-go/pkg/manifestclient/get.go:19-123` | a read by name of the first run gets the same answer from the pruned directory, whatever its discovery, unless it names a Namespace, which is not found |
| `Replay.FromPackedList` | `vendor/github.com/openshift/library-go/pkg/manifestclient/encoding.go:15-29` | an item taken by name from a packed list is the packed object, kind included |
| `IndividualFiles.GetOwnFile` | `vendor/github.com/openshift/library-go/pkg/manifestclient/get.go:75-123` | a file of its own is what a read by name gives, whatever list files there are, if group and version are those asked for; without either file nothing is found |
| `IndividualFiles.GetNamespaceFile` | `vendor/github.com/openshift/library-go/pkg/manifestclient/get.go:75-123` | a core Namespace is read from the directory of its own name |
| `IndividualFiles.ListOwnFiles` | `vendor/github.com/openshift/library-go/pkg/manifestclient/list.go:89-126` | without a list file, a listing in one namespace gives the matching objects in files of their own, in the order of their names, if discovery gives the type the kind of the first |
| `IndividualFiles.ListNamespaceFiles` | `vendor/github.com/openshift/library-go/pkg/manifestclient/list.go:138-173` | a listing of core Namespaces gives all that have their file, in the order of their names, whatever the selector |
| `Replay.ListsRead` | `vendor/github.com/openshift/library-go/pkg/manifestclient/list.go:51-71` | the list files visited hold the selected resources of the type, namespace by namespace |
| `Replay.ListIsReplayed` | `vendor/github.com/openshift/library-go/pkg/manifestclient/list.go:27-136` | a listing of the first run that the pruned directory's own discovery serves gets the selected resources it matches, namespace by namespace |
| `Replay.ListFails` | `vendor/github.com/openshift/library-go/pkg/manifestclient/discovery_reader.go:38-114` | a listing whose type that discovery does not know, or to which it gives another kind than a listed resource has, fails |
| `Replay.NamespaceDirectories` | `vendor/github.com/openshift/library-go/pkg/manifestclient/list.go:258-270` | the namespaces with data are those of the selected resources |
| `Replay.NamespaceListIsReplayed` | `vendor/github.com/openshift/library-go/pkg/manifestclient/list.go:138-173` | a listing of namespaces needs no discovery and finds nothing |
| `NamespaceOrder.ByNamespaceOfSorted` | `vendor/github.com/openshift/library-go/pkg/manifestclient/list.go:224-256` | listing namespace by namespace leaves a namespace-ordered sequence as it is |
| `Sufficiency.NewOfRead` | `pkg/library/libraryinputresources/prune_mustgather.go:86-178` | what a read adds is what the whole selection holds that matches it and was not there before |
| `Sufficiency.ReplayPrefix` | `pkg/library/libraryinputresources/prune_mustgather.go:86-178` | replaying the reads on the pruned directory rebuilds the selection read by read, in the same order |
| `Sufficiency.ReplayedSelection` | `pkg/library/libraryinputresources/prune_mustgather.go:86-178` | a client that replays every read makes the second run read the same, report no error and select the same |
| `PruneAgain.SandwichedStoreIsSufficient` | `pkg/library/libraryinputresources/prune_mustgather.go:86-178` | any truthful store between the selection and the cluster yields the same resources without errors |
| `PruneAgain.PrunedDirectoryIsSufficient` | `pkg/library/libraryinputresources/prune_mustgather.go:25-57` | pruning the pruned directory, under its own discovery, reports no error and selects the same in the same order if and only if no core Namespace was selected and that discovery serves every listing; errors alone depend on the discovery alone |
| `PruneAgain.PrunedErrorsExactly` | `vendor/github.com/openshift/library-go/pkg/manifestclient/discovery_reader.go:128-147` | the pruned directory reports an error exactly when its discovery does not serve some label selection |
| `PruneAgain.PrunedDirectoryKeeps` | `pkg/library/libraryinputresources/prune_mustgather.go:25-57` | with Namespaces selected the loss is silent: exactly the resources are selected that are no Namespaces and not wanted only through a reference from one |
| `PruneAgain.NamespaceIsLost` | `pkg/library/libraryinputresources/prune_mustgather.go:281-296` | an input: one Namespace, asked for by name, is pruned without error, and pruning the directory selects nothing, without error |
| `PruneAgain.ListingIsLost` | `vendor/github.com/openshift/library-go/pkg/manifestclient/discovery_reader.go:128-147` | an input: one resource of a type the built-in discovery lacks, listed by label, is pruned without error, and pruning the directory fails |
| `PruneAgain.NamespacesAreLost` | `vendor/github.com/openshift/library-go/pkg/manifestclient/get.go:75-123` | a pruned directory answers no read with a core Namespace, and does not fail on one |
| `PruneAgain.PruningIsIdempotent` | `pkg/library/libraryinputresources/prune_mustgather.go:25-57` | where the pruned directory is sufficient, pruning twice writes the same files with the same contents |
| `PruneAgain.PrunedDirectoryIsTruthful` | `pkg/library/libraryinputresources/prune_mustgather.go:25-57` | where its discovery serves the listings, the pruned directory is a truthful client of exactly the selection without Namespaces |
| `PruneAgain.PrunedDirectoryServesCoveredLists` | `pkg/library/libraryinputresources/prune_mustgather.go:25-57` | a directory pruned for one list serves a list whose reads it covers as the cluster would if and only if that list selects no core Namespace and the discovery serves its listings |
| `StableSort.TiesDetermine` | `pkg/library/libraryapplyconfiguration/types.go:38-38` | an ascending sequence is determined by the order of its ties, so a stable sort has one result |
| `StableSort.StableSortUnique` | `pkg/library/libraryapplyconfiguration/types.go:38-38` | whatever the library does, a stable sort is the one computed here |
| `StableSort.SortIsStableSort` | `pkg/library/libraryapplyconfiguration/types.go:38-38` | sorting yields an ascending permutation with ties in original order |
| `StableSort.SortStable` | `pkg/library/libraryapplyconfiguration/types.go:38-38` | sorting in place ends with the stable sort of what was there |
| `Controllers.CompareResultsIsComparator` | `pkg/library/libraryapplyconfiguration/types.go:42-54` | the comparison of results is a total preorder |
| `GoStrings.CompareIsByteOrder` | `pkg/library/libraryapplyconfiguration/types.go:42-54` | names are ordered byte by byte: the smaller byte at the first difference comes first, and a proper prefix before what it starts |
| `Controllers.CompareResultsOrder` | `pkg/library/libraryapplyconfiguration/types.go:42-54` | results are ordered by name, then by the name of the status, then by panic stack |
| `Controllers.CanonicalizeApplyConfigurationRunResult` | `pkg/library/libraryapplyconfiguration/types.go:34-39` | the results become their stable sort, in place; nil is left alone |
| `Controllers.IsControllerEnabled` | `pkg/library/libraryapplyconfiguration/operator_launch_helpers.go:255-270` | the first flag naming the controller, plainly or with a minus, decides; otherwise enabled exactly with "*" |
| `Controllers.EnabledExactly` | `pkg/library/libraryapplyconfiguration/operator_launch_helpers.go:255-270` | flag by flag: the first mention enables with the name and disables with a minus in front, and without a mention the star decides |
| `Controllers.ValidateControllersFromFlags` | `pkg/library/libraryapplyconfiguration/operator_launch_helpers.go:272-286` | one error per flag that is neither "*" nor a known name after one leading minus |
| `Controllers.UnknownFlagsIn` | `pkg/library/libraryapplyconfiguration/operator_launch_helpers.go:272-286` | the names reported are those of flags, less one leading minus, that are not known |
| `Controllers.FindDuplicates` | `pkg/library/libraryapplyconfiguration/operator_launch_helpers.go:50-58` | the known names, and every repetition once |
| `Controllers.RepeatsEmpty` | `pkg/library/libraryapplyconfiguration/operator_launch_helpers.go:50-61` | the check passes exactly when names are distinct |
| `Controllers.RepeatsCount` | `pkg/library/libraryapplyconfiguration/operator_launch_helpers.go:50-58` | a name is reported once for each time it is repeated |
| `Controllers.RunController` | `pkg/library/libraryapplyconfiguration/operator_launch_helpers.go:72-100` | the result says field by field what became of the controller: skipped exactly if disabled, failed with exactly its message, succeeded, or panicked with its stack and no error; one error exactly for a failure; an enabled controller's requests are tracked however it ends |
| `Controllers.ShuffleNamedRunOnce` | `pkg/library/libraryapplyconfiguration/operator_launch_helpers.go:249-253` | some permutation of the controllers, in place |
| `Controllers.RunOnce` | `pkg/library/libraryapplyconfiguration/operator_launch_helpers.go:50-107` | whatever the shuffle, the results are those of the registered order canonicalized (a nil list for no controllers), errors and tracked requests the same up to order, and every cluster type shows the tracker; a refused run leaves everything alone and returns no mutations |
| `Controllers.RefusedExactly` | `pkg/library/libraryapplyconfiguration/operator_launch_helpers.go:50-65` | a run is refused exactly for a repeated name or a flag that is neither "*" nor names a controller, with a minus in front or without; the repeated names are reported once per repetition, else the unknown ones |
| `Controllers.ShuffleIndependence` | `pkg/library/libraryapplyconfiguration/operator_launch_helpers.go:67-106` | any two orders of the same distinctly named controllers give identical canonical results and the same multisets of errors and of requests made |
| `Controllers.RunAccounting` | `pkg/library/libraryapplyconfiguration/operator_launch_helpers.go:63-106` | one result per controller, in strictly ascending order of names, saying field by field what became of it; the errors are those of the controllers that failed, with their messages, once each; the slice of results is nil exactly without controllers |
| `Controllers.MadeIn` | `pkg/library/libraryapplyconfiguration/operator_launch_helpers.go:85-93` | the requests made are those of the enabled controllers |
| `Controllers.DuplicateNamesAreNotCanonical` | `pkg/library/libraryapplyconfiguration/types.go:41-54` | without the duplicate check two orders of the same controllers give different canonical results |
| `Requests.EquivalentIsEqual` | `vendor/github.com/openshift/library-go/pkg/manifestclient/serialized_request.go:171-232` | requests compare equal exactly when they are equal in every field |
| `Requests.DifferenceOfSerializedRequests` | `vendor/github.com/openshift/library-go/pkg/manifestclient/serialized_request.go:57-73` | the requests of the left without an equal on the right, in order |
| `Requests.AreAllSerializedRequestsEquivalentWithReasons` | `vendor/github.com/openshift/library-go/pkg/manifestclient/serialized_request.go:85-103` | equivalent exactly when both sides hold the same requests, with both differences |
| `Requests.RequestsForResource` | `vendor/github.com/openshift/library-go/pkg/manifestclient/serialized_request.go:41-49` | the requests of the given lookup metadata, in order |
| `Requests.AllActionsTracker.AddRequest` | `vendor/github.com/openshift/library-go/pkg/manifestclient/mutation_tracker.go:78-87` | the request is filed last under its own action, and nothing else changes |
| `Requests.AllActionsTracker.RequestsForAction` | `vendor/github.com/openshift/library-go/pkg/manifestclient/mutation_tracker.go:93-100` | the requests filed under the action, which are all of that action; a panic exactly for an action without any |
| `Requests.AllActionsTracker.AllRequests` | `vendor/github.com/openshift/library-go/pkg/manifestclient/mutation_tracker.go:113-122` | all requests, action by action, in some order of the actions |
| `Requests.AllRequestsCount` | `vendor/github.com/openshift/library-go/pkg/manifestclient/mutation_tracker.go:113-122` | whatever that order, every tracked request is listed as often as it was added |
| `AllowList.MetadataMatchesFilter` | `pkg/library/libraryapplyconfiguration/client_mutations.go:150-188` | matched exactly when there is no list, or it is an event into an eventing namespace, or listed exactly or by generated name; versions are ignored |
| `AllowList.AllowsOneEntry` | `pkg/library/libraryapplyconfiguration/client_mutations.go:150-188` | what one entry allows and nothing else: an event, of either group, into the namespace; a request of just this group, resource, namespace and name without a generated name; one of just this generated name without a name |
| `AllowList.AllowsAppend` | `pkg/library/libraryapplyconfiguration/client_mutations.go:150-188` | lists put together allow what one of them allows |
| `AllowList.FilterSerializedRequests` | `pkg/library/libraryapplyconfiguration/client_mutations.go:127-137` | the matching requests, in order; all without a list |
| `AllowList.RemoveEvents` | `pkg/library/libraryapplyconfiguration/client_mutations.go:114-125` | all requests in order but those about the resource "events" of the core group or of "events.k8s.io" |
| `AllowList.CombineAllows` | `pkg/library/libraryapplyconfiguration/apply_configuration.go:49-59` | the combined list allows exactly what the list of the configuration, of the management or of the user workload cluster allows |
| `AllowList.FilterMonotone` | `pkg/library/libraryapplyconfiguration/client_mutations.go:127-188` | a longer list keeps what a shorter one keeps, and filtering by both is filtering by the shorter |
| `AllowList.FilteredListsAll` | `pkg/library/libraryapplyconfiguration/client_mutations.go:97-112` | the view's list of all requests is what its requests per action add up to |
| `AllowList.NewApplyConfigurationFromClient` | `pkg/library/libraryapplyconfiguration/client_mutations.go:28-42` | every cluster type gets the one tracker |
| `AllowList.FilterAllDesiredMutationsGetter` | `pkg/library/libraryapplyconfiguration/client_mutations.go:44-74` | the configuration, management and user workload clusters each get a view with their own list, no list if the allow list is nil, also over a nil getter |
| `AllowList.AllRequestsOf` | `pkg/library/libraryapplyconfiguration/client_mutations.go:85-112` | reading a view lists the filtered requests, and panics exactly when it is a view of nil |
| `Unspecified.UnspecifiedOutputResources` | `pkg/library/libraryapplyconfiguration/apply_configuration.go:40-62` | the tracked requests that no cluster type's list allows, as often as tracked; a panic exactly for a nil allow list or a view of nil |
| `Unspecified.ValidateAllDesiredMutationsGetter` | `pkg/library/libraryapplyconfiguration/apply_configuration.go:64-81` | an error exactly for nil mutations or something unspecified |
| `Unspecified.FilteredCountIn` | `pkg/library/libraryapplyconfiguration/client_mutations.go:44-112` | the view keeps, for each of the three cluster types, what the list of that cluster allows, with multiplicity |
| `Unspecified.FilterKeepsFiled` | `pkg/library/libraryapplyconfiguration/client_mutations.go:44-112` | reading the filtered mutations panics exactly when reading the raw ones does or a getter is missing |
| `Unspecified.FilteredIsSpecified` | `pkg/library/libraryapplyconfiguration/options.go:59-63` | whatever the filtered mutations show is specified, so the second validation finds nothing |
| `Unspecified.NothingProducedIsLost` | `pkg/library/libraryapplyconfiguration/options.go:53-72` | of a shared tracker a request is kept for configuration, management and user workload exactly when the list of that cluster allows it, as often as tracked, and unspecified exactly when none does |
| `MutationNames.SharesFilesExactly` | `vendor/github.com/openshift/library-go/pkg/manifestclient/serialized_request.go:258-327` | two requests share files exactly when action, namespace, group, resource, hash and name agree, colons replaced; then all their parts do, and no part is ever written to another part's file |
| `MutationPaths.PartPathSpelled` | `vendor/github.com/openshift/library-go/pkg/manifestclient/serialized_request.go:258-327` | the path of each part is spelled out: action, namespace or the directory of cluster-scoped resources, group or "core", resource, and a file of the hash of the body, else of the options, the part and the names |
| `MutationPaths.ColonsReplaced` | `vendor/github.com/openshift/library-go/pkg/manifestclient/serialized_request.go:109-112` | a colon becomes "-COLON-", and nothing else changes |
| `MutationPaths.SharesFilesFieldwise` | `vendor/github.com/openshift/library-go/pkg/manifestclient/serialized_request.go:258-327` | two requests share files exactly when action, namespace, group, resource, hash and joined names agree, field by field, colons replaced |
| `MutationFiles.ReadMutationDirectory` | `vendor/github.com/openshift/library-go/pkg/manifestclient/mutation_directory_reader.go:26-95` | nothing is read exactly when some file cannot be; else every file that reads as a request gives one |
| `MutationRoundTrip.ReadAtBody` | `vendor/github.com/openshift/library-go/pkg/manifestclient/mutation_directory_reader.go:97-170` | the body file of a named request is read with the metadata and options files of the same key |
| `MutationRoundTrip.ReadAtOther` | `vendor/github.com/openshift/library-go/pkg/manifestclient/mutation_directory_reader.go:97-170` | a metadata or options file is ignored, unless its name hides a body: then it is read as one, with its parts looked for under another name |
| `MutationPaths.ReadAtBase` | `vendor/github.com/openshift/library-go/pkg/manifestclient/mutation_directory_reader.go:73-106` | below the directory of an action, a file is read as a body exactly if it ends in ".yaml" or ".json" and the expression matches its name |
| `MutationRoundTrip.ConflictFreeReadsBack` | `vendor/github.com/openshift/library-go/pkg/manifestclient/mutation_directory_reader.go:26-170` | requests that conflict in no way read back exactly, each once |
| `MutationRoundTrip.SharingExactly` | `vendor/github.com/openshift/library-go/pkg/manifestclient/mutation_directory_writer.go:11-47` | without mistaken names, what is written reads back exactly if and only if no two requests share files |
| `MutationRoundTrip.MistakesExactly` | `vendor/github.com/openshift/library-go/pkg/manifestclient/mutation_directory_reader.go:97-126` | where no two share files, what is written reads back exactly if and only if no name is mistaken |
| `MutationRoundTrip.AloneExactly` | `vendor/github.com/openshift/library-go/pkg/manifestclient/mutation_directory_reader.go:97-170` | a request alone reads back exactly if and only if its name is not mistaken and its own files suffice: a known action, a name, and the kind of its body |
| `MutationRoundTrip.ReadsBackExactly` | `vendor/github.com/openshift/library-go/pkg/manifestclient/mutation_directory_reader.go:26-170` | requests conflict in no way if and only if every part of them, in whatever order written, reads back exactly |
| `MutationRoundTrip.LaterWins` | `vendor/github.com/openshift/library-go/pkg/manifestclient/mutation_directory_writer.go:31-42` | of two requests that share files only the later one is left, unless only the earlier one has options |
| `MutationRoundTrip.TwinsOverwrite` | `vendor/github.com/openshift/library-go/pkg/manifestclient/serialized_request.go:258-304` | an input that loses a request: of two controllers' equal creations only the later one reads back |
| `MutationRoundTrip.BodyInName` | `vendor/github.com/openshift/library-go/pkg/manifestclient/mutation_directory_reader.go:97-120` | inputs that cannot be read back: one creation whose name contains "-body-" with something behind it |
| `MutationCoincidence.Coincidence` | `vendor/github.com/openshift/library-go/pkg/manifestclient/mutation_directory_reader.go:97-170` | two requests that share files and a third with a mistaken name can read back exactly all the same |
| `MutationCoincidence.CoincidenceInput` | `vendor/github.com/openshift/library-go/pkg/manifestclient/mutation_directory_reader.go:97-170` | three such patches |
| `OutputFiles.OutputDirectory.WriteMutations` | `vendor/github.com/openshift/library-go/pkg/manifestclient/mutation_directory_writer.go:11-47` | the directory of the name is the given one after writing the files of each request in order, each file complete, torn or not begun; no failure stops the next, and the call succeeds exactly if all files are written |
| `OutputFiles.AfterWholeWrites` | `vendor/github.com/openshift/library-go/pkg/manifestclient/mutation_directory_writer.go:11-47` | if all files are written, the directory holds what the requests put there, the later over the earlier, beside what was there |
| `OutputFiles.AfterWritesEntries` | `vendor/github.com/openshift/library-go/pkg/manifestclient/mutation_directory_writer.go:25-29` | the directory appears exactly if a write is begun, and no other entry changes |
| `MutationPaths.RequestLeaves` | `vendor/github.com/openshift/library-go/pkg/manifestclient/mutation_directory_writer.go:25-42` | writing one request touches its own files alone: each holds its part, or what a torn write left, or is as before; options are written only where there are any |
| `ApplyConfiguration.WriteApplyConfiguration` | `pkg/library/libraryapplyconfiguration/apply_configuration.go:83-95` | what each cluster type's getter shows is written to its own directory, in turn and whatever fails elsewhere |
| `ApplyConfiguration.WriteUnspecified` | `pkg/library/libraryapplyconfiguration/options.go:68-72` | the unspecified requests are written to "Unspecified", reported exactly if one is incomplete; nothing is written for none |
| `ApplyConfiguration.WriteControllerResults` | `pkg/library/libraryapplyconfiguration/options.go:74-80` | the results file holds the results exactly when they could be marshalled and written |
| `ApplyConfiguration.WriteOutput` | `pkg/library/libraryapplyconfiguration/options.go:65-80` | every cluster type's directory is written what its own list allows, then the unspecified requests and the results; no failed write stops the next, and each is reported |
| `ApplyConfiguration.OutputEntries` | `pkg/library/libraryapplyconfiguration/options.go:65-80` | each directory of the output depends on its own batch alone, the results file on the results, and nothing else changes |
| `ApplyConfiguration.BatchElements` | `pkg/library/libraryapplyconfiguration/options.go:59-67` | a cluster type's batch holds exactly the produced requests that its own list allows |
| `ApplyConfiguration.UnspecifiedElements` | `pkg/library/libraryapplyconfiguration/apply_configuration.go:40-62` | the unspecified batch holds exactly the produced requests that no list allows |
| `ApplyConfiguration.BatchesExactly` | `pkg/library/libraryapplyconfiguration/options.go:53-72` | cluster by cluster: the batch of the configuration cluster is what its list allows, likewise the others, and the unspecified batch is what none of the three lists allows |
| `ApplyConfiguration.OutputLayout` | `pkg/library/libraryapplyconfiguration/options.go:65-80` | name by name: the batches go to "Configuration", "Management", "UserWorkload" and "Unspecified", the results to "controller-results.yaml", and no other entry changes |
| `ApplyConfiguration.Run` | `pkg/library/libraryapplyconfiguration/options.go:37-83` | panics exactly for a nil allow list, nil mutations or a nil getter, leaving the directory alone; otherwise the directory is the given one after writing the batches and the results, and the report says exactly what went wrong, write by write, and never invalid filtered mutations |
| `ApplyConfiguration.SilentRun` | `pkg/library/libraryapplyconfiguration/options.go:37-83` | a run returns no error exactly when the operator's functions returned none, nothing unspecified was produced and every write succeeded |
| `WriteOrder.ByActionsFiles` | `vendor/github.com/openshift/library-go/pkg/manifestclient/mutation_tracker.go:113-122` | listing action by action, in whatever order of the actions, leaves the same files as the order in which the requests were made |
| `WriteOrder.ShuffleExactly` | `pkg/library/libraryapplyconfiguration/operator_launch_helpers.go:67-106` | the files do not depend on the order of the controllers if and only if no two controllers leave different contents at one path |
| `WriteOrder.UnsharedIsShuffleProof` | `vendor/github.com/openshift/library-go/pkg/manifestclient/serialized_request.go:258-304` | controllers cannot clash where no two different requests share files |
| `WriteOrder.ShuffleDecides` | `pkg/library/libraryapplyconfiguration/operator_launch_helpers.go:67-106` | an input on which the shuffle decides: of two creators of one config map, the one that runs last is read back |
| `OperatorRun.RunOperator` | `pkg/library/libraryapplyconfiguration/options.go:37-83` | end to end: a panic exactly without an allow list or with a refused run, which a repeated name or mistyped flag causes; otherwise the requests written for each of the three clusters and as unspecified, the results file and every reported error are stated in terms of controllers, flags, lists and failing writes, and the files are those of writing in the order of the shuffle |
| `OperatorRun.DirectoriesExactly` | `pkg/library/libraryapplyconfiguration/options.go:37-83` | completely written, all directories of a run are the same for every shuffle if and only if no two controllers leave different contents at one path of one directory |
| `OperatorRun.NothingLostExactly` | `pkg/library/libraryapplyconfiguration/options.go:37-83` | completely written, a directory reads back as exactly the requests made that go there if and only if no two of them share files, given that none is mistaken and each can be read from its own files |
| `RequestDiff.ExpandedMetadataFor` | `pkg/library/libraryapplyconfiguration/equivalence.go:116-151` | the field manager of applies only, and the controller annotations with the operator's winning over the synthetic one |
| `RequestDiff.ExpandExactly` | `pkg/library/libraryapplyconfiguration/equivalence.go:116-151` | the field manager is known for the two applies alone; the controller is the one the operator's annotation names, and without that the synthetic one's |
| `RequestDiff.CompareWithAll` | `pkg/library/libraryapplyconfiguration/equivalence.go:167-211` | found exactly when an equal destination exists, and then earlier mismatches are forgotten |
| `RequestDiff.ReasonForDiff` | `pkg/library/libraryapplyconfiguration/equivalence.go:153-222` | the reasons of all sources, in order |
| `RequestDiff.AbsentGetsReason` | `pkg/library/libraryapplyconfiguration/equivalence.go:153-222` | a request without an equal on the other side gets a reason, and only reasons about itself |
| `RequestDiff.ReasonsMean` | `pkg/library/libraryapplyconfiguration/equivalence.go:157-220` | which reasons an absent request gets: nothing has its metadata, or exactly the comparable requests that differ in body or options, or no such difference; applies with other options are incomparable |
| `RequestDiff.UniquelyMissing` | `pkg/library/libraryapplyconfiguration/equivalence.go:86-104` | of the requests missing on the left, those whose expanded metadata no request missing on the right shares |
| `RequestDiff.EquivalentClusterApplyResultIgnoringEvents` | `pkg/library/libraryapplyconfiguration/equivalence.go:61-107` | the loops compute the reasons the next four rows are about, also for nil sides |
| `RequestDiff.SuppressionLosesNothing` | `pkg/library/libraryapplyconfiguration/equivalence.go:86-106` | exactly the requests missing on the right are explained there, and exactly those missing on the left that share their metadata with none missing on the right |
| `RequestDiff.DiffDecidesEquivalence` | `pkg/library/libraryapplyconfiguration/equivalence.go:61-107` | no reasons exactly when both sides are nil or hold the same requests but for the resource "events" of the core group and of "events.k8s.io" |
| `RequestDiff.NilSideExactly` | `pkg/library/libraryapplyconfiguration/equivalence.go:61-75` | a nil side is reported exactly when the other is not nil, and then nothing else |
| `RequestDiff.NoReasonsIsEquivalence` | `pkg/library/libraryapplyconfiguration/equivalence.go:61-107` | reporting nothing is reflexive, symmetric and transitive |
| `RequestDiff.EventsAreInvisible` | `pkg/library/libraryapplyconfiguration/equivalence.go:61-107` | requests about events of either group, inserted anywhere on either side, change no reason |
| `DirectoryResult.ReadLog` | `pkg/library/libraryapplyconfiguration/directory_apply_configuration.go:43-65` | an absent log is empty, a failing read an error beside what was read, and at most the last 512 KiB are kept |
| `DirectoryResult.LogKept` | `pkg/library/libraryapplyconfiguration/directory_apply_configuration.go:43-65` | a log is given whole up to 524288 bytes, and of a longer one the last 524288 |
| `DirectoryResult.ReadResults` | `pkg/library/libraryapplyconfiguration/directory_apply_configuration.go:67-85` | no results for an absent or empty file; an error for a failing read and one for what cannot be parsed; "null" is a result with a nil list |
| `DirectoryResult.ResultsRoundTrip` | `pkg/library/libraryapplyconfiguration/directory_apply_configuration.go:67-85` | the results read back from a run's output are those of the run, field by field, an empty list of errors excepted, and the very same exactly if there are any and none has such a list |
| `DirectoryResult.NewApplyConfigurationFromDirectory` | `pkg/library/libraryapplyconfiguration/directory_mutations.go:35-74` | nil exactly when a cluster type's directory is no directory or some file in it cannot be read, else what the files of each read as |
| `DirectoryResult.CheckEntries` | `pkg/library/libraryapplyconfiguration/directory_apply_configuration.go:121-141` | an error for exactly the entries that are neither a log, the results nor a cluster type's directory |
| `DirectoryResult.UnexpectedExactly` | `pkg/library/libraryapplyconfiguration/directory_apply_configuration.go:121-141` | the entries expected, name by name |
| `DirectoryResult.NewApplyConfigurationResultFromDirectory` | `pkg/library/libraryapplyconfiguration/directory_apply_configuration.go:39-157` | anything wrong with the directory makes the result's own error and the returned one, with one error for exactly each file and each entry at fault, joined with the exec error; an exec error alone is returned beside a result without error |
| `DirectoryResult.WriteReadAgreement` | `pkg/library/libraryapplyconfiguration/directory_apply_configuration.go:116-156` | reading back what a run wrote finds something wrong exactly when it left a directory of unspecified requests or some cluster type's files cannot be read, its results field by field, and for each cluster type what the files written for it read as |
| `DirectoryResult.AllowedReadBack` | `pkg/library/libraryapplyconfiguration/directory_mutations.go:35-74` | where the requests written conflict in no way, a cluster type's directory can be read and reads as exactly the produced requests that its list allows |
| `DirectoryResult.LeftExactly` | `pkg/library/libraryapplyconfiguration/options.go:68-72` | only a run that produced something unspecified leaves such a directory, and it does if it can write |
| `Harness.EquivalentApplyConfigurationResultIgnoringEvents` | `pkg/library/libraryapplyconfiguration/equivalence.go:15-27` | no differences exactly for equal errors, equal controller results and equal requests per cluster type, each difference reported for its own part; a panic exactly for a nil configuration |
| `Harness.RunTest` | `pkg/test/testapplyconfiguration/tester.go:167-293` | passed exactly for the desired exit with the expected output, or no result and the desired non-zero exit; in replace mode exactly if the directories could be replaced; a panic exactly for a nil configuration that is compared |
| `Harness.ExitCodeIsKept` | `pkg/test/testapplyconfiguration/tester.go:219-262` | the exit code a test sees is that of the execution, whatever else was wrong with the output, and none without an exit error |
| `Harness.RunSuite` | `pkg/test/testapplyconfiguration/tester.go:60-165` | success exactly when every test was executed and went well, the report was written and nothing was cancelled; a panic exactly when some test panics before a cancellation |
| `Harness.UnspecifiedOutputNeverPasses` | `pkg/test/testapplyconfiguration/tester.go:273-292` | a run that began to write unspecified requests passes no test, whatever exit is desired and whatever else was written |
| `Harness.RunPassesExactly` | `pkg/test/testapplyconfiguration/tester.go:208-292` | a run whose other writes completed passes exactly the tests that desire its exit and expect its own results, empty lists of errors excepted, and, per cluster type, what its files read as, events aside, and none if it left unspecified requests or unreadable files |
| `Harness.ConflictFreePassesExactly` | `pkg/test/testapplyconfiguration/tester.go:208-292` | where the requests written conflict in no way, a run passes exactly the tests that desire its exit and expect its own results, empty lists of errors excepted, and, per cluster type, the produced requests its list allows, events aside, unless it left unspecified requests |
| `Harness.UnspecifiedPassesExactlyUnwritten` | `pkg/test/testapplyconfiguration/tester.go:225-292` | a run that failed with an exit error passes some test exactly when it left no directory of unspecified requests and all cluster types' files can be read |
| `Harness.NoResultNeverPasses` | `pkg/applyconfiguration/execer.go:25-80` | an execution that gives no result gives no exit error either, so its test fails also if it desires a failure |
| `Harness.UnreadableOutputPanics` | `pkg/test/testapplyconfiguration/tester.go:219-241` | an exit error with an unreadable cluster directory in the output ends in a panic |
| `OperatorTest.OperatorResultsReadBack` | `pkg/library/libraryapplyconfiguration/options.go:74-80` | the canonical results of an operator come back from its output directory unchanged |
| `OperatorTest.OperatorPassesExactly` | `pkg/test/testapplyconfiguration/tester.go:208-292` | where the requests written conflict in no way, an operator passes exactly the tests that desire its exit and expect its canonical results and, for each of the three clusters, the requests its controllers make that the list of the cluster allows, events aside, unless it left unspecified requests |

## Left out

- `OutputFiles.OutputDirectory.WriteMutations`: a directory of requests is its regular files by path. How each write ends is given file by file; that one file's directory is another's file, which their names rule out, is not considered.
- `MutationFiles.ReadMutationDirectory`: a file of a directory of requests that exists can be read; a directory in which one cannot is broken as a whole. The YAML of metadata, the kind that decoding a body gives and the hash are parameters.
- `MutationRoundTrip.ReadsBackExactly`, `MutationRoundTrip.SharingExactly`, `MutationRoundTrip.MistakesExactly` and `WriteOrder.ByActionsFiles`: stated for plain requests, whose names hold no slash and no line break.
- `Controllers.RunOnce`: informers, contexts and timeouts are not modelled.
- `Controllers.ShuffleNamedRunOnce`: the random choice is an arbitrary one.
- `StableSort.SortStable`: the library sorts longer slices by merging sorted blocks; insertion sort stands for both, since the stable sort is proved to be unique.
- `Harness.RunTest`: running the operator and reading the expected output are given as results. Expected output returned without an error is taken to carry none, as `DirectoryResult.NewApplyConfigurationResultFromDirectory` shows. In replace mode only the verdict is modelled.
- `Harness.RunSuite`: the JUnit report is a flag for its being written, and cleaning up after a passed test is left out.
- `Replay.GetIsReplayed` and `Replay.ListIsReplayed`: a location holding the other form of content (an object for a list, a list for an object) is a failed read; subresources, watches and special verbs in request parsing are not modelled.
- YAML, JSON, JSONPath and label selectors: encoding is taken to be faithful; evaluating a path and matching labels are parameters.
- The discovery files of a must-gather: discovery is a pair of maps, and which one serves a directory is a parameter.
- Texts of reasons and errors: tagged values. Equal errors are equal sequences of tags.
- `Start`, informer factories, controller adapters, the sample operator, `validation.go`, the easy constructors and the conversion of output to input: wiring, field checks and straight maps.
- Command wiring, flag binding, time parsing and process execution.
