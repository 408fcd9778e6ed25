# kommons in Dafny

A model of the parts of the kommons Kubernetes library that carry protocols, reconciliation logic
and text algorithms, with proofs of what they guarantee. The API server is a map from identity to
object whose calls may fail; everything the library learns from outside (answers, clocks,
schedules, templates, decoders) is a parameter over which the theorems quantify.

Check everything with `dafny verify dfyconfig.toml`.

## What is modelled

- **Eviction protocol** (`PodFate`, `EvictProtocol`, `EvictTheorems`, `EvictSoundness`,
  `EvictFailures`). The concurrent eviction of a
  list of pods is a transition system over atomic actions: workers, the result channel that holds
  one message, the deadline context and the polling collector. The theorems hold for every run,
  that is for every interleaving and every answer of the server.
- **Waiting for deletion** (`WaitForDelete`, `WaitTheorems`, `WaitSoundness`, `PodDeletion`). The polling loop is a loop proved
  against a recursive specification on input positions; the specification is proved to account for
  every position exactly once. The worker's polling in the protocol is proved to be this loop on one
  pod.
- **Selection and drain** (`DrainFilters`, `NodeDrain`). The filter chain is proved to decide one
  condition stated without the chain; a drain addresses only pods that meet it.
- **Eviction of a node** (`ClusterApi`, `PodEviction`, `NodeEviction`). Replica counts, claims,
  attachments and the order of requests over a whole run, on every error path. Each pod is drained by
  the drain model above.
- **Reconciler** (`Nested`, `Sanitizing`, `CopyImmutable`, `CopyTheorems`, `CopyCases`,
  `ClaimTheorems`, `Settling`, `RuntimeFields`, `CopyFields`, `Apply`, `ApplyAll`, `ApplyTheorems`). Objects are trees of nested maps. The laws
  of reading, writing and removing at paths give: the normaliser is idempotent, the copy takes over
  exactly the copied fields, applying converges, and when exactly applying twice sends nothing the
  second time.
- **Text** (`Documents`, `Manifests`, `Templatize`, `DnsName`). Document splitting and line-break
  normalisation, the patch loop with its exact termination condition, name truncation.
- **Small stateful cores** (`EnvCache`, `Conditions`, `LogStreams`, `Health`).

## What the proofs brought to light

Each item is a property of the code as it is; where a natural expectation fails, the lemma named
states exactly when it holds.

- A claim that declares `spec.resources.requests` shares one spec map with the server's copy from
  the first assignment on (apply.go:58-63). No change of its spec, a resize included, is ever seen as
  a difference: `ClaimSettledIff`, `ResizeGoesUnnoticed`. Convergence holds except for such a missed
  resize: `ConvergesIff`.
- A load balancer that gains a port makes the copy panic: `CopyPanicsIff`, `AddedPortPanics`.
- A field that is always copied (of services, service accounts and secrets) although the server's
  copy lacks it arrives as a null and is a difference for ever, and so is a difference in the ports
  that merging does not mend: `SettledIff` says exactly when an object is left alone.
- Ports are copied for load balancers only (apply.go:46). A service of another type whose ports the
  server completed, with node ports for one, is updated at every application:
  `OtherPortsNeverSettle`, `AssignedNodePortDiffers`.
- `EvictNode` returns nil without having done anything exactly when the first call, which makes the
  client, fails (evict.go:107-110). A nil result means that every evictable pod was drained exactly if
  that call succeeded or there was no such pod, and likewise for the attachments: `EvictNode`.
- The scale-up looks at the first ReplicaSet owner only but changes all of them. Counts are restored
  exactly when all owners asked for one replica: `RestoredIff`, `SecondOwnerLosesReplicas`.
- The list of rejected pods is always empty, since items are recorded only for pods that may be
  deleted (drain/drain.go:176-197); the comment at drain/drain.go:154-157 that errors can be obtained
  does not hold: `ChosenReports`. A drain therefore returns nil although pods were left behind:
  `DrainLeavesUnmanagedPod`. When it returns nil, every listed pod was asked to go exactly if every
  one passes all five filters: `RunNodeDrain`.
- A failed lookup that comes with an object of another identity is taken for a deletion
  (drain/drain.go:338). A drain can therefore return nil although no pod was ever found gone:
  `NilWithoutEvidence`, `NilWithoutSight`. It means what it says exactly when no lookup misled it so:
  `SoundIffNotMisled`, `WaitSoundIff`.
- `templatizePatch` never returns when the stream tails off in two empty documents, or is empty:
  `EndsIff`, `NeverEnds`.
- Normalising line breaks drops the blank lines of a text that has plain line feeds already:
  `UnchangedIff`, `RunHalves`.
- A DNS name may be 41 bytes long: `LengthIff`, `FortyOneBytes`.
- The key of the env cache holds neither namespace nor separators, so different references can share
  an entry: `ReferencesThatCollide`; `SafeIffKeysIdentify` says exactly for which sets of requests
  that is harmless.
- A condition's heartbeat is stored only together with a change of status, so both stored times are
  always equal: `RecordIsFaithful`. It is that of the latest call exactly when that call changed the
  value: `HeartbeatCurrentIff`.
- A health report made after a failed listing looks like one without pods: `FailureLooksDegraded`.

## Model

| member | source | states |
|---|---|---|
| PodFate.FailedCallJudgedGone | drain/drain.go:337-344 | a failed lookup is judged "gone" exactly when it comes with an object of another uid; otherwise it is the error |
| PodFate.JudgeMeans | drain/drain.go:337-349 | what each judgement says of the answer: gone, failed, skippable (a skip time is set and the deletion lies further back) or pending |
| PodFate.NeverSkippedByDefault | drain/filters.go:247-251 | without a skip time no answer is judged skippable |
| PodFate.SkipExamples | drain/filters.go:247-251 | a pod deleted ten seconds ago: pending by default and at a skip time of ten, skippable a second later |
| EvictSoundness.OneEvidence | drain/drain.go:248-277 | in every run a pod gets at most one answer that ends its worker cleanly |
| EvictSoundness.SoundIffNotMisled | drain/drain.go:226-299 | in every returned run: every pod was truly missing, gone or skippable iff the result is nil and no failed lookup was taken for a deletion |
| EvictSoundness.NilWithoutEvidence | drain/drain.go:335-342 | a concrete run that returns nil although the only lookup of the pod failed |
| EvictSoundness.NilRunWithoutSkips | drain/drain.go:226-299 | without a skip time a nil eviction was told of every pod that it is missing, or shown another one |
| EvictFailures.FailsIffCaused | drain/drain.go:239-277 | in every run a worker ends with an error iff one of its actions was the cause: the deadline before a request, a refusal other than too many requests, a failed lookup, the deadline or the poll timer after a round |
| EvictFailures.CauseOf | drain/drain.go:239-277 | that action, with the part of the run before it |
| EvictFailures.CollectedIffCaused | drain/drain.go:281-298 | on return an error is among the collected ones iff some worker's action was its cause |
| EvictFailures.ThrottledIsRetried | drain/drain.go:254-256 | concretely, a pod refused for too many requests is asked again, and the run returns nil |
| EvictProtocol.StepInv | drain/drain.go:226-299 | every atomic action keeps the invariant: finished workers = results counted + message in the channel, and the collected errors are, as a multiset, those handed over |
| EvictProtocol.RunInv | drain/drain.go:226-299 | the invariant holds after every run from the start |
| EvictTheorems.SendsOnce | drain/drain.go:237-279 | in every run a worker sends at most once, and exactly once if it has finished |
| EvictTheorems.CleanIffWitnessed | drain/drain.go:248-277 | a worker's result is nil exactly when its pod was at some moment judged missing, gone or skippable |
| EvictTheorems.CollectorReturns | drain/drain.go:281-298 | on return every worker has finished its send, the channel is empty, the errors are exactly the workers' non-nil results, and there are none iff every pod was judged missing, gone or skippable at some moment |
| EvictTheorems.AskedFirst | drain/drain.go:239-277 | no pod is waited for or found resolved before it was asked to go |
| EvictTheorems.NeverStuck | drain/drain.go:239-296 | every reachable unfinished state has an enabled action that makes progress |
| EvictTheorems.RankStep | drain/drain.go:239-296 | after the deadline every progress action lowers the rank and no other action raises it |
| EvictTheorems.DeadlineBoundsRun | drain/drain.go:239-296 | after the deadline at most 5n + 2 progress actions remain, whatever the server answers |
| EvictTheorems.DeadlineBoundsCalls | drain/drain.go:239-279 | after the deadline each worker issues at most one eviction request and one poll round |
| EvictTheorems.FairRecurs | drain/drain.go:237-296 | if no goroutine that stays able to act is passed over for ever, progress recurs until the collector returns |
| EvictTheorems.EventuallyReturns | drain/drain.go:281-298 | under such scheduling the collector returns once the deadline has passed |
| WaitForDelete.Poll | drain/drain.go:334-353 | one round: the new pending list, the pods reported done, the getter error and the number of lookups, as specified on positions |
| WaitForDelete.WaitForPods | drain/drain.go:332-365 | the whole loop returns the list, the error and the done callbacks of the specification |
| WaitTheorems.PollBooks | drain/drain.go:335-351 | a round splits the positions it has looked at into pending, done and skipped, disjointly and in order |
| WaitTheorems.RoundJoins | drain/drain.go:335-352 | joining a round to the books keeps them: nothing reported twice, nothing lost |
| WaitTheorems.WaitAccountsForAll | drain/drain.go:332-365 | every input position ends as exactly one of pending, done, skipped; nil leaves none pending, expiry returns exactly the unresolved ones, a getter error the list of the round before |
| WaitTheorems.WaitWitnessed | drain/drain.go:338-349 | every position reported done was judged gone and every skipped one judged skippable by some lookup of this wait |
| WaitTheorems.NilWaitIsSound | drain/drain.go:332-365 | a nil error means each pod was judged gone or skippable by some lookup |
| WaitTheorems.WorkerPollsAsWait | drain/drain.go:259-277 | the protocol's polling actions of one worker come to the outcome of the polling loop on that single pod |
| WaitSoundness.WaitFresh | drain/drain.go:332-365 | every position is resolved by at most one lookup, and what a wait leaves open no lookup has resolved |
| WaitSoundness.WaitSoundIff | drain/drain.go:332-365 | every pod was truly gone or skippable iff the wait ends without an error and no failed lookup was taken for a deletion |
| WaitSoundness.NilWithoutSight | drain/drain.go:337-342 | a concrete wait that returns nil although its only lookup failed |
| WaitSoundness.NilWaitWithoutSkips | drain/drain.go:332-365 | without a skip time a nil wait was told of every pod that it is missing, or shown another one |
| PodDeletion.DeletePods | drain/drain.go:301-330 | deletes in order and stops at the first failure other than not-found; nil only if all were deleted and then judged gone or skippable, truly so iff no lookup misled the wait |
| DrainFilters.ScanAllows | drain/filters.go:202-212 | the claim scan passes iff every mounted claim could be read and has a set class without "local" |
| DrainFilters.FiltersDecide | drain/filters.go:140-258 | all five filters pass iff the pod is drainable: not long deleted, no mirror pod, no unfinished DaemonSet pod unless orphaned and forced, no local claim, emptyDir and unmanaged pods only when finished or allowed |
| DrainFilters.DeletionIgnoredByDefault | drain/filters.go:247-258 | without a skip time the verdict does not depend on the deletion timestamp |
| DrainFilters.SkipAndMirrorExamples | drain/filters.go:192-258 | concretely, what these filters say of one pod, word for word |
| DrainFilters.DaemonSetExamples | drain/filters.go:160-190 | the same for the DaemonSet filter |
| DrainFilters.StorageExamples | drain/filters.go:199-229 | the same for the local storage filter |
| DrainFilters.UnreplicatedExamples | drain/filters.go:231-245 | the same for the last filter |
| DrainFilters.FilingExamples | drain/filters.go:59-90 | concretely, under which message and name a pod is filed |
| DrainFilters.FilterPod | drain/drain.go:173-183 | the short-circuiting chain accepts iff the pod is drainable, and then reports the last filter's status |
| DrainFilters.SelectPods | drain/drain.go:171-190 | the selection is the sublist of drainable pods in listing order with the last filter's status |
| DrainFilters.SelectedFacts | drain/drain.go:184-189 | every selected item may be deleted, is okay or carries the unmanaged warning exactly when unfinished and uncontrolled, and was listed and drainable |
| DrainFilters.Pods | drain/filters.go:49-57 | the pods of the deletable items, in order |
| DrainFilters.DeletableIff | drain/filters.go:49-57 | the deletable items are exactly those of the list that may be deleted |
| DrainFilters.NothingDropped | drain/filters.go:49-57 | nothing is dropped from a list whose items may all be deleted |
| DrainFilters.Group | drain/filters.go:59-90 | files every item of a reason under its own message, in order, and nothing else |
| DrainFilters.DrainableIsSelected | drain/drain.go:171-190 | every listed pod that passes all filters is selected |
| EvictTheorems.SomeRunReturns | drain/drain.go:226-299 | every list of pods has a run that returns |
| NodeDrain.FaithfulExists | drain/drain.go:202-224 | what the drain theorems ask of their surroundings can always be met |
| NodeDrain.CleanRunAsksAll | drain/drain.go:226-299 | an eviction that ends without an error has asked every pod to go and seen it resolved, truly so iff no lookup misled it |
| NodeDrain.DeleteOrEvictPods | drain/drain.go:202-224 | requests go only to the given pods; nil only if every pod was asked to go and resolved, truly so iff no lookup misled the run; nil exactly when discovery answers and the eviction or deletion ends without an error; an empty list sends nothing; a failed discovery is reported and sends nothing |
| NodeDrain.ChosenReports | drain/drain.go:192-198 | a selection has no errors to report, and warns of unmanaged pods only |
| NodeDrain.ChosenAreListed | drain/drain.go:171-190 | the selected pods are exactly the listed ones that pass all five filters |
| NodeDrain.DrainLeavesUnmanagedPod | drain/default.go:33-48 | concretely, one running pod without owners, drained without force: nil, nothing asked, although the last filter calls it an error |
| NodeDrain.RunNodeDrain | drain/default.go:33-48 | requests go only to listed pods that pass all filters; nil only if every selected pod was asked to go and resolved, truly so iff no lookup misled the run; a nil result has asked every listed pod iff every one passes the filters; the warnings name exactly the selected unmanaged pods |
| Kube.ContainsSplits | drain/filters.go:209 | a text that contains another has it between two others |
| Kube.ControlledIff | drain/filters.go:167-170 | a pod is controlled by the first owner marked as controller, and by no other |
| PodEviction.EvictableIff | evict.go:35-37 | a pod is left alone iff an owner is a Node, it is finished, it is being deleted, or a DaemonSet controls it |
| PodEviction.EvictableExamples | evict.go:35-37 | concretely, one pod for each case and two that are evicted |
| PodEviction.RestoredIff | shortcuts.go:519-545 | scaling to two and back restores the counts iff every owner asked for one |
| PodEviction.SecondOwnerLosesReplicas | shortcuts.go:519-545 | concretely, a second owner that asked for three replicas is left with one |
| PodEviction.GetPodReplicas | shortcuts.go:290-307 | the first ReplicaSet owner's count, or one without an owner |
| PodEviction.ScalePod | shortcuts.go:519-545 | on success every owner has the count and nothing else changed; on failure only a proper prefix of the owners was set |
| PodEviction.RecycleClaims | evict.go:73-102 | on success every local claim of the pod was recreated blank and no other claim changed; on failure at most one claim, a local one, is missing or terminating |
| PodEviction.EvictScaled | evict.go:61-103 | at most one drain is begun, at the current replica counts; success implies that it was and that it ended without an error; a Postgres leader, and only that, is asked to hand over first |
| PodEviction.EvictPod | evict.go:34-104 | on every path: nothing is sent for a pod that is to be left alone, by its fields; at most one drain is begun, and not while a single owner asks for one; no claim is touched before the drain has ended; on success an evictable pod was drained and its claims recreated, on failure recreation broke off at one claim at most; the replica counts are as before, partly scaled up, all at one, or with a warning partly scaled back, and without a warning a success leaves them as before iff there was no scaling or every owner asked for one; if every call succeeds and what the pod refers to exists, it succeeds |
| NodeEviction.RemoveVolumeAttachment | unsafe.go:14-36 | success removes the attachment; failure leaves it, at most without finalizers; no other attachment changes |
| NodeEviction.DetachVolumes | evict.go:126-138 | success leaves exactly the attachments of other nodes; those never change |
| NodeEviction.DetachmentsFollow | evict.go:120-138 | detachments logged after a complete pod phase come after every pod was finished with |
| NodeEviction.EvictPods | evict.go:120-124 | pods are evicted in order; on success exactly the evictable ones were drained and every local claim they mount was recreated; on failure at most one such claim is missing or terminating |
| NodeEviction.EvictNode | evict.go:106-141 | over a whole run: no drain is begun of a pod that is to be left alone, by its fields, and a success with a client drained every other pod; on success every evictable pod was drained iff the first call made a client or there was no such pod, and likewise for the node's attachments; claims recreated on success, at most one missing or terminating on failure; attachments of other nodes untouched, detachments only after all pods, no drain begun while a single owner asks for one, counts restored; if every call succeeds and what the pods refer to exists, it succeeds |
| Nested.RemovesCommute | apply.go:88-108 | removals at any two paths commute |
| Nested.RemoveAllAgain | apply.go:88-108 | removing a list of paths twice is removing it once |
| Nested.RestoreAll | apply.go:31-85 | maps that agree outside some paths become equal when one takes the other's values there |
| RuntimeFields.RuntimeFieldsGone | apply.go:94-106 | after sanitising none of the thirteen runtime fields, named one by one, is there |
| RuntimeFields.RuntimeEditsForgotten | apply.go:94-106 | an edit of one of them is not seen, where there is a map that can hold it |
| RuntimeFields.OtherFieldsKept | apply.go:88-108 | every path unrelated to them and to the annotations is kept |
| RuntimeFields.AnnotationsKept | apply.go:91-104 | of a string map of annotations all but the three runtime ones are kept; anything else there is replaced by an empty map |
| Sanitizing.SanitizeIdempotent | apply.go:88-108 | sanitising is idempotent |
| Sanitizing.SanitizeAfterPut | apply.go:88-108 | an edit at a path that sanitising does not touch commutes with it |
| Sanitizing.SanitizeDropsRuntime | apply.go:88-108 | an edit of a runtime metadata field leaves no trace after sanitising |
| Sanitizing.SanitizeAnnotation | apply.go:72-76 | setting an annotation to another object's value is taking over that object's sanitised value, kept or dropped |
| CopyImmutable.SanitizeForgetsIdentifiers | apply.go:110-117 | neither copying nor stripping the five identifiers changes the sanitised object |
| CopyFields.IdentityCarried | apply.go:79-84 | version, link, uid, creation time and generation are those of the server's copy, absent where that has none; finalizers too |
| CopyFields.StrippedFields | apply.go:110-117 | the five identifiers are gone and every path unrelated to them is unchanged |
| CopyFields.AnnotationsCarried | apply.go:72-76 | each immutable annotation of the server's copy is carried over and no other changes |
| CopyFields.ServiceCopied | apply.go:35-45 | a service takes the named spec fields from the server's copy, the health check port if set there, and keeps all others |
| CopyFields.LoadBalancerPortsCopied | apply.go:46-54 | each desired port of a load balancer, with the server's node port if that is set |
| CopyFields.ServiceAccountCopied | apply.go:56-57 | the secrets are the server's and all but the metadata is kept |
| CopyFields.ClaimCopied | apply.go:58-63 | a claim that declares requests keeps these and takes the rest of the server's spec |
| CopyFields.SecretCopied | apply.go:64-65 | the type is the server's and all but the metadata is kept |
| CopyFields.DefinitionCopied | apply.go:66-70 | the conversion webhook is the server's, if that is a map, and all else is kept |
| CopyFields.OthersKeep | apply.go:31-85 | every other object keeps all but its metadata |
| CopyTheorems.CopyTakesOver | apply.go:31-85 | sanitised, the copy is the desired object with the server's values at exactly the copied paths |
| CopyTheorems.CopiedPathsFlat | apply.go:31-85 | no copied path runs through another |
| CopyTheorems.NoDiffIffAgrees | apply.go:157-184 | after the copy no difference is left iff the objects agree outside the copied and runtime fields |
| CopyTheorems.StoredAgrees | apply.go:267-305 | what a well-behaved server stores agrees with the desired object outside the copied fields |
| Settling.SettledIff | apply.go:31-85 | an object that is no claim with requests is left alone iff the server's copy holds every field that is always copied, merging gives its load balancer ports, and all else agrees |
| Settling.StatusIgnored | apply.go:105 | whatever status the server's object carries, it is left alone or not just the same |
| Settling.OtherPortsNeverSettle | apply.go:46-54 | a service that is no load balancer and whose ports differ on the server is never left alone |
| Settling.AssignedNodePortDiffers | apply.go:46-54 | concretely, a node port service with one port to which the server assigned a node port |
| CopyCases.MergePanicsIff | apply.go:46-54 | the port loop panics iff a desired port lacks a counterpart, or has an ill-shaped one or is ill-shaped itself where a node port is set |
| CopyCases.CopyPanicsIff | apply.go:35-55 | the whole copy panics iff it is of a service, and a spec map is missing or the load balancer ports do not fit |
| CopyCases.AddedPortPanics | apply.go:46-54 | concretely, a load balancer with one port that gains a second one |
| CopyCases.MergeSettlesIff | apply.go:46-54 | merging ports with the server's gives the server's list iff lengths agree and ports differ in node ports only |
| CopyCases.StoredPortsSettle | apply.go:46-54 | ports stored by a server that assigns node ports settle at the next merge |
| CopyCases.ClaimCopyEditsServerCopy | apply.go:58-63 | copying into a claim that declares requests writes those requests into the server's copy |
| CopyCases.ClaimConvergesIff | apply.go:58-63 | such a claim found unchanged meets the desired one iff it already asked for those requests or cannot hold any |
| CopyCases.ResizeGoesUnnoticed | apply.go:58-63 | a claim that differs in its requests only is found unchanged although it differs |
| ClaimTheorems.ClaimSettledIff | apply.go:58-63 | such a claim is left alone iff all but its spec and the copied fields agree |
| ClaimTheorems.StoredClaimSettles | apply.go:58-85 | whatever was sent for such a claim, the stored copy is left alone the next time |
| Apply.Unstructured.Sanitize | apply.go:88-108 | the in-place edits come to the sanitising function |
| Apply.Unstructured.SetAnnotation | apply.go:370-377 | the in-place edit sets one annotation, starting a new map if there is no string map |
| Apply.Unstructured.StripIdentifiers | apply.go:110-117 | the five identifiers are absent afterwards and every path unrelated to them is unchanged |
| Apply.CopyServiceInto | apply.go:35-55 | the in-place service copy comes to the copy function and panics exactly where that has no value |
| Apply.CopyClaimInto | apply.go:58-63 | the assignment that shares the spec map and the write that shows in both objects |
| Apply.CopyImmutableInto | apply.go:31-85 | the in-place copy changes both objects as the copy function says, shared claim spec included, and panics exactly where that has no value; the object that is sent carries the server's identity, read field by field |
| Apply.HasChanges | apply.go:157-184 | a difference is reported iff the sanitised objects differ, and neither object is changed |
| Apply.ReplacementExamples | apply.go:142-151 | which kind goes with which message, by example |
| Apply.UpdateOrReplace | apply.go:291-305 | an accepted update is the only write; a refusal other than an immutable field or role reference ends with no change; otherwise delete and recreate without identifiers, each error exactly when that call is refused; the object is lost only with the recreate-failed error |
| Apply.ApplyOne | apply.go:256-305 | success leaves the object skipped or admitted from the copy; failure changes nothing unless recreation failed; success without a write means a settled object, which causes none; it succeeds if lookups are answered, no call is refused and the copy does not panic |
| ApplyAll.Untouched | apply.go:213-316 | working on one object leaves the earlier and the unnamed ones as they were |
| ApplyAll.ApplyObjects | apply.go:208-319 | for distinct identities: unnamed objects untouched, every named one reached, nothing lost but by a failed recreation, dry run changes nothing, no write is sent iff all were settled (lookups answered); it succeeds if besides no call is refused and no copy panics |
| ApplyTheorems.ConvergesIff | apply.go:267-305 | whichever way was taken, the stored object sanitises to the copy of the desired one, with the exact exception of a missed resize |
| ApplyTheorems.SettlesAfter | apply.go:267-305 | what a server stores that keeps all but runtime and copied fields leaves nothing to change the next time; load balancers with node ports and claims included, other services only as far as their ports are stored as sent |
| ApplyTheorems.ApplyTwice | apply.go:208-319 | a second application sends no create, update or delete iff what the first one stored is settled, as it is on such a server |
| Documents.SplitIsLossless | utils.go:657-660 | joining the chunks with the separator gives the text back |
| Documents.SplitAfterJoin | utils.go:657-660 | splitting a join of line-ended documents without separator lines gives them back |
| Documents.RoundTripIff | utils.go:657-660 | the documents come back iff they are such documents |
| Documents.BytesToUtf8Lf | kustomize/kustomize.go:190-204 | no carriage return is left; the text is unchanged iff it had none and no blank line; the CRLF form of a text gives that text |
| Documents.CrlfRoundTrip | kustomize/kustomize.go:199-203 | the CRLF form of a text without carriage returns normalises to that text |
| Documents.RunHalves | kustomize/kustomize.go:199-203 | a maximal run of n line breaks of either kind becomes n/2 line feeds, rounded up, wherever it stands |
| Documents.UnchangedIff | kustomize/kustomize.go:199-203 | a text is unchanged iff it has no carriage return and no blank line |
| Manifests.ObjectsInAppends | utils.go:660-673 | the objects come in the order of their chunks, and one malformed chunk spoils all |
| Manifests.ObjectsInOne | utils.go:660-673 | a blank chunk gives nothing, any other what the decoder makes of it |
| Manifests.BlankBetween | utils.go:660-673 | two objects with a blank chunk between them |
| Manifests.MalformedSpoils | utils.go:667-669 | one malformed chunk anywhere is an error |
| Manifests.SpacesAre | utils.go:661-663 | the characters that count as blank, by code point |
| Manifests.GetUnstructuredObjects | utils.go:657-676 | the objects of the chunks that are not blank, in order, or an error if one is malformed |
| Manifests.GetKustomizeObjects | kustomize/kustomize.go:165-188 | the same of the normalised text |
| Manifests.SameObjects | kustomize/kustomize.go:165-188 | the kustomize reader on the CRLF form sees what the plain reader sees on the text |
| Templatize.TurnOnDocuments | helper.go:135-141 | one turn takes the first of the leftmost split of the stream at the markers |
| Templatize.EndsIff | helper.go:86-108 | the loop ends iff a document is bad, or the last document or the one before it is not empty |
| Templatize.TemplatizePatch | helper.go:86-108 | when it ends, the result is the fold over the non-empty documents, or the error at the first bad one |
| Templatize.ResultIsJoin | helper.go:99-103 | where every document and its text are not empty, the result is the texts joined by separator lines, in order |
| Templatize.TwoDocuments | helper.go:86-108 | concretely, two documents |
| Templatize.NeverEnds | helper.go:86-108 | the empty stream and a lone marker never end |
| DnsName.GetDNS1192Name | utils.go:711-748 | the cleaning steps and the word loop come to the closed form |
| DnsName.TruncateAtWords | utils.go:726-747 | the word loop cuts at the last dash that leaves at most 40 bytes |
| DnsName.NameIsClean | utils.go:711-748 | only slug characters, no double dash, no dash at either end |
| DnsName.LengthIff | utils.go:711-748 | at most 40 bytes, except exactly for cleaned slugs of 41 bytes with a dash |
| DnsName.WordFolds | utils.go:717-723 | a word of letters and digits keeps its length, digits and small letters, and its capitals become the small ones |
| DnsName.ForeignCapitals | utils.go:717 | the two signs outside ASCII that fold into it |
| DnsName.NameExample | utils.go:717-723 | concretely, a capital, spaces around, and two characters in a row that are not allowed |
| DnsName.FortyOneBytes | utils.go:711-748 | concretely, 39 letters, a dash and a letter are returned whole |
| DnsName.Idempotent | utils.go:711-748 | naming a name changes nothing |
| DnsName.LongestWholeWords | utils.go:726-747 | a shortened name is the longest prefix of whole words that fits, or 40 bytes of a first word that is too long |
| EnvCache.Cache.GetEnvValueFromCache | shortcuts.go:369-382 | answers and stores as the step function says; errors are not stored |
| EnvCache.AnswersWereFetched | shortcuts.go:369-382 | every answer was read by this call or an earlier one with the same key and is within that call's expiry |
| EnvCache.AlwaysDirectIff | shortcuts.go:369-415 | in an unchanging cluster cached answers are the direct ones in every history iff requests that share a key agree on the value |
| EnvCache.SafeIffKeysIdentify | types.go:56-68 | that is so in every cluster iff requests that share a key name the same value, or the same key of the same secret or config map in one namespace |
| EnvCache.KeysCollide | types.go:56-68 | a second namespace, or a secret whose name and key join to the same text, gets a wrong answer as soon as the values differ |
| EnvCache.ReferencesThatCollide | types.go:56-68 | two concrete secret references of one namespace that share a key and have different values |
| EnvCache.SecondCallAnswers | shortcuts.go:369-382 | a second call gets the first value while that lasts: five minutes by default, the caller's own time, or for ever; then the new one |
| EnvCache.KeyExamples | types.go:56-68 | concretely, what the key joins |
| EnvCache.TwoKeysAreSafe | types.go:56-68 | two keys of one secret that begin differently do not disturb each other |
| EnvCache.DirectExamples | shortcuts.go:384-415 | concretely, a literal value first, then a secret's key, then a config map's |
| Conditions.Item.SetCondition | conditions.go:67-124 | the stored list, the number of updates and the result of one call |
| Conditions.RecordIsFaithful | conditions.go:67-124 | after any history: types once and in first-set order, last values, and both times those of the first call in the latest unbroken run |
| Conditions.HeartbeatCurrentIff | conditions.go:90-100 | with growing times, the stored heartbeat is that of the latest call for the type iff that call changed the value |
| Conditions.UpdatesIffValueChanges | conditions.go:98-100 | the server is asked exactly for the calls that change the value |
| LogStreams.SelectedIff | client.go:514-518 | selected are the named containers, or all if no names are given |
| LogStreams.SelectedAppends | client.go:514-518 | in the order of the pod |
| LogStreams.Streamer.Visit | client.go:520-538 | a turn opens a stream or puts the container at the end of the list; streams and remaining containers stay the selected ones |
| LogStreams.Streamer.Walk | client.go:520-551 | the loop ends iff as many openings succeed as containers were selected, each then opened exactly once and counted once by the wait group |
| Health.GetHealth | health.go:35-65 | the four counters are the counts of the four classes, or the report of a failed listing |
| Health.CountersSum | health.go:46-63 | the counters add up to the pods neither deleted nor of negative priority |
| Health.CountAppends | health.go:46-63 | counts are additive over concatenation |
| Health.NotDegradedWithin | utils.go:634-650 | lists that differ in at most k pods are not degraded against each other at any tolerance of at least k |
| Health.LossShowsAtZero | utils.go:638-650 | the loss of one running pod shows at tolerance zero |
| Health.RiseShowsAtZero | utils.go:634-650 | one further pod shows at tolerance zero iff it is waiting, failing or crashing; the other way round iff it is running |
| Health.ClassExamples | utils.go:550-579 | concretely, one pod for each class and the tests that decide |
| Health.CrashingIsUnhealthy | utils.go:491-498 | a crashing container, the first or a later one, makes a pod unhealthy |
| Health.DegradedExamples | utils.go:638-650 | concretely, what degrades a report, unready nodes at any tolerance |
| Health.FailureLooksDegraded | health.go:37-44 | the report of a failed listing is degraded against one with more running pods than the tolerance, and only then |

## Left out

- HTTP and Kubernetes clients, REST mapping, impersonation, exec, log reading and printing: only
  calls that succeed or fail are kept.
- YAML and JSON codecs: printing is taken to be injective, decoding and templating a document are
  function parameters. The UTF conversion is taken to be the identity.
- Text is a sequence of characters; a byte count is a character count, which agrees for the ASCII
  slugs of `DnsName`. Of Unicode case folding only what maps into ASCII is kept.
- The preparation of an object inside Apply (mapping, defaults, kustomize, hooks) is the given
  `Plan` of each object; with it the in-place edits of the caller's own object, which the copy makes
  when conversion shares maps.
- The nested maps of one object are one value in a field of the `Unstructured` class. The single
  aliasing between two objects, the spec of a claim, is modelled as an edit of both.
- ConvergesIff: assumes a server that changes only runtime fields of what it accepts.
- SettlesAfter: assumes a server that keeps all but runtime and copied fields, keeps node ports, and
  holds the fields that are always copied; without these the property fails, and `SettledIff` and
  `ClaimSettledIff` say when.
- ApplyTwice: assumes that lookups are answered; a failed lookup is taken by the code for a
  missing object and leads to a create call.
- EvictScaled: the eviction requests of one drain, repeated after each refusal for too many requests,
  are logged as one; the protocol model counts them singly.
- EvictNode: assumes that a failed call has no effect and that nobody else changes the cluster
  meanwhile; an attachment or claim is written without a check of its version. Replica counts are
  unbounded integers and always set.
- TemplatizePatch: modelled as a method only for the streams on which the loop ends; the others are
  the subject of `EndsIff`.
- DaemonSetFilter: the wording of an API error is the model's own, where the code passes on the server's.
- Poll timers are counted in ticks; the first poll is immediate and one more round follows when the
  timer has fired. Clocks are whole seconds without saturation.
- FilterPod: label selection and the field selector by node name are the given listing.
- Group: the text built from the groups and the iteration order over them.
- The `OnPodDeletedOrEvicted` callback is the list of pods reported; what it does is not modelled.
- Walk: waiting for the container to start and for the pod to finish around the loop.
- GetEnvValueFromCache: the purge of expired entries, which no answer depends on.
- SetCondition: starts from a well-formed condition list; the JSON round trip through the object is
  the identity.
- Label and annotation writers, builders, wait.go, defaults.go, cordoning, proxies, test helpers and
  ktemplate: single calls or wrappers, which would add only easy members.
