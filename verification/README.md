# ActiveMQ Artemis operator: workload synchronisation, in Dafny

This project models the core of the ActiveMQ Artemis operator, a Kubernetes
operator that runs ActiveMQ Artemis brokers as StatefulSets. It proves
properties of that model.

**Synchroniser.** The heart of the model is the StatefulSet synchroniser.
`ActiveMQArtemisReconciler.Process` takes an `ActiveMQArtemis` custom resource
and the live StatefulSet and brings the StatefulSet in line with the resource,
one step at a time:

1. replica count;
2. clustering environment;
3. SSL key/trust store entries and the secret volume;
4. container image;
5. AIO/NIO journal flag;
6. persistence directories;
7. broker credentials.

Each step that changed something sets one bit in an update mask, which the
reconciler accumulates across calls.

**Environment-variable library.** The synchroniser is built on a library that
looks up, updates, creates, replaces and deletes named entries in the
containers' environment lists.

**Rest of the core:**
- the product-version tables and the upgrade checks;
- image-reference parsing;
- the defaulting of the resource;
- the security resource's applicability rule;
- the broker-management client's request builders and error classification;
- the name and label builders;
- the manifest builders: StatefulSet, Services, volumes, Secret, ConfigMap,
  and the product labels added to pods.

**How the model is written.**
- Go slices of containers that the library edits in place are Dafny arrays.
- The live StatefulSet and the reconciler are classes whose methods change
  their fields.
- Each method is proved equal to a pure function (`CheckSync`, `ClusterSync`,
  `SslSync`, …, `Reconcile`). The lemmas about those functions carry the
  properties, for example:
  - a second synchronisation reports nothing;
  - removal keeps every other entry;
  - the update mask only grows.
- The Go `remove` helper, which moves the last entry into the freed slot, is
  modelled exactly. The lemmas relate its backward sweep to the
  order-preserving filter.
- Go semantics are spelled out:
  - a map miss gives the empty string;
  - `strings.Split` of the empty string is `[""]`;
  - a nil map of labels is the empty map;
  - a nil annotation map is `None`, because the defaulting code tells it apart
    from an empty one.

**Modules, one per source file:**
- `Environments`, `Reconciler` (with the mask bits in `UpdateMask`);
- `Upgrade`, `Versions`, `Security`, `Artemis`, `Namer`, `Selectors`;
- `StatefulSets`, `Services`, `Volumes`, `Secrets`, `ConfigMaps`, `Pods`.

**Shared pieces:**
- `Kube` holds the API values;
- `GoStrings` holds the Go `strings`/`strconv` functions the code calls;
- `Wrappers` holds `Option`.

**Two corrected behaviours.** In the two places listed under "Findings", the
model proves the code as written wrong and `Process` uses the corrected
behaviour.

## Model

| member | source | states |
|---|---|---|
| Environments.FirstIndex | pkg/resources/environments/environment.go:306-315 | the position found is an entry with the name, and no earlier entry has it |
| Environments.SameNamesSameLookup | pkg/resources/environments/environment.go:306-315 | lists with the same names in the same places give the same answer to every name lookup, so editing values never moves a lookup |
| Environments.ResolveBrokerNameFromEnvs | pkg/resources/environments/environment.go:14-23 | the value of the first `AMQ_NAME` entry, or the default when there is none |
| Environments.Find | pkg/resources/environments/environment.go:306-315 | found exactly when some entry has the name, and then it is the first such entry |
| Environments.RetrieveFrom | pkg/resources/environments/environment.go:302-304 | `Find` over one container's entries: found iff present, at the first position |
| Environments.Retrieve | pkg/resources/environments/environment.go:287-300 | none iff no container holds the name; otherwise the first container that does, at the last matching entry of that container (the inner scan runs backwards) |
| Environments.Overwrite | pkg/resources/environments/environment.go:317-326 | one list after `Update`: same length; every entry with the name becomes the new entry and the others are unchanged |
| Environments.Update | pkg/resources/environments/environment.go:317-326 | every container's entries are overwritten as `Overwrite` says; nothing else in a container changes |
| Environments.TrackSecretCheckSumInRollCount | pkg/resources/environments/environment.go:243-251 | every `TRIGGERED_ROLL_COUNT` entry of every container becomes the checksum, with no secret source |
| Environments.Create | pkg/resources/environments/environment.go:253-258 | the entry is appended to every container, and nothing else changes |
| Environments.AppendOrExtend | pkg/resources/environments/environment.go:275-285 | an absent name is appended; a present one has its first entry's value extended by a space and the new value, and every other entry is kept |
| Environments.CreateOrAppend | pkg/resources/environments/environment.go:275-285 | every container is changed as `AppendOrExtend` says |
| Environments.SetValue | pkg/resources/environments/environment.go:260-273 | one in-place assignment keeps the list's length and every name and secret source; only a value can change |
| Environments.ReplaceValues | pkg/resources/environments/environment.go:260-273 | the in-place part of `ReplaceOrAppend` keeps every name and secret source, and the list's length |
| Environments.Absent | pkg/resources/environments/environment.go:260-273 | the appended part holds exactly the elements whose names the original list lacks |
| Environments.ReplaceOrAppend | pkg/resources/environments/environment.go:260-273 | the array (the caller's slice) is edited in place as `ReplaceValues` says; the returned slice is `SliceResult`: the list as it stood when the result last shared the array, whose spare capacity is `capacity - len`, followed by every element whose name the list lacks |
| Environments.ReplaceOrAppendOne | pkg/resources/environments/environment.go:264-271 | one pass of the loop keeps the link between the array, the result and `SliceResult` of the elements handled so far |
| Environments.SharedPrefix | pkg/resources/environments/environment.go:262-271 | the number of elements handled while the result shares the array never exceeds the number of elements |
| Environments.SharedPrefixSpec | pkg/resources/environments/environment.go:262-271 | the result stops sharing the array iff more elements are appended than there are spare slots, and it stops at an appended element that finds those slots all used |
| Environments.ReplaceOrAppendLosesLateWrite | pkg/resources/environments/environment.go:262-271 | with no spare capacity, `envs = [A=1]` and elements `B=2`, `A=3` leave the caller's list `[A=3]` but return `[A=1, B=2]` |
| Environments.ReplaceOrAppendWithRoom | pkg/resources/environments/environment.go:262-271 | when the spare capacity holds every appended element, the result is the edited list followed by the appended elements |
| Environments.ReplaceOrAppendStep | pkg/resources/environments/environment.go:264-271 | one element of the loop is one `SetValue` or one append |
| Environments.AbsentKeepsDuplicates | pkg/resources/environments/environment.go:264-271 | lookups go to the original list, so two elements with the same absent name are both appended |
| Environments.ReplaceValuesUntouched | pkg/resources/environments/environment.go:264-271 | an entry that is not the first with some element's name keeps its value |
| Environments.ReplaceValuesLastWins | pkg/resources/environments/environment.go:264-271 | of several elements with one present name, the last decides the value |
| Environments.Inspect | pkg/resources/environments/environment.go:193-201 | the container-0 scan reports presence and whether any entry with the name is out of date under the rule |
| Environments.BoolSyncCausedUpdateOn | pkg/resources/environments/environment.go:185-212 | nil exactly when container 0 holds the name and every such entry parses to the wanted flag (a parse failure reads false); otherwise the entry with the formatted flag and no secret source |
| Environments.StringSyncCausedUpdateOn | pkg/resources/environments/environment.go:214-241 | nil exactly when container 0 holds the name and every such entry has the wanted value; otherwise the entry to write |
| Environments.Remove | pkg/resources/environments/environment.go:179-183 | the last entry fills slot `i`, the list is one shorter, and the multiset loses exactly the removed entry |
| Environments.RemoveShape | pkg/resources/environments/environment.go:179-183 | a list of that shape has the multiset of the list minus the removed entry |
| Environments.Keep | pkg/resources/environments/environment.go:328-337 | the reference filter: an entry is kept iff it was there and its name is not removed |
| Environments.KeepCount | pkg/resources/environments/environment.go:328-337 | the filter keeps each surviving entry as often as it occurred |
| Environments.SweepFrom | pkg/resources/environments/environment.go:330-336 | the backward scan from position `j` never lengthens the list |
| Environments.Sweep | pkg/resources/environments/environment.go:328-337 | the whole backward scan never lengthens the list |
| Environments.SweepFromSpec | pkg/resources/environments/environment.go:330-336 | the backward scan from `j` leaves no removed name below `j`, and has the multiset of the filtered prefix plus the untouched suffix |
| Environments.SweepStep | pkg/resources/environments/environment.go:331-335 | one step of the backward scan keeps the invariant of `SweepFromSpec` |
| Environments.SweepStepDoomed | pkg/resources/environments/environment.go:332-333 | the same for a step that removes an entry |
| Environments.SweepStepKept | pkg/resources/environments/environment.go:331-332 | the same for a step that keeps an entry |
| Environments.SweepSpec | pkg/resources/environments/environment.go:328-337 | after the whole backward scan, no removed name is left, and the entries are a permutation of the filtered list |
| Environments.SweepMembers | pkg/resources/environments/environment.go:328-337 | an entry survives iff it was there and its name is not removed |
| Environments.SweepFromNoop | pkg/resources/environments/environment.go:330-336 | a scan over a list with no removed name changes nothing |
| Environments.SweepNoop | pkg/resources/environments/environment.go:328-337 | the same for the whole scan |
| Environments.SweepEnv | pkg/resources/environments/environment.go:331-335 | the backward removal loop equals `Sweep`; no removed name is left; the entries are a permutation of the filtered list; `removed` iff some entry had a removed name |
| Environments.Delete | pkg/resources/environments/environment.go:328-337 | every container's entries are swept of the name; nothing else changes |
| Environments.DeleteSpec | pkg/resources/environments/environment.go:328-337 | after `Delete` no entry has the name, and every other entry occurs as often as before |
| Environments.AddEnvVarForBasic | pkg/resources/environments/environment.go:25-106 | fifteen entries with distinct names, none taken from a secret |
| Environments.BasicLookups | pkg/resources/environments/environment.go:25-106 | looked up by name, the base list gives broker name `amq-broker` and carries the require-login, journal-type and ping-service arguments |
| Environments.AddEnvVarForPersistent | pkg/resources/environments/environment.go:108-124 | `AMQ_DATA_DIR` holding `/opt/<name>/data` (which never reads "false"), then `AMQ_DATA_DIR_LOGGING` holding "true", neither taken from a secret |
| Environments.AddEnvVarForCluster | pkg/resources/environments/environment.go:126-137 | one `AMQ_CLUSTERED` entry whose value parses back to the flag |
| Environments.AddEnvVarForJolokia | pkg/resources/environments/environment.go:139-150 | one entry, found under `AMQ_ENABLE_JOLOKIA_AGENT`, holding the argument |
| Environments.AddEnvVarForManagement | pkg/resources/environments/environment.go:152-163 | one entry, found under `AMQ_ENABLE_MANAGEMENT_RBAC`, holding the argument |
| Environments.AddEnvVarForMetricsPlugin | pkg/resources/environments/environment.go:165-176 | one entry, found under `AMQ_ENABLE_METRICS_PLUGIN`, holding the argument |
| Reconciler.Doomed | pkg/controller/activemqartemis/activemqartemis_reconciler.go:162-172 | a name is swept out iff some check has it and container 0 holds an out-of-date entry under it |
| Reconciler.Fresh | pkg/controller/activemqartemis/activemqartemis_reconciler.go:132-160 | an entry is written iff its check finds the name missing or out of date in container 0; the list is empty iff no check needs a write |
| Reconciler.SyncEnvSpec | pkg/controller/activemqartemis/activemqartemis_reconciler.go:162-180 | with nothing to write a container is unchanged; otherwise it ends with the written entries, after its entries whose names are not swept out, each kept as often as it was |
| Reconciler.SyncContainers | pkg/controller/activemqartemis/activemqartemis_reconciler.go:162-180 | every container sheds the removed names and receives the new entries; its name, image and mounts stay |
| Reconciler.CheckSync | pkg/controller/activemqartemis/activemqartemis_reconciler.go:104-183 | an update is reported iff some check needs a write in container 0; with no update the pod is unchanged; volumes, names, images and mounts are never touched |
| Reconciler.CheckSyncEstablishes | pkg/controller/activemqartemis/activemqartemis_reconciler.go:132-180 | with settling checks, after one sync container 0 holds every maintained name and no out-of-date entry under it |
| Reconciler.CheckSyncSettles | pkg/controller/activemqartemis/activemqartemis_reconciler.go:104-183 | so a second sync with the same settling checks reports no update |
| Reconciler.CheckSyncWritesEntry | pkg/controller/activemqartemis/activemqartemis_reconciler.go:132-180 | a check that finds its name missing or out of date in container 0 gets its entry into every container |
| Reconciler.SyncedEntrySettles | pkg/controller/activemqartemis/activemqartemis_reconciler.go:162-180 | for each check, the swept list plus the new entries leaves nothing to write |
| Reconciler.DoomedOwnName | pkg/controller/activemqartemis/activemqartemis_reconciler.go:162-172 | with distinct names, a check's name is removed iff that check found it out of date |
| Reconciler.SyncedEntryPresent | pkg/controller/activemqartemis/activemqartemis_reconciler.go:132-180 | after a sync, every maintained name is present in container 0 |
| Reconciler.SyncedEntryCurrent | pkg/controller/activemqartemis/activemqartemis_reconciler.go:132-180 | after a sync, no entry under a maintained name is out of date |
| Reconciler.SweptEntryCurrent | pkg/controller/activemqartemis/activemqartemis_reconciler.go:162-172 | an entry that survives the sweep under a maintained name is current |
| Reconciler.FreshEntryCurrent | pkg/controller/activemqartemis/activemqartemis_reconciler.go:132-160 | an entry that was written under a maintained name is current |
| Reconciler.SweepContainers | pkg/controller/activemqartemis/activemqartemis_reconciler.go:298-308 | every container with the named entries swept out, and nothing else changed |
| Reconciler.RemoveSync | pkg/controller/activemqartemis/activemqartemis_reconciler.go:298-309 | no container holds a removed name afterwards; an update is reported iff some container held one |
| Reconciler.RemoveSyncKeepsOthers | pkg/controller/activemqartemis/activemqartemis_reconciler.go:298-309 | an entry survives removal iff it was there and its name is not removed |
| Reconciler.ClusteredCheck | pkg/controller/activemqartemis/activemqartemis_reconciler.go:104-116 | the `AMQ_CLUSTERED` check writes the formatted flag, the entry `AddEnvVarForCluster` builds, and that entry passes its own rule |
| Reconciler.ClusterChecksAsWritten | pkg/controller/activemqartemis/activemqartemis_reconciler.go:118-149 | as written, the cluster user entry is judged by its value against the resource's cluster user, but written with an empty value |
| Reconciler.ClusterSyncAsWrittenNeverSettles | pkg/controller/activemqartemis/activemqartemis_reconciler.go:118-160 | with a non-empty cluster user, a pod whose cluster user entries have the value the sync writes is reported out of date, and the sync leaves it that way again |
| Reconciler.ClusterChecks | pkg/controller/activemqartemis/activemqartemis_reconciler.go:104-160 | corrected checks: settling, and `AMQ_CLUSTERED`, user and password entries exactly as the sync writes them |
| Reconciler.ClusterSync | pkg/controller/activemqartemis/activemqartemis_reconciler.go:72-198 | the cluster sync keeps the container count and the volumes |
| Reconciler.ClusterSyncSettles | pkg/controller/activemqartemis/activemqartemis_reconciler.go:72-198 | after the corrected sync, every `AMQ_CLUSTERED` entry of container 0 parses to the resource's flag and the user entry comes from the credentials secret; a second sync reports nothing |
| Reconciler.AddSecretMountsAsWritten | pkg/controller/activemqartemis/activemqartemis_reconciler.go:417-432 | the mount loop as written, with the "mount exists" flag never reset, keeps the container count |
| Reconciler.SecretMountsAsWrittenSkipsLaterContainers | pkg/controller/activemqartemis/activemqartemis_reconciler.go:417-432 | as written, a container after one that already has the mount is given none |
| Reconciler.AddSecretMounts | pkg/controller/activemqartemis/activemqartemis_reconciler.go:417-432 | corrected: every container ends with the secret mount; containers that had it are unchanged; entries and images stay |
| Reconciler.SecretMountsAgreeWithoutMounts | pkg/controller/activemqartemis/activemqartemis_reconciler.go:417-432 | where no container had the mount, the written and corrected loops agree |
| Reconciler.EnsureSecretVolumeMount | pkg/controller/activemqartemis/activemqartemis_reconciler.go:392-433 | the secret volume is appended (the existence check is disabled) and every container mounts it |
| Reconciler.SslSync | pkg/controller/activemqartemis/activemqartemis_reconciler.go:200-390 | keystore and truststore names are gone from every container; an update is reported iff any was there; then the secret volume is added and every container mounts it; with no update nothing changes |
| Reconciler.SslRemovalFacts | pkg/controller/activemqartemis/activemqartemis_reconciler.go:298-383 | removing the keystore names leaves the truststore names as they were; removing the truststore names brings no keystore name back; with neither present, nothing changes |
| Reconciler.RemovalKeepsOtherNames | pkg/controller/activemqartemis/activemqartemis_reconciler.go:298-309 | removing some names keeps whether any container holds a disjoint set of names |
| Reconciler.RemovalKeepsAbsence | pkg/controller/activemqartemis/activemqartemis_reconciler.go:298-309 | removal never introduces a name |
| Reconciler.RemovalOfAbsentNames | pkg/controller/activemqartemis/activemqartemis_reconciler.go:298-309 | removing names nobody holds changes nothing |
| Reconciler.SslSyncSettles | pkg/controller/activemqartemis/activemqartemis_reconciler.go:200-390 | a second SSL sync reports nothing |
| Reconciler.ImageSync | pkg/controller/activemqartemis/activemqartemis_reconciler.go:577-589 | an update iff container 0's image differs from the plan's; then every container has the plan's image; entries never change |
| Reconciler.ImageSyncSettles | pkg/controller/activemqartemis/activemqartemis_reconciler.go:577-589 | after the sync container 0 has the image, and a second sync reports nothing |
| Reconciler.AioExtraArgs | pkg/controller/activemqartemis/activemqartemis_reconciler.go:443-464 | nothing to rewrite iff the wanted flag's opposite (`--nio` for an AIO journal, `--aio` otherwise) is absent; a rewrite keeps the length and contains the wanted flag |
| Reconciler.ExtraArgsOf | pkg/controller/activemqartemis/activemqartemis_reconciler.go:443-453 | the value of container 0's first `AMQ_EXTRA_ARGS` entry, or "" when there is none |
| Reconciler.WantsAio | pkg/controller/activemqartemis/activemqartemis_reconciler.go:456-461 | the journal type asks for AIO iff it is `aio` in some ASCII casing |
| Reconciler.ReplacedFlagPresent | pkg/controller/activemqartemis/activemqartemis_reconciler.go:457-462 | replacing the first occurrence with a same-length text keeps the length and leaves the replacement in the text |
| Reconciler.ReplaceExtraArgs | pkg/controller/activemqartemis/activemqartemis_reconciler.go:477-483 | a container's first `AMQ_EXTRA_ARGS` entry is swapped out and the new entry appended at the end; a container without one is unchanged |
| Reconciler.AioSync | pkg/controller/activemqartemis/activemqartemis_reconciler.go:435-488 | an update iff container 0's arguments need a rewrite; with no update the pod is unchanged; lengths and volumes are kept |
| Reconciler.AioSyncWritesFlag | pkg/controller/activemqartemis/activemqartemis_reconciler.go:466-484 | after a rewrite, container 0's last entry is `AMQ_EXTRA_ARGS` and holds the flag the journal type asks for |
| Reconciler.PersistentChecks | pkg/controller/activemqartemis/activemqartemis_reconciler.go:502-539 | settling checks whose entries are the ones `AddEnvVarForPersistent` builds |
| Reconciler.PersistentSync | pkg/controller/activemqartemis/activemqartemis_reconciler.go:490-575 | with persistence off, an update iff some container held a data-directory name, and none holds one afterwards |
| Reconciler.PersistentSyncSettles | pkg/controller/activemqartemis/activemqartemis_reconciler.go:490-575 | a second persistence sync reports nothing |
| Reconciler.PersistentSyncWrites | pkg/controller/activemqartemis/activemqartemis_reconciler.go:490-560 | with persistence on: an update iff container 0 lacks a name, has a data directory reading "false" or a logging flag other than "true"; a missing or stale data directory becomes `/opt/<name>/data` and a missing or stale logging flag "true" in every container; afterwards container 0 holds both names with no such entry |
| Reconciler.CommonChecks | pkg/controller/activemqartemis/activemqartemis_reconciler.go:603-641 | settling checks writing `AMQ_USER` and `AMQ_PASSWORD` with the resource's credentials |
| Reconciler.CommonSync | pkg/controller/activemqartemis/activemqartemis_reconciler.go:591-666 | without both a user and a password, nothing changes and no update is reported |
| Reconciler.CommonSyncSettles | pkg/controller/activemqartemis/activemqartemis_reconciler.go:591-666 | with credentials given, container 0 ends with both names and every user entry holds the resource's user; a second sync reports nothing |
| Reconciler.RunSyncs | pkg/controller/activemqartemis/activemqartemis_reconciler.go:38-60 | the six syncs in the operator's order keep the container count |
| Reconciler.Reconcile | pkg/controller/activemqartemis/activemqartemis_reconciler.go:30-63 | the replica count becomes the plan's size, and the container count is kept |
| Reconciler.ReconcileMaskGrows | pkg/controller/activemqartemis/activemqartemis_reconciler.go:30-63 | every bit of the mask set before a pass is still set after it |
| Reconciler.ReconcileMaskHigh | pkg/controller/activemqartemis/activemqartemis_reconciler.go:11-19 | a pass sets no bit above the seven flags |
| Reconciler.ReconcileSizeFlag | pkg/controller/activemqartemis/activemqartemis_reconciler.go:33-36 | the size bit is set after a pass iff it was set before or the replica count differed from the plan |
| Reconciler.RunSyncsStages | pkg/controller/activemqartemis/activemqartemis_reconciler.go:38-60 | running the syncs stage by stage, as `Process` does, gives `RunSyncs` |
| Reconciler.StatefulSet.constructor | pkg/controller/activemqartemis/activemqartemis_reconciler.go:30 | the live StatefulSet holds the given replica count and pod |
| Reconciler.PlanChecks | pkg/controller/activemqartemis/activemqartemis_reconciler.go:104-160 | the container-0 scan yields exactly `Doomed` and `Fresh` |
| Reconciler.SyncAll | pkg/controller/activemqartemis/activemqartemis_reconciler.go:162-180 | the removal and append loops over the containers give `SyncContainers` |
| Reconciler.SyncChecks | pkg/controller/activemqartemis/activemqartemis_reconciler.go:104-183 | the live pod and the reported flag are `CheckSync` of the old pod; the replica count stays |
| Reconciler.SweepAll | pkg/controller/activemqartemis/activemqartemis_reconciler.go:298-309 | the removal loop gives `SweepContainers` and reports whether any container held a name |
| Reconciler.RemoveFromAll | pkg/controller/activemqartemis/activemqartemis_reconciler.go:298-309 | the live pod and the flag are `RemoveSync` of the old pod |
| Reconciler.ClusterConfigSync | pkg/controller/activemqartemis/activemqartemis_reconciler.go:72-198 | the live pod and the flag are `ClusterSync` of the old pod (corrected checks) |
| Reconciler.MountSecretVolume | pkg/controller/activemqartemis/activemqartemis_reconciler.go:417-432 | the mount loop, with the flag kept per container, gives `AddSecretMounts` |
| Reconciler.EnsureSecretVolumeMountExists | pkg/controller/activemqartemis/activemqartemis_reconciler.go:392-433 | the live pod becomes `EnsureSecretVolumeMount` of the old pod |
| Reconciler.SslConfigSync | pkg/controller/activemqartemis/activemqartemis_reconciler.go:200-390 | the live pod and the flag are `SslSync` of the old pod |
| Reconciler.SetImages | pkg/controller/activemqartemis/activemqartemis_reconciler.go:581-584 | every container gets the image, nothing else changes |
| Reconciler.ImageConfigSync | pkg/controller/activemqartemis/activemqartemis_reconciler.go:577-589 | the live pod and the flag are `ImageSync` of the old pod |
| Reconciler.RewriteExtraArgs | pkg/controller/activemqartemis/activemqartemis_reconciler.go:437-464 | the scan of container 0 and the rewrite give `AioExtraArgs` of its first `AMQ_EXTRA_ARGS` value |
| Reconciler.ReplaceAllExtraArgs | pkg/controller/activemqartemis/activemqartemis_reconciler.go:474-484 | every container is changed as `ReplaceExtraArgs` says |
| Reconciler.AioConfigSync | pkg/controller/activemqartemis/activemqartemis_reconciler.go:435-488 | the live pod and the flag are `AioSync` of the old pod |
| Reconciler.PersistentConfigSync | pkg/controller/activemqartemis/activemqartemis_reconciler.go:490-575 | the live pod and the flag are `PersistentSync` of the old pod |
| Reconciler.CommonConfigSync | pkg/controller/activemqartemis/activemqartemis_reconciler.go:591-666 | the live pod and the flag are `CommonSync` of the old pod |
| Reconciler.ConfigSyncs | pkg/controller/activemqartemis/activemqartemis_reconciler.go:38-60 | the six syncs on the live StatefulSet leave its pod and report the flags exactly as `RunSyncs` of the old pod; the replica count stays |
| Reconciler.ActiveMQArtemisReconciler.constructor | pkg/controller/activemqartemis/activemqartemis_reconciler.go:21-23 | a new reconciler has an empty update mask |
| Reconciler.Accumulate | pkg/controller/activemqartemis/activemqartemis_reconciler.go:33-60 | the seven `if updated { mask \|= flag }` steps add exactly the bits `Reported` sets |
| Reconciler.ActiveMQArtemisReconciler.Process | pkg/controller/activemqartemis/activemqartemis_reconciler.go:30-63 | the new replica count, pod and mask are those of `Reconcile` on the old state, and the mask is returned |
| UpdateMask.MaskHigh | pkg/controller/activemqartemis/activemqartemis_reconciler.go:30-63 | a pass leaves the bits above the flags as they were |
| UpdateMask.MaskSize | pkg/controller/activemqartemis/activemqartemis_reconciler.go:33-36 | the size bit after a pass is the old bit or the size change |
| UpdateMask.StepwiseReported | pkg/controller/activemqartemis/activemqartemis_reconciler.go:33-60 | the seven `if updated { mask \|= flag }` steps equal one or with the reported bits |
| GoStrings.Index | pkg/controller/activemqartemis/activemqartemis_reconciler.go:445-449 | `strings.Index`: -1 iff the pattern occurs nowhere, otherwise the position of its first occurrence |
| GoStrings.ShiftOccurrence | pkg/controller/activemqartemis/activemqartemis_reconciler.go:445-449 | an occurrence past the first character is an occurrence in the rest of the text, one place earlier |
| GoStrings.Contains | pkg/utils/artemis/artemis.go:22-30 | `strings.Contains` holds iff the pattern occurs somewhere |
| GoStrings.ReplaceFirst | pkg/controller/activemqartemis/activemqartemis_reconciler.go:457 | `strings.Replace(s, old, new, 1)`: the text unchanged when the pattern is absent, otherwise its first occurrence replaced |
| GoStrings.EscapeQuotes | pkg/utils/artemis/artemis.go:113 | escaping every quote never shortens the text |
| GoStrings.UnescapeEscape | pkg/utils/artemis/artemis.go:113 | unescaping an escaped text gives the text back |
| GoStrings.EscapeStartsWithoutQuote | pkg/utils/artemis/artemis.go:113 | an escaped text never starts with a quote |
| GoStrings.EscapedQuotesArePreceded | pkg/utils/artemis/artemis.go:113 | every quote in an escaped text has a backslash before it |
| GoStrings.ToLower | pkg/controller/activemqartemis/activemqartemis_reconciler.go:456 | each character lower-cased, the length kept |
| GoStrings.ToUpper | pkg/utils/artemis/artemis.go:111 | each character upper-cased, the length kept |
| GoStrings.IndexChar | pkg/controller/broker/v2alpha4/activemqartemis/upgrade.go:76 | the first position of a character the text holds |
| GoStrings.Split | pkg/controller/broker/v2alpha4/activemqartemis/upgrade.go:76 | `strings.Split` on one character: at least one piece, and no piece holds the separator |
| GoStrings.JoinSplit | pkg/controller/broker/v2alpha4/activemqartemis/upgrade.go:71 | joining the pieces of a split with the separator gives the text back |
| GoStrings.JoinEnds | pkg/controller/broker/v2alpha4/activemqartemis/upgrade.go:71 | `strings.Join` starts with the first piece, followed by a separator when there are more, and ends with the last piece |
| GoStrings.SplitJoin | pkg/controller/broker/v2alpha4/activemqartemis/upgrade.go:76 | splitting a join of separator-free pieces gives the pieces back |
| GoStrings.FormatBool | pkg/resources/environments/environment.go:131 | `strconv.FormatBool` yields "true" or "false" |
| GoStrings.ParseBool | pkg/resources/environments/environment.go:196 | `strconv.ParseBool`: true exactly for 1, t, T, TRUE, true and True; no error exactly for those and 0, f, F, FALSE, false and False; an error reads as false |
| GoStrings.ParseFormatBool | pkg/resources/environments/environment.go:206 | a formatted flag parses back to itself without error |
| Artemis.GetCreationError | pkg/utils/artemis/artemis.go:18-32 | the result is one of the four error codes; a response that mentions an existing queue is that code, then an existing address, then a missing queue; anything else, a nil response included, is the unknown error |
| Artemis.QueueExistsWins | pkg/utils/artemis/artemis.go:18-32 | a response mentioning an existing queue is classified as such whatever else it says |
| Artemis.BrokerMBean | pkg/utils/artemis/artemis.go:108-110 | the broker MBean: the fixed `broker="` prefix, the name, then the closing quote |
| Artemis.BrokerMBeanInjective | pkg/utils/artemis/artemis.go:108-110 | different brokers have different MBeans |
| Artemis.UptimeURL | pkg/utils/artemis/artemis.go:87-93 | the uptime path is the broker MBean followed by `/Uptime` |
| Artemis.StatusURL | pkg/utils/artemis/artemis.go:95-97 | the status path is the broker MBean followed by `/Status` |
| Artemis.AttributePaths | pkg/utils/artemis/artemis.go:87-106 | the uptime and status paths both lie under the broker's MBean and differ |
| Artemis.GetStatus | pkg/utils/artemis/artemis.go:95-106 | a read error or a nil response gives "" and the read error; a status other than 200 gives "" and an error; status 200 gives the value and no error |
| Artemis.GetStatusErrors | pkg/utils/artemis/artemis.go:95-106 | an error is returned iff the read failed or a response came with a status other than 200; a nil response without error gives ("", nil) |
| Artemis.ExecBody | pkg/utils/artemis/artemis.go:112 | an EXEC body starts with the EXEC prefix and the escaped MBean name, and holds the operation and the argument list each at its place |
| Artemis.ExecBodyInjective | pkg/utils/artemis/artemis.go:112 | with one MBean and operation, equal bodies mean equal argument lists |
| Artemis.ExecBodyNamesMBean | pkg/utils/artemis/artemis.go:113 | the MBean name in the body, once unescaped, is the name handed to the transport |
| Artemis.Exec | pkg/utils/artemis/artemis.go:110-114 | every EXEC request is addressed to the broker's own MBean and carries the operation and the argument list (`Carries`) |
| Artemis.ExecInjective | pkg/utils/artemis/artemis.go:110-114 | calls of one operation on one broker are the same request iff their argument lists are |
| Artemis.QuotedInjective | pkg/utils/artemis/artemis.go:160 | a single quoted name argument determines the name |
| Artemis.CreateQueue | pkg/utils/artemis/artemis.go:108-117 | `createQueue(String,String,String)` with the address, the queue and the upper-cased routing type, each quoted |
| Artemis.UpdateQueue | pkg/utils/artemis/artemis.go:119-128 | `updateQueue(String)` with the queue configuration as the argument list |
| Artemis.UpdateQueueInjective | pkg/utils/artemis/artemis.go:119-128 | different configurations give different update requests |
| Artemis.CreateQueueFromConfig | pkg/utils/artemis/artemis.go:130-144 | `createQueue(String,boolean)` with the configuration, a comma and the formatted flag |
| Artemis.CreateAddress | pkg/utils/artemis/artemis.go:146-155 | `createAddress(String,String)` with the quoted address and the quoted upper-cased routing type |
| Artemis.DeleteQueue | pkg/utils/artemis/artemis.go:157-165 | `destroyQueue(String)` with the quoted queue name |
| Artemis.DeleteQueueInjective | pkg/utils/artemis/artemis.go:157-165 | different queue names give different delete requests |
| Artemis.ListBindingsForAddress | pkg/utils/artemis/artemis.go:167-175 | `listBindingsForAddress(String)` with the quoted address |
| Artemis.ListBindingsForAddressInjective | pkg/utils/artemis/artemis.go:167-175 | different addresses give different listing requests |
| Artemis.DeleteAddress | pkg/utils/artemis/artemis.go:177-185 | `deleteAddress(String)` with the quoted address |
| Artemis.DeleteAddressInjective | pkg/utils/artemis/artemis.go:177-185 | different addresses give different delete requests |
| Artemis.ToUpperIdempotent | pkg/utils/artemis/artemis.go:111 | upper-casing twice is upper-casing once |
| Artemis.CreateQueueIgnoresCase | pkg/utils/artemis/artemis.go:108-117 | routing types that agree up to case give the same request; an upper-cased one is sent as is |
| Artemis.CreateAddressIgnoresCase | pkg/utils/artemis/artemis.go:146-155 | the same for address requests |
| Artemis.CreateQueueFromConfigFlag | pkg/utils/artemis/artemis.go:130-144 | the request is the EXEC of `createQueue(java.lang.String,boolean)` with the configuration and the flag formatted as Go does, which parses back to the flag |
| Artemis.CreateQueueFromConfigDistinguishesFlag | pkg/utils/artemis/artemis.go:130-144 | the two values of the ignore-if-exists flag give different requests |
| Namer.NamerData.constructor | pkg/utils/namer/namer.go:11-16 | a new builder has every field empty |
| Namer.NamerData.Generate | pkg/utils/namer/namer.go:18-20 | `Name()` becomes prefix, base and suffix concatenated; the parts stay |
| Namer.NamerData.Base | pkg/utils/namer/namer.go:27-30 | sets the base only and returns the same builder for chaining; `Name()` is unchanged |
| Namer.NamerData.Prefix | pkg/utils/namer/namer.go:32-35 | sets the prefix only and returns the same builder; `Name()` is unchanged |
| Namer.NamerData.Suffix | pkg/utils/namer/namer.go:37-40 | sets the suffix only and returns the same builder; `Name()` is unchanged |
| Selectors.GeneratedLabels | pkg/utils/selectors/label.go:39-43 | exactly the two keys `application` and `ActiveMQArtemis`, holding base-suffix and the base |
| Selectors.LabelerData.constructor | pkg/utils/selectors/label.go:19-23 | a new label builder has empty base, suffix and labels |
| Selectors.LabelerData.Base | pkg/utils/selectors/label.go:29-32 | sets the base only and returns the same builder; `Labels()` is unchanged |
| Selectors.LabelerData.Suffix | pkg/utils/selectors/label.go:34-37 | sets the suffix only and returns the same builder; `Labels()` is unchanged |
| Selectors.LabelerData.Generate | pkg/utils/selectors/label.go:39-43 | `Labels()` becomes `GeneratedLabels` of the current base and suffix, replacing the old map |
| Selectors.GeneratedLabelsDistinguishBrokers | pkg/utils/selectors/label.go:39-43 | brokers with different base names never share a label set; the resource label depends on the base alone |
| Selectors.ResourcesByActiveMQArtemisName | pkg/utils/selectors/label.go:46-54 | the selector has the single key `application` holding the name |
| Services.NewHeadlessServiceForCR | pkg/resources/services/service.go:28-53 | a v1 Service named by the headless builder in the resource's namespace, with cluster IP "None", not-ready addresses published, the given ports, and a selector equal to its labels |
| Services.NewServiceDefinitionForCR | pkg/resources/services/service.go:56-88 | a v1 Service named `<cr>-service-<suffix>` with exactly one TCP port whose port and target are the given number, the caller's selector, session affinity "None" and no fixed cluster IP |
| Services.NewPingServiceDefinitionForCR | pkg/resources/services/service.go:91-122 | the headless Service `ping` with the single TCP port 8888 |
| Services.PortServiceNamesDistinct | pkg/resources/services/service.go:75 | different suffixes give different service names |
| Services.PortServiceIsNotPing | pkg/resources/services/service.go:56-122 | a port service never takes the ping service's name, and the two differ in being headless |
| StatefulSets.NewStatefulSetForCR | pkg/resources/statefulsets/statefulset.go:91-127 | a StatefulSet of API version v1 named by the builder in the resource's namespace, with the resource's annotations, the plan's size as replicas, the headless service as governing service, the label set as both labels and selector, the resource's pod template, and claim templates iff persistence is enabled |
| StatefulSets.GovernedByHeadlessService | pkg/resources/statefulsets/statefulset.go:112-119 | the StatefulSet's governing service is the headless service built from the same builder, in the same namespace, selecting the same pods |
| Volumes.makePersistentVolume | pkg/resources/volumes/volume.go:43-58 | one volume named after the resource, backed by the claim of that name, writable |
| Volumes.makeSSLSecretVolume | pkg/resources/volumes/volume.go:60-74 | one volume named like the SSL mount, backed by the placeholder secret `TODO-FIX-REPLACE` rather than the resource's secret |
| Volumes.makePersistentVolumeMount | pkg/resources/volumes/volume.go:76-87 | one writable mount named after the resource, at the data-directory property (default `/opt/<name>/data`) |
| Volumes.makeSSLVolumeMount | pkg/resources/volumes/volume.go:89-99 | one read-only mount `broker-secret-volume` at `/etc/amq-secret-volume` |
| Volumes.PersistentMountAtDataDir | pkg/resources/volumes/volume.go:76-87 | with the default property, the data mount sits where `AMQ_DATA_DIR` points and is named like the persistent volume |
| Volumes.MakeVolumeMounts | pkg/resources/volumes/volume.go:14-27 | one mount per enabled feature: the data mount first iff persistence is on, the SSL mount last iff SSL is on |
| Volumes.MakeVolumes | pkg/resources/volumes/volume.go:29-41 | one volume per enabled feature, in the same order |
| Volumes.MountsMatchVolumes | pkg/resources/volumes/volume.go:14-41 | mounts and volumes pair up by position and name |
| Volumes.SslPartsAgreeWithSync | pkg/resources/volumes/volume.go:60-99 | the SSL volume and mount built here are the ones the SSL sync adds |
| Secrets.MakeUserPasswordStringData | pkg/resources/secrets/secret.go:20-36 | exactly the two keys; each holds the given credential, or the random one when the given one is empty (the password wins when the key names coincide) |
| Secrets.NoEmptyCredential | pkg/resources/secrets/secret.go:20-36 | with non-empty random fallbacks, no stored credential is empty |
| Secrets.StringDataStable | pkg/resources/secrets/secret.go:20-36 | feeding the stored credentials back in gives the same data, whatever random strings are drawn |
| Secrets.MakeUserPasswordSecret | pkg/resources/secrets/secret.go:38-55 | a v1 Secret with the given name, the resource's namespace, the builder's labels and the given data |
| Secrets.SecretObject.constructor | pkg/resources/secrets/secret.go:57-62 | the object holds the given secret |
| Secrets.NewUserPasswordSecret | pkg/resources/secrets/secret.go:57-62 | a freshly allocated secret object holding `MakeUserPasswordSecret` |
| ConfigMaps.MakeConfigMap | pkg/resources/configmaps/configmap.go:8-23 | a v1 ConfigMap with the given namespace, name and data, no labels and no annotations |
| ConfigMaps.MakeConfigMapInjective | pkg/resources/configmaps/configmap.go:8-23 | two config maps are equal iff namespace, name and data are |
| Pods.GetAdditionalLabels | pkg/resources/pods/additional_labels.go:23-34 | the 7.9 label set for 7.9.2, the 7.10 label set for 7.10.1, none otherwise |
| Pods.LabelSetsDifferOnlyInVersions | pkg/resources/pods/additional_labels.go:3-21 | both sets have the same seven keys and differ only in the product and component versions |
| Pods.ComponentVersionIsKey | pkg/resources/pods/additional_labels.go:23-34 | the component version label of each set is the version it is looked up by |
| Pods.SupportedVersionsHaveNoAdditionalLabels | pkg/resources/pods/additional_labels.go:23-34 | no version this operator supports has additional labels |
| Security.IsApplicableFor | pkg/controller/broker/v1alpha1/activemqartemissecurity/activemqartemissecurity_controller.go:148-172 | true iff the namespaces agree and the list is empty or holds "*", "" or the broker's name |
| Security.OtherNamespaceNeverApplies | pkg/controller/broker/v1alpha1/activemqartemissecurity/activemqartemissecurity_controller.go:153-157 | another namespace never applies |
| Security.ListedNameApplies | pkg/controller/broker/v1alpha1/activemqartemissecurity/activemqartemissecurity_controller.go:163-169 | a wildcard or the broker's name in the list applies |
| Security.UnlistedNameDoesNotApply | pkg/controller/broker/v1alpha1/activemqartemissecurity/activemqartemissecurity_controller.go:159-171 | a non-empty list without a wildcard or the name does not apply |
| Security.MoreNamesKeepApplying | pkg/controller/broker/v1alpha1/activemqartemissecurity/activemqartemissecurity_controller.go:163-169 | adding a name never withdraws a resource that applied through the list |
| Upgrade.IsVersionSupported | pkg/controller/broker/v2alpha4/activemqartemis/upgrade.go:60-67 | true iff the version is one of the supported versions |
| Upgrade.NotAllowedMessage | pkg/controller/broker/v2alpha4/activemqartemis/upgrade.go:54 | the error text starts with the fixed head, followed by the rejected version |
| Upgrade.NotAllowedMessageInjective | pkg/controller/broker/v2alpha4/activemqartemis/upgrade.go:54 | different rejected versions give different messages |
| Upgrade.CheckProductUpgrade | pkg/controller/broker/v2alpha4/activemqartemis/upgrade.go:43-58 | an error iff the version is unsupported, with the not-allowed message; the upgrade flags are the resource's settings only for a supported version other than the latest with upgrades enabled, off otherwise |
| Upgrade.Components | pkg/controller/broker/v2alpha4/activemqartemis/upgrade.go:75-81 | the three components hold no dot |
| Upgrade.MajorMinorMicro | pkg/controller/broker/v2alpha4/activemqartemis/upgrade.go:75-81 | the padding loop gives the first three components of the split, a missing one read as "0" |
| Upgrade.ComponentsOfJoin | pkg/controller/broker/v2alpha4/activemqartemis/upgrade.go:75-81 | a version joined from dot-free components yields its first three components, padded with "0" |
| Upgrade.JoinComponents | pkg/controller/broker/v2alpha4/activemqartemis/upgrade.go:75-81 | a three-component version is the join of its components |
| Upgrade.GetMinorImageVersion | pkg/controller/broker/v2alpha4/activemqartemis/upgrade.go:69-72 | the major component followed by the minor one |
| Upgrade.MinorImageVersionOfLatest | pkg/controller/broker/v2alpha4/activemqartemis/upgrade.go:69-72 | the latest version gives "710" |
| Upgrade.GetImage | pkg/controller/broker/v2alpha4/activemqartemis/upgrade.go:94-106 | the name and tag hold no colon and the context no slash |
| Upgrade.GetImageSlashFree | pkg/controller/broker/v2alpha4/activemqartemis/upgrade.go:94-106 | neither the name nor the tag holds a slash |
| Upgrade.SplitParts | pkg/controller/broker/v2alpha4/activemqartemis/upgrade.go:95-100 | no piece of a split holds a character the text lacks |
| Upgrade.GetImageOfReference | pkg/controller/broker/v2alpha4/activemqartemis/upgrade.go:94-106 | a reference `registry/.../context/name:tag` is parsed back into its name, tag and context |
| Upgrade.NameAndTag | pkg/controller/broker/v2alpha4/activemqartemis/upgrade.go:100 | `name:tag` splits at the colon into name and tag |
| Upgrade.SlashFree | pkg/controller/broker/v2alpha4/activemqartemis/upgrade.go:95 | the reference's segments hold no slash |
| Upgrade.GetImageWithoutTag | pkg/controller/broker/v2alpha4/activemqartemis/upgrade.go:100-104 | a last segment without a colon is the name, and the tag is empty |
| Upgrade.Lookup | pkg/controller/broker/v2alpha4/activemqartemis/upgrade.go:86 | a Go map index: the stored value when the key is present, and "" when it is missing |
| Upgrade.Defaulted | pkg/controller/broker/v2alpha4/activemqartemis/upgrade.go:83-92 | missing annotations become one entry under the group holding the operand version of this operator; an empty version becomes the latest; everything else is kept |
| Upgrade.DefaultedIdempotent | pkg/controller/broker/v2alpha4/activemqartemis/upgrade.go:83-92 | defaulting twice is defaulting once |
| Upgrade.DefaultedVersionSupported | pkg/controller/broker/v2alpha4/activemqartemis/upgrade.go:83-92 | a defaulted empty version is supported |
| Upgrade.DefaultAnnotationIsEmpty | pkg/controller/broker/v2alpha4/activemqartemis/upgrade.go:83-92 | this operator's version is missing from the operand table, so the added annotation is empty |
| Upgrade.Broker.constructor | pkg/controller/broker/v2alpha4/activemqartemis/upgrade.go:83 | the live resource holds the given resource |
| Upgrade.SetDefaults | pkg/controller/broker/v2alpha4/activemqartemis/upgrade.go:83-92 | the live resource becomes `Defaulted` of the old one |
| Versions.DefaultImageName | version/version.go:24-30 | the init image iff the variable name contains `_Init_`, the broker image otherwise |
| Versions.SupportedMicroIsPrefix | version/version.go:33-34 | the micro-upgrade targets are the first supported versions, and the three supported versions differ |
| Versions.CompactRoundTrip | version/version.go:83-117 | full to compact and back gives the full version |
| Versions.MinorRoundTrip | version/version.go:119-133 | full to minor key and back gives the full version |
| Versions.CompactLatest | version/version.go:11-22 | the compact latest version names the latest version |
| Versions.CompactFullAgrees | version/version.go:51-98 | the compact version of a minor key is the compact form of its full version |
| Versions.SupportedHaveProfiles | version/version.go:136-153 | every supported version has a configuration-generator profile |
| Versions.LatestLookupsMiss | version/version.go:35-50 | the latest version has no minor key or compact form, and this operator's version has no operand version, so those lookups yield "" |

## Left out

- Kubernetes client calls: the `Create`/`Retrieve`/`Update`/`Delete` helpers for StatefulSets, Services and Secrets, and the write of the global custom-resource name, are I/O against the API server; the model covers the objects they send and receive.
- The security controller's reconcile loop and its broker lookups are I/O; only its applicability rule is modelled.
- `checkUpgradeVersions` reads the process environment and the machine architecture; it is left out.
- The Jolokia transport and the `GetArtemis*` constructors: a request is modelled as the MBean name and JSON body handed to the transport (`Artemis.Exec`), and a reply as a value passed in.
- The SSL sync's branches guarded by `if false` are dead code and are not modelled.
- GoStrings.ToLower: ASCII letters only; Go's Unicode case mapping is not modelled.
- GoStrings.ToUpper: ASCII letters only, for the same reason.
- Environments.ReplaceOrAppend: the sharing of storage is modelled by the slice's spare capacity, as far as the returned slice and the caller's slice are concerned; elements appended into spare slots past the caller's length are not visible to any other slice over the same backing array in the model.
- Random strings (generated user names and passwords) are parameters of the secret builders.
- The API group used as the defaulting annotation key is a parameter.
- `CheckSSLEnabled`, `GetPropertyForCR`, `NewPodTemplateSpecForCR` and `NewPersistentVolumeClaimArrayForCR` are not part of this model; the builders that call them take them as function parameters.
- The name and label builders that the Go code keeps in package variables are passed to the builders as objects.
- Reconciler.CheckSync, Reconciler.ClusterSync, Reconciler.AioSync, Reconciler.ImageSync, Reconciler.PersistentSync, Reconciler.CommonSync and Reconciler.Reconcile require at least one container: the Go code indexes `Containers[0]` and panics on an empty list.
- Reconciler.ClusterSync: uses the corrected checks described under "Findings"; the code as written is `Reconciler.ClusterChecksAsWritten`.
- Reconciler.MountSecretVolume: uses the corrected per-container flag described under "Findings"; the code as written is `Reconciler.AddSecretMountsAsWritten`.
- Environments.SweepFrom: its contract states only that the list does not grow; which entries survive and how often is stated by `Environments.SweepFromSpec`.
- Environments.Sweep: its contract states only that the list does not grow; the rest is stated by `Environments.SweepSpec`.
- GoStrings.Join: carries no contract of its own; its shape is stated by `GoStrings.JoinEnds`, `GoStrings.JoinSplit` and `GoStrings.SplitJoin`.
- Namer.NamerData.Name: a getter without a contract of its own; what it returns is stated by the `Generate`, `Base`, `Prefix` and `Suffix` contracts.
- Selectors.LabelerData.Labels: a getter without a contract of its own; what it returns is stated by the `Generate`, `Base` and `Suffix` contracts.
- Reconciler.ActiveMQArtemisReconciler.Process: the Go code points the StatefulSet's replica count at the resource's own `Size` field (pkg/controller/activemqartemis/activemqartemis_reconciler.go:34), so a later change to the resource's size would show through in the StatefulSet; the model copies the value, and that sharing is not captured.
- Reconciler.EnsureSecretVolumeMount: uses the corrected mount loop `Reconciler.AddSecretMounts` described under "Findings", not the code as written.
- Reconciler.EnsureSecretVolumeMountExists: the same corrected mount loop.
- Reconciler.SslSync: the same corrected mount loop.
- Reconciler.SslConfigSync: the same corrected mount loop.
- Reconciler.RunSyncs: inherits the corrected cluster checks and mount loop through the syncs it runs.
- Reconciler.ConfigSyncs: the same, for the in-place syncs.
- Reconciler.Reconcile: the same, through `Reconciler.RunSyncs`.
- Logging, status conditions and metrics are not modelled.

## Findings

| source | as written | input that shows it | evidently intended | confidence | as-written member | corrected member |
|---|---|---|---|---|---|---|
| pkg/controller/activemqartemis/activemqartemis_reconciler.go:118-160 | the cluster user and password entries are judged by comparing their `Value` with the resource's cluster user and password, but are written with an empty `Value` and a secret reference | any resource with a non-empty cluster user: after a sync the entry's value is "", which differs from the user, so every pass reports an update and rewrites the entry | judge the entries by what the sync writes, so that a second pass reports nothing | not executed | Reconciler.ClusterChecksAsWritten, Reconciler.ClusterSyncAsWrittenNeverSettles | Reconciler.ClusterChecks, Reconciler.ClusterSyncSettles |
| pkg/controller/activemqartemis/activemqartemis_reconciler.go:392-433 | the "mount exists" flag is set by the first container that has the secret mount and never reset, so every later container is skipped | two containers, the first already mounting the secret volume and the second not: the second gets no mount | decide per container whether it needs the mount | not executed | Reconciler.AddSecretMountsAsWritten, Reconciler.SecretMountsAsWrittenSkipsLaterContainers | Reconciler.AddSecretMounts, Reconciler.EnsureSecretVolumeMount |
