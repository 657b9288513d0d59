/**
 * The StatefulSet synchroniser: one `Process` call brings a live StatefulSet in
 * line with the custom resource, sync by sync (size, cluster, SSL, image,
 * journal type, persistence, common credentials), and records in a bitmask
 * which of them changed anything.
 *
 * Each sync that maintains named environment entries follows one pattern: it
 * inspects container 0, decides which names are out of date (these are
 * removed from every container) and which entries to write (these are
 * appended to every container), and reports an update exactly when there is
 * something to write. That pattern is `CheckSync` over a list of `Check`s.
 */
module Reconciler {
  import opened Wrappers
  import opened Kube
  import opened GoStrings
  import opened Environments
  import opened UpdateMask

  // ---------------------------------------------------------------------------
  // The inspect / remove / append pattern.

  /** One maintained entry: its name, when an existing entry of that name is out of date, and what to write. */
  datatype Check = Check(name: string, rule: Staleness, entry: EnvVar)

  /** Container 0 lacks the entry, or holds an out-of-date one: the check's entry is written. */
  predicate NeedsWrite(env: seq<EnvVar>, c: Check) {
    !HasName(env, c.name) || AnyStale(env, c.name, c.rule)
  }

  /** The names removed from every container: those of checks with an out-of-date entry in container 0. */
  function Doomed(env: seq<EnvVar>, checks: seq<Check>): (d: set<string>)
    ensures forall n :: n in d <==>
      exists i :: 0 <= i < |checks| && checks[i].name == n && AnyStale(env, n, checks[i].rule)
  {
    if checks == [] then {}
    else
      var last := checks[|checks| - 1];
      var prefix := checks[..|checks| - 1];
      var d := Doomed(env, prefix) + (if AnyStale(env, last.name, last.rule) then {last.name} else {});
      assert forall i :: 0 <= i < |prefix| ==> prefix[i] == checks[i];
      d
  }

  /** The entries appended to every container, in the order of the checks. */
  function Fresh(env: seq<EnvVar>, checks: seq<Check>): (f: seq<EnvVar>)
    ensures forall x :: x in f <==>
      exists i :: 0 <= i < |checks| && NeedsWrite(env, checks[i]) && checks[i].entry == x
    ensures f == [] <==> forall i :: 0 <= i < |checks| ==> !NeedsWrite(env, checks[i])
  {
    if checks == [] then []
    else
      var last := checks[|checks| - 1];
      var prefix := checks[..|checks| - 1];
      var f := Fresh(env, prefix) + (if NeedsWrite(env, last) then [last.entry] else []);
      assert forall i :: 0 <= i < |prefix| ==> prefix[i] == checks[i];
      f
  }

  /**
   * One container's entries after a sync: out-of-date names swept out, new
   * entries appended; nothing happens when there is nothing to write.
   */
  function SyncEnv(env: seq<EnvVar>, doomed: set<string>, toWrite: seq<EnvVar>): seq<EnvVar> {
    if toWrite == [] then env else Sweep(env, doomed) + toWrite
  }

  /**
   * With something to write, a container ends with the written entries, after
   * every entry it had whose name is not swept out, each kept as often as it was.
   */
  lemma SyncEnvSpec(env: seq<EnvVar>, doomed: set<string>, toWrite: seq<EnvVar>)
    ensures toWrite == [] ==> SyncEnv(env, doomed, toWrite) == env
    ensures var r := SyncEnv(env, doomed, toWrite);
      toWrite != [] ==>
        && |r| >= |toWrite| && r[|r| - |toWrite|..] == toWrite
        && (forall k :: 0 <= k < |r| - |toWrite| ==> r[k].name !in doomed)
        && (forall x: EnvVar :: x.name !in doomed ==> multiset(r[..|r| - |toWrite|])[x] == multiset(env)[x])
  {
    if toWrite != [] {
      var swept := Sweep(env, doomed);
      var r := swept + toWrite;
      assert r[..|r| - |toWrite|] == swept;
      assert r[|r| - |toWrite|..] == toWrite;
      SweepSpec(env, doomed);
      forall x: EnvVar | x.name !in doomed
        ensures multiset(swept)[x] == multiset(env)[x]
      {
        KeepCount(env, doomed, x);
      }
    }
  }

  /** Every container's entries after a sync; nothing but the entries changes. */
  function SyncContainers(cs: seq<Container>, doomed: set<string>, toWrite: seq<EnvVar>): (r: seq<Container>)
    ensures |r| == |cs|
    ensures forall i :: 0 <= i < |cs| ==> r[i] == cs[i].(env := SyncEnv(cs[i].env, doomed, toWrite))
  {
    seq(|cs|, i requires 0 <= i < |cs| => cs[i].(env := SyncEnv(cs[i].env, doomed, toWrite)))
  }

  /**
   * The pattern as a whole: judged on container 0, applied to every container;
   * an update is reported exactly when some check needs its entry written.
   */
  function CheckSync(pod: PodSpec, checks: seq<Check>): (r: (PodSpec, bool))
    requires |pod.containers| > 0
    ensures r.1 <==> exists i :: 0 <= i < |checks| && NeedsWrite(pod.containers[0].env, checks[i])
    ensures !r.1 ==> r.0 == pod
    ensures r.0.volumes == pod.volumes && |r.0.containers| == |pod.containers|
    ensures forall i :: 0 <= i < |pod.containers| ==>
      r.0.containers[i].name == pod.containers[i].name &&
      r.0.containers[i].image == pod.containers[i].image &&
      r.0.containers[i].volumeMounts == pod.containers[i].volumeMounts
  {
    var env0 := pod.containers[0].env;
    var toWrite := Fresh(env0, checks);
    var cs := SyncContainers(pod.containers, Doomed(env0, checks), toWrite);
    if toWrite == [] then
      assert cs == pod.containers;
      (pod, false)
    else (pod.(containers := cs), true)
  }

  /** A list of checks whose entries are what the checks themselves accept. */
  predicate Settling(checks: seq<Check>) {
    && (forall i, j :: 0 <= i < j < |checks| ==> checks[i].name != checks[j].name)
    && (forall i :: 0 <= i < |checks| ==> checks[i].entry.name == checks[i].name)
    && (forall i :: 0 <= i < |checks| ==> !IsStale(checks[i].rule, checks[i].entry))
  }

  /**
   * After a sync with settling checks, container 0 holds every maintained name
   * and no out-of-date entry under it.
   */
  lemma CheckSyncEstablishes(pod: PodSpec, checks: seq<Check>)
    requires |pod.containers| > 0 && Settling(checks)
    ensures forall i :: 0 <= i < |checks| ==> !NeedsWrite(CheckSync(pod, checks).0.containers[0].env, checks[i])
  {
    var env0 := pod.containers[0].env;
    var toWrite := Fresh(env0, checks);
    var env1 := CheckSync(pod, checks).0.containers[0].env;
    if toWrite != [] {
      assert env1 == Sweep(env0, Doomed(env0, checks)) + toWrite;
      forall i | 0 <= i < |checks| ensures !NeedsWrite(env1, checks[i]) {
        SyncedEntrySettles(env0, checks, i);
      }
    }
  }

  /** A check that needs its entry written gets it in every container, whatever the other checks do. */
  lemma CheckSyncWritesEntry(pod: PodSpec, checks: seq<Check>, i: nat)
    requires |pod.containers| > 0 && i < |checks|
    requires NeedsWrite(pod.containers[0].env, checks[i])
    ensures forall c :: 0 <= c < |pod.containers| ==> checks[i].entry in CheckSync(pod, checks).0.containers[c].env
  {
    var env0 := pod.containers[0].env;
    var toWrite := Fresh(env0, checks);
    assert checks[i].entry in toWrite;
    var cs := CheckSync(pod, checks).0.containers;
    forall c | 0 <= c < |pod.containers|
      ensures checks[i].entry in cs[c].env
    {
      assert cs[c].env == Sweep(pod.containers[c].env, Doomed(env0, checks)) + toWrite;
    }
  }

  /** So a second sync with the same settling checks writes nothing. */
  lemma CheckSyncSettles(pod: PodSpec, checks: seq<Check>)
    requires |pod.containers| > 0 && Settling(checks)
    ensures !CheckSync(CheckSync(pod, checks).0, checks).1
  {
    CheckSyncEstablishes(pod, checks);
  }

  /** The per-check step of `CheckSyncSettles`. */
  lemma SyncedEntrySettles(env0: seq<EnvVar>, checks: seq<Check>, i: nat)
    requires Settling(checks) && i < |checks|
    ensures var doomed := Doomed(env0, checks);
      !NeedsWrite(Sweep(env0, doomed) + Fresh(env0, checks), checks[i])
  {
    SyncedEntryPresent(env0, checks, i);
    SyncedEntryCurrent(env0, checks, i);
  }

  /** Only check `i` carries its name, so that name is doomed exactly when check `i` is stale. */
  lemma DoomedOwnName(env0: seq<EnvVar>, checks: seq<Check>, i: nat)
    requires Settling(checks) && i < |checks|
    ensures checks[i].name in Doomed(env0, checks) <==> AnyStale(env0, checks[i].name, checks[i].rule)
  {
  }

  lemma SyncedEntryPresent(env0: seq<EnvVar>, checks: seq<Check>, i: nat)
    requires Settling(checks) && i < |checks|
    ensures HasName(Sweep(env0, Doomed(env0, checks)) + Fresh(env0, checks), checks[i].name)
  {
    var c := checks[i];
    var doomed := Doomed(env0, checks);
    var toWrite := Fresh(env0, checks);
    var swept := Sweep(env0, doomed);
    var env1 := swept + toWrite;
    if NeedsWrite(env0, c) {
      assert c.entry in toWrite;
      var k :| 0 <= k < |toWrite| && toWrite[k] == c.entry;
      assert env1[|swept| + k] == c.entry;
    } else {
      DoomedOwnName(env0, checks, i);
      var k := FirstIndex(env0, c.name);
      SweepMembers(env0, doomed);
      assert env0[k] in swept;
      var m :| 0 <= m < |swept| && swept[m] == env0[k];
      assert env1[m].name == c.name;
    }
  }

  lemma SyncedEntryCurrent(env0: seq<EnvVar>, checks: seq<Check>, i: nat)
    requires Settling(checks) && i < |checks|
    ensures !AnyStale(Sweep(env0, Doomed(env0, checks)) + Fresh(env0, checks), checks[i].name, checks[i].rule)
  {
    var c := checks[i];
    var doomed := Doomed(env0, checks);
    var toWrite := Fresh(env0, checks);
    var swept := Sweep(env0, doomed);
    var env1 := swept + toWrite;
    forall k | 0 <= k < |env1| && env1[k].name == c.name ensures !IsStale(c.rule, env1[k]) {
      if k < |swept| {
        SweptEntryCurrent(env0, checks, i, swept[k]);
      } else {
        FreshEntryCurrent(env0, checks, i, toWrite[k - |swept|]);
      }
    }
  }

  lemma SweptEntryCurrent(env0: seq<EnvVar>, checks: seq<Check>, i: nat, x: EnvVar)
    requires Settling(checks) && i < |checks|
    requires x in Sweep(env0, Doomed(env0, checks)) && x.name == checks[i].name
    ensures !IsStale(checks[i].rule, x)
  {
    SweepMembers(env0, Doomed(env0, checks));
    DoomedOwnName(env0, checks, i);
    var m :| 0 <= m < |env0| && env0[m] == x;
  }

  lemma FreshEntryCurrent(env0: seq<EnvVar>, checks: seq<Check>, i: nat, x: EnvVar)
    requires Settling(checks) && i < |checks|
    requires x in Fresh(env0, checks) && x.name == checks[i].name
    ensures !IsStale(checks[i].rule, x)
  {
    var j :| 0 <= j < |checks| && NeedsWrite(env0, checks[j]) && checks[j].entry == x;
    assert checks[j].name == checks[i].name;
  }

  // ---------------------------------------------------------------------------
  // Removing a fixed set of names from every container.

  /** Every container with the named entries swept out. */
  function SweepContainers(cs: seq<Container>, names: set<string>): (r: seq<Container>)
    ensures |r| == |cs|
    ensures forall i :: 0 <= i < |cs| ==> r[i] == cs[i].(env := Sweep(cs[i].env, names))
  {
    seq(|cs|, i requires 0 <= i < |cs| => cs[i].(env := Sweep(cs[i].env, names)))
  }

  /** Some container holds an entry under one of the names. */
  predicate AnyHolds(cs: seq<Container>, names: set<string>) {
    exists i, k :: 0 <= i < |cs| && 0 <= k < |cs[i].env| && cs[i].env[k].name in names
  }

  /** The removal branch: the names leave every container; an update is reported when any was there. */
  function RemoveSync(pod: PodSpec, names: set<string>): (r: (PodSpec, bool))
    ensures r.1 <==> AnyHolds(pod.containers, names)
    ensures !AnyHolds(r.0.containers, names)
    ensures r.0.volumes == pod.volumes && |r.0.containers| == |pod.containers|
  {
    var cs := SweepContainers(pod.containers, names);
    forall i, k | 0 <= i < |cs| && 0 <= k < |cs[i].env| ensures cs[i].env[k].name !in names {
      SweepSpec(pod.containers[i].env, names);
    }
    (pod.(containers := cs), AnyHolds(pod.containers, names))
  }

  /** Removal loses nothing but the named entries, in any container. */
  lemma RemoveSyncKeepsOthers(pod: PodSpec, names: set<string>, i: nat)
    requires i < |pod.containers|
    ensures forall x :: x in RemoveSync(pod, names).0.containers[i].env <==>
      x in pod.containers[i].env && x.name !in names
  {
    SweepMembers(pod.containers[i].env, names);
  }

  // ---------------------------------------------------------------------------
  // Cluster configuration.

  const CredentialsSecretName := "amq-credentials-secret"

  /** The cluster user entry: an empty value, taken from the credentials secret. */
  const ClusterUserEntry := EnvVar("AMQ_CLUSTER_USER", "", Some(SecretKeyRef(CredentialsSecretName, "clusterUser")))
  const ClusterPasswordEntry := EnvVar("AMQ_CLUSTER_PASSWORD", "", Some(SecretKeyRef(CredentialsSecretName, "clusterPassword")))

  /** The clustering flag: written as the environments builder writes it, and judged by how it parses. */
  function ClusteredCheck(dp: DeploymentPlan): (r: Check)
    ensures r.name == r.entry.name == "AMQ_CLUSTERED"
    ensures r.entry == AddEnvVarForCluster(dp.clustered)[0]
    ensures !IsStale(r.rule, r.entry)
  {
    ParseFormatBool(dp.clustered);
    Check("AMQ_CLUSTERED", ParsedBoolDiffersFrom(dp.clustered),
          EnvVar("AMQ_CLUSTERED", FormatBool(dp.clustered), None))
  }

  /**
   * `clusterConfigSyncCausedUpdateOn` as written: the cluster user and password
   * entries are judged by their value against the resource's credentials, but
   * written with an empty value and a secret reference.
   */
  function ClusterChecksAsWritten(dp: DeploymentPlan): (r: seq<Check>)
    ensures |r| == 3 && r[1].name == "AMQ_CLUSTER_USER" && r[1].entry.value == ""
    ensures r[1].rule == ValueDiffersFrom(dp.clusterUser)
  {
    [ ClusteredCheck(dp),
      Check("AMQ_CLUSTER_USER", ValueDiffersFrom(dp.clusterUser), ClusterUserEntry),
      Check("AMQ_CLUSTER_PASSWORD", ValueDiffersFrom(dp.clusterPassword), ClusterPasswordEntry) ]
  }

  /**
   * With a non-empty cluster user the sync as written never settles: a
   * container 0 whose cluster user entries (if any) have the empty value it
   * writes is reported out of date, and the sync leaves it in that state again.
   */
  lemma ClusterSyncAsWrittenNeverSettles(pod: PodSpec, dp: DeploymentPlan)
    requires |pod.containers| > 0 && dp.clusterUser != ""
    requires forall k :: 0 <= k < |pod.containers[0].env| && pod.containers[0].env[k].name == "AMQ_CLUSTER_USER" ==>
      pod.containers[0].env[k].value == ""
    ensures CheckSync(pod, ClusterChecksAsWritten(dp)).1
    ensures var env1 := CheckSync(pod, ClusterChecksAsWritten(dp)).0.containers[0].env;
      && HasName(env1, "AMQ_CLUSTER_USER")
      && forall k :: 0 <= k < |env1| && env1[k].name == "AMQ_CLUSTER_USER" ==> env1[k].value == ""
  {
    var checks := ClusterChecksAsWritten(dp);
    var env0 := pod.containers[0].env;
    assert NeedsWrite(env0, checks[1]);
    var doomed := Doomed(env0, checks);
    var toWrite := Fresh(env0, checks);
    var swept := Sweep(env0, doomed);
    var env1 := CheckSync(pod, checks).0.containers[0].env;
    assert env1 == swept + toWrite;
    assert ClusterUserEntry in toWrite;
    var w :| 0 <= w < |toWrite| && toWrite[w] == ClusterUserEntry;
    assert env1[|swept| + w] == ClusterUserEntry;
    SweepMembers(env0, doomed);
    forall k | 0 <= k < |env1| && env1[k].name == "AMQ_CLUSTER_USER" ensures env1[k].value == "" {
      if k >= |swept| {
        assert env1[k] in toWrite;
        var j :| 0 <= j < |checks| && NeedsWrite(env0, checks[j]) && checks[j].entry == env1[k];
      }
    }
  }

  /**
   * The corrected cluster sync: the user and password entries are out of date
   * when they differ from the entry the sync writes (value and secret reference).
   */
  function ClusterChecks(dp: DeploymentPlan): (r: seq<Check>)
    ensures Settling(r)
    ensures |r| == 3 && r[0].name == "AMQ_CLUSTERED" && r[1].entry == ClusterUserEntry && r[2].entry == ClusterPasswordEntry
  {
    ParseFormatBool(dp.clustered);
    [ ClusteredCheck(dp),
      Check("AMQ_CLUSTER_USER", EntryDiffersFrom(ClusterUserEntry), ClusterUserEntry),
      Check("AMQ_CLUSTER_PASSWORD", EntryDiffersFrom(ClusterPasswordEntry), ClusterPasswordEntry) ]
  }

  function ClusterSync(pod: PodSpec, dp: DeploymentPlan): (r: (PodSpec, bool))
    requires |pod.containers| > 0
    ensures |r.0.containers| == |pod.containers| && r.0.volumes == pod.volumes
  {
    CheckSync(pod, ClusterChecks(dp))
  }

  /**
   * After the corrected sync, container 0 has an `AMQ_CLUSTERED` entry whose
   * every copy parses to the resource's flag and the secret-sourced credential
   * entries, and a second sync reports nothing.
   */
  lemma ClusterSyncSettles(pod: PodSpec, dp: DeploymentPlan)
    requires |pod.containers| > 0
    ensures var env1 := ClusterSync(pod, dp).0.containers[0].env;
      && HasName(env1, "AMQ_CLUSTERED")
      && (forall k :: 0 <= k < |env1| && env1[k].name == "AMQ_CLUSTERED" ==> ParseBool(env1[k].value).0 == dp.clustered)
      && (forall k :: 0 <= k < |env1| && env1[k].name == "AMQ_CLUSTER_USER" ==> env1[k] == ClusterUserEntry)
    ensures !ClusterSync(ClusterSync(pod, dp).0, dp).1
  {
    var checks := ClusterChecks(dp);
    CheckSyncEstablishes(pod, checks);
    assert !NeedsWrite(ClusterSync(pod, dp).0.containers[0].env, checks[0]);
    assert !NeedsWrite(ClusterSync(pod, dp).0.containers[0].env, checks[1]);
  }

  // ---------------------------------------------------------------------------
  // SSL configuration.

  const KeystoreNames := {"AMQ_KEYSTORE", "AMQ_KEYSTORE_PASSWORD", "AMQ_KEYSTORE_TRUSTSTORE_DIR"}
  const TruststoreNames := {"AMQ_TRUSTSTORE", "AMQ_TRUSTSTORE_PASSWORD"}
  const SecretVolumeName := "broker-secret-volume"
  const SecretVolumeMount := VolumeMount(SecretVolumeName, "/etc/amq-secret-volume", true)
  /** The secret name is a placeholder in the operator. */
  const SecretVolume := Volume(SecretVolumeName, SecretSource("TODO-FIX-REPLACE"))

  predicate HasSecretMount(c: Container) {
    exists k :: 0 <= k < |c.volumeMounts| && c.volumeMounts[k].name == SecretVolumeName
  }

  /**
   * The mount loop of `sslConfigSyncEnsureSecretVolumeMountExists` as written:
   * the "mount exists" flag is never reset, so once one container has the
   * mount, no later container is given one.
   */
  function AddSecretMountsAsWritten(cs: seq<Container>, seen: bool): (r: seq<Container>)
    ensures |r| == |cs|
  {
    if cs == [] then []
    else
      var seenNow := seen || HasSecretMount(cs[0]);
      [if seenNow then cs[0] else cs[0].(volumeMounts := cs[0].volumeMounts + [SecretVolumeMount])]
        + AddSecretMountsAsWritten(cs[1..], seenNow)
  }

  /** Two containers, the first with the mount: the second is left without one. */
  lemma SecretMountsAsWrittenSkipsLaterContainers(c0: Container, c1: Container)
    requires HasSecretMount(c0) && !HasSecretMount(c1)
    ensures !HasSecretMount(AddSecretMountsAsWritten([c0, c1], false)[1])
  {
    assert [c0, c1][1..] == [c1];
    assert [c1][1..] == [];
  }

  /** The corrected mount loop: every container lacking the secret mount is given one. */
  function AddSecretMounts(cs: seq<Container>): (r: seq<Container>)
    ensures |r| == |cs|
    ensures forall i :: 0 <= i < |cs| ==> HasSecretMount(r[i])
    ensures forall i :: 0 <= i < |cs| && HasSecretMount(cs[i]) ==> r[i] == cs[i]
    ensures forall i :: 0 <= i < |cs| ==> r[i].env == cs[i].env && r[i].image == cs[i].image
  {
    var r := seq(|cs|, i requires 0 <= i < |cs| =>
      if HasSecretMount(cs[i]) then cs[i] else cs[i].(volumeMounts := cs[i].volumeMounts + [SecretVolumeMount]));
    assert forall i :: 0 <= i < |cs| && !HasSecretMount(cs[i]) ==>
      r[i].volumeMounts[|cs[i].volumeMounts|] == SecretVolumeMount;
    r
  }

  /** Where no container had the mount yet, the loop as written and the corrected one agree. */
  lemma {:induction false} SecretMountsAgreeWithoutMounts(cs: seq<Container>)
    requires forall i :: 0 <= i < |cs| ==> !HasSecretMount(cs[i])
    ensures AddSecretMountsAsWritten(cs, false) == AddSecretMounts(cs)
  {
    if cs != [] {
      SecretMountsAgreeWithoutMounts(cs[1..]);
      assert AddSecretMounts(cs) == [AddSecretMounts(cs)[0]] + AddSecretMounts(cs[1..]);
    }
  }

  /** `sslConfigSyncEnsureSecretVolumeMountExists`: the secret volume is appended and each container mounts it. */
  function EnsureSecretVolumeMount(pod: PodSpec): (r: PodSpec)
    ensures r.volumes == pod.volumes + [SecretVolume]
    ensures |r.containers| == |pod.containers|
    ensures forall i :: 0 <= i < |r.containers| ==> HasSecretMount(r.containers[i])
  {
    PodSpec(AddSecretMounts(pod.containers), pod.volumes + [SecretVolume])
  }

  /**
   * `sslConfigSyncCausedUpdateOn`: with SSL not configurable, the keystore names
   * and then the truststore names are removed from every container; if any was
   * there, the secret volume and its mounts are ensured.
   */
  function SslSync(pod: PodSpec): (r: (PodSpec, bool))
    ensures r.1 <==> AnyHolds(pod.containers, KeystoreNames) || AnyHolds(pod.containers, TruststoreNames)
    ensures !AnyHolds(r.0.containers, KeystoreNames) && !AnyHolds(r.0.containers, TruststoreNames)
    ensures |r.0.containers| == |pod.containers|
    ensures !r.1 ==> r.0 == pod
    ensures r.1 ==> r.0.volumes == pod.volumes + [SecretVolume]
    ensures r.1 ==> forall i :: 0 <= i < |r.0.containers| ==> HasSecretMount(r.0.containers[i])
  {
    var (p1, keystoreRemoved) := RemoveSync(pod, KeystoreNames);
    var (p2, truststoreRemoved) := RemoveSync(p1, TruststoreNames);
    SslRemovalFacts(pod);
    if keystoreRemoved || truststoreRemoved then (EnsureSecretVolumeMount(p2), true) else (p2, false)
  }

  lemma SslRemovalFacts(pod: PodSpec)
    ensures var p1 := RemoveSync(pod, KeystoreNames).0;
      var p2 := RemoveSync(p1, TruststoreNames).0;
      && (AnyHolds(p1.containers, TruststoreNames) <==> AnyHolds(pod.containers, TruststoreNames))
      && !AnyHolds(p2.containers, KeystoreNames)
      && (!AnyHolds(pod.containers, KeystoreNames) && !AnyHolds(pod.containers, TruststoreNames) ==> p2 == pod)
  {
    var p1 := RemoveSync(pod, KeystoreNames).0;
    RemovalKeepsOtherNames(pod, KeystoreNames, TruststoreNames);
    RemovalKeepsAbsence(p1, TruststoreNames, KeystoreNames);
    if !AnyHolds(pod.containers, KeystoreNames) && !AnyHolds(pod.containers, TruststoreNames) {
      RemovalOfAbsentNames(pod, KeystoreNames);
      RemovalOfAbsentNames(p1, TruststoreNames);
    }
  }

  /** Entries under names outside the removed set are still held afterwards. */
  lemma RemovalKeepsOtherNames(pod: PodSpec, names: set<string>, others: set<string>)
    requires names !! others
    ensures AnyHolds(RemoveSync(pod, names).0.containers, others) <==> AnyHolds(pod.containers, others)
  {
    var p1 := RemoveSync(pod, names).0;
    if AnyHolds(pod.containers, others) {
      var i, k :| 0 <= i < |pod.containers| && 0 <= k < |pod.containers[i].env| && pod.containers[i].env[k].name in others;
      RemoveSyncKeepsOthers(pod, names, i);
      assert pod.containers[i].env[k] in p1.containers[i].env;
    }
    if AnyHolds(p1.containers, others) {
      var i, k :| 0 <= i < |p1.containers| && 0 <= k < |p1.containers[i].env| && p1.containers[i].env[k].name in others;
      RemoveSyncKeepsOthers(pod, names, i);
      assert p1.containers[i].env[k] in pod.containers[i].env;
    }
  }

  /** Removal never introduces a name that was absent. */
  lemma RemovalKeepsAbsence(pod: PodSpec, names: set<string>, others: set<string>)
    requires !AnyHolds(pod.containers, others)
    ensures !AnyHolds(RemoveSync(pod, names).0.containers, others)
  {
    var p1 := RemoveSync(pod, names).0;
    if AnyHolds(p1.containers, others) {
      var i, k :| 0 <= i < |p1.containers| && 0 <= k < |p1.containers[i].env| && p1.containers[i].env[k].name in others;
      RemoveSyncKeepsOthers(pod, names, i);
    }
  }

  /** Removing names nobody holds changes nothing. */
  lemma RemovalOfAbsentNames(pod: PodSpec, names: set<string>)
    requires !AnyHolds(pod.containers, names)
    ensures RemoveSync(pod, names).0 == pod
  {
    var p1 := RemoveSync(pod, names).0;
    forall i | 0 <= i < |pod.containers| ensures p1.containers[i] == pod.containers[i] {
      SweepNoop(pod.containers[i].env, names);
    }
  }

  /** A second SSL sync finds nothing to remove. */
  lemma SslSyncSettles(pod: PodSpec)
    ensures !SslSync(SslSync(pod).0).1
  {
  }

  // ---------------------------------------------------------------------------
  // Image.

  /** `imageSyncCausedUpdateOn`: judged on container 0; on a difference every container gets the image. */
  function ImageSync(pod: PodSpec, image: string): (r: (PodSpec, bool))
    requires |pod.containers| > 0
    ensures r.1 <==> pod.containers[0].image != image
    ensures r.1 ==> forall i :: 0 <= i < |r.0.containers| ==> r.0.containers[i].image == image
    ensures !r.1 ==> r.0 == pod
    ensures |r.0.containers| == |pod.containers| && r.0.volumes == pod.volumes
    ensures forall i :: 0 <= i < |pod.containers| ==> r.0.containers[i].env == pod.containers[i].env
  {
    if pod.containers[0].image != image then
      (pod.(containers := seq(|pod.containers|, i requires 0 <= i < |pod.containers| =>
         pod.containers[i].(image := image))), true)
    else (pod, false)
  }

  lemma ImageSyncSettles(pod: PodSpec, image: string)
    requires |pod.containers| > 0
    ensures ImageSync(pod, image).0.containers[0].image == image
    ensures !ImageSync(ImageSync(pod, image).0, image).1
  {
  }

  // ---------------------------------------------------------------------------
  // Journal type (AIO or NIO).

  const ExtraArgsName := "AMQ_EXTRA_ARGS"

  /** The value of container 0's first `AMQ_EXTRA_ARGS` entry, or the empty string. */
  function ExtraArgsOf(env: seq<EnvVar>): (r: string)
    ensures !HasName(env, ExtraArgsName) ==> r == ""
    ensures forall k ::
      (0 <= k < |env| && env[k].name == ExtraArgsName && forall k' :: 0 <= k' < k ==> env[k'].name != ExtraArgsName)
      ==> r == env[k].value
  {
    if HasName(env, ExtraArgsName) then env[FirstIndex(env, ExtraArgsName)].value else ""
  }

  /** The journal type asks for AIO, compared case-insensitively: any ASCII casing of `aio`. */
  predicate WantsAio(journalType: string)
    ensures WantsAio(journalType) <==>
      && |journalType| == 3
      && journalType[0] in {'a', 'A'} && journalType[1] in {'i', 'I'} && journalType[2] in {'o', 'O'}
  {
    LowerCharIs(journalType);
    ToLower(journalType) == "aio"
  }

  /** Which characters lower-case to the letters of `aio`. */
  lemma LowerCharIs(s: string)
    ensures |s| == 3 ==>
      && (LowerChar(s[0]) == 'a' <==> s[0] in {'a', 'A'})
      && (LowerChar(s[1]) == 'i' <==> s[1] in {'i', 'I'})
      && (LowerChar(s[2]) == 'o' <==> s[2] in {'o', 'O'})
  {
  }

  /**
   * The rewritten broker arguments: for an AIO journal the first `--nio` becomes
   * `--aio`, otherwise the first `--aio` becomes `--nio`; `None` when there is
   * nothing to rewrite.
   */
  function AioExtraArgs(journalType: string, extraArgs: string): (r: Option<string>)
    ensures r.None? <==>
      if WantsAio(journalType) then !Contains(extraArgs, "--nio") else !Contains(extraArgs, "--aio")
    ensures r.Some? ==> |r.value| == |extraArgs|
    ensures r.Some? && WantsAio(journalType) ==> Contains(r.value, "--aio")
    ensures r.Some? && !WantsAio(journalType) ==> Contains(r.value, "--nio")
  {
    if WantsAio(journalType) && Contains(extraArgs, "--nio") then
      var a := ReplaceFirst(extraArgs, "--nio", "--aio");
      ReplacedFlagPresent(extraArgs, "--nio", "--aio");
      Some(a)
    else if !WantsAio(journalType) && Contains(extraArgs, "--aio") then
      var a := ReplaceFirst(extraArgs, "--aio", "--nio");
      ReplacedFlagPresent(extraArgs, "--aio", "--nio");
      Some(a)
    else None
  }

  /** Replacing the first occurrence of a pattern by a replacement of the same length leaves the replacement there. */
  lemma ReplacedFlagPresent(s: string, pattern: string, replacement: string)
    requires Contains(s, pattern) && |pattern| == |replacement|
    ensures |ReplaceFirst(s, pattern, replacement)| == |s|
    ensures Contains(ReplaceFirst(s, pattern, replacement), replacement)
  {
    var i := Index(s, pattern);
    var r := ReplaceFirst(s, pattern, replacement);
    assert r[i..i + |replacement|] == replacement;
    assert OccursAt(r, replacement, i);
  }

  /** One container's part: the first `AMQ_EXTRA_ARGS` entry is removed and the new one appended; none, no change. */
  function ReplaceExtraArgs(env: seq<EnvVar>, v: EnvVar): (r: seq<EnvVar>)
    ensures |r| == |env|
    ensures HasName(env, ExtraArgsName) ==>
      r[|r| - 1] == v && multiset(r) == multiset(env) - multiset{env[FirstIndex(env, ExtraArgsName)]} + multiset{v}
    ensures !HasName(env, ExtraArgsName) ==> r == env
  {
    if HasName(env, ExtraArgsName) then Remove(env, FirstIndex(env, ExtraArgsName)) + [v] else env
  }

  /** `aioSyncCausedUpdateOn`. */
  function AioSync(pod: PodSpec, journalType: string): (r: (PodSpec, bool))
    requires |pod.containers| > 0
    ensures r.1 <==> AioExtraArgs(journalType, ExtraArgsOf(pod.containers[0].env)).Some?
    ensures !r.1 ==> r.0 == pod
    ensures |r.0.containers| == |pod.containers| && r.0.volumes == pod.volumes
    ensures forall i :: 0 <= i < |pod.containers| ==> |r.0.containers[i].env| == |pod.containers[i].env|
  {
    match AioExtraArgs(journalType, ExtraArgsOf(pod.containers[0].env))
    case None => (pod, false)
    case Some(a) =>
      var v := EnvVar(ExtraArgsName, a, None);
      (pod.(containers := seq(|pod.containers|, i requires 0 <= i < |pod.containers| =>
         pod.containers[i].(env := ReplaceExtraArgs(pod.containers[i].env, v)))), true)
  }

  /**
   * After a rewrite, container 0's last entry carries the rewritten arguments,
   * which hold the flag the journal type asks for.
   */
  lemma AioSyncWritesFlag(pod: PodSpec, journalType: string)
    requires |pod.containers| > 0 && AioSync(pod, journalType).1
    ensures var env1 := AioSync(pod, journalType).0.containers[0].env;
      && |env1| > 0 && env1[|env1| - 1].name == ExtraArgsName
      && Contains(env1[|env1| - 1].value, if WantsAio(journalType) then "--aio" else "--nio")
  {
  }

  // ---------------------------------------------------------------------------
  // Persistence.

  const DataDirNames := {"AMQ_DATA_DIR", "AMQ_DATA_DIR_LOGGING"}

  /** The data directory is out of date only when it reads "false"; logging, when it is not "true". */
  function PersistentChecks(crName: string): (r: seq<Check>)
    ensures Settling(r)
    ensures |r| == 2 && r[0].entry == AddEnvVarForPersistent(crName)[0] && r[1].entry == AddEnvVarForPersistent(crName)[1]
  {
    var dataDir := "/opt/" + crName + "/data";
    assert dataDir[0] == '/';
    [ Check("AMQ_DATA_DIR", ValueEquals("false"), EnvVar("AMQ_DATA_DIR", dataDir, None)),
      Check("AMQ_DATA_DIR_LOGGING", ValueDiffersFrom("true"), EnvVar("AMQ_DATA_DIR_LOGGING", "true", None)) ]
  }

  /** `persistentSyncCausedUpdateOn`: the checks when persistence is enabled, otherwise removal of both names. */
  function PersistentSync(pod: PodSpec, crName: string, enabled: bool): (r: (PodSpec, bool))
    requires |pod.containers| > 0
    ensures |r.0.containers| == |pod.containers| && r.0.volumes == pod.volumes
    ensures !enabled ==> (r.1 <==> AnyHolds(pod.containers, DataDirNames)) && !AnyHolds(r.0.containers, DataDirNames)
  {
    if enabled then CheckSync(pod, PersistentChecks(crName)) else RemoveSync(pod, DataDirNames)
  }

  lemma PersistentSyncSettles(pod: PodSpec, crName: string, enabled: bool)
    requires |pod.containers| > 0
    ensures !PersistentSync(PersistentSync(pod, crName, enabled).0, crName, enabled).1
  {
    if enabled {
      CheckSyncSettles(pod, PersistentChecks(crName));
    }
  }

  /**
   * With persistence enabled: an update is reported exactly when container 0
   * lacks either name, holds a data directory reading "false" or a logging flag
   * other than "true"; the missing or out-of-date entries are then written to
   * every container; and afterwards container 0 holds both names with no such entry.
   */
  lemma PersistentSyncWrites(pod: PodSpec, crName: string)
    requires |pod.containers| > 0
    ensures var env0 := pod.containers[0].env;
      PersistentSync(pod, crName, true).1 <==>
        || !HasName(env0, "AMQ_DATA_DIR")
        || (exists k :: 0 <= k < |env0| && env0[k].name == "AMQ_DATA_DIR" && env0[k].value == "false")
        || !HasName(env0, "AMQ_DATA_DIR_LOGGING")
        || (exists k :: 0 <= k < |env0| && env0[k].name == "AMQ_DATA_DIR_LOGGING" && env0[k].value != "true")
    ensures var env0 := pod.containers[0].env;
      var cs := PersistentSync(pod, crName, true).0.containers;
      (!HasName(env0, "AMQ_DATA_DIR") || AnyStale(env0, "AMQ_DATA_DIR", ValueEquals("false"))) ==>
        forall c :: 0 <= c < |cs| ==> EnvVar("AMQ_DATA_DIR", "/opt/" + crName + "/data", None) in cs[c].env
    ensures var env0 := pod.containers[0].env;
      var cs := PersistentSync(pod, crName, true).0.containers;
      (!HasName(env0, "AMQ_DATA_DIR_LOGGING") || AnyStale(env0, "AMQ_DATA_DIR_LOGGING", ValueDiffersFrom("true"))) ==>
        forall c :: 0 <= c < |cs| ==> EnvVar("AMQ_DATA_DIR_LOGGING", "true", None) in cs[c].env
    ensures var env1 := PersistentSync(pod, crName, true).0.containers[0].env;
      && HasName(env1, "AMQ_DATA_DIR") && HasName(env1, "AMQ_DATA_DIR_LOGGING")
      && (forall k :: 0 <= k < |env1| && env1[k].name == "AMQ_DATA_DIR" ==> env1[k].value != "false")
      && (forall k :: 0 <= k < |env1| && env1[k].name == "AMQ_DATA_DIR_LOGGING" ==> env1[k].value == "true")
  {
    var checks := PersistentChecks(crName);
    var env0 := pod.containers[0].env;
    assert NeedsWrite(env0, checks[0]) <==>
      !HasName(env0, "AMQ_DATA_DIR") || AnyStale(env0, "AMQ_DATA_DIR", ValueEquals("false"));
    assert NeedsWrite(env0, checks[1]) <==>
      !HasName(env0, "AMQ_DATA_DIR_LOGGING") || AnyStale(env0, "AMQ_DATA_DIR_LOGGING", ValueDiffersFrom("true"));
    if NeedsWrite(env0, checks[0]) {
      CheckSyncWritesEntry(pod, checks, 0);
    }
    if NeedsWrite(env0, checks[1]) {
      CheckSyncWritesEntry(pod, checks, 1);
    }
    CheckSyncEstablishes(pod, checks);
    var env1 := PersistentSync(pod, crName, true).0.containers[0].env;
    assert !NeedsWrite(env1, checks[0]);
    assert !NeedsWrite(env1, checks[1]);
  }

  // ---------------------------------------------------------------------------
  // Common credentials.

  function CommonChecks(dp: DeploymentPlan): (r: seq<Check>)
    ensures Settling(r)
    ensures |r| == 2 && r[0].entry == EnvVar("AMQ_USER", dp.user, None) && r[1].entry == EnvVar("AMQ_PASSWORD", dp.password, None)
  {
    [ Check("AMQ_USER", ValueDiffersFrom(dp.user), EnvVar("AMQ_USER", dp.user, None)),
      Check("AMQ_PASSWORD", ValueDiffersFrom(dp.password), EnvVar("AMQ_PASSWORD", dp.password, None)) ]
  }

  /** `commonConfigSyncCausedUpdateOn`: only when both a user and a password are given. */
  function CommonSync(pod: PodSpec, dp: DeploymentPlan): (r: (PodSpec, bool))
    requires |pod.containers| > 0
    ensures (dp.user == "" || dp.password == "") ==> r == (pod, false)
    ensures |r.0.containers| == |pod.containers| && r.0.volumes == pod.volumes
  {
    if dp.password != "" && dp.user != "" then CheckSync(pod, CommonChecks(dp)) else (pod, false)
  }

  /** With credentials given, container 0 ends up with the user entry, every copy holding the resource's user. */
  lemma CommonSyncSettles(pod: PodSpec, dp: DeploymentPlan)
    requires |pod.containers| > 0
    ensures dp.user != "" && dp.password != "" ==>
      var env1 := CommonSync(pod, dp).0.containers[0].env;
      && HasName(env1, "AMQ_USER") && HasName(env1, "AMQ_PASSWORD")
      && forall k :: 0 <= k < |env1| && env1[k].name == "AMQ_USER" ==> env1[k].value == dp.user
    ensures !CommonSync(CommonSync(pod, dp).0, dp).1
  {
    if dp.user != "" && dp.password != "" {
      var checks := CommonChecks(dp);
      CheckSyncEstablishes(pod, checks);
      var env1 := CommonSync(pod, dp).0.containers[0].env;
      assert !NeedsWrite(env1, checks[0]);
      assert !NeedsWrite(env1, checks[1]);
    }
  }

  // ---------------------------------------------------------------------------
  // The whole reconciliation, as a function of the resource and the live state.

  datatype Outcome = Outcome(replicas: Int32, pod: PodSpec, updates: bv32)

  /** The pod after one pass of the syncs, and which of them reported an update. */
  datatype Pass = Pass(pod: PodSpec, cluster: bool, ssl: bool, image: bool, aio: bool, persistent: bool, common: bool)

  /**
   * The syncs in the operator's order (cluster, SSL, image, journal type,
   * persistence, common credentials), each on the pod its predecessor left.
   */
  function RunSyncs(cr: ActiveMQArtemis, pod: PodSpec): (r: Pass)
    requires |pod.containers| > 0
    ensures |r.pod.containers| == |pod.containers|
  {
    var dp := cr.spec.deploymentPlan;
    var cluster := ClusterSync(pod, dp);
    var ssl := SslSync(cluster.0);
    var image := ImageSync(ssl.0, dp.image);
    var aio := AioSync(image.0, dp.journalType);
    var persistent := PersistentSync(aio.0, cr.name, dp.persistenceEnabled);
    var common := CommonSync(persistent.0, dp);
    Pass(common.0, cluster.1, ssl.1, image.1, aio.1, persistent.1, common.1)
  }

  /**
   * `Process`: the replica count is set to the plan's size, the syncs run, and
   * the flags of the steps that changed something are added to the accumulated mask.
   */
  function Reconcile(cr: ActiveMQArtemis, replicas: Int32, pod: PodSpec, updates: bv32): (o: Outcome)
    requires |pod.containers| > 0
    ensures o.replicas == cr.spec.deploymentPlan.size
    ensures |o.pod.containers| == |pod.containers|
  {
    var size := cr.spec.deploymentPlan.size;
    var p := RunSyncs(cr, pod);
    Outcome(size, p.pod, updates | Reported(replicas != size, p.cluster, p.ssl, p.image, p.aio, p.persistent, p.common))
  }

  /** The mask only grows: every bit set before a pass is set after it. */
  lemma ReconcileMaskGrows(cr: ActiveMQArtemis, replicas: Int32, pod: PodSpec, updates: bv32)
    requires |pod.containers| > 0
    ensures Reconcile(cr, replicas, pod, updates).updates & updates == updates
  {
    var p := RunSyncs(cr, pod);
    OrKeeps(updates, Reported(replicas != cr.spec.deploymentPlan.size, p.cluster, p.ssl, p.image, p.aio, p.persistent, p.common));
  }

  /** A pass adds none of the bits above the seven flags. */
  lemma ReconcileMaskHigh(cr: ActiveMQArtemis, replicas: Int32, pod: PodSpec, updates: bv32)
    requires |pod.containers| > 0
    ensures Reconcile(cr, replicas, pod, updates).updates & !AllFlags == updates & !AllFlags
  {
    var p := RunSyncs(cr, pod);
    MaskHigh(updates, replicas != cr.spec.deploymentPlan.size, p.cluster, p.ssl, p.image, p.aio, p.persistent, p.common);
  }

  /** The size flag is set after a pass exactly when it was set before or the replica count differed from the plan. */
  lemma ReconcileSizeFlag(cr: ActiveMQArtemis, replicas: Int32, pod: PodSpec, updates: bv32)
    requires |pod.containers| > 0
    ensures Reconcile(cr, replicas, pod, updates).updates & StatefulSetSizeUpdated != 0
      <==> updates & StatefulSetSizeUpdated != 0 || replicas != cr.spec.deploymentPlan.size
  {
    var p := RunSyncs(cr, pod);
    MaskSize(updates, replicas != cr.spec.deploymentPlan.size, p.cluster, p.ssl, p.image, p.aio, p.persistent, p.common);
  }

  /** `RunSyncs` read stage by stage, as `Process` runs it. */
  lemma RunSyncsStages(cr: ActiveMQArtemis, pod: PodSpec,
                       p1: PodSpec, cluster: bool, p2: PodSpec, ssl: bool, p3: PodSpec, image: bool,
                       p4: PodSpec, aio: bool, p5: PodSpec, persistent: bool, p6: PodSpec, common: bool)
    requires |pod.containers| > 0
    requires (p1, cluster) == ClusterSync(pod, cr.spec.deploymentPlan)
    requires (p2, ssl) == SslSync(p1)
    requires |p2.containers| > 0
    requires (p3, image) == ImageSync(p2, cr.spec.deploymentPlan.image)
    requires |p3.containers| > 0
    requires (p4, aio) == AioSync(p3, cr.spec.deploymentPlan.journalType)
    requires |p4.containers| > 0
    requires (p5, persistent) == PersistentSync(p4, cr.name, cr.spec.deploymentPlan.persistenceEnabled)
    requires |p5.containers| > 0
    requires (p6, common) == CommonSync(p5, cr.spec.deploymentPlan)
    ensures RunSyncs(cr, pod) == Pass(p6, cluster, ssl, image, aio, persistent, common)
  {
  }

  // ---------------------------------------------------------------------------
  // The live objects and the methods that edit them.

  /** The live StatefulSet: its replica count and its pod template's spec, edited in place. */
  class StatefulSet {
    var replicas: Int32
    var pod: PodSpec

    constructor (replicas: Int32, pod: PodSpec)
      ensures this.replicas == replicas && this.pod == pod
    {
      this.replicas := replicas;
      this.pod := pod;
    }
  }

  /** The scan of container 0: which names to sweep out and which entries to write. */
  method PlanChecks(env0: seq<EnvVar>, checks: seq<Check>) returns (doomed: set<string>, toWrite: seq<EnvVar>)
    ensures doomed == Doomed(env0, checks) && toWrite == Fresh(env0, checks)
  {
    doomed := {};
    toWrite := [];
    for n := 0 to |checks|
      invariant doomed == Doomed(env0, checks[..n])
      invariant toWrite == Fresh(env0, checks[..n])
    {
      assert checks[..n + 1][..n] == checks[..n];
      var found, needsUpdate := Inspect(env0, checks[n].name, checks[n].rule);
      if !found || needsUpdate {
        toWrite := toWrite + [checks[n].entry];
      }
      if needsUpdate {
        doomed := doomed + {checks[n].name};
      }
    }
    assert checks[..|checks|] == checks;
  }

  /** The edit loop over the containers: each sheds the doomed names and receives the entries, one by one. */
  method SyncAll(cs: seq<Container>, doomed: set<string>, toWrite: seq<EnvVar>) returns (r: seq<Container>)
    requires toWrite != []
    ensures r == SyncContainers(cs, doomed, toWrite)
  {
    r := cs;
    for i := 0 to |cs|
      invariant |r| == |cs|
      invariant forall i' :: 0 <= i' < i ==> r[i'] == cs[i'].(env := Sweep(cs[i'].env, doomed) + toWrite)
      invariant forall i' :: i <= i' < |cs| ==> r[i'] == cs[i']
    {
      var env, _ := SweepEnv(r[i].env, doomed);
      ghost var swept := env;
      for j := 0 to |toWrite|
        invariant env == swept + toWrite[..j]
      {
        assert toWrite[..j + 1] == toWrite[..j] + [toWrite[j]];
        env := env + [toWrite[j]];
      }
      assert toWrite[..|toWrite|] == toWrite;
      r := r[i := r[i].(env := env)];
    }
  }

  /** Inspect container 0, sweep the out-of-date names from every container, append the entries to write. */
  method SyncChecks(ss: StatefulSet, checks: seq<Check>) returns (updated: bool)
    requires |ss.pod.containers| > 0
    modifies ss
    ensures (ss.pod, updated) == CheckSync(old(ss.pod), checks)
    ensures ss.replicas == old(ss.replicas)
  {
    var doomed, toWrite := PlanChecks(ss.pod.containers[0].env, checks);
    updated := toWrite != [];
    if updated {
      var cs := SyncAll(ss.pod.containers, doomed, toWrite);
      ss.pod := ss.pod.(containers := cs);
    }
  }

  /** The removal loop over the containers; reports whether any container held one of the names. */
  method SweepAll(cs: seq<Container>, names: set<string>) returns (r: seq<Container>, removed: bool)
    ensures r == SweepContainers(cs, names)
    ensures removed <==> AnyHolds(cs, names)
  {
    r, removed := cs, false;
    for i := 0 to |cs|
      invariant |r| == |cs|
      invariant forall i' :: 0 <= i' < i ==> r[i'] == cs[i'].(env := Sweep(cs[i'].env, names))
      invariant forall i' :: i <= i' < |cs| ==> r[i'] == cs[i']
      invariant removed <==> exists i', k :: 0 <= i' < i && 0 <= k < |cs[i'].env| && cs[i'].env[k].name in names
    {
      var env, found := SweepEnv(r[i].env, names);
      removed := removed || found;
      r := r[i := r[i].(env := env)];
    }
  }

  /** Sweep a fixed set of names out of every container; report whether any was there. */
  method RemoveFromAll(ss: StatefulSet, names: set<string>) returns (removed: bool)
    modifies ss
    ensures (ss.pod, removed) == RemoveSync(old(ss.pod), names)
    ensures ss.replicas == old(ss.replicas)
  {
    var cs;
    cs, removed := SweepAll(ss.pod.containers, names);
    ss.pod := ss.pod.(containers := cs);
  }

  /** `clusterConfigSyncCausedUpdateOn`, with the corrected credential checks. */
  method ClusterConfigSync(cr: ActiveMQArtemis, ss: StatefulSet) returns (updated: bool)
    requires |ss.pod.containers| > 0
    modifies ss
    ensures (ss.pod, updated) == ClusterSync(old(ss.pod), cr.spec.deploymentPlan)
    ensures ss.replicas == old(ss.replicas)
  {
    updated := SyncChecks(ss, ClusterChecks(cr.spec.deploymentPlan));
  }

  /** The mount loop, with the "mount exists" flag kept per container. */
  method MountSecretVolume(cs: seq<Container>) returns (r: seq<Container>)
    ensures r == AddSecretMounts(cs)
  {
    r := cs;
    for i := 0 to |cs|
      invariant |r| == |cs|
      invariant forall i' :: 0 <= i' < i ==> r[i'] == AddSecretMounts(cs)[i']
      invariant forall i' :: i <= i' < |cs| ==> r[i'] == cs[i']
    {
      var mountExists := false;
      for j := 0 to |r[i].volumeMounts|
        invariant mountExists <==> exists k :: 0 <= k < j && r[i].volumeMounts[k].name == SecretVolumeName
      {
        if r[i].volumeMounts[j].name == SecretVolumeName {
          mountExists := true;
        }
      }
      if !mountExists {
        r := r[i := r[i].(volumeMounts := r[i].volumeMounts + [SecretVolumeMount])];
      }
    }
  }

  /** `sslConfigSyncEnsureSecretVolumeMountExists`: the secret volume is appended, then each container mounts it. */
  method EnsureSecretVolumeMountExists(ss: StatefulSet)
    modifies ss
    ensures ss.pod == EnsureSecretVolumeMount(old(ss.pod))
    ensures ss.replicas == old(ss.replicas)
  {
    ss.pod := ss.pod.(volumes := ss.pod.volumes + [SecretVolume]);
    var cs := MountSecretVolume(ss.pod.containers);
    ss.pod := ss.pod.(containers := cs);
  }

  /** `sslConfigSyncCausedUpdateOn`. */
  method SslConfigSync(ss: StatefulSet) returns (updated: bool)
    modifies ss
    ensures (ss.pod, updated) == SslSync(old(ss.pod))
    ensures ss.replicas == old(ss.replicas)
  {
    var keystoreRemoved := RemoveFromAll(ss, KeystoreNames);
    var truststoreRemoved := RemoveFromAll(ss, TruststoreNames);
    updated := keystoreRemoved || truststoreRemoved;
    if updated {
      EnsureSecretVolumeMountExists(ss);
    }
  }

  /** The image loop over the containers. */
  method SetImages(cs: seq<Container>, image: string) returns (r: seq<Container>)
    ensures |r| == |cs|
    ensures forall i :: 0 <= i < |cs| ==> r[i] == cs[i].(image := image)
  {
    r := cs;
    for i := 0 to |cs|
      invariant |r| == |cs|
      invariant forall i' :: 0 <= i' < i ==> r[i'] == cs[i'].(image := image)
      invariant forall i' :: i <= i' < |cs| ==> r[i'] == cs[i']
    {
      r := r[i := r[i].(image := image)];
    }
  }

  /** `imageSyncCausedUpdateOn`. */
  method ImageConfigSync(cr: ActiveMQArtemis, ss: StatefulSet) returns (updated: bool)
    requires |ss.pod.containers| > 0
    modifies ss
    ensures (ss.pod, updated) == ImageSync(old(ss.pod), cr.spec.deploymentPlan.image)
    ensures ss.replicas == old(ss.replicas)
  {
    var image := cr.spec.deploymentPlan.image;
    updated := ss.pod.containers[0].image != image;
    if updated {
      var cs := SetImages(ss.pod.containers, image);
      assert cs == ImageSync(old(ss.pod), image).0.containers;
      ss.pod := ss.pod.(containers := cs);
    }
  }

  /** The scan of container 0 and the rewrite of its broker arguments. */
  method RewriteExtraArgs(env0: seq<EnvVar>, journalType: string) returns (r: Option<string>)
    ensures r == AioExtraArgs(journalType, ExtraArgsOf(env0))
  {
    var extraArgs := "";
    var at := Find(env0, ExtraArgsName);
    if at.Some? {
      extraArgs := env0[at.value].value;
    }
    var foundAio := Index(extraArgs, "--aio") > -1;
    var foundNio := Index(extraArgs, "--nio") > -1;
    var aio := ToLower(journalType) == "aio";
    r := None;
    if aio && foundNio {
      r := Some(ReplaceFirst(extraArgs, "--nio", "--aio"));
    }
    if !aio && foundAio {
      r := Some(ReplaceFirst(extraArgs, "--aio", "--nio"));
    }
  }

  /** The replacement loop: each container's first `AMQ_EXTRA_ARGS` entry is removed and `v` appended. */
  method ReplaceAllExtraArgs(cs: seq<Container>, v: EnvVar) returns (r: seq<Container>)
    ensures |r| == |cs|
    ensures forall i :: 0 <= i < |cs| ==> r[i] == cs[i].(env := ReplaceExtraArgs(cs[i].env, v))
  {
    r := cs;
    for i := 0 to |cs|
      invariant |r| == |cs|
      invariant forall i' :: 0 <= i' < i ==> r[i'] == cs[i'].(env := ReplaceExtraArgs(cs[i'].env, v))
      invariant forall i' :: i <= i' < |cs| ==> r[i'] == cs[i']
    {
      var k := Find(r[i].env, ExtraArgsName);
      if k.Some? {
        r := r[i := r[i].(env := Remove(r[i].env, k.value) + [v])];
      }
    }
  }

  /** `aioSyncCausedUpdateOn`. */
  method AioConfigSync(cr: ActiveMQArtemis, ss: StatefulSet) returns (updated: bool)
    requires |ss.pod.containers| > 0
    modifies ss
    ensures (ss.pod, updated) == AioSync(old(ss.pod), cr.spec.deploymentPlan.journalType)
    ensures ss.replicas == old(ss.replicas)
  {
    var extraArgs := RewriteExtraArgs(ss.pod.containers[0].env, cr.spec.deploymentPlan.journalType);
    updated := extraArgs.Some?;
    if updated {
      var v := EnvVar(ExtraArgsName, extraArgs.value, None);
      var cs := ReplaceAllExtraArgs(ss.pod.containers, v);
      assert cs == AioSync(old(ss.pod), cr.spec.deploymentPlan.journalType).0.containers;
      ss.pod := ss.pod.(containers := cs);
    }
  }

  /** `persistentSyncCausedUpdateOn`. */
  method PersistentConfigSync(cr: ActiveMQArtemis, ss: StatefulSet) returns (updated: bool)
    requires |ss.pod.containers| > 0
    modifies ss
    ensures (ss.pod, updated) == PersistentSync(old(ss.pod), cr.name, cr.spec.deploymentPlan.persistenceEnabled)
    ensures ss.replicas == old(ss.replicas)
  {
    if cr.spec.deploymentPlan.persistenceEnabled {
      updated := SyncChecks(ss, PersistentChecks(cr.name));
    } else {
      updated := RemoveFromAll(ss, DataDirNames);
    }
  }

  /** `commonConfigSyncCausedUpdateOn`. */
  method CommonConfigSync(cr: ActiveMQArtemis, ss: StatefulSet) returns (updated: bool)
    requires |ss.pod.containers| > 0
    modifies ss
    ensures (ss.pod, updated) == CommonSync(old(ss.pod), cr.spec.deploymentPlan)
    ensures ss.replicas == old(ss.replicas)
  {
    var dp := cr.spec.deploymentPlan;
    updated := false;
    if dp.password != "" && dp.user != "" {
      updated := SyncChecks(ss, CommonChecks(dp));
    }
  }

  /** The six syncs of `Process`, in the operator's order, on the live StatefulSet. */
  method ConfigSyncs(cr: ActiveMQArtemis, ss: StatefulSet) returns (pass: Pass)
    requires |ss.pod.containers| > 0
    modifies ss
    ensures pass == RunSyncs(cr, old(ss.pod)) && ss.pod == pass.pod
    ensures ss.replicas == old(ss.replicas)
  {
    ghost var p0 := ss.pod;
    var cluster := ClusterConfigSync(cr, ss);
    ghost var p1 := ss.pod;
    var ssl := SslConfigSync(ss);
    ghost var p2 := ss.pod;
    var image := ImageConfigSync(cr, ss);
    ghost var p3 := ss.pod;
    var aio := AioConfigSync(cr, ss);
    ghost var p4 := ss.pod;
    var persistent := PersistentConfigSync(cr, ss);
    ghost var p5 := ss.pod;
    var common := CommonConfigSync(cr, ss);
    RunSyncsStages(cr, p0, p1, cluster, p2, ssl, p3, image, p4, aio, p5, persistent, ss.pod, common);
    pass := Pass(ss.pod, cluster, ssl, image, aio, persistent, common);
  }

  /**
   * The mask updates of `Process`: each `if updated { mask |= flag }` of the
   * operator, in its order, written as or-ing `Bit(updated, flag)`; together
   * they add the flags `Reported` sets.
   */
  method Accumulate(updates: bv32, resized: bool, p: Pass) returns (mask: bv32)
    ensures mask == updates | Reported(resized, p.cluster, p.ssl, p.image, p.aio, p.persistent, p.common)
  {
    mask := updates | Bit(resized, StatefulSetSizeUpdated);
    mask := mask | Bit(p.cluster, StatefulSetClusterConfigUpdated);
    mask := mask | Bit(p.ssl, StatefulSetSSLConfigUpdated);
    mask := mask | Bit(p.image, StatefulSetImageUpdated);
    mask := mask | Bit(p.aio, StatefulSetAioUpdated);
    mask := mask | Bit(p.persistent, StatefulSetPersistentUpdated);
    mask := mask | Bit(p.common, StatefulSetCommonConfigUpdated);
    StepwiseReported(updates, resized, p.cluster, p.ssl, p.image, p.aio, p.persistent, p.common);
  }

  /** The reconciler: the update mask it accumulates across calls. */
  class ActiveMQArtemisReconciler {
    var statefulSetUpdates: bv32

    constructor ()
      ensures statefulSetUpdates == 0
    {
      statefulSetUpdates := 0;
    }

    /** `Process`: edits the StatefulSet and returns the accumulated mask, as `Reconcile` describes. */
    method Process(cr: ActiveMQArtemis, ss: StatefulSet) returns (r: bv32)
      requires |ss.pod.containers| > 0
      modifies this, ss
      ensures var o := Reconcile(cr, old(ss.replicas), old(ss.pod), old(statefulSetUpdates));
        ss.replicas == o.replicas && ss.pod == o.pod && statefulSetUpdates == o.updates
      ensures r == statefulSetUpdates
    {
      var size := cr.spec.deploymentPlan.size;
      var resized := ss.replicas != size;
      if resized {
        ss.replicas := size;
      }
      var p := ConfigSyncs(cr, ss);
      var mask := Accumulate(statefulSetUpdates, resized, p);
      statefulSetUpdates := mask;
      r := statefulSetUpdates;
    }
  }
}
