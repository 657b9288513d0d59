/**
 * The volumes and mounts a broker pod gets from its resource: the journal's
 * persistent volume when persistence is enabled and the secret volume when
 * SSL is enabled, persistent first. Whether SSL is enabled and the
 * per-resource property lookup come from code that is not part of this model
 * and are passed in.
 */
module Volumes {
  import opened Kube
  import Reconciler
  import Environments

  /** The mount of the journal's claim at the data directory the resource's properties give, default `/opt/<name>/data`. */
  function PersistentVolumeMount(cr: ActiveMQArtemis, propertyFor: (string, ActiveMQArtemis, string) -> string): VolumeMount {
    VolumeMount(cr.name, propertyFor("AMQ_DATA_DIR", cr, "/opt/" + cr.name + "/data"), false)
  }

  /** The read-only mount of the SSL secret volume. */
  const SSLVolumeMount: VolumeMount := VolumeMount("broker-secret-volume", "/etc/amq-secret-volume", true)

  /** The volume of the journal's claim, named like the resource and writable. */
  function PersistentVolume(cr: ActiveMQArtemis): Volume {
    Volume(cr.name, PersistentVolumeClaimSource(cr.name, false))
  }

  /** The SSL secret volume; its secret name is still the placeholder. */
  const SSLSecretVolume: Volume := Volume("broker-secret-volume", SecretSource("TODO-FIX-REPLACE"))

  /** One writable mount of the volume named like the resource, at the data directory the `AMQ_DATA_DIR` property gives. */
  function makePersistentVolumeMount(cr: ActiveMQArtemis, propertyFor: (string, ActiveMQArtemis, string) -> string)
    : (r: seq<VolumeMount>)
    ensures |r| == 1 && r[0].name == cr.name && !r[0].readOnly
    ensures r[0].mountPath == propertyFor("AMQ_DATA_DIR", cr, "/opt/" + cr.name + "/data")
  {
    [PersistentVolumeMount(cr, propertyFor)]
  }

  /** One read-only mount of the secret volume at `/etc/amq-secret-volume`. */
  function makeSSLVolumeMount(cr: ActiveMQArtemis): (r: seq<VolumeMount>)
    ensures |r| == 1 && r[0].name == "broker-secret-volume" && r[0].readOnly
    ensures r[0].mountPath == "/etc/amq-secret-volume"
  {
    [SSLVolumeMount]
  }

  /** One volume named like the resource, backed by the writable claim of the same name. */
  function makePersistentVolume(cr: ActiveMQArtemis): (r: seq<Volume>)
    ensures |r| == 1 && r[0].name == cr.name
    ensures r[0].source == PersistentVolumeClaimSource(cr.name, false)
  {
    [PersistentVolume(cr)]
  }

  /** One volume under the secret mount's name, backed by the placeholder secret (the resource's secret name is not used yet). */
  function makeSSLSecretVolume(cr: ActiveMQArtemis): (r: seq<Volume>)
    ensures |r| == 1 && r[0].name == makeSSLVolumeMount(cr)[0].name
    ensures r[0].source == SecretSource("TODO-FIX-REPLACE")
  {
    [SSLSecretVolume]
  }

  /**
   * When the `AMQ_DATA_DIR` property is not set (the lookup gives its default),
   * the journal's claim is mounted where the broker's `AMQ_DATA_DIR` entry points.
   */
  lemma PersistentMountAtDataDir(cr: ActiveMQArtemis, propertyFor: (string, ActiveMQArtemis, string) -> string)
    requires forall key, d :: propertyFor(key, cr, d) == d
    ensures makePersistentVolumeMount(cr, propertyFor)[0].mountPath == Environments.AddEnvVarForPersistent(cr.name)[0].value
    ensures makePersistentVolumeMount(cr, propertyFor)[0].name == makePersistentVolume(cr)[0].name
  {
    var d := "/opt/" + cr.name + "/data";
    assert propertyFor("AMQ_DATA_DIR", cr, d) == d;
  }

  /** `MakeVolumeMounts`: the persistent mount exactly when persistence is on, the SSL mount exactly when SSL is on, in that order. */
  function MakeVolumeMounts(cr: ActiveMQArtemis, sslEnabled: ActiveMQArtemis -> bool,
                            propertyFor: (string, ActiveMQArtemis, string) -> string): (r: seq<VolumeMount>)
    ensures |r| == (if cr.spec.deploymentPlan.persistenceEnabled then 1 else 0) + (if sslEnabled(cr) then 1 else 0)
    ensures PersistentVolumeMount(cr, propertyFor) in r <==> cr.spec.deploymentPlan.persistenceEnabled
    ensures SSLVolumeMount in r <==> sslEnabled(cr)
    ensures cr.spec.deploymentPlan.persistenceEnabled ==> r[0] == PersistentVolumeMount(cr, propertyFor)
    ensures sslEnabled(cr) ==> r[|r| - 1] == SSLVolumeMount
  {
    var volumeMounts := if cr.spec.deploymentPlan.persistenceEnabled
      then makePersistentVolumeMount(cr, propertyFor) else [];
    if sslEnabled(cr) then volumeMounts + makeSSLVolumeMount(cr) else volumeMounts
  }

  /** `MakeVolumes`: the same rule for the volumes themselves. */
  function MakeVolumes(cr: ActiveMQArtemis, sslEnabled: ActiveMQArtemis -> bool): (r: seq<Volume>)
    ensures |r| == (if cr.spec.deploymentPlan.persistenceEnabled then 1 else 0) + (if sslEnabled(cr) then 1 else 0)
    ensures PersistentVolume(cr) in r <==> cr.spec.deploymentPlan.persistenceEnabled
    ensures SSLSecretVolume in r <==> sslEnabled(cr)
    ensures cr.spec.deploymentPlan.persistenceEnabled ==> r[0] == PersistentVolume(cr)
    ensures sslEnabled(cr) ==> r[|r| - 1] == SSLSecretVolume
  {
    var volume := if cr.spec.deploymentPlan.persistenceEnabled then makePersistentVolume(cr) else [];
    if sslEnabled(cr) then volume + makeSSLSecretVolume(cr) else volume
  }

  /** Every mount has its volume: mounts and volumes pair up by name, position by position. */
  lemma MountsMatchVolumes(cr: ActiveMQArtemis, sslEnabled: ActiveMQArtemis -> bool,
                           propertyFor: (string, ActiveMQArtemis, string) -> string)
    ensures |MakeVolumeMounts(cr, sslEnabled, propertyFor)| == |MakeVolumes(cr, sslEnabled)|
    ensures forall i :: 0 <= i < |MakeVolumes(cr, sslEnabled)| ==>
      MakeVolumeMounts(cr, sslEnabled, propertyFor)[i].name == MakeVolumes(cr, sslEnabled)[i].name
  {
  }

  /** The SSL volume and mount of a new pod are the ones the SSL synchronisation adds to a running one. */
  lemma SslPartsAgreeWithSync()
    ensures SSLSecretVolume == Reconciler.SecretVolume
    ensures SSLVolumeMount == Reconciler.SecretVolumeMount
  {
  }
}
