/**
 * The values the operator reads and writes: the parts of the cluster API
 * objects (containers, environment variables, volumes, object metadata) and
 * of the ActiveMQArtemis custom resource that the modelled code touches.
 * A nil Go map of labels is the empty map; a nil annotation map is `None`,
 * because the defaulting code tells the two apart.
 */
module Kube {
  import opened Wrappers

  /** Go's `int32`. */
  type Int32 = x: int | -0x8000_0000 <= x < 0x8000_0000

  /** `corev1.EnvVarSource`, reduced to the secret-key reference the operator builds. */
  datatype EnvVarSource = SecretKeyRef(secretName: string, key: string)

  /** `corev1.EnvVar`: a nil `ValueFrom` is `None`. */
  datatype EnvVar = EnvVar(name: string, value: string, valueFrom: Option<EnvVarSource>)

  datatype VolumeMount = VolumeMount(name: string, mountPath: string, readOnly: bool)

  datatype VolumeSource =
    | PersistentVolumeClaimSource(claimName: string, claimReadOnly: bool)
    | SecretSource(secretName: string)

  datatype Volume = Volume(name: string, source: VolumeSource)

  datatype Container = Container(
    name: string,
    image: string,
    env: seq<EnvVar>,
    volumeMounts: seq<VolumeMount>)

  /** The pod specification inside a StatefulSet's template. */
  datatype PodSpec = PodSpec(containers: seq<Container>, volumes: seq<Volume>)

  datatype TypeMeta = TypeMeta(kind: string, apiVersion: string)

  datatype ObjectMeta = ObjectMeta(
    name: string,
    namespace: string,
    labels: map<string, string>,
    annotations: Option<map<string, string>>)

  datatype PodTemplateSpec = PodTemplateSpec(meta: ObjectMeta, spec: PodSpec)

  /** A volume claim template; its contents come from code that is not part of this model. */
  datatype PersistentVolumeClaim = PersistentVolumeClaim(name: string)

  /** `Spec.Upgrades` of the custom resource. */
  datatype Upgrades = Upgrades(enabled: bool, minor: bool)

  /** `Spec.DeploymentPlan`: the fields the synchroniser and the manifest builders read. */
  datatype DeploymentPlan = DeploymentPlan(
    image: string,
    size: Int32,
    requireLogin: bool,
    persistenceEnabled: bool,
    journalType: string,
    clustered: bool,
    clusterUser: string,
    clusterPassword: string,
    user: string,
    password: string)

  datatype ArtemisSpec = ArtemisSpec(version: string, upgrades: Upgrades, deploymentPlan: DeploymentPlan)

  /** The ActiveMQArtemis custom resource: its metadata and its spec. */
  datatype ActiveMQArtemis = ActiveMQArtemis(
    name: string,
    namespace: string,
    annotations: Option<map<string, string>>,
    spec: ArtemisSpec)
}
