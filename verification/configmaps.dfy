/** The ConfigMap manifest. */
module ConfigMaps {
  import opened Wrappers
  import opened Kube

  datatype ConfigMap = ConfigMap(typeMeta: TypeMeta, meta: ObjectMeta, data: map<string, string>)

  /** `MakeConfigMap`: a v1 ConfigMap with exactly the given name, namespace and data, and no labels or annotations. */
  function MakeConfigMap(namespace: string, configMapName: string, stringData: map<string, string>): (cm: ConfigMap)
    ensures cm.typeMeta == TypeMeta("ConfigMap", "v1")
    ensures cm.meta.name == configMapName && cm.meta.namespace == namespace
    ensures cm.data == stringData
    ensures cm.meta.labels == map[] && cm.meta.annotations.None?
  {
    ConfigMap(TypeMeta("ConfigMap", "v1"), ObjectMeta(configMapName, namespace, map[], None), stringData)
  }

  /** A ConfigMap determines the arguments it was made from: equal maps come from equal arguments. */
  lemma MakeConfigMapInjective(ns1: string, n1: string, d1: map<string, string>,
                               ns2: string, n2: string, d2: map<string, string>)
    ensures MakeConfigMap(ns1, n1, d1) == MakeConfigMap(ns2, n2, d2) <==> ns1 == ns2 && n1 == n2 && d1 == d2
  {
  }
}
