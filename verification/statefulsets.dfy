/** The StatefulSet manifest built for a broker resource. */
module StatefulSets {
  import opened Wrappers
  import opened Kube
  import opened Namer
  import opened Selectors
  import opened Services

  /** `appsv1.StatefulSetSpec`, reduced to the fields the builder sets; no claim templates is the empty list. */
  datatype StatefulSetSpec = StatefulSetSpec(
    replicas: Int32,
    serviceName: string,
    selector: map<string, string>,
    template: PodTemplateSpec,
    volumeClaimTemplates: seq<PersistentVolumeClaim>)

  datatype StatefulSet = StatefulSet(typeMeta: TypeMeta, meta: ObjectMeta, spec: StatefulSetSpec)

  /**
   * `NewStatefulSetForCR`: as many replicas as the deployment plan's size, named by
   * the name builder, governed by the headless service's name, labelled and
   * selecting with the label builder's labels, the resource's namespace and
   * annotations, the pod template built for the resource, and one claim template
   * set only when persistence is enabled. The pod template and claim builders
   * are not part of this model and are passed in.
   */
  function NewStatefulSetForCR(cr: ActiveMQArtemis, nameBuilder: NamerData, headlessNameBuilder: NamerData,
                               labelBuilder: LabelerData,
                               podTemplateFor: ActiveMQArtemis -> PodTemplateSpec,
                               claimsFor: (ActiveMQArtemis, int) -> seq<PersistentVolumeClaim>): (ss: StatefulSet)
    reads nameBuilder, headlessNameBuilder, labelBuilder
    ensures ss.typeMeta == TypeMeta("StatefulSet", "v1")
    ensures ss.meta.name == nameBuilder.Name() && ss.meta.namespace == cr.namespace
    ensures ss.meta.annotations == cr.annotations
    ensures ss.spec.replicas == cr.spec.deploymentPlan.size
    ensures ss.spec.serviceName == headlessNameBuilder.Name()
    ensures ss.spec.selector == ss.meta.labels == labelBuilder.Labels()
    ensures ss.spec.template == podTemplateFor(cr)
    ensures cr.spec.deploymentPlan.persistenceEnabled ==> ss.spec.volumeClaimTemplates == claimsFor(cr, 1)
    ensures !cr.spec.deploymentPlan.persistenceEnabled ==> ss.spec.volumeClaimTemplates == []
  {
    var replicas := cr.spec.deploymentPlan.size;
    var labels := labelBuilder.Labels();
    var claims := if cr.spec.deploymentPlan.persistenceEnabled then claimsFor(cr, 1) else [];
    StatefulSet(
      TypeMeta("StatefulSet", "v1"),
      ObjectMeta(nameBuilder.Name(), cr.namespace, labels, cr.annotations),
      StatefulSetSpec(replicas, headlessNameBuilder.Name(), labels, podTemplateFor(cr), claims))
  }

  /**
   * Built from the same builders, the StatefulSet names the headless service as its
   * governing service, lives in its namespace and selects exactly what it selects.
   */
  lemma GovernedByHeadlessService(cr: ActiveMQArtemis, servicePorts: seq<ServicePort>,
                                  nameBuilder: NamerData, headlessNameBuilder: NamerData, labelBuilder: LabelerData,
                                  podTemplateFor: ActiveMQArtemis -> PodTemplateSpec,
                                  claimsFor: (ActiveMQArtemis, int) -> seq<PersistentVolumeClaim>)
    ensures var ss := NewStatefulSetForCR(cr, nameBuilder, headlessNameBuilder, labelBuilder, podTemplateFor, claimsFor);
      var svc := NewHeadlessServiceForCR(cr, servicePorts, headlessNameBuilder, labelBuilder);
      && ss.spec.serviceName == svc.meta.name
      && ss.meta.namespace == svc.meta.namespace
      && ss.spec.selector == svc.spec.selector
  {
  }
}
