/**
 * The Service manifests built for a broker: the headless service that governs
 * the StatefulSet, one service per exposed port, and the headless "ping"
 * service the brokers use to discover each other.
 */
module Services {
  import opened Wrappers
  import opened Kube
  import opened Namer
  import opened Selectors

  /** `corev1.ServicePort`; the target port is the integer form of `intstr`. */
  datatype ServicePort = ServicePort(name: string, protocol: string, port: Int32, targetPort: int)

  /** `corev1.ServiceSpec`, reduced to the fields the builders set; an unset string field is empty. */
  datatype ServiceSpec = ServiceSpec(
    serviceType: string,
    ports: seq<ServicePort>,
    selector: map<string, string>,
    clusterIP: string,
    sessionAffinity: string,
    publishNotReadyAddresses: bool)

  datatype Service = Service(typeMeta: TypeMeta, meta: ObjectMeta, spec: ServiceSpec)

  /** The value of a service's `ClusterIP` that makes it headless. */
  const Headless: string := "None"

  /** The port of the discovery service. */
  const PingPort: Int32 := 8888

  /** A single TCP port whose target is the same port number. */
  function TcpPort(name: string, portNumber: Int32): ServicePort {
    ServicePort(name, "TCP", portNumber, portNumber)
  }

  /**
   * `NewHeadlessServiceForCR`: named by the headless name builder, labelled and
   * selecting with the label builder's current labels, in the resource's
   * namespace, headless, publishing pods that are not ready, with the given ports.
   */
  function NewHeadlessServiceForCR(cr: ActiveMQArtemis, servicePorts: seq<ServicePort>,
                                   headlessNameBuilder: NamerData, labelBuilder: LabelerData): (svc: Service)
    reads headlessNameBuilder, labelBuilder
    ensures svc.typeMeta == TypeMeta("Service", "v1")
    ensures svc.meta.name == headlessNameBuilder.Name() && svc.meta.namespace == cr.namespace
    ensures svc.meta.labels == labelBuilder.Labels() && svc.meta.annotations.None?
    ensures svc.spec.selector == svc.meta.labels
    ensures svc.spec.serviceType == "ClusterIP" && svc.spec.clusterIP == Headless
    ensures svc.spec.publishNotReadyAddresses
    ensures svc.spec.ports == servicePorts
  {
    var labels := labelBuilder.Labels();
    Service(
      TypeMeta("Service", "v1"),
      ObjectMeta(headlessNameBuilder.Name(), cr.namespace, labels, None),
      ServiceSpec("ClusterIP", servicePorts, labels, Headless, "", true))
  }

  /** The name of the service exposing one port of a broker. */
  function ServiceName(crName: string, nameSuffix: string): string {
    crName + "-service" + "-" + nameSuffix
  }

  /**
   * `NewServiceDefinitionForCR`: a service named after the resource and the port,
   * with exactly one TCP port forwarding to the same number, the caller's selector,
   * no session affinity and no cluster IP of its own.
   */
  function NewServiceDefinitionForCR(cr: ActiveMQArtemis, nameSuffix: string, portNumber: Int32,
                                     selectorLabels: map<string, string>, labelBuilder: LabelerData): (svc: Service)
    reads labelBuilder
    ensures svc.typeMeta == TypeMeta("Service", "v1")
    ensures svc.meta.name == cr.name + "-service-" + nameSuffix && svc.meta.namespace == cr.namespace
    ensures svc.meta.labels == labelBuilder.Labels() && svc.meta.annotations.None?
    ensures |svc.spec.ports| == 1
    ensures svc.spec.ports[0].name == nameSuffix && svc.spec.ports[0].protocol == "TCP"
    ensures svc.spec.ports[0].port == portNumber && svc.spec.ports[0].targetPort == portNumber
    ensures svc.spec.selector == selectorLabels
    ensures svc.spec.sessionAffinity == "None" && svc.spec.clusterIP == ""
    ensures svc.spec.serviceType == "ClusterIP" && svc.spec.publishNotReadyAddresses
  {
    Service(
      TypeMeta("Service", "v1"),
      ObjectMeta(ServiceName(cr.name, nameSuffix), cr.namespace, labelBuilder.Labels(), None),
      ServiceSpec("ClusterIP", [TcpPort(nameSuffix, portNumber)], selectorLabels, "", "None", true))
  }

  /**
   * `NewPingServiceDefinitionForCR`: the headless service "ping" with one unnamed
   * TCP port 8888, carrying the caller's labels and selector.
   */
  function NewPingServiceDefinitionForCR(cr: ActiveMQArtemis, labels: map<string, string>,
                                         selectorLabels: map<string, string>): (svc: Service)
    ensures svc.typeMeta == TypeMeta("Service", "v1")
    ensures svc.meta.name == "ping" && svc.meta.namespace == cr.namespace
    ensures svc.meta.labels == labels && svc.meta.annotations.None?
    ensures svc.spec.ports == [ServicePort("", "TCP", 8888, 8888)]
    ensures svc.spec.selector == selectorLabels
    ensures svc.spec.clusterIP == Headless && svc.spec.serviceType == "ClusterIP"
    ensures svc.spec.publishNotReadyAddresses
  {
    Service(
      TypeMeta("Service", "v1"),
      ObjectMeta("ping", cr.namespace, labels, None),
      ServiceSpec("ClusterIP", [TcpPort("", PingPort)], selectorLabels, Headless, "", true))
  }

  /** Two port services of one broker have the same name only when their name suffixes are equal. */
  lemma {:induction false} PortServiceNamesDistinct(crName: string, s1: string, s2: string)
    requires s1 != s2
    ensures ServiceName(crName, s1) != ServiceName(crName, s2)
  {
    var prefix := crName + "-service-";
    assert ServiceName(crName, s1) == prefix + s1 && ServiceName(crName, s2) == prefix + s2;
    assert (prefix + s1)[|prefix|..] == s1;
    assert (prefix + s2)[|prefix|..] == s2;
  }

  /** A port service never takes the discovery service's name, and of the three only the port service has a cluster IP. */
  lemma PortServiceIsNotPing(cr: ActiveMQArtemis, nameSuffix: string, portNumber: Int32,
                             selectorLabels: map<string, string>, labels: map<string, string>, labelBuilder: LabelerData)
    ensures NewServiceDefinitionForCR(cr, nameSuffix, portNumber, selectorLabels, labelBuilder).meta.name
         != NewPingServiceDefinitionForCR(cr, labels, selectorLabels).meta.name
    ensures NewPingServiceDefinitionForCR(cr, labels, selectorLabels).spec.clusterIP
         != NewServiceDefinitionForCR(cr, nameSuffix, portNumber, selectorLabels, labelBuilder).spec.clusterIP
  {
    assert |ServiceName(cr.name, nameSuffix)| >= 9;
  }
}
