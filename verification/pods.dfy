/** The product labels added to a broker pod, by broker version. */
module Pods {
  import opened Wrappers
  import Versions

  const LabelsFor7_9: map<string, string> := map[
    "com.company" := "Red_Hat",
    "rht.prod_name" := "Red_Hat_Integration",
    "rht.prod_ver" := "2022.Q1",
    "rht.comp" := "Broker_AMQ",
    "rht.comp_ver" := "7.9.2",
    "rht.subcomp" := "broker-amq",
    "rht.subcomp_t" := "application"]

  const LabelsFor7_10: map<string, string> := map[
    "com.company" := "Red_Hat",
    "rht.prod_name" := "Red_Hat_Integration",
    "rht.prod_ver" := "2022.Q2",
    "rht.comp" := "Broker_AMQ",
    "rht.comp_ver" := "7.10.1",
    "rht.subcomp" := "broker-amq",
    "rht.subcomp_t" := "application"]

  const LabelsFromVersion: map<string, map<string, string>> := map[
    "7.9.2" := LabelsFor7_9,
    "7.10.1" := LabelsFor7_10]

  /** `GetAdditionalLabels`: the table's labels for a known full version, nil (`None`) for any other. */
  function GetAdditionalLabels(fullBrokerVersion: string): (r: Option<map<string, string>>)
    ensures fullBrokerVersion == "7.9.2" ==> r == Some(LabelsFor7_9)
    ensures fullBrokerVersion == "7.10.1" ==> r == Some(LabelsFor7_10)
    ensures fullBrokerVersion != "7.9.2" && fullBrokerVersion != "7.10.1" ==> r.None?
  {
    if fullBrokerVersion in LabelsFromVersion then Some(LabelsFromVersion[fullBrokerVersion]) else None
  }

  /** The two label sets have the same seven keys and differ only in the product and component versions. */
  lemma LabelSetsDifferOnlyInVersions()
    ensures LabelsFor7_9.Keys == LabelsFor7_10.Keys && |LabelsFor7_9.Keys| == 7
    ensures forall k :: k in LabelsFor7_9 && k != "rht.prod_ver" && k != "rht.comp_ver" ==> LabelsFor7_9[k] == LabelsFor7_10[k]
    ensures LabelsFor7_9["rht.prod_ver"] != LabelsFor7_10["rht.prod_ver"]
    ensures LabelsFor7_9["rht.comp_ver"] != LabelsFor7_10["rht.comp_ver"]
  {
    assert LabelsFor7_9.Keys == {"com.company", "rht.prod_name", "rht.prod_ver", "rht.comp", "rht.comp_ver", "rht.subcomp", "rht.subcomp_t"};
  }

  /** Each label set names as component version the broker version it is looked up by. */
  lemma ComponentVersionIsKey(v: string)
    requires v in LabelsFromVersion
    ensures GetAdditionalLabels(v).Some? && GetAdditionalLabels(v).value["rht.comp_ver"] == v
  {
  }

  /** None of the product versions this operator supports has additional labels. */
  lemma SupportedVersionsHaveNoAdditionalLabels(v: string)
    requires v in Versions.SupportedVersions
    ensures GetAdditionalLabels(v).None?
  {
  }
}
