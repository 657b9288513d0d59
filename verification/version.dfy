/**
 * The operator's version constants and its static lookup tables between the
 * dotted product version ("7.9.2"), the compact version ("792") and the minor
 * version key ("92").
 */
module Versions {
  import opened GoStrings

  /** The operator's own version. */
  const Version: string := "7.10.5.OPR.1"
  const PriorVersion: string := "7.9.4"

  const LatestVersion: string := "7.10.5"
  const CompactLatestVersion: string := "7105"
  const LastMicroVersion: string := "7.9.4"
  const LastMinorVersion: string := "7.7.0"

  const LatestKubeImage: string := "registry.redhat.io/amq7/amq-broker-rhel8:7.10.5"
  const LatestInitImage: string := "registry.redhat.io/amq7/amq-broker-init-rhel8:7.10.5"

  /** The init image for a related-image variable whose name marks it as the init image, the broker image otherwise. */
  function DefaultImageName(archSpecificRelatedImageEnvVarName: string): (r: string)
    ensures r == LatestInitImage <==> Contains(archSpecificRelatedImageEnvVarName, "_Init_")
    ensures r == LatestKubeImage <==> !Contains(archSpecificRelatedImageEnvVarName, "_Init_")
  {
    if Contains(archSpecificRelatedImageEnvVarName, "_Init_") then LatestInitImage else LatestKubeImage
  }

  /** The product versions this operator supports, newest first. */
  const SupportedVersions: seq<string> := [LatestVersion, LastMicroVersion, LastMinorVersion]
  const SupportedMicroVersions: seq<string> := [LatestVersion, LastMicroVersion]

  const OperandVersionFromOperatorVersion: map<string, string> := map[
    "0.17.0" := "7.7.0",
    "0.18.0" := "7.8.0",
    "0.19.0" := "7.8.1",
    "7.8.1" := "7.8.1",
    "7.8.2" := "7.8.2",
    "7.8.3" := "7.8.3",
    "7.9.0" := "7.9.0",
    "7.9.1" := "7.9.1",
    "7.9.2" := "7.9.2",
    "7.9.3" := "7.9.3",
    "7.9.4" := "7.9.4",
    "7.10.0" := "7.10.0",
    "7.10.1" := "7.10.1",
    "7.10.2" := "7.10.2"]

  const FullVersionFromMinorVersion: map<string, string> := map[
    "70" := "7.7.0",
    "80" := "7.8.0",
    "81" := "7.8.1",
    "82" := "7.8.2",
    "83" := "7.8.3",
    "90" := "7.9.0",
    "91" := "7.9.1",
    "92" := "7.9.2",
    "93" := "7.9.3",
    "94" := "7.9.4",
    "100" := "7.10.0",
    "101" := "7.10.1",
    "102" := "7.10.2"]

  const CompactFullVersionFromMinorVersion: map<string, string> := map[
    "70" := "770",
    "80" := "780",
    "81" := "781",
    "82" := "782",
    "83" := "783",
    "90" := "790",
    "91" := "791",
    "92" := "792",
    "93" := "793",
    "94" := "794",
    "100" := "7100",
    "101" := "7101",
    "102" := "7102"]

  const CompactVersionFromVersion: map<string, string> := map[
    "7.7.0" := "770",
    "7.8.0" := "780",
    "7.8.1" := "781",
    "7.8.2" := "782",
    "7.8.3" := "783",
    "7.9.0" := "790",
    "7.9.1" := "791",
    "7.9.2" := "792",
    "7.9.3" := "793",
    "7.9.4" := "794",
    "7.10.0" := "7100",
    "7.10.1" := "7101",
    "7.10.2" := "7102",
    "7.10.3" := "7103"]

  const FullVersionFromCompactVersion: map<string, string> := map[
    "770" := "7.7.0",
    "780" := "7.8.0",
    "781" := "7.8.1",
    "782" := "7.8.2",
    "783" := "7.8.3",
    "790" := "7.9.0",
    "791" := "7.9.1",
    "792" := "7.9.2",
    "793" := "7.9.3",
    "794" := "7.9.4",
    "7100" := "7.10.0",
    "7101" := "7.10.1",
    "7102" := "7.10.2",
    "7103" := "7.10.3",
    "7104" := "7.10.4",
    "7105" := "7.10.5"]

  const MinorVersionFromFullVersion: map<string, string> := map[
    "7.7.0" := "70",
    "7.8.0" := "80",
    "7.8.1" := "81",
    "7.8.2" := "82",
    "7.8.3" := "83",
    "7.9.0" := "90",
    "7.9.1" := "91",
    "7.9.2" := "92",
    "7.9.3" := "93",
    "7.9.4" := "94",
    "7.10.0" := "100",
    "7.10.1" := "101",
    "7.10.2" := "102"]

  /** The configuration-generator profile used for a given full version of the broker. */
  const YacfgProfileVersionFromFullVersion: map<string, string> := map[
    "7.7.0" := "7.7.0",
    "7.8.0" := "7.8.0",
    "7.8.1" := "7.8.1",
    "7.8.2" := "7.8.2",
    "7.8.3" := "7.8.2",
    "7.9.0" := "7.9.0",
    "7.9.1" := "7.9.0",
    "7.9.2" := "7.9.0",
    "7.9.3" := "7.9.0",
    "7.9.4" := "7.9.0",
    "7.10.0" := "7.10.0",
    "7.10.1" := "7.10.0",
    "7.10.2" := "7.10.0",
    "7.10.3" := "7.10.0",
    "7.10.4" := "7.10.0",
    "7.10.5" := "7.10.0"]

  const YacfgProfileName: string := "amq_broker"

  /** The micro-upgrade targets are the first entries of the supported versions, and all three supported versions differ. */
  lemma SupportedMicroIsPrefix()
    ensures SupportedMicroVersions == SupportedVersions[..|SupportedMicroVersions|]
    ensures SupportedVersions == [LatestVersion, LastMicroVersion, LastMinorVersion]
    ensures LatestVersion != LastMicroVersion && LastMicroVersion != LastMinorVersion && LatestVersion != LastMinorVersion
  {
  }

  /** Going from a full version to its compact form and back gives the full version again. */
  lemma CompactRoundTrip(v: string)
    requires v in CompactVersionFromVersion
    ensures CompactVersionFromVersion[v] in FullVersionFromCompactVersion
    ensures FullVersionFromCompactVersion[CompactVersionFromVersion[v]] == v
  {
  }

  /** Going from a full version to its minor key and back gives the full version again. */
  lemma MinorRoundTrip(v: string)
    requires v in MinorVersionFromFullVersion
    ensures MinorVersionFromFullVersion[v] in FullVersionFromMinorVersion
    ensures FullVersionFromMinorVersion[MinorVersionFromFullVersion[v]] == v
  {
  }

  /** The compact latest version names the latest version. */
  lemma CompactLatest()
    ensures CompactLatestVersion in FullVersionFromCompactVersion
    ensures FullVersionFromCompactVersion[CompactLatestVersion] == LatestVersion
  {
  }

  /** The compact version a minor key maps to is the compact form of the full version it maps to. */
  lemma CompactFullAgrees(m: string)
    requires m in CompactFullVersionFromMinorVersion
    ensures m in FullVersionFromMinorVersion
    ensures FullVersionFromMinorVersion[m] in CompactVersionFromVersion
    ensures CompactVersionFromVersion[FullVersionFromMinorVersion[m]] == CompactFullVersionFromMinorVersion[m]
  {
  }

  /** Every supported version has a configuration-generator profile. */
  lemma SupportedHaveProfiles(v: string)
    requires v in SupportedVersions
    ensures v in YacfgProfileVersionFromFullVersion
  {
  }

  /**
   * The latest version has no minor key and the operator's own version is no key of
   * the operator-to-operand table: lookups of either yield Go's empty string.
   */
  lemma LatestLookupsMiss()
    ensures LatestVersion !in MinorVersionFromFullVersion
    ensures LatestVersion !in CompactVersionFromVersion
    ensures Version !in OperandVersionFromOperatorVersion
  {
  }
}
