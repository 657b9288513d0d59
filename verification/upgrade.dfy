/**
 * Product-version handling of the custom resource: the supported-version
 * check and the upgrade flags derived from it, dotted-version splitting,
 * image-reference parsing and the defaulting of the resource.
 */
module Upgrade {
  import opened Wrappers
  import opened Kube
  import opened GoStrings
  import opened Versions

  /** `isVersionSupported`: a scan of the supported versions that stops at the first equal one. */
  method IsVersionSupported(specifiedVersion: string) returns (r: bool)
    ensures r <==> specifiedVersion in SupportedVersions
  {
    for i := 0 to |SupportedVersions|
      invariant specifiedVersion !in SupportedVersions[..i]
    {
      if SupportedVersions[i] == specifiedVersion {
        return true;
      }
    }
    return false;
  }

  /** What `checkProductUpgrade` returns: the minor and enabled upgrade flags, and the error, if any. */
  datatype UpgradeCheck = UpgradeCheck(upgradesMinor: bool, upgradesEnabled: bool, err: Option<string>)

  /** The head of the error text, up to the rejected version. */
  const NotAllowedHead: string := "Product version "

  /**
   * The error text for a version outside the supported list, naming the rejected
   * version right after its head; the list is printed as Go prints a string slice.
   */
  function NotAllowedMessage(productVersion: string): (r: string)
    ensures |r| >= |NotAllowedHead| + |productVersion|
    ensures r[..|NotAllowedHead|] == NotAllowedHead
    ensures r[|NotAllowedHead|..|NotAllowedHead| + |productVersion|] == productVersion
  {
    var tail := " is not allowed in operator version " + Version
      + ". The following versions are allowed - [" + Join(SupportedVersions, ' ') + "]";
    var r := NotAllowedHead + productVersion + tail;
    assert r[..|NotAllowedHead|] == NotAllowedHead;
    assert r[|NotAllowedHead|..|NotAllowedHead| + |productVersion|] == productVersion;
    r
  }

  /** Different rejected versions give different error texts. */
  lemma NotAllowedMessageInjective(v1: string, v2: string)
    ensures NotAllowedMessage(v1) == NotAllowedMessage(v2) <==> v1 == v2
  {
    if NotAllowedMessage(v1) == NotAllowedMessage(v2) {
      var tail := " is not allowed in operator version " + Version
        + ". The following versions are allowed - [" + Join(SupportedVersions, ' ') + "]";
      assert |NotAllowedMessage(v1)| == |NotAllowedHead| + |v1| + |tail|;
      assert |NotAllowedMessage(v2)| == |NotAllowedHead| + |v2| + |tail|;
    }
  }

  /**
   * `checkProductUpgrade`: an unsupported version is an error with both flags off;
   * a supported one other than the latest passes the resource's upgrade settings
   * on when upgrades are enabled; otherwise both flags are off.
   */
  method CheckProductUpgrade(cr: ActiveMQArtemis) returns (r: UpgradeCheck)
    ensures r.err.Some? <==> cr.spec.version !in SupportedVersions
    ensures r.err.Some? ==> r.err.value == NotAllowedMessage(cr.spec.version)
    ensures r.upgradesEnabled <==>
      cr.spec.version in SupportedVersions && cr.spec.version != LatestVersion && cr.spec.upgrades.enabled
    ensures r.upgradesMinor <==>
      cr.spec.version in SupportedVersions && cr.spec.version != LatestVersion && cr.spec.upgrades.enabled
      && cr.spec.upgrades.minor
  {
    r := UpgradeCheck(false, false, None);
    var supported := IsVersionSupported(cr.spec.version);
    if supported {
      if cr.spec.version != LatestVersion && cr.spec.upgrades.enabled {
        r := r.(upgradesEnabled := cr.spec.upgrades.enabled, upgradesMinor := cr.spec.upgrades.minor);
      }
    } else {
      r := r.(err := Some(NotAllowedMessage(cr.spec.version)));
    }
  }

  /** The major, minor and micro components of a dotted version, a missing one read as "0". */
  function Components(productVersion: string): (r: (string, string, string))
    ensures '.' !in r.0 && '.' !in r.1 && '.' !in r.2
  {
    var parts := Split(productVersion, '.');
    (parts[0], if |parts| > 1 then parts[1] else "0", if |parts| > 2 then parts[2] else "0")
  }

  /** `MajorMinorMicro`: split at the dots, pad the list with "0" up to three entries, take the first three. */
  method MajorMinorMicro(productVersion: string) returns (major: string, minor: string, micro: string)
    ensures (major, minor, micro) == Components(productVersion)
  {
    var parts := Split(productVersion, '.');
    var version := parts;
    while |version| < 3
      invariant |parts| <= |version| <= if |parts| < 3 then 3 else |parts|
      invariant version[..|parts|] == parts
      invariant forall i :: |parts| <= i < |version| ==> version[i] == "0"
    {
      version := version + ["0"];
    }
    major, minor, micro := version[0], version[1], version[2];
  }

  /** A version written as dot-free components joined by dots yields its first three components, padded with "0". */
  lemma {:induction false} ComponentsOfJoin(parts: seq<string>)
    requires 1 <= |parts|
    requires forall i :: 0 <= i < |parts| ==> '.' !in parts[i]
    ensures Components(Join(parts, '.')) ==
      (parts[0], if |parts| > 1 then parts[1] else "0", if |parts| > 2 then parts[2] else "0")
  {
    SplitJoin(parts, '.');
  }

  /** Splitting a version and joining its three components again gives the version back when it had exactly three. */
  lemma {:induction false} JoinComponents(productVersion: string)
    requires |Split(productVersion, '.')| == 3
    ensures var (major, minor, micro) := Components(productVersion);
      Join([major, minor, micro], '.') == productVersion
  {
    var parts := Split(productVersion, '.');
    JoinSplit(productVersion, '.');
    assert parts == [parts[0], parts[1], parts[2]];
  }

  /** `getMinorImageVersion`: the major component followed by the minor one. */
  method GetMinorImageVersion(productVersion: string) returns (r: string)
    ensures r == Components(productVersion).0 + Components(productVersion).1
  {
    var major, minor, _ := MajorMinorMicro(productVersion);
    r := major + minor;
  }

  /** The minor image version of "7.10.5" is "710". */
  lemma MinorImageVersionOfLatest()
    ensures Components(LatestVersion).0 + Components(LatestVersion).1 == "710"
  {
    ComponentsOfJoin(["7", "10", "5"]);
    assert Join(["7", "10", "5"], '.') == LatestVersion;
  }

  /**
   * `GetImage`: the image name is the last path segment up to its first colon, the
   * tag what follows its last colon (empty without a colon), and the context the
   * path segment before the last one (empty when there is only one).
   */
  function GetImage(imageURL: string): (r: (string, string, string))
    ensures ':' !in r.0 && ':' !in r.1 && '/' !in r.2
  {
    var urlParts := Split(imageURL, '/');
    var imageContext := if |urlParts| > 1 then urlParts[|urlParts| - 2] else "";
    var imageAndTag := urlParts[|urlParts| - 1];
    var imageParts := Split(imageAndTag, ':');
    var imageTag := if |imageParts| > 1 then imageParts[|imageParts| - 1] else "";
    (imageParts[0], imageTag, imageContext)
  }

  /** Neither the name nor the tag holds a slash. */
  lemma GetImageSlashFree(imageURL: string)
    ensures '/' !in GetImage(imageURL).0 && '/' !in GetImage(imageURL).1
  {
    var urlParts := Split(imageURL, '/');
    SplitParts(urlParts[|urlParts| - 1], ':', '/');
  }

  /** A piece of a split text holds no character the text did not. */
  lemma {:induction false} SplitParts(s: string, sep: char, c: char)
    requires c !in s
    ensures forall i :: 0 <= i < |Split(s, sep)| ==> c !in Split(s, sep)[i]
    decreases |s|
  {
    if sep in s {
      var i := IndexChar(s, sep);
      assert s == s[..i] + [sep] + s[i + 1..];
      SplitParts(s[i + 1..], sep, c);
    }
  }

  /** A reference `<registry segments>/<context>/<name>:<tag>` is parsed back into its name, tag and context. */
  lemma GetImageOfReference(registry: seq<string>, context: string, name: string, tag: string)
    requires forall i :: 0 <= i < |registry| ==> '/' !in registry[i]
    requires '/' !in context && '/' !in name && '/' !in tag
    requires ':' !in name && ':' !in tag
    ensures GetImage(Join(registry + [context, name + [':'] + tag], '/')) == (name, tag, context)
  {
    var last := name + [':'] + tag;
    var parts := registry + [context, last];
    SlashFree(registry, context, last);
    SplitJoin(parts, '/');
    var urlParts := Split(Join(parts, '/'), '/');
    assert urlParts[|urlParts| - 1] == last;
    assert urlParts[|urlParts| - 2] == context;
    NameAndTag(name, tag);
  }

  lemma NameAndTag(name: string, tag: string)
    requires ':' !in name && ':' !in tag
    ensures Split(name + [':'] + tag, ':') == [name, tag]
  {
    SplitJoin([name, tag], ':');
    assert Join([name, tag], ':') == name + [':'] + tag;
  }

  lemma SlashFree(registry: seq<string>, context: string, last: string)
    requires forall i :: 0 <= i < |registry| ==> '/' !in registry[i]
    requires '/' !in context && '/' !in last
    ensures forall i :: 0 <= i < |registry + [context, last]| ==> '/' !in (registry + [context, last])[i]
  {
  }

  /** A reference whose last segment has no colon has an empty tag and that segment as its name. */
  lemma GetImageWithoutTag(imageURL: string)
    requires ':' !in Split(imageURL, '/')[|Split(imageURL, '/')| - 1]
    ensures GetImage(imageURL).0 == Split(imageURL, '/')[|Split(imageURL, '/')| - 1]
    ensures GetImage(imageURL).1 == ""
  {
  }

  /** A Go map lookup: the value under the key, or the empty string when the key is absent. */
  function Lookup(m: map<string, string>, key: string): (r: string)
    ensures key in m ==> r == m[key]
    ensures r != "" ==> key in m
  {
    if key in m then m[key] else ""
  }

  /**
   * `setDefaults`: a resource without annotations gets one, under the API group,
   * holding the operand version of this operator's version; an empty product
   * version becomes the latest version. Nothing else changes.
   */
  function Defaulted(cr: ActiveMQArtemis, group: string): (r: ActiveMQArtemis)
    ensures cr.annotations.Some? ==> r.annotations == cr.annotations
    ensures cr.annotations.None? ==> r.annotations == Some(map[group := Lookup(OperandVersionFromOperatorVersion, Version)])
    ensures cr.spec.version != "" ==> r.spec.version == cr.spec.version
    ensures cr.spec.version == "" ==> r.spec.version == LatestVersion
    ensures r.name == cr.name && r.namespace == cr.namespace
    ensures r.spec.upgrades == cr.spec.upgrades && r.spec.deploymentPlan == cr.spec.deploymentPlan
  {
    var annotations := if cr.annotations.None?
      then Some(map[group := Lookup(OperandVersionFromOperatorVersion, Version)])
      else cr.annotations;
    var productVersion := if |cr.spec.version| == 0 then LatestVersion else cr.spec.version;
    cr.(annotations := annotations, spec := cr.spec.(version := productVersion))
  }

  /** Defaulting twice is defaulting once. */
  lemma DefaultedIdempotent(cr: ActiveMQArtemis, group: string)
    ensures Defaulted(Defaulted(cr, group), group) == Defaulted(cr, group)
  {
  }

  /** A defaulted resource whose version was empty passes the supported-version check. */
  lemma DefaultedVersionSupported(cr: ActiveMQArtemis, group: string)
    requires cr.spec.version == ""
    ensures Defaulted(cr, group).spec.version in SupportedVersions
  {
  }

  /** This operator's version is no key of the operator-to-operand table, so the defaulted annotation is empty. */
  lemma DefaultAnnotationIsEmpty(cr: ActiveMQArtemis, group: string)
    requires cr.annotations.None?
    ensures Defaulted(cr, group).annotations == Some(map[group := ""])
  {
    LatestLookupsMiss();
  }

  /** The custom resource as the defaulting code sees it: held by reference, edited in place. */
  class Broker {
    var resource: ActiveMQArtemis

    constructor (resource: ActiveMQArtemis)
      ensures this.resource == resource
    {
      this.resource := resource;
    }
  }

  /** `setDefaults` on the live resource. */
  method SetDefaults(b: Broker, group: string)
    modifies b
    ensures b.resource == Defaulted(old(b.resource), group)
  {
    if b.resource.annotations.None? {
      b.resource := b.resource.(annotations := Some(map[group := Lookup(OperandVersionFromOperatorVersion, Version)]));
    }
    if |b.resource.spec.version| == 0 {
      b.resource := b.resource.(spec := b.resource.spec.(version := LatestVersion));
    }
  }
}
