/** The label builder: the two labels every resource of a broker carries. */
module Selectors {

  const LabelAppKey: string := "application"
  const LabelResourceKey: string := "ActiveMQArtemis"

  /** The labels a generation produces from a base name and a suffix. */
  function GeneratedLabels(baseName: string, suffix: string): (labels: map<string, string>)
    ensures labels.Keys == {LabelAppKey, LabelResourceKey}
    ensures labels[LabelAppKey] == baseName + "-" + suffix
    ensures labels[LabelResourceKey] == baseName
  {
    map[LabelAppKey := baseName + "-" + suffix, LabelResourceKey := baseName]
  }

  /** `LabelerData`: the base name, the suffix and the labels generated last time (a nil map is empty). */
  class LabelerData {
    var baseName: string
    var suffix: string
    var labels: map<string, string>

    /** The zero value: empty parts, no labels. */
    constructor ()
      ensures baseName == "" && suffix == "" && labels == map[]
    {
      baseName, suffix, labels := "", "", map[];
    }

    /** `Labels`: the labels of the last generation. */
    function Labels(): map<string, string>
      reads this
    {
      labels
    }

    /** `Base`: sets the base name only and returns the same builder; the labels stay as they were. */
    method Base(name: string) returns (r: LabelerData)
      modifies this
      ensures r == this
      ensures baseName == name && suffix == old(suffix) && Labels() == old(Labels())
    {
      baseName := name;
      r := this;
    }

    /** `Suffix`: sets the suffix only and returns the same builder. */
    method Suffix(labelSuffix: string) returns (r: LabelerData)
      modifies this
      ensures r == this
      ensures suffix == labelSuffix && baseName == old(baseName) && Labels() == old(Labels())
    {
      suffix := labelSuffix;
      r := this;
    }

    /** `Generate`: a new map replaces the old one wholesale, holding exactly the two labels. */
    method Generate()
      modifies this
      ensures Labels() == GeneratedLabels(baseName, suffix)
      ensures baseName == old(baseName) && suffix == old(suffix)
    {
      labels := map[];
      labels := labels[LabelAppKey := baseName + "-" + suffix];
      labels := labels[LabelResourceKey := baseName];
    }
  }

  /** Labels generated from different base names differ; the suffix alone never reaches the resource label. */
  lemma GeneratedLabelsDistinguishBrokers(b1: string, s1: string, b2: string, s2: string)
    requires b1 != b2
    ensures GeneratedLabels(b1, s1) != GeneratedLabels(b2, s2)
    ensures GeneratedLabels(b1, s1)[LabelResourceKey] == GeneratedLabels(b1, s2)[LabelResourceKey]
  {
    assert GeneratedLabels(b1, s1)[LabelResourceKey] != GeneratedLabels(b2, s2)[LabelResourceKey];
  }

  /** `ResourcesByActiveMQArtemisName`: the label set a selector for a broker's resources matches. */
  function ResourcesByActiveMQArtemisName(name: string): (set_: map<string, string>)
    ensures set_.Keys == {LabelAppKey} && set_[LabelAppKey] == name
  {
    map[LabelAppKey := name]
  }
}
