/** The name builder: a base name with a prefix and a suffix, combined on demand. */
module Namer {

  /** `NamerData`: the three parts, and the name generated from them last time. */
  class NamerData {
    var baseName: string
    var prefix: string
    var suffix: string
    var name: string

    /** The zero value Go gives a declared `NamerData`: every part empty, no name yet. */
    constructor ()
      ensures baseName == "" && prefix == "" && suffix == "" && name == ""
    {
      baseName, prefix, suffix, name := "", "", "", "";
    }

    /** `Generate`: the name becomes prefix, base name and suffix, in that order. */
    method Generate()
      modifies this
      ensures Name() == prefix + baseName + suffix
      ensures baseName == old(baseName) && prefix == old(prefix) && suffix == old(suffix)
    {
      name := prefix + baseName + suffix;
    }

    /** `Base`: sets the base name only, and returns the same builder for chaining. */
    method Base(baseName: string) returns (r: NamerData)
      modifies this
      ensures r == this
      ensures this.baseName == baseName
      ensures prefix == old(prefix) && suffix == old(suffix) && Name() == old(Name())
    {
      this.baseName := baseName;
      r := this;
    }

    /** `Prefix`: sets the prefix only. */
    method Prefix(namePrefix: string) returns (r: NamerData)
      modifies this
      ensures r == this
      ensures prefix == namePrefix
      ensures baseName == old(baseName) && suffix == old(suffix) && Name() == old(Name())
    {
      prefix := namePrefix;
      r := this;
    }

    /** `Suffix`: sets the suffix only. */
    method Suffix(nameSuffix: string) returns (r: NamerData)
      modifies this
      ensures r == this
      ensures suffix == nameSuffix
      ensures baseName == old(baseName) && prefix == old(prefix) && Name() == old(Name())
    {
      suffix := nameSuffix;
      r := this;
    }

    /** `Name`: the name of the last generation, unaffected by the setters called since. */
    function Name(): string
      reads this
    {
      name
    }
  }
}
