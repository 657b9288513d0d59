/**
 * The user/password Secret manifests. The random strings the source generates
 * for missing credentials are passed in as values.
 */
module Secrets {
  import opened Wrappers
  import opened Kube
  import opened Selectors

  datatype Secret = Secret(typeMeta: TypeMeta, meta: ObjectMeta, stringData: map<string, string>)

  /**
   * `MakeUserPasswordStringData`: the user name under `keyName` and the password
   * under `valueName`, each replaced by its generated string when empty; when
   * both names are equal the password is the one entry.
   */
  function MakeUserPasswordStringData(keyName: string, valueName: string, key: string, value: string,
                                      randomKey: string, randomValue: string): (m: map<string, string>)
    ensures m.Keys == {keyName, valueName}
    ensures m[valueName] == if |value| == 0 then randomValue else value
    ensures keyName != valueName ==> m[keyName] == if |key| == 0 then randomKey else key
  {
    var key := if 0 == |key| then randomKey else key;
    var value := if 0 == |value| then randomValue else value;
    map[keyName := key][valueName := value]
  }

  /** With non-empty generated strings, no credential in the map is empty. */
  lemma NoEmptyCredential(keyName: string, valueName: string, key: string, value: string,
                          randomKey: string, randomValue: string)
    requires |randomKey| > 0 && |randomValue| > 0
    ensures forall k :: k in MakeUserPasswordStringData(keyName, valueName, key, value, randomKey, randomValue) ==>
      |MakeUserPasswordStringData(keyName, valueName, key, value, randomKey, randomValue)[k]| > 0
  {
  }

  /** Credentials that are given are kept, so building the map again from its own entries changes nothing. */
  lemma StringDataStable(keyName: string, valueName: string, key: string, value: string,
                         randomKey: string, randomValue: string, otherKey: string, otherValue: string)
    requires |randomKey| > 0 && |randomValue| > 0
    ensures var m := MakeUserPasswordStringData(keyName, valueName, key, value, randomKey, randomValue);
      MakeUserPasswordStringData(keyName, valueName, m[keyName], m[valueName], otherKey, otherValue) == m
  {
  }

  /**
   * `MakeUserPasswordSecret`: a v1 Secret with the given name, in the resource's
   * namespace, labelled with the label builder's labels, carrying the string data as given.
   */
  function MakeUserPasswordSecret(cr: ActiveMQArtemis, secretName: string, stringData: map<string, string>,
                                  labelBuilder: LabelerData): (s: Secret)
    reads labelBuilder
    ensures s.typeMeta == TypeMeta("Secret", "v1")
    ensures s.meta.name == secretName && s.meta.namespace == cr.namespace
    ensures s.meta.labels == labelBuilder.Labels() && s.meta.annotations.None?
    ensures s.stringData == stringData
  {
    Secret(TypeMeta("Secret", "v1"), ObjectMeta(secretName, cr.namespace, labelBuilder.Labels(), None), stringData)
  }

  /** A Secret held by reference. */
  class SecretObject {
    var secret: Secret

    constructor (secret: Secret)
      ensures this.secret == secret
    {
      this.secret := secret;
    }
  }

  /** `NewUserPasswordSecret`: a new object holding the Secret `MakeUserPasswordSecret` builds. */
  method NewUserPasswordSecret(cr: ActiveMQArtemis, secretName: string, stringData: map<string, string>,
                               labelBuilder: LabelerData) returns (r: SecretObject)
    ensures fresh(r)
    ensures r.secret == MakeUserPasswordSecret(cr, secretName, stringData, labelBuilder)
  {
    var userPasswordSecret := MakeUserPasswordSecret(cr, secretName, stringData, labelBuilder);
    r := new SecretObject(userPasswordSecret);
  }
}
