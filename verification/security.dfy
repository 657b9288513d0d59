/**
 * The applicability rule of an ActiveMQArtemisSecurity resource: which brokers
 * its security settings are meant for.
 */
module Security {

  /** `types.NamespacedName`. */
  datatype NamespacedName = NamespacedName(namespace: string, name: string)

  /** The handler's view of the security resource: where it lives and the broker names it lists. */
  datatype SecurityConfigHandler = SecurityConfigHandler(namespacedName: NamespacedName, applyToCrNames: seq<string>)

  /** An entry selects a broker when it is a wildcard ("*" or empty) or the broker's own name. */
  predicate Selects(crName: string, brokerName: string) {
    crName == "*" || crName == "" || crName == brokerName
  }

  /** The rule: same namespace, and either no names listed or some listed name selects the broker. */
  predicate Applicable(h: SecurityConfigHandler, broker: NamespacedName) {
    && h.namespacedName.namespace == broker.namespace
    && (|h.applyToCrNames| == 0 || exists i :: 0 <= i < |h.applyToCrNames| && Selects(h.applyToCrNames[i], broker.name))
  }

  /** `IsApplicableFor`: the namespace test, then a scan of the listed names that stops at the first one that selects. */
  method IsApplicableFor(h: SecurityConfigHandler, broker: NamespacedName) returns (r: bool)
    ensures r <==> Applicable(h, broker)
  {
    var applyTo := h.applyToCrNames;
    if h.namespacedName.namespace != broker.namespace {
      return false;
    }
    if |applyTo| == 0 {
      return true;
    }
    for i := 0 to |applyTo|
      invariant forall j :: 0 <= j < i ==> !Selects(applyTo[j], broker.name)
    {
      if applyTo[i] == "*" || applyTo[i] == "" || applyTo[i] == broker.name {
        return true;
      }
    }
    return false;
  }

  /** A resource in another namespace never applies, whatever names it lists. */
  lemma OtherNamespaceNeverApplies(h: SecurityConfigHandler, broker: NamespacedName)
    requires h.namespacedName.namespace != broker.namespace
    ensures !Applicable(h, broker)
  {
  }

  /** A wildcard entry, or the broker's own name, makes the resource apply to the broker in its namespace. */
  lemma ListedNameApplies(h: SecurityConfigHandler, broker: NamespacedName, i: nat)
    requires h.namespacedName.namespace == broker.namespace
    requires i < |h.applyToCrNames|
    requires h.applyToCrNames[i] in {"*", "", broker.name}
    ensures Applicable(h, broker)
  {
    assert Selects(h.applyToCrNames[i], broker.name);
  }

  /** A non-empty list without a wildcard and without the broker's name does not apply. */
  lemma UnlistedNameDoesNotApply(h: SecurityConfigHandler, broker: NamespacedName)
    requires |h.applyToCrNames| > 0
    requires "*" !in h.applyToCrNames && "" !in h.applyToCrNames && broker.name !in h.applyToCrNames
    ensures !Applicable(h, broker)
  {
  }

  /** Listing one more name never withdraws the resource from a broker it applied to through a listed name. */
  lemma MoreNamesKeepApplying(h: SecurityConfigHandler, broker: NamespacedName, extra: string)
    requires |h.applyToCrNames| > 0 && Applicable(h, broker)
    ensures Applicable(h.(applyToCrNames := h.applyToCrNames + [extra]), broker)
  {
    var i :| 0 <= i < |h.applyToCrNames| && Selects(h.applyToCrNames[i], broker.name);
    assert (h.applyToCrNames + [extra])[i] == h.applyToCrNames[i];
  }
}
