/**
 * The broker-management client: classification of the broker's creation
 * errors, the status read, and the Jolokia EXEC requests the client builds.
 * The Jolokia transport is abstract: a request is modelled as the pair
 * (mbean url, JSON body) handed to it, and a read as the response it gives back.
 */
module Artemis {
  import opened Wrappers
  import opened GoStrings

  const QUEUE_ALREADY_EXISTS: string := "AMQ229019"
  const ADDRESS_ALREADY_EXISTS: string := "AMQ229204"
  const QUEUE_NOT_EXISTS: string := "AMQ229017"
  const UNKNOWN_ERROR: string := "AMQ_UNKNOWN"

  /** `jolokia.ResponseData`: the HTTP-level status, the value and the error text. */
  datatype ResponseData = ResponseData(status: int, value: string, error: string)

  /**
   * `GetCreationError`: the first of the three known codes, in the order queue
   * exists, address exists, queue missing, that the error text contains; the
   * unknown code for a missing response or a text with none of them.
   */
  function GetCreationError(jdata: Option<ResponseData>): (r: string)
    ensures r in {QUEUE_ALREADY_EXISTS, ADDRESS_ALREADY_EXISTS, QUEUE_NOT_EXISTS, UNKNOWN_ERROR}
    ensures r == QUEUE_ALREADY_EXISTS <==> jdata.Some? && Contains(jdata.value.error, QUEUE_ALREADY_EXISTS)
    ensures r == ADDRESS_ALREADY_EXISTS <==>
      jdata.Some? && !Contains(jdata.value.error, QUEUE_ALREADY_EXISTS) && Contains(jdata.value.error, ADDRESS_ALREADY_EXISTS)
    ensures r == QUEUE_NOT_EXISTS <==>
      jdata.Some? && !Contains(jdata.value.error, QUEUE_ALREADY_EXISTS) && !Contains(jdata.value.error, ADDRESS_ALREADY_EXISTS)
      && Contains(jdata.value.error, QUEUE_NOT_EXISTS)
    ensures r == UNKNOWN_ERROR <==>
      jdata.None? || (!Contains(jdata.value.error, QUEUE_ALREADY_EXISTS) && !Contains(jdata.value.error, ADDRESS_ALREADY_EXISTS)
      && !Contains(jdata.value.error, QUEUE_NOT_EXISTS))
  {
    if jdata.None? then UNKNOWN_ERROR
    else if Contains(jdata.value.error, QUEUE_ALREADY_EXISTS) then QUEUE_ALREADY_EXISTS
    else if Contains(jdata.value.error, ADDRESS_ALREADY_EXISTS) then ADDRESS_ALREADY_EXISTS
    else if Contains(jdata.value.error, QUEUE_NOT_EXISTS) then QUEUE_NOT_EXISTS
    else UNKNOWN_ERROR
  }

  /** A text naming the queue-exists code is classified as such, whatever other codes it names. */
  lemma QueueExistsWins(status: int, value: string, prefix: string, suffix: string)
    ensures GetCreationError(Some(ResponseData(status, value, prefix + QUEUE_ALREADY_EXISTS + suffix))) == QUEUE_ALREADY_EXISTS
  {
    var e := prefix + QUEUE_ALREADY_EXISTS + suffix;
    assert OccursAt(e, QUEUE_ALREADY_EXISTS, |prefix|) by {
      assert e[|prefix|..|prefix| + |QUEUE_ALREADY_EXISTS|] == QUEUE_ALREADY_EXISTS;
    }
  }

  /** The management client of one broker: its name and the Jolokia endpoint it talks to. */
  datatype Artemis = Artemis(ip: string, jolokiaPort: string, name: string)

  /** The domain and key in front of every broker's MBean name. */
  const BrokerKey: string := "org.apache.activemq.artemis:broker=\""

  /** The broker's MBean name, `org.apache.activemq.artemis:broker="<name>"`: the broker's name reads back from it. */
  function BrokerMBean(name: string): (r: string)
    ensures |r| == |BrokerKey| + |name| + 1
    ensures r[..|BrokerKey|] == BrokerKey && r[|BrokerKey|..|r| - 1] == name && r[|r| - 1] == '"'
  {
    var r := BrokerKey + name + "\"";
    assert r[..|BrokerKey|] == BrokerKey;
    assert r[|BrokerKey|..|r| - 1] == name;
    r
  }

  /** Different brokers have different MBean names. */
  lemma BrokerMBeanInjective(n1: string, n2: string)
    ensures BrokerMBean(n1) == BrokerMBean(n2) <==> n1 == n2
  {
    if BrokerMBean(n1) == BrokerMBean(n2) {
      var m := BrokerMBean(n1);
      assert n1 == m[|BrokerKey|..|m| - 1] == n2;
    }
  }

  /** `Uptime`: the attribute path the client reads, the `Uptime` attribute of the broker's MBean. */
  function UptimeURL(a: Artemis): (r: string)
    ensures |r| == |BrokerMBean(a.name)| + 7
    ensures r[..|BrokerMBean(a.name)|] == BrokerMBean(a.name) && r[|BrokerMBean(a.name)|..] == "/Uptime"
  {
    var r := BrokerMBean(a.name) + "/Uptime";
    assert r[..|BrokerMBean(a.name)|] == BrokerMBean(a.name);
    r
  }

  /** The attribute path `GetStatus` reads, the `Status` attribute of the broker's MBean. */
  function StatusURL(a: Artemis): (r: string)
    ensures |r| == |BrokerMBean(a.name)| + 7
    ensures r[..|BrokerMBean(a.name)|] == BrokerMBean(a.name) && r[|BrokerMBean(a.name)|..] == "/Status"
  {
    var r := BrokerMBean(a.name) + "/Status";
    assert r[..|BrokerMBean(a.name)|] == BrokerMBean(a.name);
    r
  }

  /** Both attribute paths are the broker's MBean name followed by the attribute, and they differ. */
  lemma AttributePaths(a: Artemis)
    ensures UptimeURL(a)[..|BrokerMBean(a.name)|] == BrokerMBean(a.name)
    ensures StatusURL(a)[..|BrokerMBean(a.name)|] == BrokerMBean(a.name)
    ensures UptimeURL(a) != StatusURL(a)
  {
    var k := |BrokerMBean(a.name)|;
    assert UptimeURL(a)[k..][1] == 'U';
    assert StatusURL(a)[k..][1] == 'S';
  }

  /**
   * `GetStatus`, given what the Jolokia read of `StatusURL` returned: a read error
   * or a missing response gives the empty status and the read error as it came;
   * a status other than 200 gives the empty status and an error; status 200
   * gives the response's value and no error.
   */
  function GetStatus(resp: Option<ResponseData>, readErr: Option<string>): (r: (string, Option<string>))
    ensures (readErr.Some? || resp.None?) ==> r == ("", readErr)
    ensures readErr.None? && resp.Some? && resp.value.status != 200 ==> r.0 == "" && r.1.Some?
    ensures readErr.None? && resp.Some? && resp.value.status == 200 ==> r == (resp.value.value, None)
  {
    if readErr.Some? || resp.None? then ("", readErr)
    else if resp.value.status != 200 then ("", Some("unable to retrieve status " + resp.value.error))
    else (resp.value.value, None)
  }

  /**
   * No error is reported exactly when the read gave none and the response, if any,
   * has status 200: a missing response with no read error reports neither a status
   * nor an error.
   */
  lemma GetStatusErrors(resp: Option<ResponseData>, readErr: Option<string>)
    ensures GetStatus(resp, readErr).1.None? <==> readErr.None? && (resp.None? || resp.value.status == 200)
    ensures readErr.None? && resp.None? ==> GetStatus(resp, readErr) == ("", None)
  {
  }

  /** What an EXEC call hands to the transport: the unescaped MBean name and the JSON body. */
  datatype ExecRequest = ExecRequest(mbean: string, body: string)

  /** The JSON prefix of every EXEC body, up to the escaped MBean name. */
  const ExecPrefix: string := "{ \"type\":\"EXEC\",\"mbean\":\""

  /** The JSON between the MBean name and the operation, and between the operation and the arguments. */
  const OperationKey: string := "\",\"operation\":\""
  const ArgumentsKey: string := "\",\"arguments\":["

  /** Where the operation starts in an EXEC body for `mbean`. */
  function OperationStart(mbean: string): nat {
    |ExecPrefix| + |EscapeQuotes(mbean)| + |OperationKey|
  }

  /**
   * The JSON body of an EXEC call: the MBean name with its quotes escaped, the
   * operation and the argument list, each at its place, followed by the closing `] }`.
   */
  function ExecBody(mbean: string, operation: string, parameters: string): (r: string)
    ensures var i := OperationStart(mbean);
      var j := i + |operation| + |ArgumentsKey|;
      && |r| == j + |parameters| + 3
      && r[..|ExecPrefix|] == ExecPrefix
      && r[|ExecPrefix|..|ExecPrefix| + |EscapeQuotes(mbean)|] == EscapeQuotes(mbean)
      && r[i..i + |operation|] == operation
      && r[j..j + |parameters|] == parameters
  {
    var head := ExecPrefix + EscapeQuotes(mbean);
    var pre := head + OperationKey + operation + ArgumentsKey;
    var r := pre + parameters + "] }";
    assert head[..|ExecPrefix|] == ExecPrefix;
    assert r[..|head|] == head;
    assert r[|ExecPrefix|..|head|] == head[|ExecPrefix|..];
    var i := OperationStart(mbean);
    assert r[..|pre|] == pre;
    assert r[i..i + |operation|] == pre[i..i + |operation|];
    assert r[|pre|..|pre| + |parameters|] == parameters;
    r
  }

  /** With the same MBean and operation, equal bodies carry equal argument lists. */
  lemma ExecBodyInjective(mbean: string, operation: string, p1: string, p2: string)
    ensures ExecBody(mbean, operation, p1) == ExecBody(mbean, operation, p2) <==> p1 == p2
  {
  }

  /** The MBean name written into a body reads back, once unescaped, as the name handed to the transport. */
  lemma {:induction false} ExecBodyNamesMBean(mbean: string, operation: string, parameters: string)
    ensures var body := ExecBody(mbean, operation, parameters);
      UnescapeQuotes(body[|ExecPrefix|..|ExecPrefix| + |EscapeQuotes(mbean)|]) == mbean
  {
    UnescapeEscape(mbean);
  }

  /** The request carries the broker's MBean, the operation and the argument list, each where the body puts it. */
  predicate Carries(r: ExecRequest, a: Artemis, operation: string, parameters: string) {
    var i := OperationStart(r.mbean);
    var j := i + |operation| + |ArgumentsKey|;
    && r.mbean == BrokerMBean(a.name)
    && |r.body| == j + |parameters| + 3
    && r.body[i..i + |operation|] == operation
    && r.body[j..j + |parameters|] == parameters
  }

  /** An EXEC call on the broker's MBean. */
  function Exec(a: Artemis, operation: string, parameters: string): (r: ExecRequest)
    ensures Carries(r, a, operation, parameters)
  {
    ExecRequest(BrokerMBean(a.name), ExecBody(BrokerMBean(a.name), operation, parameters))
  }

  /** Calls of one operation on one broker are the same request exactly when their argument lists are. */
  lemma ExecInjective(a: Artemis, operation: string, p1: string, p2: string)
    ensures Exec(a, operation, p1) == Exec(a, operation, p2) <==> p1 == p2
  {
    ExecBodyInjective(BrokerMBean(a.name), operation, p1, p2);
  }

  /** A single name argument, quoted: different names give different argument lists. */
  lemma QuotedInjective(n1: string, n2: string)
    ensures "\"" + n1 + "\"" == "\"" + n2 + "\"" <==> n1 == n2
  {
    if "\"" + n1 + "\"" == "\"" + n2 + "\"" {
      var q := "\"" + n1 + "\"";
      assert n1 == q[1..|q| - 1];
      assert n2 == ("\"" + n2 + "\"")[1..|q| - 1];
    }
  }

  /** `CreateQueue`: the routing type is upper-cased; the three arguments are quoted strings. */
  function CreateQueue(a: Artemis, addressName: string, queueName: string, routingType: string): (r: ExecRequest)
    ensures Carries(r, a, "createQueue(java.lang.String,java.lang.String,java.lang.String)",
      "\"" + addressName + "\",\"" + queueName + "\"," + "\"" + ToUpper(routingType) + "\"")
  {
    Exec(a, "createQueue(java.lang.String,java.lang.String,java.lang.String)",
      "\"" + addressName + "\",\"" + queueName + "\"," + "\"" + ToUpper(routingType) + "\"")
  }

  /** `UpdateQueue`: the queue configuration is the argument list as given. */
  function UpdateQueue(a: Artemis, queueConfig: string): (r: ExecRequest)
    ensures Carries(r, a, "updateQueue(java.lang.String)", queueConfig)
  {
    Exec(a, "updateQueue(java.lang.String)", queueConfig)
  }

  /** `CreateQueueFromConfig`: the configuration followed by the ignore-if-exists flag as a JSON boolean. */
  function CreateQueueFromConfig(a: Artemis, queueConfig: string, ignoreIfExists: bool): (r: ExecRequest)
    ensures Carries(r, a, "createQueue(java.lang.String,boolean)", queueConfig + "," + FormatBool(ignoreIfExists))
  {
    var ignoreIfExistsValue := if ignoreIfExists then "true" else "false";
    Exec(a, "createQueue(java.lang.String,boolean)", queueConfig + "," + ignoreIfExistsValue)
  }

  /** `CreateAddress`: the routing type is upper-cased. */
  function CreateAddress(a: Artemis, addressName: string, routingType: string): (r: ExecRequest)
    ensures Carries(r, a, "createAddress(java.lang.String,java.lang.String)",
      "\"" + addressName + "\",\"" + ToUpper(routingType) + "\"")
  {
    Exec(a, "createAddress(java.lang.String,java.lang.String)", "\"" + addressName + "\",\"" + ToUpper(routingType) + "\"")
  }

  /** `DeleteQueue`: `destroyQueue` with the queue name as its one quoted argument. */
  function DeleteQueue(a: Artemis, queueName: string): (r: ExecRequest)
    ensures Carries(r, a, "destroyQueue(java.lang.String)", "\"" + queueName + "\"")
  {
    Exec(a, "destroyQueue(java.lang.String)", "\"" + queueName + "\"")
  }

  /** `ListBindingsForAddress`: the address name as the one quoted argument. */
  function ListBindingsForAddress(a: Artemis, addressName: string): (r: ExecRequest)
    ensures Carries(r, a, "listBindingsForAddress(java.lang.String)", "\"" + addressName + "\"")
  {
    Exec(a, "listBindingsForAddress(java.lang.String)", "\"" + addressName + "\"")
  }

  /** `DeleteAddress`: the address name as the one quoted argument. */
  function DeleteAddress(a: Artemis, addressName: string): (r: ExecRequest)
    ensures Carries(r, a, "deleteAddress(java.lang.String)", "\"" + addressName + "\"")
  {
    Exec(a, "deleteAddress(java.lang.String)", "\"" + addressName + "\"")
  }

  /** Updating two queue configurations on one broker sends the same request only for the same configuration. */
  lemma UpdateQueueInjective(a: Artemis, c1: string, c2: string)
    ensures UpdateQueue(a, c1) == UpdateQueue(a, c2) <==> c1 == c2
  {
    ExecInjective(a, "updateQueue(java.lang.String)", c1, c2);
  }

  /** Deleting two queues on one broker sends the same request only for the same queue. */
  lemma DeleteQueueInjective(a: Artemis, q1: string, q2: string)
    ensures DeleteQueue(a, q1) == DeleteQueue(a, q2) <==> q1 == q2
  {
    ExecInjective(a, "destroyQueue(java.lang.String)", "\"" + q1 + "\"", "\"" + q2 + "\"");
    QuotedInjective(q1, q2);
  }

  /** Listing the bindings of two addresses sends the same request only for the same address. */
  lemma ListBindingsForAddressInjective(a: Artemis, n1: string, n2: string)
    ensures ListBindingsForAddress(a, n1) == ListBindingsForAddress(a, n2) <==> n1 == n2
  {
    ExecInjective(a, "listBindingsForAddress(java.lang.String)", "\"" + n1 + "\"", "\"" + n2 + "\"");
    QuotedInjective(n1, n2);
  }

  /** Deleting two addresses sends the same request only for the same address. */
  lemma DeleteAddressInjective(a: Artemis, n1: string, n2: string)
    ensures DeleteAddress(a, n1) == DeleteAddress(a, n2) <==> n1 == n2
  {
    ExecInjective(a, "deleteAddress(java.lang.String)", "\"" + n1 + "\"", "\"" + n2 + "\"");
    QuotedInjective(n1, n2);
  }

  /** Upper-casing twice is upper-casing once. */
  lemma ToUpperIdempotent(s: string)
    ensures ToUpper(ToUpper(s)) == ToUpper(s)
  {
  }

  /** Routing types that agree up to case give the same queue request; an upper-cased one is sent as is. */
  lemma CreateQueueIgnoresCase(a: Artemis, addressName: string, queueName: string, r1: string, r2: string)
    requires ToUpper(r1) == ToUpper(r2)
    ensures CreateQueue(a, addressName, queueName, r1) == CreateQueue(a, addressName, queueName, r2)
    ensures CreateQueue(a, addressName, queueName, ToUpper(r1)) == CreateQueue(a, addressName, queueName, r1)
  {
    ToUpperIdempotent(r1);
  }

  /** The same for address requests. */
  lemma CreateAddressIgnoresCase(a: Artemis, addressName: string, r1: string, r2: string)
    requires ToUpper(r1) == ToUpper(r2)
    ensures CreateAddress(a, addressName, r1) == CreateAddress(a, addressName, r2)
    ensures CreateAddress(a, addressName, ToUpper(r1)) == CreateAddress(a, addressName, r1)
  {
    ToUpperIdempotent(r1);
  }

  /** The flag appended to a queue configuration is the Go boolean formatting, which parses back to the flag. */
  lemma CreateQueueFromConfigFlag(a: Artemis, queueConfig: string, ignoreIfExists: bool)
    ensures CreateQueueFromConfig(a, queueConfig, ignoreIfExists) ==
      Exec(a, "createQueue(java.lang.String,boolean)", queueConfig + "," + FormatBool(ignoreIfExists))
    ensures ParseBool(FormatBool(ignoreIfExists)) == (ignoreIfExists, true)
  {
    ParseFormatBool(ignoreIfExists);
  }

  /** Requests that differ only in the queue configuration's flag differ: the flag reaches the body. */
  lemma CreateQueueFromConfigDistinguishesFlag(a: Artemis, queueConfig: string)
    ensures CreateQueueFromConfig(a, queueConfig, true) != CreateQueueFromConfig(a, queueConfig, false)
  {
    var t := CreateQueueFromConfig(a, queueConfig, true).body;
    var f := CreateQueueFromConfig(a, queueConfig, false).body;
    var k := |ExecPrefix + EscapeQuotes(BrokerMBean(a.name)) + "\",\"operation\":\"" + "createQueue(java.lang.String,boolean)" + "\",\"arguments\":[" + queueConfig + ","|;
    assert t[k] == 't';
    assert f[k] == 'f';
  }
}
