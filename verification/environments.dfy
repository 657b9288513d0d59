/**
 * The environment-variable library of the broker containers: lookups over a
 * container's `Env` list, the in-place edits applied to every container of a
 * pod, change detection against container 0, and the fixed default lists.
 *
 * Go's `[]corev1.Container` is a slice whose elements the edits overwrite in
 * place, so the editing operations take an `array<Container>`; lookups take
 * the list as a value. A returned `*corev1.EnvVar` is read as the position of
 * the entry it points to.
 */
module Environments {
  import opened Wrappers
  import opened Kube
  import opened GoStrings

  const NameEnvVar := "AMQ_NAME"
  const NameEnvVarDefaultValue := "amq-broker"

  /** Some entry of `env` is named `name`. */
  predicate HasName(env: seq<EnvVar>, name: string) {
    exists k :: 0 <= k < |env| && env[k].name == name
  }

  /** The position of the first entry named `name`. */
  function FirstIndex(env: seq<EnvVar>, name: string): (r: nat)
    requires HasName(env, name)
    ensures r < |env| && env[r].name == name
    ensures forall k :: 0 <= k < r ==> env[k].name != name
  {
    if env[0].name == name then 0
    else
      assert HasName(env[1..], name) by {
        var k :| 0 <= k < |env| && env[k].name == name;
        assert env[1..][k - 1].name == name;
      }
      1 + FirstIndex(env[1..], name)
  }

  /** Two lists with the same names in the same places answer every name lookup alike. */
  lemma SameNamesSameLookup(a: seq<EnvVar>, b: seq<EnvVar>, name: string)
    requires |a| == |b|
    requires forall k :: 0 <= k < |a| ==> a[k].name == b[k].name
    ensures HasName(a, name) <==> HasName(b, name)
    ensures HasName(a, name) ==> FirstIndex(a, name) == FirstIndex(b, name)
  {
    if HasName(a, name) {
      var k := FirstIndex(a, name);
      assert b[k].name == name;
      var kb := FirstIndex(b, name);
      assert a[kb].name == name;
    }
  }

  /** `ResolveBrokerNameFromEnvs`: the value of the first `AMQ_NAME` entry, else the default. */
  method ResolveBrokerNameFromEnvs(envs: seq<EnvVar>, defaultValue: string) returns (r: string)
    ensures HasName(envs, NameEnvVar) ==> r == envs[FirstIndex(envs, NameEnvVar)].value
    ensures !HasName(envs, NameEnvVar) ==> r == defaultValue
  {
    if |envs| > 0 {
      for i := 0 to |envs|
        invariant forall k :: 0 <= k < i ==> envs[k].name != NameEnvVar
      {
        if envs[i].name == NameEnvVar {
          return envs[i].value;
        }
      }
    }
    return defaultValue;
  }

  /** `Find`: the position of the first entry named `name`, or `None`. */
  method Find(envs: seq<EnvVar>, name: string) returns (r: Option<nat>)
    ensures r.Some? <==> HasName(envs, name)
    ensures r.Some? ==> r.value == FirstIndex(envs, name)
  {
    r := None;
    for i := 0 to |envs|
      invariant forall k :: 0 <= k < i ==> envs[k].name != name
      invariant r == None
    {
      if name == envs[i].name {
        r := Some(i);
        return;
      }
    }
  }

  /** `RetrieveFrom`: `Find` over one container's environment. */
  method RetrieveFrom(container: Container, name: string) returns (r: Option<nat>)
    ensures r.Some? <==> HasName(container.env, name)
    ensures r.Some? ==> r.value == FirstIndex(container.env, name)
  {
    r := Find(container.env, name);
  }

  /**
   * `Retrieve`: the location (container, entry) of an entry named `name`, taken
   * from the first container that has one; within it the scan runs backwards,
   * so it is the last such entry of that container.
   */
  method Retrieve(containers: seq<Container>, name: string) returns (r: Option<(nat, nat)>)
    ensures r.None? <==> forall i :: 0 <= i < |containers| ==> !HasName(containers[i].env, name)
    ensures r.Some? ==>
      var (i, j) := r.value;
      && i < |containers| && j < |containers[i].env|
      && containers[i].env[j].name == name
      && (forall i' :: 0 <= i' < i ==> !HasName(containers[i'].env, name))
      && (forall j' :: j < j' < |containers[i].env| ==> containers[i].env[j'].name != name)
  {
    r := None;
    var i := 0;
    while i < |containers| && r == None
      invariant 0 <= i <= |containers|
      invariant r == None ==> forall i' :: 0 <= i' < i ==> !HasName(containers[i'].env, name)
      invariant r.Some? ==>
        var (ri, rj) := r.value;
        && ri == i - 1 && rj < |containers[ri].env|
        && containers[ri].env[rj].name == name
        && (forall i' :: 0 <= i' < ri ==> !HasName(containers[i'].env, name))
        && (forall j' :: rj < j' < |containers[ri].env| ==> containers[ri].env[j'].name != name)
    {
      var env := containers[i].env;
      var j := |env| - 1;
      while j >= 0
        invariant -1 <= j < |env|
        invariant forall j' :: j < j' < |env| ==> env[j'].name != name
      {
        if name == env[j].name {
          r := Some((i, j));
          break;
        }
        j := j - 1;
      }
      i := i + 1;
    }
    if r.Some? {
      var (ri, rj) := r.value;
      assert containers[ri].env[rj].name == name;
    }
  }

  /** `Update` on one list: every entry named like `v` becomes `v`. */
  function Overwrite(env: seq<EnvVar>, v: EnvVar): (r: seq<EnvVar>)
    ensures |r| == |env|
    ensures forall k :: 0 <= k < |env| ==> r[k] == if env[k].name == v.name then v else env[k]
  {
    seq(|env|, k requires 0 <= k < |env| => if env[k].name == v.name then v else env[k])
  }

  /**
   * `Update`: in every container, every entry named like `envVar` is replaced
   * by it; lengths and all other entries stay as they were.
   */
  method Update(containers: array<Container>, envVar: EnvVar)
    modifies containers
    ensures forall i :: 0 <= i < containers.Length ==>
      containers[i] == old(containers[i]).(env := Overwrite(old(containers[i]).env, envVar))
  {
    for i := 0 to containers.Length
      invariant forall i' :: 0 <= i' < i ==>
        containers[i'] == old(containers[i']).(env := Overwrite(old(containers[i']).env, envVar))
      invariant forall i' :: i <= i' < containers.Length ==> containers[i'] == old(containers[i'])
    {
      ghost var orig := containers[i];
      var j := |containers[i].env| - 1;
      while j >= 0
        invariant -1 <= j < |orig.env|
        invariant containers[i] == orig.(env := containers[i].env)
        invariant |containers[i].env| == |orig.env|
        invariant forall k :: 0 <= k <= j ==> containers[i].env[k] == orig.env[k]
        invariant forall k :: j < k < |orig.env| ==>
          containers[i].env[k] == if orig.env[k].name == envVar.name then envVar else orig.env[k]
        invariant forall i' :: 0 <= i' < i ==>
          containers[i'] == old(containers[i']).(env := Overwrite(old(containers[i']).env, envVar))
        invariant forall i' :: i < i' < containers.Length ==> containers[i'] == old(containers[i'])
      {
        if envVar.name == containers[i].env[j].name {
          containers[i] := containers[i].(env := containers[i].env[j := envVar]);
        }
        j := j - 1;
      }
      assert containers[i].env == Overwrite(orig.env, envVar);
    }
  }

  /** `TrackSecretCheckSumInRollCount`: `Update` with `TRIGGERED_ROLL_COUNT` set to the checksum. */
  method TrackSecretCheckSumInRollCount(checkSum: string, containers: array<Container>)
    modifies containers
    ensures forall i :: 0 <= i < containers.Length ==>
      containers[i] == old(containers[i]).(env :=
        Overwrite(old(containers[i]).env, EnvVar("TRIGGERED_ROLL_COUNT", checkSum, None)))
  {
    Update(containers, EnvVar("TRIGGERED_ROLL_COUNT", checkSum, None));
  }

  /** `Create`: `envVar` is appended to every container. */
  method Create(containers: array<Container>, envVar: EnvVar)
    modifies containers
    ensures forall i :: 0 <= i < containers.Length ==>
      containers[i] == old(containers[i]).(env := old(containers[i]).env + [envVar])
  {
    for i := 0 to containers.Length
      invariant forall i' :: 0 <= i' < i ==>
        containers[i'] == old(containers[i']).(env := old(containers[i']).env + [envVar])
      invariant forall i' :: i <= i' < containers.Length ==> containers[i'] == old(containers[i'])
    {
      containers[i] := containers[i].(env := containers[i].env + [envVar]);
    }
  }

  /**
   * One container's part of `CreateOrAppend`: an absent name is appended; a
   * present one has the value of its first entry extended by a space and the new value.
   */
  function AppendOrExtend(env: seq<EnvVar>, v: EnvVar): (r: seq<EnvVar>)
    ensures !HasName(env, v.name) ==> r == env + [v]
    ensures HasName(env, v.name) ==>
      var k := FirstIndex(env, v.name);
      && |r| == |env|
      && r[k] == env[k].(value := env[k].value + " " + v.value)
      && forall k' :: 0 <= k' < |env| && k' != k ==> r[k'] == env[k']
  {
    if HasName(env, v.name) then
      var k := FirstIndex(env, v.name);
      env[k := env[k].(value := env[k].value + " " + v.value)]
    else env + [v]
  }

  /** `CreateOrAppend`, container by container. */
  method CreateOrAppend(containers: array<Container>, envVar: EnvVar)
    modifies containers
    ensures forall i :: 0 <= i < containers.Length ==>
      containers[i] == old(containers[i]).(env := AppendOrExtend(old(containers[i]).env, envVar))
  {
    for i := 0 to containers.Length
      invariant forall i' :: 0 <= i' < i ==>
        containers[i'] == old(containers[i']).(env := AppendOrExtend(old(containers[i']).env, envVar))
      invariant forall i' :: i <= i' < containers.Length ==> containers[i'] == old(containers[i'])
    {
      var container := containers[i];
      var existing := RetrieveFrom(containers[i], envVar.name);
      if existing == None {
        containers[i] := containers[i].(env := container.env + [envVar]);
      } else {
        var k := existing.value;
        var e := containers[i].env[k];
        containers[i] := containers[i].(env := containers[i].env[k := e.(value := e.value + " " + envVar.value)]);
      }
    }
  }

  /** The first entry named like `e` takes `e`'s value; its name and `ValueFrom` stay. */
  function SetValue(env: seq<EnvVar>, e: EnvVar): (r: seq<EnvVar>)
    ensures |r| == |env|
    ensures forall k :: 0 <= k < |env| ==> r[k].name == env[k].name && r[k].valueFrom == env[k].valueFrom
  {
    if HasName(env, e.name) then
      var k := FirstIndex(env, e.name);
      env[k := env[k].(value := e.value)]
    else env
  }

  /** The in-place part of `ReplaceOrAppend`: the elements' values, in order, on `envs`. */
  function ReplaceValues(env: seq<EnvVar>, elems: seq<EnvVar>): (r: seq<EnvVar>)
    ensures |r| == |env|
    ensures forall k :: 0 <= k < |env| ==> r[k].name == env[k].name && r[k].valueFrom == env[k].valueFrom
  {
    if elems == [] then env
    else SetValue(ReplaceValues(env, elems[..|elems| - 1]), elems[|elems| - 1])
  }

  /** The appended part of `ReplaceOrAppend`: the elements whose names the original list lacks. */
  function Absent(env: seq<EnvVar>, elems: seq<EnvVar>): (r: seq<EnvVar>)
    ensures forall e :: e in r <==> e in elems && !HasName(env, e.name)
    ensures |r| <= |elems|
  {
    if elems == [] then []
    else
      var last := elems[|elems| - 1];
      var r := Absent(env, elems[..|elems| - 1]) + (if HasName(env, last.name) then [] else [last]);
      assert elems == elems[..|elems| - 1] + [last];
      r
  }

  /**
   * How many elements `ReplaceOrAppend` handles while its result still shares the
   * backing array of `env`, which has `room` spare slots beyond its length: the
   * position of the first element that is appended when no spare slot is left (Go's
   * `append` then copies the result to a new array), or all of them when the spare
   * slots suffice.
   */
  function SharedPrefix(env: seq<EnvVar>, elems: seq<EnvVar>, room: nat): (k: nat)
    ensures k <= |elems|
    decreases |elems|
  {
    if elems == [] then 0
    else
      var n := |elems| - 1;
      var k := SharedPrefix(env, elems[..n], room);
      if k < n then k
      else if !HasName(env, elems[n].name) && |Absent(env, elems[..n])| == room then n
      else n + 1
  }

  /** Absent grows by the last element exactly when the list lacks its name. */
  lemma AbsentLast(env: seq<EnvVar>, elems: seq<EnvVar>)
    requires elems != []
    ensures Absent(env, elems) == Absent(env, elems[..|elems| - 1])
      + (if HasName(env, elems[|elems| - 1].name) then [] else [elems[|elems| - 1]])
  {
  }

  /**
   * The result stops sharing the array exactly when more elements are appended
   * than there are spare slots, and it does so at an appended element that finds
   * the `room` spare slots already used.
   */
  lemma {:induction false} SharedPrefixSpec(env: seq<EnvVar>, elems: seq<EnvVar>, room: nat)
    ensures SharedPrefix(env, elems, room) < |elems| <==> |Absent(env, elems)| > room
    ensures var k := SharedPrefix(env, elems, room);
      k < |elems| ==> !HasName(env, elems[k].name) && |Absent(env, elems[..k])| == room
    decreases |elems|
  {
    if elems != [] {
      var n := |elems| - 1;
      var prefix := elems[..n];
      SharedPrefixSpec(env, prefix, room);
      AbsentLast(env, elems);
      var k := SharedPrefix(env, prefix, room);
      if k < n {
        assert prefix[k] == elems[k];
        assert prefix[..k] == elems[..k];
      }
    }
  }

  /**
   * `ReplaceOrAppend`: an element whose name `envs` holds overwrites the value of
   * the first such entry in place; an element whose name it lacks is appended.
   * Lookups go to `envs`, so elements sharing an absent name are all appended.
   * The result starts as `envs` itself, sharing its backing array of `capacity`
   * slots, and an in-place write shows through it only until an append finds the
   * array full and copies the result elsewhere; later writes reach `envs` alone.
   */
  method ReplaceOrAppend(envs: array<EnvVar>, capacity: nat, elems: seq<EnvVar>) returns (result: seq<EnvVar>)
    requires envs.Length <= capacity
    modifies envs
    ensures envs[..] == ReplaceValues(old(envs[..]), elems)
    ensures result == SliceResult(old(envs[..]), elems, capacity - envs.Length)
  {
    ghost var orig := envs[..];
    ghost var room := capacity - envs.Length;
    // The result is `head + appended`: its first `len(envs)` slots, then what was appended.
    var head := envs[..];
    var appended: seq<EnvVar> := [];
    var shared := true;
    assert elems[..0] == [];
    for n := 0 to |elems|
      invariant Tracks(orig, elems, room, n, envs[..], head, appended, shared)
    {
      head, appended, shared := ReplaceOrAppendOne(envs, capacity, elems, n, orig, room, head, appended, shared);
    }
    TracksDone(orig, elems, room, envs[..], head, appended, shared);
    result := head + appended;
  }

  /** One pass of the loop of `ReplaceOrAppend`, for element `n`. */
  method ReplaceOrAppendOne(envs: array<EnvVar>, capacity: nat, elems: seq<EnvVar>, n: nat,
                            ghost orig: seq<EnvVar>, ghost room: nat,
                            head: seq<EnvVar>, appended: seq<EnvVar>, shared: bool)
    returns (head': seq<EnvVar>, appended': seq<EnvVar>, shared': bool)
    requires n < |elems| && capacity == |orig| + room
    requires Tracks(orig, elems, room, n, envs[..], head, appended, shared)
    modifies envs
    ensures Tracks(orig, elems, room, n + 1, envs[..], head', appended', shared')
  {
    var newElem := elems[n];
    ghost var before := envs[..];
    var found := Find(envs[..], newElem.name);
    head', appended', shared' := head, appended, shared;
    if found != None {
      var k := found.value;
      envs[k] := envs[k].(value := newElem.value);
      assert envs[..] == SetValue(before, newElem);
      TracksOverwrite(orig, elems, room, n, before, head, appended, shared);
      if shared {
        head' := head[k := envs[k]];
        assert head' == envs[..];
      }
    } else {
      TracksAppend(orig, elems, room, n, before, head, appended, shared);
      if shared && |head| + |appended| == capacity {
        // `append` finds no spare slot: the result moves to a new array.
        shared' := false;
      }
      appended' := appended + [newElem];
    }
  }

  /**
   * The slice `ReplaceOrAppend` returns for a list with `room` spare slots: the
   * list with the values written while the result shared its array, then the
   * appended elements.
   */
  ghost function SliceResult(env: seq<EnvVar>, elems: seq<EnvVar>, room: nat): seq<EnvVar>
  {
    ReplaceValues(env, elems[..SharedPrefix(env, elems, room)]) + Absent(env, elems)
  }

  /** What `ReplaceOrAppend` knows after `n` elements: `cur` is `envs`, `head + appended` the result. */
  ghost predicate Tracks(orig: seq<EnvVar>, elems: seq<EnvVar>, room: nat, n: nat,
                         cur: seq<EnvVar>, head: seq<EnvVar>, appended: seq<EnvVar>, shared: bool)
  {
    && n <= |elems|
    && cur == ReplaceValues(orig, elems[..n])
    && appended == Absent(orig, elems[..n])
    && (shared <==> SharedPrefix(orig, elems[..n], room) == n)
    && (shared ==> head == cur && |appended| <= room)
    && (!shared ==> head == ReplaceValues(orig, elems[..SharedPrefix(orig, elems[..n], room)]))
  }

  /** An element whose name `cur` holds is written into `cur`, and into the result while it shares the array. */
  lemma TracksOverwrite(orig: seq<EnvVar>, elems: seq<EnvVar>, room: nat, n: nat,
                        cur: seq<EnvVar>, head: seq<EnvVar>, appended: seq<EnvVar>, shared: bool)
    requires Tracks(orig, elems, room, n, cur, head, appended, shared)
    requires n < |elems| && HasName(cur, elems[n].name)
    ensures Tracks(orig, elems, room, n + 1, SetValue(cur, elems[n]),
                   if shared then SetValue(cur, elems[n]) else head, appended, shared)
  {
    ReplaceOrAppendStep(orig, elems, n);
    SharedPrefixStep(orig, elems, room, n);
    SameNamesSameLookup(orig, cur, elems[n].name);
  }

  /** An element whose name `cur` lacks is appended; the result leaves the array when no spare slot is left. */
  lemma TracksAppend(orig: seq<EnvVar>, elems: seq<EnvVar>, room: nat, n: nat,
                     cur: seq<EnvVar>, head: seq<EnvVar>, appended: seq<EnvVar>, shared: bool)
    requires Tracks(orig, elems, room, n, cur, head, appended, shared)
    requires n < |elems| && !HasName(cur, elems[n].name)
    ensures |head| == |orig|
    ensures Tracks(orig, elems, room, n + 1, cur, head, appended + [elems[n]],
                   shared && |head| + |appended| != |orig| + room)
  {
    ReplaceOrAppendStep(orig, elems, n);
    SharedPrefixStep(orig, elems, room, n);
    SharedPrefixSpec(orig, elems[..n], room);
    SameNamesSameLookup(orig, cur, elems[n].name);
  }

  /** After the last element, `head + appended` is the result the contract of `ReplaceOrAppend` names. */
  lemma TracksDone(orig: seq<EnvVar>, elems: seq<EnvVar>, room: nat,
                   cur: seq<EnvVar>, head: seq<EnvVar>, appended: seq<EnvVar>, shared: bool)
    requires Tracks(orig, elems, room, |elems|, cur, head, appended, shared)
    ensures cur == ReplaceValues(orig, elems)
    ensures head + appended == SliceResult(orig, elems, room)
  {
    assert elems[..|elems|] == elems;
  }

  /** One element more: where the result stops sharing the array, by the definition of `SharedPrefix`. */
  lemma SharedPrefixStep(env: seq<EnvVar>, elems: seq<EnvVar>, room: nat, n: nat)
    requires n < |elems|
    ensures var sp := SharedPrefix(env, elems[..n], room);
      SharedPrefix(env, elems[..n + 1], room) ==
        if sp < n then sp
        else if !HasName(env, elems[n].name) && |Absent(env, elems[..n])| == room then n
        else n + 1
  {
    assert elems[..n + 1][..n] == elems[..n];
  }

  /**
   * With no spare capacity, an overwrite that follows an append is lost from the
   * result: `envs = [A=1]`, elements `B=2` then `A=3` leave the caller's slice as
   * `[A=3]` but return `[A=1, B=2]`.
   */
  lemma ReplaceOrAppendLosesLateWrite()
    ensures var env := [EnvVar("A", "1", None)];
      var elems := [EnvVar("B", "2", None), EnvVar("A", "3", None)];
      && SharedPrefix(env, elems, 0) == 0
      && ReplaceValues(env, elems) == [EnvVar("A", "3", None)]
      && ReplaceValues(env, elems[..0]) + Absent(env, elems) == [EnvVar("A", "1", None), EnvVar("B", "2", None)]
  {
    var env := [EnvVar("A", "1", None)];
    var b := EnvVar("B", "2", None);
    var a3 := EnvVar("A", "3", None);
    var elems := [b, a3];
    assert env[0].name == "A";
    assert HasName(env, "A");
    assert !HasName(env, "B");
    assert elems[..1] == [b];
    assert [b][..0] == [];
    assert Absent(env, [b]) == [b];
    assert Absent(env, elems) == [b];
    assert ReplaceValues(env, [b]) == env;
    assert ReplaceValues(env, elems) == SetValue(env, a3);
  }

  /** Spare capacity for every appended element: the result is the edited list followed by the appended elements. */
  lemma ReplaceOrAppendWithRoom(env: seq<EnvVar>, elems: seq<EnvVar>, room: nat)
    requires |Absent(env, elems)| <= room
    ensures ReplaceValues(env, elems[..SharedPrefix(env, elems, room)]) + Absent(env, elems)
      == ReplaceValues(env, elems) + Absent(env, elems)
  {
    SharedPrefixSpec(env, elems, room);
    assert elems[..|elems|] == elems;
  }

  lemma ReplaceOrAppendStep(orig: seq<EnvVar>, elems: seq<EnvVar>, n: nat)
    requires n < |elems|
    ensures ReplaceValues(orig, elems[..n + 1]) == SetValue(ReplaceValues(orig, elems[..n]), elems[n])
    ensures Absent(orig, elems[..n + 1]) ==
      Absent(orig, elems[..n]) + (if HasName(orig, elems[n].name) then [] else [elems[n]])
  {
    assert elems[..n + 1][..n] == elems[..n];
  }

  /** Elements that share a name absent from the list are appended, both of them. */
  lemma AbsentKeepsDuplicates(env: seq<EnvVar>, a: EnvVar, b: EnvVar)
    requires a.name == b.name && !HasName(env, a.name)
    ensures Absent(env, [a, b]) == [a, b]
  {
    assert [a, b][..1] == [a];
    assert [a][..0] == [];
  }

  /** `ReplaceOrAppend` leaves an entry as it was unless it is the first entry named like some element. */
  lemma {:induction false} ReplaceValuesUntouched(env: seq<EnvVar>, elems: seq<EnvVar>, k: nat)
    requires k < |env|
    requires forall e :: e in elems ==> e.name != env[k].name || FirstIndex(env, env[k].name) != k
    ensures ReplaceValues(env, elems)[k] == env[k]
  {
    if elems != [] {
      var prefix := elems[..|elems| - 1];
      assert forall e :: e in prefix ==> e in elems;
      ReplaceValuesUntouched(env, prefix, k);
      var mid := ReplaceValues(env, prefix);
      var last := elems[|elems| - 1];
      SameNamesSameLookup(env, mid, last.name);
      assert last in elems;
    }
  }

  /** The last element naming an entry of the list decides the value of the first such entry. */
  lemma ReplaceValuesLastWins(env: seq<EnvVar>, elems: seq<EnvVar>)
    requires elems != [] && HasName(env, elems[|elems| - 1].name)
    ensures
      var last := elems[|elems| - 1];
      ReplaceValues(env, elems)[FirstIndex(env, last.name)].value == last.value
  {
    var last := elems[|elems| - 1];
    var mid := ReplaceValues(env, elems[..|elems| - 1]);
    SameNamesSameLookup(env, mid, last.name);
  }

  /** How an entry is judged out of date against what the operator wants. */
  datatype Staleness =
    | ValueDiffersFrom(expected: string)        // the value is not `expected`
    | ParsedBoolDiffersFrom(expectedBool: bool) // `strconv.ParseBool` of the value is not `expectedBool`
    | ValueEquals(bad: string)                  // the value is `bad`
    | EntryDiffersFrom(expectedVar: EnvVar)     // the whole entry is not `expectedVar`

  predicate IsStale(rule: Staleness, e: EnvVar) {
    match rule
    case ValueDiffersFrom(expected) => e.value != expected
    case ParsedBoolDiffersFrom(b) => ParseBool(e.value).0 != b
    case ValueEquals(bad) => e.value == bad
    case EntryDiffersFrom(expected) => e != expected
  }

  /** Some entry named `name` is out of date under `rule`. */
  predicate AnyStale(env: seq<EnvVar>, name: string, rule: Staleness) {
    exists k :: 0 <= k < |env| && env[k].name == name && IsStale(rule, env[k])
  }

  /** The scan of container 0 the change detectors share: is `name` there, and is any such entry out of date? */
  method Inspect(env: seq<EnvVar>, name: string, rule: Staleness) returns (found: bool, needsUpdate: bool)
    ensures found == HasName(env, name)
    ensures needsUpdate == AnyStale(env, name, rule)
  {
    found, needsUpdate := false, false;
    for k := 0 to |env|
      invariant found == HasName(env[..k], name)
      invariant needsUpdate == AnyStale(env[..k], name, rule)
    {
      ScanStep(env, k, name, rule);
      if env[k].name == name {
        found := true;
        if IsStale(rule, env[k]) {
          needsUpdate := true;
        }
      }
    }
    assert env[..|env|] == env;
  }

  /** The scan of `Inspect` one entry further. */
  lemma ScanStep(env: seq<EnvVar>, k: nat, name: string, rule: Staleness)
    requires k < |env|
    ensures HasName(env[..k + 1], name) <==> HasName(env[..k], name) || env[k].name == name
    ensures AnyStale(env[..k + 1], name, rule) <==>
      AnyStale(env[..k], name, rule) || (env[k].name == name && IsStale(rule, env[k]))
  {
    var p := env[..k + 1];
    assert p[k] == env[k];
    assert forall i :: 0 <= i < k ==> p[i] == env[..k][i];
  }

  /**
   * `BoolSyncCausedUpdateOn`: no entry (nil) exactly when container 0 has an entry
   * named `name` and every such entry parses to `updatedValue` (a parse failure
   * reads as false); otherwise the entry to write.
   */
  method BoolSyncCausedUpdateOn(containers: seq<Container>, name: string, updatedValue: bool)
    returns (r: Option<EnvVar>)
    requires |containers| > 0
    ensures r.None? <==>
      && HasName(containers[0].env, name)
      && forall k :: 0 <= k < |containers[0].env| && containers[0].env[k].name == name ==>
           ParseBool(containers[0].env[k].value).0 == updatedValue
    ensures r.Some? ==> r.value == EnvVar(name, FormatBool(updatedValue), None)
  {
    var found, needsUpdate := Inspect(containers[0].env, name, ParsedBoolDiffersFrom(updatedValue));
    r := if !found || needsUpdate then Some(EnvVar(name, FormatBool(updatedValue), None)) else None;
  }

  /**
   * `StringSyncCausedUpdateOn`: no entry (nil) exactly when container 0 has an
   * entry named `name` and every such entry holds `updatedValue`; otherwise the entry to write.
   */
  method StringSyncCausedUpdateOn(containers: seq<Container>, name: string, updatedValue: string)
    returns (r: Option<EnvVar>)
    requires |containers| > 0
    ensures r.None? <==>
      && HasName(containers[0].env, name)
      && forall k :: 0 <= k < |containers[0].env| && containers[0].env[k].name == name ==>
           containers[0].env[k].value == updatedValue
    ensures r.Some? ==> r.value == EnvVar(name, updatedValue, None)
  {
    var found, needsUpdate := Inspect(containers[0].env, name, ValueDiffersFrom(updatedValue));
    r := if !found || needsUpdate then Some(EnvVar(name, updatedValue, None)) else None;
  }

  // ---------------------------------------------------------------------------
  // Removal: `remove` swaps the last entry into the removed slot, and every
  // caller scans backwards from the end, so entries already scanned are the
  // only ones that ever move.

  /** `remove`: the last entry takes the place of entry `i` and the list loses its last slot. */
  function Remove(s: seq<EnvVar>, i: nat): (r: seq<EnvVar>)
    requires i < |s|
    ensures |r| == |s| - 1
    ensures r[..i] == s[..i]
    ensures i < |r| ==> r[i] == s[|s| - 1] && r[i + 1..] == s[i + 1..|s| - 1]
    ensures multiset(r) == multiset(s) - multiset{s[i]}
  {
    var r := s[i := s[|s| - 1]][..|s| - 1];
    RemoveShape(s, i, r);
    r
  }

  lemma RemoveShape(s: seq<EnvVar>, i: nat, r: seq<EnvVar>)
    requires i < |s| && r == s[i := s[|s| - 1]][..|s| - 1]
    ensures multiset(r) == multiset(s) - multiset{s[i]}
  {
    assert s == s[..i] + [s[i]] + s[i + 1..];
    if i < |s| - 1 {
      assert s[i + 1..] == s[i + 1..|s| - 1] + [s[|s| - 1]];
      assert r == s[..i] + [s[|s| - 1]] + s[i + 1..|s| - 1];
    } else {
      assert r == s[..i];
    }
  }

  /**
   * The backward scan from position `j - 1` down to 0, removing every entry whose
   * name is in `doomed`; it never lengthens the list.
   */
  function SweepFrom(s: seq<EnvVar>, doomed: set<string>, j: nat): (r: seq<EnvVar>)
    requires j <= |s|
    ensures |r| <= |s|
    decreases j
  {
    if j == 0 then s
    else SweepFrom(if s[j - 1].name in doomed then Remove(s, j - 1) else s, doomed, j - 1)
  }

  /** The whole backward removal scan over `s`: it only ever takes entries away. */
  function Sweep(s: seq<EnvVar>, doomed: set<string>): (r: seq<EnvVar>)
    ensures |r| <= |s|
  {
    SweepFrom(s, doomed, |s|)
  }

  /** The order-preserving filter: the entries whose names are not in `doomed`. */
  function Keep(s: seq<EnvVar>, doomed: set<string>): (r: seq<EnvVar>)
    ensures forall x :: x in r <==> x in s && x.name !in doomed
  {
    if s == [] then []
    else
      var last := s[|s| - 1];
      assert s == s[..|s| - 1] + [last];
      Keep(s[..|s| - 1], doomed) + (if last.name in doomed then [] else [last])
  }

  /** The filter keeps each surviving entry exactly as often as it occurs. */
  lemma {:induction false} KeepCount(s: seq<EnvVar>, doomed: set<string>, x: EnvVar)
    ensures multiset(Keep(s, doomed))[x] == if x.name in doomed then 0 else multiset(s)[x]
  {
    if s != [] {
      assert s == s[..|s| - 1] + [s[|s| - 1]];
      KeepCount(s[..|s| - 1], doomed, x);
    }
  }

  lemma {:induction false} SweepFromSpec(s: seq<EnvVar>, doomed: set<string>, j: nat)
    requires j <= |s|
    requires forall k :: j <= k < |s| ==> s[k].name !in doomed
    ensures forall k :: 0 <= k < |SweepFrom(s, doomed, j)| ==> SweepFrom(s, doomed, j)[k].name !in doomed
    ensures multiset(SweepFrom(s, doomed, j)) == multiset(Keep(s[..j], doomed)) + multiset(s[j..])
    decreases j
  {
    if j == 0 {
      assert s[..0] == [];
      assert s[0..] == s;
    } else {
      var t := if s[j - 1].name in doomed then Remove(s, j - 1) else s;
      SweepStep(s, doomed, j);
      SweepFromSpec(t, doomed, j - 1);
    }
  }

  /** One step of the backward scan moves the boundary without changing what is kept. */
  lemma SweepStep(s: seq<EnvVar>, doomed: set<string>, j: nat)
    requires 0 < j <= |s|
    requires forall k :: j <= k < |s| ==> s[k].name !in doomed
    ensures var t := if s[j - 1].name in doomed then Remove(s, j - 1) else s;
      && j - 1 <= |t|
      && (forall k :: j - 1 <= k < |t| ==> t[k].name !in doomed)
      && multiset(Keep(t[..j - 1], doomed)) + multiset(t[j - 1..])
         == multiset(Keep(s[..j], doomed)) + multiset(s[j..])
  {
    if s[j - 1].name in doomed {
      SweepStepDoomed(s, doomed, j);
    } else {
      SweepStepKept(s, doomed, j);
    }
  }

  lemma SweepStepDoomed(s: seq<EnvVar>, doomed: set<string>, j: nat)
    requires 0 < j <= |s| && s[j - 1].name in doomed
    requires forall k :: j <= k < |s| ==> s[k].name !in doomed
    ensures var t := Remove(s, j - 1);
      && (forall k :: j - 1 <= k < |t| ==> t[k].name !in doomed)
      && multiset(Keep(t[..j - 1], doomed)) + multiset(t[j - 1..])
         == multiset(Keep(s[..j], doomed)) + multiset(s[j..])
  {
    SweepStepDoomedNames(s, doomed, j);
    SweepStepDoomedCounts(s, doomed, j);
  }

  lemma SweepStepDoomedNames(s: seq<EnvVar>, doomed: set<string>, j: nat)
    requires 0 < j <= |s|
    requires forall k :: j <= k < |s| ==> s[k].name !in doomed
    ensures var t := Remove(s, j - 1);
      forall k :: j - 1 <= k < |t| ==> t[k].name !in doomed
  {
    var t := Remove(s, j - 1);
    forall k | j - 1 <= k < |t|
      ensures t[k].name !in doomed
    {
      if k == j - 1 {
        assert t[k] == s[|s| - 1];
      } else {
        assert t[j..][k - j] == s[j..|s| - 1][k - j];
        assert t[k] == s[k];
      }
    }
  }

  lemma SweepStepDoomedCounts(s: seq<EnvVar>, doomed: set<string>, j: nat)
    requires 0 < j <= |s| && s[j - 1].name in doomed
    ensures var t := Remove(s, j - 1);
      multiset(Keep(t[..j - 1], doomed)) + multiset(t[j - 1..])
         == multiset(Keep(s[..j], doomed)) + multiset(s[j..])
  {
    var t := Remove(s, j - 1);
    assert Keep(t[..j - 1], doomed) == Keep(s[..j], doomed) by {
      assert s[..j][..j - 1] == s[..j - 1];
      assert t[..j - 1] == s[..j - 1];
    }
    RemoveTail(s, j - 1);
  }

  /** What follows the removed position holds the same entries as what followed it before. */
  lemma RemoveTail(s: seq<EnvVar>, i: nat)
    requires i < |s|
    ensures multiset(Remove(s, i)[i..]) == multiset(s[i + 1..])
  {
    var t := Remove(s, i);
    if i < |t| {
      assert t[i..] == [s[|s| - 1]] + s[i + 1..|s| - 1];
      assert s[i + 1..] == s[i + 1..|s| - 1] + [s[|s| - 1]];
    } else {
      assert t[i..] == [];
      assert s[i + 1..] == [];
    }
  }

  lemma SweepStepKept(s: seq<EnvVar>, doomed: set<string>, j: nat)
    requires 0 < j <= |s| && s[j - 1].name !in doomed
    ensures multiset(Keep(s[..j - 1], doomed)) + multiset(s[j - 1..])
         == multiset(Keep(s[..j], doomed)) + multiset(s[j..])
  {
    assert s[..j][..j - 1] == s[..j - 1];
    assert Keep(s[..j], doomed) == Keep(s[..j - 1], doomed) + [s[j - 1]];
    assert s[j - 1..] == [s[j - 1]] + s[j..];
  }

  /**
   * The backward removal leaves no entry named in `doomed` and keeps every other
   * entry as often as it occurred; only their order may change.
   */
  lemma SweepSpec(s: seq<EnvVar>, doomed: set<string>)
    ensures forall k :: 0 <= k < |Sweep(s, doomed)| ==> Sweep(s, doomed)[k].name !in doomed
    ensures multiset(Sweep(s, doomed)) == multiset(Keep(s, doomed))
  {
    SweepFromSpec(s, doomed, |s|);
    assert s[..|s|] == s;
    assert s[|s|..] == [];
  }

  /** An entry survives the removal exactly when it was there and its name is not doomed. */
  lemma SweepMembers(s: seq<EnvVar>, doomed: set<string>)
    ensures forall x :: x in Sweep(s, doomed) <==> x in s && x.name !in doomed
  {
    SweepSpec(s, doomed);
    forall x ensures x in Sweep(s, doomed) <==> x in s && x.name !in doomed {
      assert x in Sweep(s, doomed) <==> multiset(Sweep(s, doomed))[x] > 0;
      assert x in Keep(s, doomed) <==> multiset(Keep(s, doomed))[x] > 0;
    }
  }

  /** Nothing is removed from a list in which no name is doomed. */
  lemma {:induction false} SweepFromNoop(s: seq<EnvVar>, doomed: set<string>, j: nat)
    requires j <= |s|
    requires forall k :: 0 <= k < j ==> s[k].name !in doomed
    ensures SweepFrom(s, doomed, j) == s
    decreases j
  {
    if j > 0 {
      SweepFromNoop(s, doomed, j - 1);
    }
  }

  lemma SweepNoop(s: seq<EnvVar>, doomed: set<string>)
    requires forall k :: 0 <= k < |s| ==> s[k].name !in doomed
    ensures Sweep(s, doomed) == s
  {
    SweepFromNoop(s, doomed, |s|);
  }

  /**
   * The backward scan with `remove` that `Delete` and the synchroniser run on one
   * container's list: afterwards no entry is named in `doomed`, and the other
   * entries are all still there.
   */
  method SweepEnv(env: seq<EnvVar>, doomed: set<string>) returns (r: seq<EnvVar>, removed: bool)
    ensures r == Sweep(env, doomed)
    ensures forall k :: 0 <= k < |r| ==> r[k].name !in doomed
    ensures multiset(r) == multiset(Keep(env, doomed))
    ensures removed <==> exists k :: 0 <= k < |env| && env[k].name in doomed
  {
    r, removed := env, false;
    var j := |env| - 1;
    while j >= 0
      invariant -1 <= j < |r|
      invariant j < |env| && r[..j + 1] == env[..j + 1]
      invariant SweepFrom(r, doomed, j + 1) == Sweep(env, doomed)
      invariant removed <==> exists k :: j < k < |env| && env[k].name in doomed
    {
      assert r[j] == env[j] by { assert r[..j + 1][j] == env[..j + 1][j]; }
      assert r[..j] == env[..j] by { assert r[..j + 1][..j] == r[..j]; assert env[..j + 1][..j] == env[..j]; }
      if r[j].name in doomed {
        r := Remove(r, j);
        removed := true;
      }
      j := j - 1;
    }
    SweepSpec(env, doomed);
  }

  /**
   * `Delete`: every container loses every entry named `name`; the other entries
   * remain, the last ones possibly moved into freed slots.
   */
  method Delete(containers: array<Container>, name: string)
    modifies containers
    ensures forall i :: 0 <= i < containers.Length ==>
      containers[i] == old(containers[i]).(env := Sweep(old(containers[i]).env, {name}))
  {
    for i := 0 to containers.Length
      invariant forall i' :: 0 <= i' < i ==>
        containers[i'] == old(containers[i']).(env := Sweep(old(containers[i']).env, {name}))
      invariant forall i' :: i <= i' < containers.Length ==> containers[i'] == old(containers[i'])
    {
      var env, _ := SweepEnv(containers[i].env, {name});
      containers[i] := containers[i].(env := env);
    }
  }

  /** After `Delete` no container holds the name, and every other entry is kept as often as before. */
  lemma DeleteSpec(env: seq<EnvVar>, name: string)
    ensures forall k :: 0 <= k < |Sweep(env, {name})| ==> Sweep(env, {name})[k].name != name
    ensures forall x: EnvVar :: x.name != name ==> multiset(Sweep(env, {name}))[x] == multiset(env)[x]
  {
    SweepSpec(env, {name});
    forall x: EnvVar | x.name != name
      ensures multiset(Sweep(env, {name}))[x] == multiset(env)[x]
    {
      KeepCount(env, {name}, x);
    }
  }

  // ---------------------------------------------------------------------------
  // The fixed default lists.

  /** `AddEnvVarForBasic`: the fifteen base entries of a broker container, all with literal values. */
  function AddEnvVarForBasic(requireLogin: string, journalType: string, svcPingName: string): (r: seq<EnvVar>)
    ensures |r| == 15
    ensures forall i, j :: 0 <= i < j < |r| ==> r[i].name != r[j].name
    ensures forall i :: 0 <= i < |r| ==> r[i].valueFrom == None
  {
    [ EnvVar("AMQ_ROLE", "admin", None),
      EnvVar(NameEnvVar, NameEnvVarDefaultValue, None),
      EnvVar("AMQ_TRANSPORTS", "", None),
      EnvVar("AMQ_QUEUES", "", None),
      EnvVar("AMQ_ADDRESSES", "", None),
      EnvVar("AMQ_GLOBAL_MAX_SIZE", "100 mb", None),
      EnvVar("AMQ_REQUIRE_LOGIN", requireLogin, None),
      EnvVar("AMQ_EXTRA_ARGS", "--no-autotune", None),
      EnvVar("AMQ_ANYCAST_PREFIX", "", None),
      EnvVar("AMQ_MULTICAST_PREFIX", "", None),
      EnvVar("POD_NAMESPACE", "", None),
      EnvVar("AMQ_JOURNAL_TYPE", journalType, None),
      EnvVar("TRIGGERED_ROLL_COUNT", "0", None),
      EnvVar("PING_SVC_NAME", svcPingName, None),
      EnvVar("OPENSHIFT_DNS_PING_SERVICE_PORT", "7800", None) ]
  }

  /** The base list names the broker `amq-broker` and carries the three arguments under their names. */
  lemma BasicLookups(requireLogin: string, journalType: string, svcPingName: string)
    ensures var r := AddEnvVarForBasic(requireLogin, journalType, svcPingName);
      && HasName(r, NameEnvVar) && r[FirstIndex(r, NameEnvVar)].value == NameEnvVarDefaultValue
      && HasName(r, "AMQ_REQUIRE_LOGIN") && r[FirstIndex(r, "AMQ_REQUIRE_LOGIN")].value == requireLogin
      && HasName(r, "AMQ_JOURNAL_TYPE") && r[FirstIndex(r, "AMQ_JOURNAL_TYPE")].value == journalType
      && HasName(r, "PING_SVC_NAME") && r[FirstIndex(r, "PING_SVC_NAME")].value == svcPingName
  {
    var r := AddEnvVarForBasic(requireLogin, journalType, svcPingName);
    assert r[1].name == NameEnvVar;
    assert r[6].name == "AMQ_REQUIRE_LOGIN";
    assert r[11].name == "AMQ_JOURNAL_TYPE";
    assert r[13].name == "PING_SVC_NAME";
  }

  /** `AddEnvVarForPersistent`: the journal directory under `/opt/<name>/data`, with logging there too. */
  function AddEnvVarForPersistent(customResourceName: string): (r: seq<EnvVar>)
    ensures |r| == 2 && r[0].name == "AMQ_DATA_DIR" && r[1].name == "AMQ_DATA_DIR_LOGGING"
    ensures r[0].value == "/opt/" + customResourceName + "/data" && r[0].value != "false"
    ensures r[1].value == "true" && r[0].valueFrom == None && r[1].valueFrom == None
  {
    [ EnvVar("AMQ_DATA_DIR", "/opt/" + customResourceName + "/data", None),
      EnvVar("AMQ_DATA_DIR_LOGGING", "true", None) ]
  }

  /** `AddEnvVarForCluster`: a single `AMQ_CLUSTERED` entry that parses back to the flag. */
  function AddEnvVarForCluster(isClustered: bool): (r: seq<EnvVar>)
    ensures |r| == 1 && r[0].name == "AMQ_CLUSTERED" && r[0].valueFrom == None
    ensures ParseBool(r[0].value) == (isClustered, true)
  {
    ParseFormatBool(isClustered);
    [EnvVar("AMQ_CLUSTERED", FormatBool(isClustered), None)]
  }

  /** `AddEnvVarForJolokia`: the one entry, found under its name, holds the argument. */
  function AddEnvVarForJolokia(jolokiaAgentEnabled: string): (r: seq<EnvVar>)
    ensures |r| == 1 && HasName(r, "AMQ_ENABLE_JOLOKIA_AGENT")
    ensures r[FirstIndex(r, "AMQ_ENABLE_JOLOKIA_AGENT")].value == jolokiaAgentEnabled
  {
    var r := [EnvVar("AMQ_ENABLE_JOLOKIA_AGENT", jolokiaAgentEnabled, None)];
    assert r[0].name == "AMQ_ENABLE_JOLOKIA_AGENT";
    r
  }

  /** `AddEnvVarForManagement`: the one entry, found under its name, holds the argument. */
  function AddEnvVarForManagement(managementRBACEnabled: string): (r: seq<EnvVar>)
    ensures |r| == 1 && HasName(r, "AMQ_ENABLE_MANAGEMENT_RBAC")
    ensures r[FirstIndex(r, "AMQ_ENABLE_MANAGEMENT_RBAC")].value == managementRBACEnabled
  {
    var r := [EnvVar("AMQ_ENABLE_MANAGEMENT_RBAC", managementRBACEnabled, None)];
    assert r[0].name == "AMQ_ENABLE_MANAGEMENT_RBAC";
    r
  }

  /** `AddEnvVarForMetricsPlugin`: the one entry, found under its name, holds the argument. */
  function AddEnvVarForMetricsPlugin(metricsPluginEnabled: string): (r: seq<EnvVar>)
    ensures |r| == 1 && HasName(r, "AMQ_ENABLE_METRICS_PLUGIN")
    ensures r[FirstIndex(r, "AMQ_ENABLE_METRICS_PLUGIN")].value == metricsPluginEnabled
  {
    var r := [EnvVar("AMQ_ENABLE_METRICS_PLUGIN", metricsPluginEnabled, None)];
    assert r[0].name == "AMQ_ENABLE_METRICS_PLUGIN";
    r
  }
}
