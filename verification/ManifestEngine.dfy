/** Applying manifests to a cluster and deleting them again. */
module ManifestEngine {
  import opened Common
  import opened Text
  import opened Manifests

  /** The identity of an object; `namespace` is "" for cluster-scoped kinds and `group` is "" for
      kinds that are built in. */
  datatype Key = Key(kind: Kind, group: string, namespace: string, name: string)

  /** An object is the manifests merged into it, the one that created it first. */
  type Cluster = map<Key, seq<Manifest>>

  datatype ApiError = Rejected | NotFound | NamespaceRequired | BadApiVersion

  datatype Scope = Namespaced | ClusterWide

  /** The scope under which create, patch and delete address a kind; `None` is skipped by all. */
  function ScopeOf(k: Kind): Option<Scope> {
    match k
    case Deployment | DaemonSet | StatefulSet | Job | Service | ConfigMap | Secret | ServiceAccount => Some(Namespaced)
    case Role | RoleBinding | MPIJob => Some(Namespaced)
    case ClusterRole | ClusterRoleBinding | Namespace | CustomResourceDefinition | FlowSchema => Some(ClusterWide)
    case Stage | NodeFeatureRule | NicClusterPolicy | ResourceSlice | DeviceClass => Some(ClusterWide)
    case Unsupported(_) => None
  }

  predicate Custom(k: Kind) {
    k.Stage? || k.MPIJob? || k.NodeFeatureRule? || k.NicClusterPolicy? || k.ResourceSlice? || k.DeviceClass?
  }

  /** The group of an `apiVersion`; `None` when unpacking it into group and version raises. */
  function GroupOf(apiVersion: string): Option<string> {
    var parts := Split(apiVersion, '/');
    if |parts| == 1 then Some("") else if |parts| == 2 then Some(parts[0]) else None
  }

  /** A FlowSchema bound to the protected priority level is never touched. */
  predicate Exempt(m: Manifest) {
    m.kind.FlowSchema? && m.priorityLevel == "exempt"
  }

  predicate WellVersioned(m: Manifest) {
    Custom(m.kind) ==> GroupOf(m.apiVersion).Some?
  }

  /** Python's `a or b` on strings. */
  function Or(a: string, b: string): string {
    if a != "" then a else b
  }

  /** The name the server gives an object: its own, or a generated one; "" is refused. */
  function ServerName(m: Manifest, suffix: string): string {
    if m.name != "" || m.generateName == "" then m.name else m.generateName + suffix
  }

  /** Where an object lives, given its manifest, the namespace resolved for it and its name. */
  function KeyNamed(m: Manifest, namespace: string, name: string): Key {
    var group := if Custom(m.kind) && WellVersioned(m) then GroupOf(m.apiVersion).value else "";
    Key(m.kind, group, if ScopeOf(m.kind) == Some(Namespaced) then namespace else "", name)
  }

  function KeyOf(m: Manifest, namespace: string): Key {
    KeyNamed(m, namespace, m.name)
  }

  function ApplyNamespace(m: Manifest, override: string): string {
    Or(Or(override, m.namespace), "default")
  }

  function ApplyKey(m: Manifest, override: string): Key {
    KeyOf(m, ApplyNamespace(m, override))
  }

  /** A manifest the engine acts on. */
  predicate Handled(m: Manifest) {
    ScopeOf(m.kind).Some? && !Exempt(m) && WellVersioned(m)
  }

  /** The manifests that name an object the engine manages. */
  predicate Managed(m: Manifest) {
    Handled(m) && m.name != ""
  }

  /** The manifests whose objects are named by the server. */
  predicate Generates(m: Manifest) {
    Handled(m) && m.name == "" && m.generateName != ""
  }

  function Keys(ms: seq<Manifest>, override: string): set<Key> {
    set m | m in ms && Managed(m) :: ApplyKey(m, override)
  }

  // ---- What the address of an object is ----

  /** `apiVersion` is a version, or a group and a version; with more slashes it cannot be unpacked. */
  lemma GroupIs(group: string, version: string, rest: string)
    requires '/' !in group && '/' !in version
    ensures GroupOf(version) == Some("") && GroupOf(group + ['/'] + version) == Some(group)
    ensures GroupOf(group + ['/'] + (version + ['/'] + rest)) == None
  {
    SplitFree(version, '/');
    SplitFree(group, '/');
    SplitAround(group, version, '/');
    SplitAround(version, rest, '/');
    SplitAround(group, version + ['/'] + rest, '/');
  }

  /** The kinds that are addressed within a namespace, those that are not, and those that are skipped. */
  lemma ScopesAre(k: Kind)
    ensures ScopeOf(k) == Some(Namespaced) <==>
      k in {Deployment, DaemonSet, StatefulSet, Job, Service, ConfigMap, Secret, ServiceAccount,
            Role, RoleBinding, MPIJob}
    ensures ScopeOf(k) == None <==> k.Unsupported?
    ensures Custom(k) <==> k in {Stage, MPIJob, NodeFeatureRule, NicClusterPolicy, ResourceSlice, DeviceClass}
  {
  }

  /** Where an apply puts the object of a manifest with a name. */
  lemma ApplyKeyIs(m: Manifest, override: string)
    requires Handled(m)
    ensures var key := ApplyKey(m, override);
      && key.kind == m.kind && key.name == m.name
      && (m.kind in {ClusterRole, ClusterRoleBinding, Namespace, CustomResourceDefinition, FlowSchema, Stage,
                     NodeFeatureRule, NicClusterPolicy, ResourceSlice, DeviceClass} ==>
        key.namespace == "")
      && (m.kind in {Deployment, DaemonSet, StatefulSet, Job, Service, ConfigMap, Secret, ServiceAccount, Role,
                     RoleBinding, MPIJob} ==>
        key.namespace == if override != "" then override else if m.namespace != "" then m.namespace else "default")
      && key.group == if m.kind in {Stage, MPIJob, NodeFeatureRule, NicClusterPolicy, ResourceSlice, DeviceClass}
                      then GroupOf(m.apiVersion).value else ""
  {
    ScopesAre(m.kind);
  }

  /** What becomes of a request; one that is lost takes effect although it is reported to fail. */
  datatype Fate = Served | Refused | Lost

  /** The fates of the requests that a manifest may lead to, and what the server would append to a
      generated name. */
  datatype Fault = Fault(create: Fate, patch: Fate, delete: Fate, suffix: string)

  /** The cluster after some requests, and the error that ended them. */
  datatype Progress = Progress(cluster: Cluster, error: Option<ApiError>)

  function Reported(c: Cluster, fate: Fate): Progress {
    Progress(c, if fate.Lost? then Some(Rejected) else None)
  }

  // ---- One manifest ----

  /** The effect of a patch on the cluster. */
  function UpdateOne(c: Cluster, m: Manifest, namespace: string, fate: Fate): Progress {
    var resolved := Or(namespace, m.namespace);
    var key := KeyOf(m, resolved);
    if ScopeOf(m.kind).None? || Exempt(m) then Progress(c, None)
    else if !WellVersioned(m) then Progress(c, Some(BadApiVersion))
    else if ScopeOf(m.kind) == Some(Namespaced) && resolved == "" then Progress(c, Some(NamespaceRequired))
    else if fate.Refused? || m.name == "" then Progress(c, Some(Rejected))
    else if key !in c then Progress(c, Some(NotFound))
    else Reported(c[key := c[key] + [m]], fate)
  }

  function ApplyOne(c: Cluster, m: Manifest, override: string, fault: Fault): Progress {
    var namespace, name := ApplyNamespace(m, override), ServerName(m, fault.suffix);
    var key := KeyNamed(m, namespace, name);
    if ScopeOf(m.kind).None? || Exempt(m) then Progress(c, None)
    else if !WellVersioned(m) then Progress(c, Some(BadApiVersion))
    else if fault.create.Refused? || name == "" then Progress(c, Some(Rejected))
    else if key !in c then Reported(c[key := [m]], fault.create)
    else if fault.create.Lost? then Progress(c, Some(Rejected))
    else UpdateOne(c, m, namespace, fault.patch)
  }

  function DeleteOne(c: Cluster, m: Manifest, override: string, ignoreNotFound: bool, fault: Fault): Progress {
    var namespace := Or(override, m.namespace);
    var key := KeyOf(m, namespace);
    if m.name == "" || ScopeOf(m.kind).None? || Exempt(m) then Progress(c, None)
    else if !WellVersioned(m) then Progress(c, Some(BadApiVersion))
    else if ScopeOf(m.kind) == Some(Namespaced) && namespace == "" then Progress(c, Some(NamespaceRequired))
    else if fault.delete.Refused? then Progress(c, Some(Rejected))
    else if key in c then Reported(c - {key}, fault.delete)
    else if fault.delete.Lost? then Progress(c, Some(Rejected))
    else if ignoreNotFound then Progress(c, None)
    else Progress(c, Some(NotFound))
  }

  // ---- Whole lists ----

  /** A list ends, or is abandoned at its first error. */
  function ApplyRun(c: Cluster, ms: seq<Manifest>, override: string, faults: nat -> Fault): Progress {
    if ms == [] then Progress(c, None)
    else
      var n := |ms| - 1;
      var before := ApplyRun(c, ms[..n], override, faults);
      if before.error.Some? then before else ApplyOne(before.cluster, ms[n], override, faults(n))
  }

  function DeleteRun(c: Cluster, ms: seq<Manifest>, override: string, ignoreNotFound: bool,
                     faults: nat -> Fault): Progress {
    if ms == [] then Progress(c, None)
    else
      var n := |ms| - 1;
      var before := DeleteRun(c, ms[..n], override, ignoreNotFound, faults);
      if before.error.Some? then before else DeleteOne(before.cluster, ms[n], override, ignoreNotFound, faults(n))
  }

  /** The keys of the objects that the server would name. */
  function Generated(ms: seq<Manifest>, override: string, faults: nat -> Fault): set<Key> {
    if ms == [] then {}
    else
      var n := |ms| - 1;
      Generated(ms[..n], override, faults) + GeneratedOne(ms[n], override, faults(n))
  }

  function GeneratedOne(m: Manifest, override: string, fault: Fault): set<Key> {
    if Generates(m) then {KeyNamed(m, ApplyNamespace(m, override), ServerName(m, fault.suffix))} else {}
  }

  function Reverse(ms: seq<Manifest>): (r: seq<Manifest>)
    ensures |r| == |ms| && forall i :: 0 <= i < |ms| ==> r[i] == ms[|ms| - 1 - i]
  {
    seq(|ms|, i requires 0 <= i < |ms| => ms[|ms| - 1 - i])
  }

  lemma ApplyNext(c: Cluster, ms: seq<Manifest>, i: nat, override: string, faults: nat -> Fault)
    requires i < |ms| && ApplyRun(c, ms[..i], override, faults).error == None
    ensures ApplyRun(c, ms[..i + 1], override, faults) ==
      ApplyOne(ApplyRun(c, ms[..i], override, faults).cluster, ms[i], override, faults(i))
  {
    assert ms[..i + 1][..i] == ms[..i];
  }

  lemma DeleteNext(c: Cluster, ms: seq<Manifest>, i: nat, override: string, ignoreNotFound: bool, faults: nat -> Fault)
    requires i < |ms| && DeleteRun(c, ms[..i], override, ignoreNotFound, faults).error == None
    ensures DeleteRun(c, ms[..i + 1], override, ignoreNotFound, faults) ==
      DeleteOne(DeleteRun(c, ms[..i], override, ignoreNotFound, faults).cluster, ms[i], override, ignoreNotFound,
        faults(i))
  {
    assert ms[..i + 1][..i] == ms[..i];
  }

  lemma {:induction false} ErrorSticksInApply(c: Cluster, ms: seq<Manifest>, override: string, faults: nat -> Fault,
                                              n: nat)
    requires n <= |ms| && ApplyRun(c, ms[..n], override, faults).error.Some?
    ensures ApplyRun(c, ms, override, faults) == ApplyRun(c, ms[..n], override, faults)
  {
    if n < |ms| {
      assert ms[..|ms| - 1][..n] == ms[..n];
      ErrorSticksInApply(c, ms[..|ms| - 1], override, faults, n);
    } else {
      assert ms[..n] == ms;
    }
  }

  lemma {:induction false} ErrorSticksInDelete(c: Cluster, ms: seq<Manifest>, override: string, ignoreNotFound: bool,
                                               faults: nat -> Fault, n: nat)
    requires n <= |ms| && DeleteRun(c, ms[..n], override, ignoreNotFound, faults).error.Some?
    ensures DeleteRun(c, ms, override, ignoreNotFound, faults) ==
      DeleteRun(c, ms[..n], override, ignoreNotFound, faults)
  {
    if n < |ms| {
      assert ms[..|ms| - 1][..n] == ms[..n];
      ErrorSticksInDelete(c, ms[..|ms| - 1], override, ignoreNotFound, faults, n);
    } else {
      assert ms[..n] == ms;
    }
  }

  // ---- The engine ----

  class KubernetesClient {
    var objects: Cluster

    constructor (c: Cluster)
      ensures objects == c
    {
      objects := c;
    }

    /** `_update_single_manifest`. */
    method UpdateSingle(m: Manifest, namespace: string, fate: Fate) returns (error: Option<ApiError>)
      modifies this
      ensures Progress(objects, error) == UpdateOne(old(objects), m, namespace, fate)
      ensures var k := KeyOf(m, Or(namespace, m.namespace));
        && (Handled(m) && error == None ==>
          k in old(objects) && objects == old(objects)[k := old(objects)[k] + [m]])
        && (objects != old(objects) ==> objects - {k} == old(objects) - {k})
        && (m.name != "" && k in old(objects) && fate.Served? && Or(namespace, m.namespace) != "" ==> (error == None
          <==> WellVersioned(m) || ScopeOf(m.kind).None? || Exempt(m)))
    {
      var resolved := Or(namespace, m.namespace);
      if ScopeOf(m.kind).None? || Exempt(m) {
        return None;
      }
      if !WellVersioned(m) {
        return Some(BadApiVersion);
      }
      if ScopeOf(m.kind) == Some(Namespaced) && resolved == "" {
        return Some(NamespaceRequired);
      }
      var key := KeyOf(m, resolved);
      if fate.Refused? || m.name == "" {
        return Some(Rejected);
      }
      if key !in objects {
        return Some(NotFound);
      }
      objects := objects[key := objects[key] + [m]];
      error := if fate.Lost? then Some(Rejected) else None;
    }

    /** `_apply_single_manifest`: create, or patch what is already there. */
    method ApplySingle(m: Manifest, override: string, fault: Fault) returns (error: Option<ApiError>)
      modifies this
      ensures Progress(objects, error) == ApplyOne(old(objects), m, override, fault)
      ensures var k := KeyNamed(m, ApplyNamespace(m, override), ServerName(m, fault.suffix));
        && (Handled(m) && error == None ==>
          && k in objects && objects - {k} == old(objects) - {k}
          && objects[k] == (if k in old(objects) then old(objects)[k] else []) + [m])
        && (Handled(m) && fault.create.Served? && fault.patch.Served? && m.name != "" ==> error == None)
        && (!Handled(m) ==> objects == old(objects) && (error == None <==> ScopeOf(m.kind).None? || Exempt(m)))
      ensures m.kind.Unsupported? || (m.kind.FlowSchema? && m.priorityLevel == "exempt") ==>
        error == None && objects == old(objects)
      ensures m.kind.FlowSchema? && m.priorityLevel != "exempt" && m.name != "" && fault.create.Served? ==>
        objects != old(objects) || fault.patch != Served
    {
      var namespace := Or(Or(override, m.namespace), "default");
      if ScopeOf(m.kind).None? || Exempt(m) {
        return None;
      }
      if !WellVersioned(m) {
        return Some(BadApiVersion);
      }
      var name := ServerName(m, fault.suffix);
      if fault.create.Refused? || name == "" {
        return Some(Rejected);
      }
      var key := KeyNamed(m, namespace, name);
      if key !in objects {
        objects := objects[key := [m]];
        error := if fault.create.Lost? then Some(Rejected) else None;
      } else if fault.create.Lost? {
        error := Some(Rejected);
      } else {
        error := UpdateSingle(m, namespace, fault.patch);
      }
    }

    /** `_delete_single_manifest`. */
    method DeleteSingle(m: Manifest, override: string, ignoreNotFound: bool, fault: Fault)
      returns (error: Option<ApiError>)
      modifies this
      ensures Progress(objects, error) == DeleteOne(old(objects), m, override, ignoreNotFound, fault)
      ensures var k := KeyOf(m, Or(override, m.namespace));
        && (Managed(m) && error == None ==> objects == old(objects) - {k})
        && (Managed(m) && fault.delete.Served? && Or(override, m.namespace) != "" ==>
          (error == None <==> k in old(objects) || ignoreNotFound) && (error.Some? ==> error.value == NotFound))
        && (!Managed(m) ==> objects == old(objects))
      ensures m.kind.Unsupported? || m.name == "" || (m.kind.FlowSchema? && m.priorityLevel == "exempt") ==>
        error == None && objects == old(objects)
    {
      var namespace := Or(override, m.namespace);
      if m.name == "" || ScopeOf(m.kind).None? || Exempt(m) {
        return None;
      }
      if !WellVersioned(m) {
        return Some(BadApiVersion);
      }
      if ScopeOf(m.kind) == Some(Namespaced) && namespace == "" {
        return Some(NamespaceRequired);
      }
      var key := KeyOf(m, namespace);
      if fault.delete.Refused? {
        return Some(Rejected);
      }
      if key in objects {
        objects := objects - {key};
        return if fault.delete.Lost? then Some(Rejected) else None;
      }
      error := if fault.delete.Lost? then Some(Rejected) else if ignoreNotFound then None else Some(NotFound);
    }

    /** `apply_manifest_from_file`, once the documents are loaded. */
    method ApplyManifests(docs: seq<Doc>, override: string, faults: nat -> Fault) returns (error: Option<ApiError>)
      modifies this
      ensures Progress(objects, error) == ApplyRun(old(objects), Leaves(docs), override, faults)
    {
      var manifests := ExpandAndValidate(docs);
      for i := 0 to |manifests|
        invariant Progress(objects, None) == ApplyRun(old(objects), manifests[..i], override, faults)
      {
        ApplyNext(old(objects), manifests, i, override, faults);
        error := ApplySingle(manifests[i], override, faults(i));
        if error.Some? {
          ErrorSticksInApply(old(objects), manifests, override, faults, i + 1);
          return;
        }
      }
      assert manifests[..|manifests|] == manifests;
      error := None;
    }

    /** `delete_manifest_from_file`, once the documents are loaded: the same list, backwards. */
    method DeleteManifests(docs: seq<Doc>, override: string, ignoreNotFound: bool, faults: nat -> Fault)
      returns (error: Option<ApiError>)
      modifies this
      ensures Progress(objects, error) ==
        DeleteRun(old(objects), Reverse(Leaves(docs)), override, ignoreNotFound, faults)
    {
      var manifests := ExpandAndValidate(docs);
      manifests := Reverse(manifests);
      for i := 0 to |manifests|
        invariant Progress(objects, None) == DeleteRun(old(objects), manifests[..i], override, ignoreNotFound, faults)
      {
        DeleteNext(old(objects), manifests, i, override, ignoreNotFound, faults);
        error := DeleteSingle(manifests[i], override, ignoreNotFound, faults(i));
        if error.Some? {
          ErrorSticksInDelete(old(objects), manifests, override, ignoreNotFound, faults, i + 1);
          return;
        }
      }
      assert manifests[..|manifests|] == manifests;
      error := None;
    }
  }

  // ---- Delete undoes apply ----

  /** However far it gets, an apply touches only the keys its manifests name or have generated. */
  lemma {:induction false} ApplyStaysWithinKeys(c: Cluster, ms: seq<Manifest>, override: string, faults: nat -> Fault)
    ensures
      var touched := Keys(ms, override) + Generated(ms, override, faults);
      var c' := ApplyRun(c, ms, override, faults).cluster;
      c' - touched == c - touched
  {
    if ms != [] {
      var n := |ms| - 1;
      var init := ms[..n];
      ApplyStaysWithinKeys(c, init, override, faults);
      KeysExtend(ms, override);
      var before := ApplyRun(c, init, override, faults);
      OneStaysWithin(before.cluster, ms[n], override, faults(n));
      var c' := ApplyRun(c, ms, override, faults).cluster;
      var earlier := Keys(init, override) + Generated(init, override, faults);
      var more := Keys([ms[n]], override) + GeneratedOne(ms[n], override, faults(n));
      MinusTwice(c', before.cluster, earlier, more);
      MinusTwice(before.cluster, c, more, earlier);
      assert Keys(ms, override) + Generated(ms, override, faults) == earlier + more;
    }
  }

  lemma KeysExtend(ms: seq<Manifest>, override: string)
    requires ms != []
    ensures Keys(ms, override) == Keys(ms[..|ms| - 1], override) + Keys([ms[|ms| - 1]], override)
  {
    assert ms == ms[..|ms| - 1] + [ms[|ms| - 1]];
  }

  lemma KeysOfOne(m: Manifest, override: string)
    ensures Keys([m], override) == if Managed(m) then {ApplyKey(m, override)} else {}
  {
    if Managed(m) {
      assert m in [m];
    }
  }

  lemma MinusTwice(a: Cluster, b: Cluster, s: set<Key>, t: set<Key>)
    requires a - t == b - t
    ensures a - (s + t) == b - (s + t) && a - (t + s) == b - (t + s)
  {
    assert a - (s + t) == a - t - s && b - (s + t) == b - t - s;
    assert s + t == t + s;
  }

  lemma OneStaysWithin(c: Cluster, m: Manifest, override: string, fault: Fault)
    ensures
      var touched := Keys([m], override) + GeneratedOne(m, override, fault);
      var c' := ApplyOne(c, m, override, fault).cluster;
      c' - touched == c - touched
  {
    KeysOfOne(m, override);
  }

  /** A delete that returns normally removes exactly the keys of its manifests. */
  lemma {:induction false} DeleteRemovesKeys(c: Cluster, ms: seq<Manifest>, override: string, ignoreNotFound: bool,
                                             faults: nat -> Fault)
    requires DeleteRun(c, ms, override, ignoreNotFound, faults).error == None
    ensures DeleteRun(c, ms, override, ignoreNotFound, faults).cluster == c - Keys(ms, override)
  {
    if ms == [] {
      assert Keys(ms, override) == {};
    } else {
      var n := |ms| - 1;
      var before := DeleteRun(c, ms[..n], override, ignoreNotFound, faults);
      DeleteRemovesKeys(c, ms[..n], override, ignoreNotFound, faults);
      KeysExtend(ms, override);
      OneDelete(before.cluster, ms[n], override, ignoreNotFound, faults(n));
    }
  }

  lemma OneDelete(c: Cluster, m: Manifest, override: string, ignoreNotFound: bool, fault: Fault)
    requires DeleteOne(c, m, override, ignoreNotFound, fault).error == None
    ensures DeleteOne(c, m, override, ignoreNotFound, fault).cluster == c - Keys([m], override)
  {
    KeysOfOne(m, override);
  }

  lemma KeysOfReverse(ms: seq<Manifest>, override: string)
    ensures Keys(Reverse(ms), override) == Keys(ms, override)
  {
    forall m | m in ms ensures m in Reverse(ms) {
      var i :| 0 <= i < |ms| && ms[i] == m;
      assert Reverse(ms)[|ms| - 1 - i] == m;
    }
  }

  /** For every cluster, every list of documents, every override and whatever becomes of the requests:
      an apply, complete or abandoned, followed by a delete that returns normally leaves the initial
      cluster without the objects the list names. Duplicate manifests make no difference; objects
      that the server named are the only ones that may be left over. */
  lemma DeleteUndoesApply(c: Cluster, docs: seq<Doc>, override: string, ignoreNotFound: bool,
                          applyFaults: nat -> Fault, deleteFaults: nat -> Fault)
    ensures
      var ms := Leaves(docs);
      var applied := ApplyRun(c, ms, override, applyFaults);
      var deleted := DeleteRun(applied.cluster, Reverse(ms), override, ignoreNotFound, deleteFaults);
      var keys, generated := Keys(ms, override), Generated(ms, override, applyFaults);
      deleted.error == None ==>
        deleted.cluster - generated == c - keys - generated && (generated <= keys ==> deleted.cluster == c - keys)
  {
    var ms := Leaves(docs);
    var applied := ApplyRun(c, ms, override, applyFaults);
    var keys, generated := Keys(ms, override), Generated(ms, override, applyFaults);
    ApplyStaysWithinKeys(c, ms, override, applyFaults);
    KeysOfReverse(ms, override);
    if DeleteRun(applied.cluster, Reverse(ms), override, ignoreNotFound, deleteFaults).error == None {
      DeleteRemovesKeys(applied.cluster, Reverse(ms), override, ignoreNotFound, deleteFaults);
      assert applied.cluster - keys - generated == applied.cluster - (keys + generated);
      assert c - keys - generated == c - (keys + generated);
      if generated <= keys {
        assert keys + generated == keys;
      }
    }
  }

  /** Without server-generated names, which a caller can see in the manifests, nothing is left over. */
  lemma {:induction false} NothingGenerated(ms: seq<Manifest>, override: string, faults: nat -> Fault)
    requires forall m :: m in ms ==> !Generates(m)
    ensures Generated(ms, override, faults) == {}
  {
    if ms != [] {
      NothingGenerated(ms[..|ms| - 1], override, faults);
    }
  }

  /** When both return normally, the undoing is complete exactly if every name the server generated is
      also the name of some manifest. */
  lemma UndoIsCompleteIff(c: Cluster, docs: seq<Doc>, override: string, ignoreNotFound: bool,
                          applyFaults: nat -> Fault, deleteFaults: nat -> Fault)
    requires ApplyRun(c, Leaves(docs), override, applyFaults).error == None
    requires var applied := ApplyRun(c, Leaves(docs), override, applyFaults).cluster;
      DeleteRun(applied, Reverse(Leaves(docs)), override, ignoreNotFound, deleteFaults).error == None
    ensures
      var ms := Leaves(docs);
      var applied := ApplyRun(c, ms, override, applyFaults).cluster;
      var deleted := DeleteRun(applied, Reverse(ms), override, ignoreNotFound, deleteFaults).cluster;
      deleted == c - Keys(ms, override) <==> Generated(ms, override, applyFaults) <= Keys(ms, override)
  {
    var ms := Leaves(docs);
    var applied := ApplyRun(c, ms, override, applyFaults).cluster;
    DeleteUndoesApply(c, docs, override, ignoreNotFound, applyFaults, deleteFaults);
    ApplyInstallsKeys(c, ms, override, applyFaults);
    KeysOfReverse(ms, override);
    DeleteRemovesKeys(applied, Reverse(ms), override, ignoreNotFound, deleteFaults);
    if k :| k in Generated(ms, override, applyFaults) && k !in Keys(ms, override) {
      assert k in (applied - Keys(ms, override)).Keys && k !in (c - Keys(ms, override)).Keys;
    }
  }

  /** An apply that returns normally leaves an object for every manifest it acts on and adds no other;
      the names the server generates are new. */
  lemma {:induction false} ApplyInstallsKeys(c: Cluster, ms: seq<Manifest>, override: string, faults: nat -> Fault)
    requires ApplyRun(c, ms, override, faults).error == None
    ensures ApplyRun(c, ms, override, faults).cluster.Keys ==
      c.Keys + Keys(ms, override) + Generated(ms, override, faults)
    ensures Generated(ms, override, faults) !! c.Keys
  {
    if ms == [] {
      assert Keys(ms, override) == {};
    } else {
      var n := |ms| - 1;
      ApplyInstallsKeys(c, ms[..n], override, faults);
      KeysExtend(ms, override);
      OneApply(ApplyRun(c, ms[..n], override, faults).cluster, ms[n], override, faults(n));
    }
  }

  lemma OneApply(c: Cluster, m: Manifest, override: string, fault: Fault)
    requires ApplyOne(c, m, override, fault).error == None
    ensures ApplyOne(c, m, override, fault).cluster.Keys ==
      c.Keys + Keys([m], override) + GeneratedOne(m, override, fault)
    ensures GeneratedOne(m, override, fault) !! c.Keys
  {
    KeysOfOne(m, override);
  }

  // ---- What an apply leaves in an object ----

  /** The manifests that are applied to the object at `k`, in order. */
  function Merged(ms: seq<Manifest>, override: string, faults: nat -> Fault, k: Key): seq<Manifest> {
    if ms == [] then []
    else
      var n := |ms| - 1;
      Merged(ms[..n], override, faults, k) + MergedOne(ms[n], override, faults(n), k)
  }

  function MergedOne(m: Manifest, override: string, fault: Fault, k: Key): seq<Manifest> {
    if Handled(m) && KeyNamed(m, ApplyNamespace(m, override), ServerName(m, fault.suffix)) == k then [m] else []
  }

  function Contents(c: Cluster, k: Key): seq<Manifest> {
    if k in c then c[k] else []
  }

  /** After an apply that returns normally, every object is what it was before, followed by exactly the
      manifests for it, in document order; it exists if it did or if there are any. */
  lemma {:induction false} ApplyMerges(c: Cluster, ms: seq<Manifest>, override: string, faults: nat -> Fault, k: Key)
    requires ApplyRun(c, ms, override, faults).error == None
    ensures var c' := ApplyRun(c, ms, override, faults).cluster;
      && (if k in c' then c'[k] else []) == (if k in c then c[k] else []) + Merged(ms, override, faults, k)
      && (k in c' <==> k in c || Merged(ms, override, faults, k) != [])
  {
    if ms != [] {
      var n := |ms| - 1;
      ApplyMerges(c, ms[..n], override, faults, k);
      var before := ApplyRun(c, ms[..n], override, faults);
      OneMerges(before.cluster, ms[n], override, faults(n), k);
      Associate(Contents(c, k), Merged(ms[..n], override, faults, k), MergedOne(ms[n], override, faults(n), k));
    }
  }

  lemma OneMerges(c: Cluster, m: Manifest, override: string, fault: Fault, k: Key)
    requires ApplyOne(c, m, override, fault).error == None
    ensures var c' := ApplyOne(c, m, override, fault).cluster;
      && Contents(c', k) == Contents(c, k) + MergedOne(m, override, fault, k)
      && (k in c' <==> k in c || MergedOne(m, override, fault, k) != [])
  {
  }

  /** So the last manifest for an object is the last one merged into it. */
  lemma LastManifestWins(c: Cluster, ms: seq<Manifest>, override: string, faults: nat -> Fault, i: nat)
    requires ApplyRun(c, ms, override, faults).error == None
    requires i < |ms| && Managed(ms[i])
    requires forall j :: i < j < |ms| && Managed(ms[j]) ==> ApplyKey(ms[j], override) != ApplyKey(ms[i], override)
    requires forall j :: i < j < |ms| ==> !Generates(ms[j])
    ensures var k, c' := ApplyKey(ms[i], override), ApplyRun(c, ms, override, faults).cluster;
      k in c' && c'[k] != [] && c'[k][|c'[k]| - 1] == ms[i]
  {
    var k := ApplyKey(ms[i], override);
    ApplyMerges(c, ms, override, faults, k);
    LastMerged(ms, override, faults, k, i);
  }

  lemma {:induction false} LastMerged(ms: seq<Manifest>, override: string, faults: nat -> Fault, k: Key, i: nat)
    requires i < |ms| && Managed(ms[i]) && ApplyKey(ms[i], override) == k
    requires forall j :: i < j < |ms| && Managed(ms[j]) ==> ApplyKey(ms[j], override) != k
    requires forall j :: i < j < |ms| ==> !Generates(ms[j])
    ensures var merged := Merged(ms, override, faults, k); merged != [] && merged[|merged| - 1] == ms[i]
  {
    var n := |ms| - 1;
    if i < n {
      assert forall j :: 0 <= j < n ==> ms[..n][j] == ms[j];
      LastMerged(ms[..n], override, faults, k, i);
      NotMerged(ms[n], override, faults(n), k);
    } else {
      LastOfOne(ms[n], override, faults(n), k);
    }
  }

  lemma LastOfOne(m: Manifest, override: string, fault: Fault, k: Key)
    requires Managed(m) && ApplyKey(m, override) == k
    ensures var merged := MergedOne(m, override, fault, k); merged != [] && merged[|merged| - 1] == m
  {
  }

  lemma NotMerged(m: Manifest, override: string, fault: Fault, k: Key)
    requires k.name != "" && !Generates(m) && (Managed(m) ==> ApplyKey(m, override) != k)
    ensures MergedOne(m, override, fault, k) == []
  {
  }

  // ---- When a delete returns normally ----

  /** A manifest that `_delete_single_manifest` can address without raising. */
  predicate Deletable(m: Manifest, override: string) {
    m.name == "" || ScopeOf(m.kind).None? || Exempt(m) ||
    (WellVersioned(m) && (ScopeOf(m.kind) == Some(Namespaced) ==> Or(override, m.namespace) != ""))
  }

  ghost predicate NoDeleteFaults(faults: nat -> Fault) {
    forall i: nat :: faults(i).delete.Served?
  }

  /** When the server refuses nothing and missing objects are ignored, a delete returns normally
      exactly when every manifest can be addressed: unlike apply, delete has no default namespace. */
  lemma {:induction false} DeleteSucceedsIffDeletable(c: Cluster, ms: seq<Manifest>, override: string,
                                                      faults: nat -> Fault)
    requires NoDeleteFaults(faults)
    ensures DeleteRun(c, ms, override, true, faults).error == None <==> forall m :: m in ms ==> Deletable(m, override)
  {
    if ms != [] {
      var n := |ms| - 1;
      DeleteSucceedsIffDeletable(c, ms[..n], override, faults);
      var before := DeleteRun(c, ms[..n], override, true, faults);
      assert ms == ms[..n] + [ms[n]] && faults(n).delete.Served?;
      assert DeleteOne(before.cluster, ms[n], override, true, faults(n)).error == None <==> Deletable(ms[n], override);
      assert forall m :: m in ms <==> m in ms[..n] || m == ms[n];
    }
  }

  /** Applied without any namespace, a ConfigMap lands in "default" and cannot be deleted again. */
  lemma NamespaceDefaultsOnlyInApply(faults: nat -> Fault)
    requires NoDeleteFaults(faults) && faults(0).create.Served?
    ensures
      var m := Manifest(ConfigMap, "settings", "", "", "v1", "", 0);
      var applied := ApplyRun(map[], [m], "", faults);
      && applied.error == None && applied.cluster.Keys == {Key(ConfigMap, "", "default", "settings")}
      && DeleteRun(applied.cluster, [m], "", true, faults) == Progress(applied.cluster, Some(NamespaceRequired))
  {
    var m := Manifest(ConfigMap, "settings", "", "", "v1", "", 0);
    assert [m][..0] == [];
    var applied := ApplyRun(map[], [m], "", faults);
    assert ApplyOne(map[], m, "", faults(0)) == Progress(map[KeyOf(m, "default") := [m]], None);
    assert DeleteRun(applied.cluster, [], "", true, faults) == Progress(applied.cluster, None);
  }
}
