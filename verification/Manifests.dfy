/** Expanding, applying and deleting Kubernetes manifests. */
module Manifests {
  import opened Common

  datatype Kind =
    | Deployment | DaemonSet | StatefulSet | Job | Service | ConfigMap | Secret | ServiceAccount
    | ClusterRole | ClusterRoleBinding | Role | RoleBinding | Namespace | CustomResourceDefinition
    | FlowSchema | Stage | MPIJob | NodeFeatureRule | NicClusterPolicy | ResourceSlice | DeviceClass
    | Unsupported(kind: string)

  /** A mapping that is not a List. Missing strings are "", which Python also treats as false. */
  datatype Manifest = Manifest(kind: Kind, name: string, generateName: string, namespace: string,
                               apiVersion: string, priorityLevel: string, content: int)

  /** A YAML document: something Python treats as false, a value that is not a mapping, a mapping of
      kind List with its `items` (none when absent), one whose `items` is not a list, or any other
      mapping. */
  datatype Doc = Empty | NotMapping | ListOf(items: seq<Doc>) | BadList | Object(manifest: Manifest)

  // ---- Expansion ----

  function Leaves(docs: seq<Doc>): seq<Manifest>
    decreases docs, 0
  {
    if docs == [] then [] else Leaves(docs[..|docs| - 1]) + LeavesOf(docs[|docs| - 1])
  }

  function LeavesOf(doc: Doc): seq<Manifest>
    decreases doc, 1
  {
    match doc
    case Empty => []
    case NotMapping => []
    case BadList => []
    case ListOf(items) => Leaves(items)
    case Object(m) => [m]
  }

  /** `_expand_and_validate_manifests`. */
  method ExpandAndValidate(docs: seq<Doc>) returns (expanded: seq<Manifest>)
    ensures expanded == Leaves(docs)
    decreases docs
  {
    expanded := [];
    for i := 0 to |docs|
      invariant expanded == Leaves(docs[..i])
    {
      var doc := docs[i];
      assert docs[..i + 1][..i] == docs[..i];
      match doc
      case Empty =>
      case NotMapping =>
      case BadList =>
      case ListOf(items) =>
        var inner := ExpandAndValidate(items);
        expanded := expanded + inner;
      case Object(m) =>
        expanded := expanded + [m];
    }
    assert docs[..|docs|] == docs;
  }

  lemma {:induction false} LeavesConcat(a: seq<Doc>, b: seq<Doc>)
    ensures Leaves(a + b) == Leaves(a) + Leaves(b)
  {
    if b == [] {
      assert a + b == a;
    } else {
      var init := b[..|b| - 1];
      assert (a + b)[..|a + b| - 1] == a + init;
      LeavesConcat(a, init);
    }
  }

  /** Expanded manifests read as documents again. */
  function AsDocs(ms: seq<Manifest>): seq<Doc> {
    seq(|ms|, i requires 0 <= i < |ms| => Object(ms[i]))
  }

  lemma {:induction false} LeavesOfLeaves(ms: seq<Manifest>)
    ensures Leaves(AsDocs(ms)) == ms
  {
    if ms != [] {
      LeavesOfLeaves(ms[..|ms| - 1]);
      assert AsDocs(ms)[..|ms| - 1] == AsDocs(ms[..|ms| - 1]);
    }
  }

  lemma ExpansionIsIdempotent(docs: seq<Doc>)
    ensures Leaves(AsDocs(Leaves(docs))) == Leaves(docs)
  {
    LeavesOfLeaves(Leaves(docs));
  }

  /** The position of a document in nested lists. */
  datatype Path = Here(i: nat) | Into(i: nat, rest: Path)

  /** The manifest at a position, if there is one. */
  function At(docs: seq<Doc>, p: Path): Option<Manifest>
    decreases p
  {
    if p.i >= |docs| then None
    else match p
      case Here(i) => if docs[i].Object? then Some(docs[i].manifest) else None
      case Into(i, rest) => if docs[i].ListOf? then At(docs[i].items, rest) else None
  }

  /** Left to right. */
  predicate Before(p: Path, q: Path) {
    p.i < q.i || (p.Into? && q.Into? && p.i == q.i && Before(p.rest, q.rest))
  }

  function Prefixed(i: nat, paths: seq<Path>): (r: seq<Path>)
    ensures |r| == |paths| && forall k :: 0 <= k < |r| ==> r[k] == Into(i, paths[k])
  {
    seq(|paths|, k requires 0 <= k < |paths| => Into(i, paths[k]))
  }

  function Paths(docs: seq<Doc>): seq<Path>
    decreases docs, 0
  {
    if docs == [] then [] else Paths(docs[..|docs| - 1]) + PathsOf(docs[|docs| - 1], |docs| - 1)
  }

  function PathsOf(doc: Doc, i: nat): seq<Path>
    decreases doc, 1
  {
    match doc
    case Object(_) => [Here(i)]
    case ListOf(items) => Prefixed(i, Paths(items))
    case _ => []
  }

  /** `paths` are positions of `leaves` in `docs`, in increasing order. */
  ghost predicate Locates(docs: seq<Doc>, paths: seq<Path>, leaves: seq<Manifest>) {
    && |paths| == |leaves|
    && (forall k :: 0 <= k < |paths| ==> At(docs, paths[k]) == Some(leaves[k]))
    && (forall k, l :: 0 <= k < l < |paths| ==> Before(paths[k], paths[l]))
  }

  lemma AtIn(docs: seq<Doc>, init: seq<Doc>, p: Path)
    requires init <= docs && p.i < |init|
    ensures At(docs, p) == At(init, p)
  {
  }

  /** Expansion is an ordered flatten: its results sit at strictly increasing positions. */
  lemma {:induction false} LeavesAreLocated(docs: seq<Doc>)
    ensures Locates(docs, Paths(docs), Leaves(docs))
    ensures forall k :: 0 <= k < |Paths(docs)| ==> Paths(docs)[k].i < |docs|
    decreases docs
  {
    if docs != [] {
      var n := |docs| - 1;
      var init, last := docs[..n], docs[n];
      LeavesAreLocated(init);
      if last.ListOf? {
        LeavesAreLocated(last.items);
      }
      LastIsLocated(docs);
      var head, tail := Paths(init), PathsOf(last, n);
      forall k | 0 <= k < |head| ensures At(docs, head[k]) == Some(Leaves(init)[k]) {
        AtIn(docs, init, head[k]);
      }
      forall k, l | 0 <= k < l < |head + tail| ensures Before((head + tail)[k], (head + tail)[l]) {
      }
    }
  }

  lemma LastIsLocated(docs: seq<Doc>)
    requires docs != []
    requires var last := docs[|docs| - 1];
      last.ListOf? ==> Locates(last.items, Paths(last.items), Leaves(last.items))
    ensures var n := |docs| - 1;
      && Locates(docs, PathsOf(docs[n], n), LeavesOf(docs[n]))
      && forall k :: 0 <= k < |PathsOf(docs[n], n)| ==> PathsOf(docs[n], n)[k].i == n
  {
  }

  /** ... and every manifest of the documents is among them. */
  lemma {:induction false} EveryLeafIsFound(docs: seq<Doc>, p: Path)
    requires At(docs, p).Some?
    ensures p in Paths(docs)
    decreases docs, p
  {
    var n := |docs| - 1;
    var last := docs[n];
    if p.i < n {
      AtIn(docs, docs[..n], p);
      EveryLeafIsFound(docs[..n], p);
    } else if p.Into? {
      EveryLeafIsFound(last.items, p.rest);
      var k :| 0 <= k < |Paths(last.items)| && Paths(last.items)[k] == p.rest;
      assert PathsOf(last, n)[k] == p;
    } else {
      assert PathsOf(last, n) == [p];
    }
  }
}
