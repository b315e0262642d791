/** When a delete undoes an apply, as far as the manifests tell. */
module ManifestUndo {
  import opened Common
  import opened Manifests
  import opened ManifestEngine

  /** A manifest that `_apply_single_manifest` skips or can send. */
  predicate Appliable(m: Manifest) {
    ScopeOf(m.kind).None? || Exempt(m) || (WellVersioned(m) && (m.name != "" || m.generateName != ""))
  }

  lemma {:induction false} ApplyNeedsAppliable(c: Cluster, ms: seq<Manifest>, override: string, faults: nat -> Fault)
    requires ApplyRun(c, ms, override, faults).error == None
    ensures forall m :: m in ms ==> Appliable(m)
  {
    if ms != [] {
      var n := |ms| - 1;
      ApplyNeedsAppliable(c, ms[..n], override, faults);
      assert ms == ms[..n] + [ms[n]] && Appliable(ms[n]);
    }
  }

  lemma {:induction false} DeleteNeedsDeletable(c: Cluster, ms: seq<Manifest>, override: string, ignoreNotFound: bool,
                                                faults: nat -> Fault)
    requires DeleteRun(c, ms, override, ignoreNotFound, faults).error == None
    ensures forall m :: m in ms ==> Deletable(m, override)
  {
    if ms != [] {
      var n := |ms| - 1;
      DeleteNeedsDeletable(c, ms[..n], override, ignoreNotFound, faults);
      assert ms == ms[..n] + [ms[n]] && Deletable(ms[n], override);
    }
  }

  lemma SameManifests(ms: seq<Manifest>)
    ensures forall m :: m in Reverse(ms) <==> m in ms
  {
    forall m | m in ms ensures m in Reverse(ms) {
      var i :| 0 <= i < |ms| && ms[i] == m;
      assert Reverse(ms)[|ms| - 1 - i] == m;
    }
  }

  // ---- A server that names objects out of everyone's way ----

  ghost predicate ShortKeys(c: Cluster, limit: nat) {
    forall k :: k in c ==> |k.name| < limit
  }

  ghost predicate ShortNames(ms: seq<Manifest>, limit: nat) {
    forall m :: m in ms ==> |m.name| < limit && |m.generateName| < limit
  }

  lemma {:induction false} KeysAreBounded(keys: set<Key>) returns (limit: nat)
    ensures forall k :: k in keys ==> |k.name| < limit
  {
    limit := 0;
    if keys != {} {
      var k :| k in keys;
      limit := KeysAreBounded(keys - {k});
      limit := Max(limit, |k.name| + 1);
    }
  }

  lemma {:induction false} NamesAreBounded(ms: seq<Manifest>) returns (limit: nat)
    ensures ShortNames(ms, limit)
  {
    limit := 0;
    if ms != [] {
      var n := |ms| - 1;
      limit := NamesAreBounded(ms[..n]);
      limit := Max(limit, Max(|ms[n].name|, |ms[n].generateName|) + 1);
      assert ms == ms[..n] + [ms[n]];
    }
  }

  /** The length of the suffix for manifest `n`: more than anything before it can reach. */
  function Room(base: nat, n: nat): nat {
    if n == 0 then base else Room(base, n - 1) + base
  }

  lemma {:induction false} RoomGrows(base: nat, n: nat)
    ensures Room(base, n) >= base
  {
    if n > 0 {
      RoomGrows(base, n - 1);
    }
  }

  function Filler(n: nat): (s: string)
    ensures |s| == n
  {
    seq(n, i => 'x')
  }

  function Naming(base: nat): nat -> Fault {
    (i: nat) => Fault(Served, Served, Served, Filler(Room(base, i)))
  }

  /** With such a server every appliable list is applied. */
  lemma {:induction false} LongNamesWork(c: Cluster, ms: seq<Manifest>, override: string, base: nat)
    requires ShortKeys(c, base) && ShortNames(ms, base) && forall m :: m in ms ==> Appliable(m)
    ensures var p := ApplyRun(c, ms, override, Naming(base));
      p.error == None && ShortKeys(p.cluster, Room(base, |ms|))
  {
    if ms != [] {
      var n := |ms| - 1;
      assert ms == ms[..n] + [ms[n]];
      LongNamesWork(c, ms[..n], override, base);
      RoomGrows(base, n);
      OneLongName(ApplyRun(c, ms[..n], override, Naming(base)).cluster, ms[n], override, base, n);
    }
  }

  lemma OneLongName(c: Cluster, m: Manifest, override: string, base: nat, n: nat)
    requires ShortKeys(c, Room(base, n)) && Room(base, n) >= base && Appliable(m)
    requires |m.name| < base && |m.generateName| < base
    ensures var p := ApplyOne(c, m, override, Naming(base)(n));
      p.error == None && ShortKeys(p.cluster, Room(base, n + 1))
  {
    var name := ServerName(m, Filler(Room(base, n)));
    assert m.name == "" && m.generateName != "" ==> |name| == |m.generateName| + Room(base, n);
    assert ApplyNamespace(m, override) != "";
  }

  lemma {:induction false} GeneratedIsLong(ms: seq<Manifest>, override: string, base: nat, m: Manifest) returns (k: Key)
    requires m in ms && Generates(m)
    ensures k in Generated(ms, override, Naming(base)) && |k.name| >= base
  {
    var n := |ms| - 1;
    if m == ms[n] {
      RoomGrows(base, n);
      k := KeyNamed(m, ApplyNamespace(m, override), ServerName(m, Filler(Room(base, n))));
    } else {
      assert m in ms[..n];
      k := GeneratedIsLong(ms[..n], override, base, m);
    }
  }

  // ---- The condition a caller can check ----

  /** If an apply and a delete both return normally, they leave the cluster without the named objects. */
  ghost predicate Undone(c: Cluster, ms: seq<Manifest>, override: string, ignoreNotFound: bool,
                         applyFaults: nat -> Fault, deleteFaults: nat -> Fault)
  {
    var applied := ApplyRun(c, ms, override, applyFaults);
    var deleted := DeleteRun(applied.cluster, Reverse(ms), override, ignoreNotFound, deleteFaults);
    applied.error == None && deleted.error == None ==> deleted.cluster == c - Keys(ms, override)
  }

  ghost predicate AlwaysUndone(c: Cluster, ms: seq<Manifest>, override: string) {
    forall ignoreNotFound: bool, applyFaults: nat -> Fault, deleteFaults: nat -> Fault ::
      Undone(c, ms, override, ignoreNotFound, applyFaults, deleteFaults)
  }

  /** Every manifest can be applied and deleted. */
  ghost predicate Workable(ms: seq<Manifest>, override: string) {
    forall m :: m in ms ==> Appliable(m) && Deletable(m, override)
  }

  lemma UndoneWithoutGenerated(c: Cluster, docs: seq<Doc>, override: string, ignoreNotFound: bool,
                               applyFaults: nat -> Fault, deleteFaults: nat -> Fault)
    requires Workable(Leaves(docs), override) ==> forall m :: m in Leaves(docs) ==> !Generates(m)
    ensures Undone(c, Leaves(docs), override, ignoreNotFound, applyFaults, deleteFaults)
  {
    var ms := Leaves(docs);
    var applied := ApplyRun(c, ms, override, applyFaults);
    var deleted := DeleteRun(applied.cluster, Reverse(ms), override, ignoreNotFound, deleteFaults);
    if applied.error == None && deleted.error == None {
      ApplyNeedsAppliable(c, ms, override, applyFaults);
      DeleteNeedsDeletable(applied.cluster, Reverse(ms), override, ignoreNotFound, deleteFaults);
      SameManifests(ms);
      NothingGenerated(ms, override, applyFaults);
      DeleteUndoesApply(c, docs, override, ignoreNotFound, applyFaults, deleteFaults);
    }
  }

  /** A manifest whose object the server names is left over after some run in which nothing fails. */
  lemma LeftOver(c: Cluster, docs: seq<Doc>, override: string, m: Manifest) returns (faults: nat -> Fault)
    requires Workable(Leaves(docs), override) && m in Leaves(docs) && Generates(m)
    ensures !Undone(c, Leaves(docs), override, true, faults, faults)
  {
    var ms := Leaves(docs);
    var a := KeysAreBounded(c.Keys);
    var b := NamesAreBounded(ms);
    var base := Max(a, b);
    faults := Naming(base);
    LongNamesWork(c, ms, override, base);
    var applied := ApplyRun(c, ms, override, faults).cluster;
    SameManifests(ms);
    DeleteSucceedsIffDeletable(applied, Reverse(ms), override, faults);
    UndoIsCompleteIff(c, docs, override, true, faults, faults);
    var k := GeneratedIsLong(ms, override, base, m);
    assert k !in Keys(ms, override);
  }

  /** For every cluster, documents and override: whatever the server does and however it names objects,
      an apply and a delete that return normally undo each other, if and only if no manifest leaves its
      name to the server, or one of them can never be applied or never be deleted. */
  lemma UndoIsSafeIff(c: Cluster, docs: seq<Doc>, override: string)
    ensures AlwaysUndone(c, Leaves(docs), override) <==>
      (Workable(Leaves(docs), override) ==> forall m :: m in Leaves(docs) ==> !Generates(m))
  {
    var ms := Leaves(docs);
    if Workable(ms, override) && exists m :: m in ms && Generates(m) {
      var m :| m in ms && Generates(m);
      var faults := LeftOver(c, docs, override, m);
      assert !Undone(c, ms, override, true, faults, faults);
    } else {
      forall ignoreNotFound: bool, applyFaults: nat -> Fault, deleteFaults: nat -> Fault
        ensures Undone(c, ms, override, ignoreNotFound, applyFaults, deleteFaults)
      {
        UndoneWithoutGenerated(c, docs, override, ignoreNotFound, applyFaults, deleteFaults);
      }
    }
  }

  /** The smallest such list: a Job that has only a `generateName` survives its own deletion. */
  lemma LeftoverJob(faults: nat -> Fault)
    requires faults(0).create.Served?
    ensures
      var m := Manifest(Job, "", "load-", "perf", "batch/v1", "", 0);
      var applied := ApplyRun(map[], [m], "", faults);
      && applied == Progress(map[Key(Job, "", "perf", "load-" + faults(0).suffix) := [m]], None)
      && DeleteRun(applied.cluster, [m], "", true, faults) == applied
      && applied.cluster != map[] - Keys([m], "")
  {
    var m := Manifest(Job, "", "load-", "perf", "batch/v1", "", 0);
    assert [m][..0] == [];
    var key := Key(Job, "", "perf", "load-" + faults(0).suffix);
    assert ApplyOne(map[], m, "", faults(0)) == Progress(map[key := [m]], None);
    assert key in ApplyRun(map[], [m], "", faults).cluster;
    assert DeleteRun(map[key := [m]], [], "", true, faults) == Progress(map[key := [m]], None);
  }
}
