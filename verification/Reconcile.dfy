/**
 * Reconciliation of the accounts table with the objects of the workers' namespace
 * (control-plane/src/reconcile.ts, manifests.ts): apply what is desired, then delete orphans and stale
 * routes. Any call may throw.
 */
module Reconcile {
  import opened Options
  import Deletion
  import Invites

  datatype Kind = StatefulSet | Service | NetworkPolicy | IngressRoute | Secret

  datatype Key = Key(kind: Kind, name: string)

  /** The part of a manifest that depends on the account. */
  datatype Spec =
    | Worker(replicas: nat, secretRev: int, sessionExport: bool, kafka: bool)
    | Route(id: string)
    | Foreign(text: string)

  datatype Obj = Obj(account: Option<string>, managed: bool, spec: Spec)

  type Objects = map<Key, Obj>

  datatype Record = Record(
    id: string, status: Invites.Status, deleteStep: Option<string>, secretRev: int,
    exportEnabled: bool, archiveEnabled: bool)

  const MANAGED_KINDS: seq<Kind> := [StatefulSet, Service, NetworkPolicy, IngressRoute]

  // ------------------------------------------------------------------ manifests

  predicate IsLower(c: char) {
    'a' <= c <= 'z'
  }

  predicate IsNumeral(c: char) {
    '0' <= c <= '9'
  }

  /** A new slug, or the number of one of the older accounts. */
  predicate IsAccountId(s: string) {
    || (|s| == 11 && s[0] == 'a' && forall i | 1 <= i < 11 :: IsLower(s[i]) || IsNumeral(s[i]))
    || (1 <= |s| <= 20 && forall i | 0 <= i < |s| :: IsNumeral(s[i]))
  }

  function WorkerName(id: string): string {
    "tgw-" + id
  }

  function Labelled(a: Record, s: Spec): Obj {
    Obj(Some(a.id), true, s)
  }

  function WorkerSpec(a: Record): Spec {
    Worker(Deletion.Replicas(a.status.Deleting?, a.deleteStep), a.secretRev, a.exportEnabled, a.archiveEnabled)
  }

  /** desiredObjects: in the order they are applied; None when the id is refused. */
  function DesiredObjects(a: Record): Option<seq<(Key, Obj)>> {
    if !IsAccountId(a.id) then None
    else
      var n := WorkerName(a.id);
      Some([(Key(StatefulSet, n), Labelled(a, WorkerSpec(a))),
            (Key(Service, n), Labelled(a, Route(a.id))),
            (Key(NetworkPolicy, n), Labelled(a, Route(a.id)))]
           + if a.status.Active? then [(Key(IngressRoute, n), Labelled(a, Route(a.id)))] else [])
  }

  /** The keys an account wants. */
  predicate Wants(a: Record, k: Key) {
    && IsAccountId(a.id) && k.name == WorkerName(a.id)
    && (k.kind.StatefulSet? || k.kind.Service? || k.kind.NetworkPolicy? || (k.kind.IngressRoute? && a.status.Active?))
  }

  function WantedObj(a: Record, k: Key): Obj {
    Labelled(a, if k.kind.StatefulSet? then WorkerSpec(a) else Route(a.id))
  }

  // ------------------------------------------------------------------ what an account is served with

  /** The steps of a deletion at which the worker is logged out, as the accounts table stores them. */
  predicate StoppedAt(step: Option<string>) {
    || step == Some("logged_out") || step == Some("scaled") || step == Some("pod_gone")
    || step == Some("s3_deleted") || step == Some("archive_purged")
  }

  /** The worker's object: none asked to run exactly for an account in deletion that is logged out. */
  predicate WorkerAsked(a: Record, o: Obj) {
    && o.account == Some(a.id) && o.managed && o.spec.Worker?
    && (o.spec.replicas == 0 <==> a.status == Invites.Deleting && StoppedAt(a.deleteStep)) && o.spec.replicas <= 1
    && o.spec.secretRev == a.secretRev && o.spec.sessionExport == a.exportEnabled && o.spec.kafka == a.archiveEnabled
  }

  predicate RoutedTo(a: Record, o: Obj) {
    o.account == Some(a.id) && o.managed && o.spec == Route(a.id)
  }

  /** An account has its worker, its service and its policy, and a route from outside exactly while it is active. */
  predicate Served(a: Record, d: Objects) {
    var n := "tgw-" + a.id;
    && Key(StatefulSet, n) in d && WorkerAsked(a, d[Key(StatefulSet, n)])
    && Key(Service, n) in d && RoutedTo(a, d[Key(Service, n)])
    && Key(NetworkPolicy, n) in d && RoutedTo(a, d[Key(NetworkPolicy, n)])
    && (a.status == Invites.Active ==> Key(IngressRoute, n) in d && RoutedTo(a, d[Key(IngressRoute, n)]))
    && (a.status != Invites.Active ==> NoRoute(a, d))
  }

  /** No managed route is labelled with the account. */
  predicate NoRoute(a: Record, d: Objects) {
    forall k | k in d && k.kind == IngressRoute && d[k].managed :: d[k].account != Some(a.id)
  }

  predicate OfInactive(accounts: seq<Record>, o: Obj) {
    exists a :: a in accounts && o.account == Some(a.id) && a.status != Invites.Active
  }

  /** A managed object that nobody accounts for: no label, an unknown one, or the route of an inactive account. */
  predicate Unaccounted(accounts: seq<Record>, k: Key, o: Obj) {
    && o.managed && k.kind != Secret
    && (o.account == None || o.account == Some("")
        || (forall a | a in accounts :: o.account != Some(a.id))
        || (k.kind == IngressRoute && OfInactive(accounts, o)))
  }

  lemma WorkerIsAsked(a: Record)
    ensures WorkerAsked(a, Labelled(a, WorkerSpec(a)))
  {
    assert a.deleteStep.GetOr("") in Deletion.SCALED_DOWN_STEPS <==> StoppedAt(a.deleteStep);
  }

  /** So for a stored step: the worker is asked to stop exactly from the logged-out step of its deletion on. */
  lemma StopsWithDeletion(a: Record, o: Obj, s: Deletion.DeleteStep)
    requires WorkerAsked(a, o) && a.deleteStep == Deletion.Encode(s)
    ensures o.spec.replicas == if a.status == Invites.Deleting && Deletion.Rank(s) <= 5 then 0 else 1
  {
    Deletion.ReplicasFollowRank(s);
    assert a.deleteStep.GetOr("") in Deletion.SCALED_DOWN_STEPS <==> StoppedAt(a.deleteStep);
  }

  predicate Distinct(accounts: seq<Record>) {
    forall i, j | 0 <= i < j < |accounts| :: accounts[i].id != accounts[j].id
  }

  predicate IsDesired(accounts: seq<Record>, k: Key) {
    exists a :: a in accounts && Wants(a, k)
  }

  /** The union of the desired objects over all accounts, stated without an order of applying. */
  ghost predicate IsDesiredUnion(accounts: seq<Record>, d: Objects) {
    && (forall k :: k in d <==> IsDesired(accounts, k))
    && (forall a, k | a in accounts && Wants(a, k) :: d[k] == WantedObj(a, k))
  }

  // ------------------------------------------------------------------ one pass

  /** Which calls of a pass throw; a call that throws changes nothing. */
  datatype Faults = Faults(accounts: bool, apply: set<Key>, list: set<Kind>, delete: set<Key>)

  predicate NoFault(f: Faults) {
    !f.accounts && f.apply == {} && f.list == {} && f.delete == {}
  }

  /** The objects of one account, up to the first apply that throws. */
  function ApplyObjects(c: Objects, objs: seq<(Key, Obj)>, f: Faults): Objects
    decreases |objs|
  {
    if objs == [] || objs[0].0 in f.apply then c else ApplyObjects(c[objs[0].0 := objs[0].1], objs[1..], f)
  }

  function ApplyAll(c: Objects, accounts: seq<Record>, f: Faults): Objects
    decreases |accounts|
  {
    if accounts == [] then c
    else
      var last := accounts[|accounts| - 1];
      ApplyObjects(ApplyAll(c, accounts[..|accounts| - 1], f), DesiredObjects(last).GetOr([]), f)
  }

  /** How many objects get through before the first apply that throws. */
  function AppliedOf(objs: seq<(Key, Obj)>, f: Faults): nat
    decreases |objs|
  {
    if objs == [] || objs[0].0 in f.apply then 0 else 1 + AppliedOf(objs[1..], f)
  }

  function AppliedCount(accounts: seq<Record>, f: Faults): nat
    decreases |accounts|
  {
    if accounts == [] then 0
    else AppliedCount(accounts[..|accounts| - 1], f) + AppliedOf(DesiredObjects(accounts[|accounts| - 1]).GetOr([]), f)
  }

  /** new Map of the accounts by id. */
  function ById(accounts: seq<Record>): map<string, Record>
    decreases |accounts|
  {
    if accounts == [] then map[]
    else
      var last := accounts[|accounts| - 1];
      ById(accounts[..|accounts| - 1])[last.id := last]
  }

  /** Neither of a known account nor, for a route, of an active one. */
  predicate OrphanOrStale(byId: map<string, Record>, kind: Kind, who: Option<string>) {
    || who.None? || who.value == "" || who.value !in byId
    || (kind.IngressRoute? && !byId[who.value].status.Active?)
  }

  predicate Listed(c: Objects, k: Key) {
    k in c && k.kind in MANAGED_KINDS && c[k].managed
  }

  predicate Doomed(c: Objects, byId: map<string, Record>, k: Key) {
    Listed(c, k) && OrphanOrStale(byId, k.kind, c[k].account)
  }

  function DoomedKeys(c: Objects, byId: map<string, Record>): set<Key> {
    set k | k in c && Doomed(c, byId, k)
  }

  /** A pass in which no call throws. */
  function CleanPass(c: Objects, accounts: seq<Record>): Objects {
    var d := ApplyAll(c, accounts, Faults(false, {}, {}, {}));
    d - DoomedKeys(d, ById(accounts))
  }

  /** What a sweep that took n objects away did: it took only doomed ones, and none whose delete throws. */
  ghost predicate Removed(before: Objects, after: Objects, byId: map<string, Record>, f: Faults, n: nat) {
    && after.Keys <= before.Keys
    && (forall k | k in after :: after[k] == before[k])
    && (forall k | k in before && k !in after :: Doomed(before, byId, k) && k !in f.delete)
    && |before.Keys| == |after.Keys| + n
  }

  lemma RemovedOne(before: Objects, c: Objects, k: Key, byId: map<string, Record>, f: Faults, n: nat)
    requires Removed(before, c, byId, f, n) && k in c && Doomed(c, byId, k) && k !in f.delete
    ensures Removed(before, c - {k}, byId, f, n + 1)
  {
    assert (c - {k}).Keys == c.Keys - {k};
  }

  lemma RemovedTwice(a: Objects, b: Objects, c: Objects, byId: map<string, Record>, f: Faults, m: nat, n: nat)
    requires Removed(a, b, byId, f, m) && Removed(b, c, byId, f, n)
    ensures Removed(a, c, byId, f, m + n)
  {
    forall k | k in a && k !in c ensures Doomed(a, byId, k) && k !in f.delete {
      assert k in b ==> Doomed(b, byId, k);
    }
  }

  ghost predicate NoneDoomed(c: Objects, byId: map<string, Record>, kind: Kind) {
    forall k | k in c && k.kind == kind :: !Doomed(c, byId, k)
  }

  lemma NoneDoomedStays(a: Objects, b: Objects, byId: map<string, Record>, f: Faults, n: nat, kind: Kind)
    requires NoneDoomed(a, byId, kind) && Removed(a, b, byId, f, n)
    ensures NoneDoomed(b, byId, kind)
  {
    forall k | k in b && k.kind == kind ensures !Doomed(b, byId, k) {
      assert !Doomed(a, byId, k);
    }
  }

  /** When every listed object was dealt with, none of the kind is doomed. */
  lemma ListedAll(before: Objects, after: Objects, byId: map<string, Record>, f: Faults, n: nat, kind: Kind,
      found: seq<Key>)
    requires Removed(before, after, byId, f, n)
    requires forall k :: k in found <==> k in before && k.kind == kind && before[k].managed
    requires forall j | 0 <= j < |found| :: !Doomed(after, byId, found[j])
    ensures NoneDoomed(after, byId, kind)
  {
    forall k | k in after && k.kind == kind ensures !Doomed(after, byId, k) {
      if Listed(after, k) {
        assert k in found;
        var j :| 0 <= j < |found| && found[j] == k;
      }
    }
  }

  /** None of the first i kinds has a doomed object. */
  ghost predicate KindsSwept(c: Objects, byId: map<string, Record>, i: nat) {
    i <= |MANAGED_KINDS| && forall j | 0 <= j < i :: NoneDoomed(c, byId, MANAGED_KINDS[j])
  }

  lemma KindsSweptNext(a: Objects, b: Objects, byId: map<string, Record>, f: Faults, n: nat, i: nat)
    requires KindsSwept(a, byId, i) && Removed(a, b, byId, f, n)
    requires i < |MANAGED_KINDS| && NoneDoomed(b, byId, MANAGED_KINDS[i])
    ensures KindsSwept(b, byId, i + 1)
  {
    forall j | 0 <= j < i ensures NoneDoomed(b, byId, MANAGED_KINDS[j]) {
      NoneDoomedStays(a, b, byId, f, n, MANAGED_KINDS[j]);
    }
  }

  lemma AllKindsSwept(c: Objects, byId: map<string, Record>)
    requires KindsSwept(c, byId, |MANAGED_KINDS|)
    ensures forall k | k in c :: !Doomed(c, byId, k)
  {
    forall k | k in c ensures !Doomed(c, byId, k) {
      if k.kind in MANAGED_KINDS {
        var j :| 0 <= j < |MANAGED_KINDS| && MANAGED_KINDS[j] == k.kind;
        assert NoneDoomed(c, byId, MANAGED_KINDS[j]);
      }
    }
  }

  /** The objects found before the i-th were dealt with, and the others are still there. */
  predicate SweptTo(c: Objects, byId: map<string, Record>, found: seq<Key>, i: nat) {
    && i <= |found|
    && (forall j | i <= j < |found| :: found[j] in c)
    && (forall j | 0 <= j < i :: !Doomed(c, byId, found[j]))
  }

  lemma SweptNext(a: Objects, b: Objects, byId: map<string, Record>, found: seq<Key>, i: nat)
    requires SweptTo(a, byId, found, i) && i < |found| && !Doomed(b, byId, found[i])
    requires forall x, y | 0 <= x < y < |found| :: found[x] != found[y]
    requires forall k | k in b :: k in a && b[k] == a[k]
    requires forall k | k in a && k != found[i] :: k in b
    ensures SweptTo(b, byId, found, i + 1)
  {
    forall j | 0 <= j < i ensures !Doomed(b, byId, found[j]) {
      assert !Doomed(a, byId, found[j]);
    }
  }

  /** Applying an account's objects starts with its worker, and the others stand at other keys. */
  lemma AsksForWorker(c: Objects, a: Record, f: Faults)
    ensures var k := Key(StatefulSet, "tgw-" + a.id);
      var r := ApplyObjects(c, DesiredObjects(a).GetOr([]), f);
      IsAccountId(a.id) && k !in f.apply ==> k in r && WorkerAsked(a, r[k])
  {
    var k := Key(StatefulSet, "tgw-" + a.id);
    if IsAccountId(a.id) && k !in f.apply {
      var objs := DesiredObjects(a).value;
      WorkerIsAsked(a);
      OtherKeysApplied(c[k := objs[0].1], objs[1..], f, k);
    }
  }

  lemma {:induction false} AppliedAll(objs: seq<(Key, Obj)>, f: Faults)
    ensures f.apply == {} ==> AppliedOf(objs, f) == |objs|
    decreases |objs|
  {
    if objs != [] {
      AppliedAll(objs[1..], f);
    }
  }

  lemma {:induction false} OtherKeysApplied(c: Objects, objs: seq<(Key, Obj)>, f: Faults, k: Key)
    requires k in c && forall o | o in objs :: o.0 != k
    ensures var r := ApplyObjects(c, objs, f); k in r && r[k] == c[k]
    decreases |objs|
  {
    if objs != [] && objs[0].0 !in f.apply {
      assert objs[0] in objs;
      OtherKeysApplied(c[objs[0].0 := objs[0].1], objs[1..], f, k);
    }
  }

  datatype PassResult = Aborted | Done(applied: nat, deleted: nat)

  class Cluster {
    var objects: Objects

    constructor (o: Objects)
      ensures objects == o
    {
      objects := o;
    }

    method Apply(k: Key, o: Obj, f: Faults) returns (ok: bool)
      modifies this
      ensures ok <==> k !in f.apply
      ensures objects == if ok then old(objects)[k := o] else old(objects)
    {
      ok := k !in f.apply;
      if ok {
        objects := objects[k := o];
      }
    }

    /** A missing object is no error. */
    method Delete(k: Key, f: Faults) returns (ok: bool)
      modifies this
      ensures ok <==> k !in f.delete
      ensures objects == if ok then old(objects) - {k} else old(objects)
    {
      ok := k !in f.delete;
      if ok {
        objects := objects - {k};
      }
    }

    method ListManaged(kind: Kind, f: Faults) returns (found: Option<seq<Key>>)
      ensures found.None? <==> kind in f.list
      ensures found.Some? ==> forall k :: k in found.value <==> k in objects && k.kind == kind && objects[k].managed
      ensures found.Some? ==> forall i, j | 0 <= i < j < |found.value| :: found.value[i] != found.value[j]
    {
      if kind in f.list { return None; }
      var rest := set k | k in objects && k.kind == kind && objects[k].managed;
      ghost var all := rest;
      var out: seq<Key> := [];
      while exists k :: k in rest
        invariant rest <= all
        invariant forall k :: k in out <==> k in all && k !in rest
        invariant forall i, j | 0 <= i < j < |out| :: out[i] != out[j]
        decreases |rest|
      {
        var k :| k in rest;
        rest := rest - {k};
        out := out + [k];
      }
      found := Some(out);
    }

    /** The objects of one account. */
    method ApplyAccount(a: Record, f: Faults) returns (applied: nat)
      modifies this
      ensures objects == ApplyObjects(old(objects), DesiredObjects(a).GetOr([]), f)
      ensures applied == AppliedOf(DesiredObjects(a).GetOr([]), f)
      ensures var k := Key(StatefulSet, "tgw-" + a.id);
        IsAccountId(a.id) && k !in f.apply ==> k in objects && WorkerAsked(a, objects[k])
      ensures !IsAccountId(a.id) ==> applied == 0 && objects == old(objects)
      ensures IsAccountId(a.id) && f.apply == {} ==> applied == if a.status == Invites.Active then 4 else 3
    {
      AsksForWorker(objects, a, f);
      AppliedAll(DesiredObjects(a).GetOr([]), f);
      applied := 0;
      var objs := DesiredObjects(a);
      if objs.None? { return; }  // the refused id throws before any apply
      ghost var start := objects;
      var i := 0;
      while i < |objs.value|
        invariant applied == i <= |objs.value|
        invariant AppliedOf(objs.value, f) == applied + AppliedOf(objs.value[i..], f)
        invariant ApplyObjects(start, objs.value, f) == ApplyObjects(objects, objs.value[i..], f)
      {
        var ok := Apply(objs.value[i].0, objs.value[i].1, f);
        if !ok { return; }
        applied := applied + 1;
        i := i + 1;
      }
    }

    /** One listed object; not ok when its delete threw. */
    method DeleteIfDoomed(k: Key, byId: map<string, Record>, f: Faults) returns (n: nat, ok: bool)
      requires Listed(objects, k)
      modifies this
      ensures Removed(old(objects), objects, byId, f, n)
      ensures ok ==> !Doomed(objects, byId, k)
      ensures forall j | j in old(objects) && j != k :: j in objects
      ensures f.delete == {} ==> ok
    {
      n, ok := 0, true;
      if OrphanOrStale(byId, k.kind, objects[k].account) {
        if k !in f.delete { RemovedOne(objects, objects, k, byId, f, 0); }
        ok := Delete(k, f);
        n := if ok then 1 else 0;
      }
    }

    /** The orphans and stale routes of one kind; not ok when a call threw. */
    method Sweep(kind: Kind, byId: map<string, Record>, f: Faults) returns (deleted: nat, ok: bool)
      requires kind in MANAGED_KINDS
      modifies this
      ensures Removed(old(objects), objects, byId, f, deleted)
      ensures ok ==> NoneDoomed(objects, byId, kind)
      ensures f.list == {} && f.delete == {} ==> ok
    {
      deleted := 0;
      var found := ListManaged(kind, f);
      if found.None? { return deleted, false; }
      ghost var start := objects;
      var i := 0;
      while i < |found.value|
        invariant Removed(start, objects, byId, f, deleted)
        invariant SweptTo(objects, byId, found.value, i)
      {
        assert found.value[i] in found.value;
        ghost var before := objects;
        var n;
        n, ok := DeleteIfDoomed(found.value[i], byId, f);
        RemovedTwice(start, before, objects, byId, f, deleted, n);
        deleted := deleted + n;
        if !ok { return; }
        SweptNext(before, objects, byId, found.value, i);
        i := i + 1;
      }
      ok := true;
      ListedAll(start, objects, byId, f, deleted, kind, found.value);
    }

    /** The four kinds in turn; Secrets are not among them. */
    method SweepAll(byId: map<string, Record>, f: Faults) returns (deleted: nat, ok: bool)
      modifies this
      ensures Removed(old(objects), objects, byId, f, deleted)
      ensures ok ==> forall k | k in objects :: !Doomed(objects, byId, k)
      ensures f.list == {} && f.delete == {} ==> ok
    {
      deleted := 0;
      ghost var start := objects;
      var i := 0;
      while i < |MANAGED_KINDS|
        invariant Removed(start, objects, byId, f, deleted)
        invariant KindsSwept(objects, byId, i)
      {
        ghost var before := objects;
        var n;
        n, ok := Sweep(MANAGED_KINDS[i], byId, f);
        RemovedTwice(start, before, objects, byId, f, deleted, n);
        deleted := deleted + n;
        if !ok { return; }
        KindsSweptNext(before, objects, byId, f, n, i);
        i := i + 1;
      }
      ok := true;
      AllKindsSwept(objects, byId);
    }
  }

  /**
   * One pass. If the accounts cannot be read, nothing is touched; otherwise only doomed objects are
   * deleted, and all of them unless a call of the sweep throws.
   */
  method ReconcileOnce(accounts: seq<Record>, kube: Cluster, f: Faults) returns (r: PassResult)
    modifies kube
    ensures f.accounts ==> r == Aborted && kube.objects == old(kube.objects)
    ensures !f.accounts ==>
      var c := ApplyAll(old(kube.objects), accounts, f);
      && (exists n :: Removed(c, kube.objects, ById(accounts), f, n))
      && (r.Done? ==> Removed(c, kube.objects, ById(accounts), f, r.deleted))
      && (r.Done? ==> kube.objects == c - DoomedKeys(c, ById(accounts)) && r.applied == AppliedCount(accounts, f))
    ensures !f.accounts && f.list == {} && f.delete == {} ==> r.Done?
    ensures NoFault(f) ==> kube.objects == CleanPass(old(kube.objects), accounts)
    ensures NoFault(f) && Distinct(accounts) ==>
      forall a | a in accounts && IsAccountId(a.id) :: Served(a, kube.objects)
  {
    if f.accounts { return Aborted; }
    ghost var start := kube.objects;
    var byId: map<string, Record> := map[];
    var applied := 0;
    var i := 0;
    while i < |accounts|
      invariant i <= |accounts|
      invariant byId == ById(accounts[..i])
      invariant kube.objects == ApplyAll(start, accounts[..i], f)
      invariant applied == AppliedCount(accounts[..i], f)
    {
      assert accounts[..i + 1][..i] == accounts[..i];
      var n := kube.ApplyAccount(accounts[i], f);
      byId := byId[accounts[i].id := accounts[i]];
      applied := applied + n;
      i := i + 1;
    }
    assert accounts[..i] == accounts;
    ghost var c := kube.objects;
    var deleted, ok := kube.SweepAll(byId, f);
    if !ok { return Aborted; }
    r := Done(applied, deleted);
    SweptAll(c, kube.objects, byId, f, deleted);
    if NoFault(f) {
      assert f == Faults(false, {}, {}, {});
      if Distinct(accounts) {
        forall a | a in accounts && IsAccountId(a.id) ensures Served(a, kube.objects) {
          EveryAccountIsServed(start, accounts, a);
        }
      }
    }
  }

  lemma SweptAll(before: Objects, after: Objects, byId: map<string, Record>, f: Faults, n: nat)
    requires Removed(before, after, byId, f, n) && forall k | k in after :: !Doomed(after, byId, k)
    ensures after == before - DoomedKeys(before, byId)
  {
    forall k | k in before ensures k in after <==> !Doomed(before, byId, k) {
      assert k in after ==> (Doomed(after, byId, k) <==> Doomed(before, byId, k));
    }
  }

  // ------------------------------------------------------------------ what is desired

  /** The desired objects of one account as a map. */
  function Own(a: Record): Objects {
    map k | k in {Key(StatefulSet, WorkerName(a.id)), Key(Service, WorkerName(a.id)),
                  Key(NetworkPolicy, WorkerName(a.id)), Key(IngressRoute, WorkerName(a.id))} && Wants(a, k) ::
                  WantedObj(a, k)
  }

  /** The union, built account by account. */
  function Desired(accounts: seq<Record>): Objects
    decreases |accounts|
  {
    if accounts == [] then map[] else Desired(accounts[..|accounts| - 1]) + Own(accounts[|accounts| - 1])
  }

  lemma WorkerNamesDiffer(a: string, b: string)
    requires a != b
    ensures WorkerName(a) != WorkerName(b)
  {
    assert WorkerName(a)[4..] == a && WorkerName(b)[4..] == b;
  }

  lemma {:induction false} DesiredIsUnion(accounts: seq<Record>)
    requires Distinct(accounts)
    ensures IsDesiredUnion(accounts, Desired(accounts))
    decreases |accounts|
  {
    if accounts != [] {
      var front, last := accounts[..|accounts| - 1], accounts[|accounts| - 1];
      DesiredIsUnion(front);
      assert accounts == front + [last];
      forall a, k | a in accounts && Wants(a, k)
        ensures k in Desired(accounts) && Desired(accounts)[k] == WantedObj(a, k)
      {
        if a != last {
          assert a in front;
          WorkerNamesDiffer(a.id, last.id);
        }
      }
      forall k | k in Desired(accounts) ensures IsDesired(accounts, k) {
        if k in Desired(front) {
          var a :| a in front && Wants(a, k);
          assert a in accounts;
        } else {
          assert last in accounts && Wants(last, k);
        }
      }
    }
  }

  lemma ApplyOneAccount(c: Objects, a: Record, f: Faults)
    requires f.apply == {}
    ensures ApplyObjects(c, DesiredObjects(a).GetOr([]), f) == c + Own(a)
  {
    if IsAccountId(a.id) {
      var objs := DesiredObjects(a).value;
      var c1 := c[objs[0].0 := objs[0].1];
      var c2 := c1[objs[1].0 := objs[1].1];
      var c3 := c2[objs[2].0 := objs[2].1];
      assert ApplyObjects(c1, objs[1..], f) == ApplyObjects(c2, objs[2..], f) by { assert objs[1..][1..] == objs[2..]; }
      assert ApplyObjects(c2, objs[2..], f) == ApplyObjects(c3, objs[3..], f) by { assert objs[2..][1..] == objs[3..]; }
      if a.status.Active? {
        assert objs[3..] == [objs[3]];
        assert ApplyObjects(c3, objs[3..], f) == c3[objs[3].0 := objs[3].1];
      } else {
        assert objs[3..] == [];
      }
    }
  }

  lemma PlusAssociates(a: Objects, b: Objects, c: Objects)
    ensures (a + b) + c == a + (b + c)
  {
  }

  lemma {:induction false} ApplyAllIsUnion(c: Objects, accounts: seq<Record>, f: Faults)
    requires f.apply == {}
    ensures ApplyAll(c, accounts, f) == c + Desired(accounts)
    decreases |accounts|
  {
    if accounts != [] {
      var front, last := accounts[..|accounts| - 1], accounts[|accounts| - 1];
      ApplyAllIsUnion(c, front, f);
      ApplyOneAccount(c + Desired(front), last, f);
      PlusAssociates(c, Desired(front), Own(last));
    }
  }

  lemma {:induction false} ByIdFinds(accounts: seq<Record>)
    requires Distinct(accounts)
    ensures forall a | a in accounts :: a.id in ById(accounts) && ById(accounts)[a.id] == a
    ensures forall i | i in ById(accounts) :: ById(accounts)[i] in accounts && ById(accounts)[i].id == i
    decreases |accounts|
  {
    if accounts != [] {
      var front, last := accounts[..|accounts| - 1], accounts[|accounts| - 1];
      ByIdFinds(front);
      assert accounts == front + [last];
    }
  }

  // ------------------------------------------------------------------ convergence

  /** The managed objects of the four kinds. */
  function ManagedPart(c: Objects): Objects {
    map k | k in c && Listed(c, k) :: c[k]
  }

  /** A managed object no pass would delete although nothing desired stands at its key. */
  predicate Stray(c: Objects, accounts: seq<Record>, k: Key) {
    Listed(c, k) && !IsDesired(accounts, k) && !OrphanOrStale(ById(accounts), k.kind, c[k].account)
  }

  lemma DesiredIsNotDoomed(accounts: seq<Record>, k: Key)
    requires Distinct(accounts) && k in Desired(accounts)
    ensures Desired(accounts)[k].managed && k.kind in MANAGED_KINDS
    ensures !OrphanOrStale(ById(accounts), k.kind, Desired(accounts)[k].account)
  {
    DesiredIsUnion(accounts);
    ByIdFinds(accounts);
    var a :| a in accounts && Wants(a, k);
    assert Desired(accounts)[k] == WantedObj(a, k);
  }

  lemma CleanPassIs(c: Objects, accounts: seq<Record>)
    requires Distinct(accounts)
    ensures var d := c + Desired(accounts); CleanPass(c, accounts) == d - DoomedKeys(d, ById(accounts))
    ensures forall k | k in Desired(accounts) ::
      k in CleanPass(c, accounts) && CleanPass(c, accounts)[k] == Desired(accounts)[k]
  {
    ApplyAllIsUnion(c, accounts, Faults(false, {}, {}, {}));
    forall k | k in Desired(accounts) ensures !Doomed(c + Desired(accounts), ById(accounts), k) {
      DesiredIsNotDoomed(accounts, k);
    }
  }

  /**
   * A pass in which no call throws leaves exactly the desired objects as the managed objects of the four
   * kinds, for every cluster it may find, if and only if there was no stray object.
   */
  lemma ConvergesExactly(c: Objects, accounts: seq<Record>)
    requires Distinct(accounts)
    ensures IsDesiredUnion(accounts, ManagedPart(CleanPass(c, accounts))) <==>
      forall k | k in c :: !Stray(c, accounts, k)
  {
    DesiredIsUnion(accounts);
    var m := ManagedPart(CleanPass(c, accounts));
    forall k ensures k in m <==> k in Desired(accounts) || (k in c && Stray(c, accounts, k)) {
      ManagedAfter(c, accounts, k);
    }
    forall k | k in Desired(accounts) ensures m[k] == Desired(accounts)[k] {
      ManagedAfter(c, accounts, k);
    }
    StraysDecide(m, Desired(accounts), accounts, c);
  }

  lemma ManagedDesired(c: Objects, accounts: seq<Record>, k: Key)
    requires Distinct(accounts) && k in Desired(accounts)
    ensures var m := ManagedPart(CleanPass(c, accounts)); k in m && m[k] == Desired(accounts)[k]
  {
    CleanPassIs(c, accounts);
    DesiredIsNotDoomed(accounts, k);
  }

  lemma ManagedOther(c: Objects, accounts: seq<Record>, k: Key)
    requires Distinct(accounts) && k !in Desired(accounts)
    ensures k in ManagedPart(CleanPass(c, accounts)) <==> k in c && Stray(c, accounts, k)
  {
    CleanPassIs(c, accounts);
    DesiredIsUnion(accounts);
    if k in c {
      assert (c + Desired(accounts))[k] == c[k];
    }
  }

  /** What a clean pass leaves managed at a key: what is desired there, or a stray. */
  lemma ManagedAfter(c: Objects, accounts: seq<Record>, k: Key)
    requires Distinct(accounts)
    ensures var m := ManagedPart(CleanPass(c, accounts));
      && (k in m <==> k in Desired(accounts) || (k in c && Stray(c, accounts, k)))
      && (k in Desired(accounts) ==> m[k] == Desired(accounts)[k])
  {
    if k in Desired(accounts) {
      ManagedDesired(c, accounts, k);
    } else {
      ManagedOther(c, accounts, k);
    }
  }

  /** The desired objects and the strays together are the desired objects exactly if there is no stray. */
  lemma StraysDecide(m: Objects, d: Objects, accounts: seq<Record>, c: Objects)
    requires IsDesiredUnion(accounts, d)
    requires forall k :: k in m <==> k in d || (k in c && Stray(c, accounts, k))
    requires forall k | k in d :: k in m && m[k] == d[k]
    ensures IsDesiredUnion(accounts, m) <==> forall k | k in c :: !Stray(c, accounts, k)
  {
    if forall k | k in c :: !Stray(c, accounts, k) {
      forall k ensures k in m <==> IsDesired(accounts, k) {
        assert k in m <==> k in d;
      }
    } else {
      var k :| k in c && Stray(c, accounts, k);
      assert k in m && !IsDesired(accounts, k);
    }
  }

  /**
   * Such an object keeps a pass from converging: a managed Service labelled with a known account under
   * another name. It is not desired, it is not an orphan, and it is there after every pass.
   */
  lemma StrayStays(a: Record, name: string)
    requires IsAccountId(a.id) && name != WorkerName(a.id)
    ensures var k := Key(Service, name); var c: Objects := map[k := Labelled(a, Route(a.id))];
      && Stray(c, [a], k) && k in CleanPass(c, [a])
      && !IsDesiredUnion([a], ManagedPart(CleanPass(c, [a])))
  {
    var k := Key(Service, name);
    var c: Objects := map[k := Labelled(a, Route(a.id))];
    ByIdFinds([a]);
    assert a in [a] && a.id != "";
    assert !IsDesired([a], k);
    assert Stray(c, [a], k);
    ConvergesExactly(c, [a]);
    CleanPassIs(c, [a]);
    DesiredIsUnion([a]);
    assert (c + Desired([a]))[k] == c[k];
  }

  /** Every managed object is named after its label, as the manifests name them. */
  predicate WellNamed(c: Objects) {
    forall k | k in c && Listed(c, k) :: c[k].account.Some? && k.name == WorkerName(c[k].account.value)
  }

  /** In a cluster whose objects are named after their labels, and with ids the manifests accept, nothing is stray. */
  lemma WellNamedConverges(c: Objects, accounts: seq<Record>)
    requires Distinct(accounts) && WellNamed(c) && forall a | a in accounts :: IsAccountId(a.id)
    ensures IsDesiredUnion(accounts, ManagedPart(CleanPass(c, accounts)))
  {
    ByIdFinds(accounts);
    forall k | k in c && Listed(c, k) && !OrphanOrStale(ById(accounts), k.kind, c[k].account)
      ensures IsDesired(accounts, k) {
      var a := ById(accounts)[c[k].account.value];
      assert a in accounts && Wants(a, k);
    }
    ConvergesExactly(c, accounts);
  }

  /** An immediate second pass deletes nothing and changes nothing. */
  lemma SecondPassIsIdle(c: Objects, accounts: seq<Record>)
    requires Distinct(accounts)
    ensures var r := CleanPass(c, accounts);
      && ApplyAll(r, accounts, Faults(false, {}, {}, {})) == r
      && DoomedKeys(r, ById(accounts)) == {}
      && CleanPass(r, accounts) == r
  {
    var r := CleanPass(c, accounts);
    CleanPassIs(c, accounts);
    ApplyAllIsUnion(r, accounts, Faults(false, {}, {}, {}));
    assert r + Desired(accounts) == r;
    forall k | k in r ensures !Doomed(r, ById(accounts), k) {}
  }

  // ------------------------------------------------------------------ what a clean pass leaves

  lemma ServedByDesired(c: Objects, accounts: seq<Record>, a: Record, kind: Kind)
    requires Distinct(accounts) && a in accounts && IsAccountId(a.id)
    requires kind == StatefulSet || kind == Service || kind == NetworkPolicy
      || (kind == IngressRoute && a.status == Invites.Active)
    ensures var k := Key(kind, "tgw-" + a.id); var d := CleanPass(c, accounts);
      k in d && d[k] == Labelled(a, if kind == StatefulSet then WorkerSpec(a) else Route(a.id))
  {
    var k := Key(kind, WorkerName(a.id));
    DesiredIsUnion(accounts);
    CleanPassIs(c, accounts);
    assert Wants(a, k);
    assert IsDesired(accounts, k);
  }

  lemma InactiveHasNoRoute(c: Objects, accounts: seq<Record>, a: Record)
    requires Distinct(accounts) && a in accounts && a.status != Invites.Active
    ensures NoRoute(a, CleanPass(c, accounts))
  {
    ByIdFinds(accounts);
    var d := CleanPass(c, accounts);
    forall k | k in d && k.kind == IngressRoute && d[k].managed ensures d[k].account != Some(a.id) {
      SecondPassIsIdle(c, accounts);
      assert k !in DoomedKeys(d, ById(accounts));
    }
  }

  /** After a clean pass every account of the list with a valid id is served as it should be. */
  lemma EveryAccountIsServed(c: Objects, accounts: seq<Record>, a: Record)
    requires Distinct(accounts) && a in accounts && IsAccountId(a.id)
    ensures Served(a, CleanPass(c, accounts))
  {
    WorkerIsAsked(a);
    ServedByDesired(c, accounts, a, StatefulSet);
    ServedByDesired(c, accounts, a, Service);
    ServedByDesired(c, accounts, a, NetworkPolicy);
    if a.status == Invites.Active {
      ServedByDesired(c, accounts, a, IngressRoute);
    } else {
      InactiveHasNoRoute(c, accounts, a);
    }
  }

  lemma UnaccountedIs(accounts: seq<Record>, k: Key, o: Obj)
    requires Distinct(accounts) && k.kind in MANAGED_KINDS
    ensures Unaccounted(accounts, k, o) <==> o.managed && OrphanOrStale(ById(accounts), k.kind, o.account)
  {
    ByIdFinds(accounts);
    if o.account.Some? && o.account.value in ById(accounts) {
      var a := ById(accounts)[o.account.value];
      assert a in accounts && o.account == Some(a.id);
      forall b | b in accounts && o.account == Some(b.id) ensures b == a {}
    }
  }

  /** Where nothing is desired a clean pass removes exactly what nobody accounts for, and changes nothing. */
  lemma OthersStayExactly(c: Objects, accounts: seq<Record>, k: Key)
    requires Distinct(accounts) && !IsDesired(accounts, k)
    ensures var d := CleanPass(c, accounts);
      && (k in d <==> k in c && !Unaccounted(accounts, k, c[k]))
      && (k in d ==> d[k] == c[k])
  {
    CleanPassIs(c, accounts);
    DesiredIsUnion(accounts);
    if k in c {
      assert (c + Desired(accounts))[k] == c[k];
      if k.kind != Secret {
        UnaccountedIs(accounts, k, c[k]);
      }
    }
  }

  // ------------------------------------------------------------------ what no pass deletes

  /** What stands at a key after applying: what stood there, or what its account wants. */
  lemma {:induction false} AppliedOrOld(c: Objects, accounts: seq<Record>, f: Faults, k: Key)
    ensures var r := ApplyAll(c, accounts, f);
      && (k in c ==> k in r)
      && (k in r ==> (k in c && r[k] == c[k]) || exists a :: a in accounts && Wants(a, k) && r[k] == WantedObj(a, k))
    decreases |accounts|
  {
    if accounts != [] {
      var front, last := accounts[..|accounts| - 1], accounts[|accounts| - 1];
      AppliedOrOld(c, front, f, k);
      assert accounts == front + [last];
      if IsAccountId(last.id) {
        WantedOnly(ApplyAll(c, front, f), last, DesiredObjects(last).value, f, k);
      }
    }
  }

  lemma {:induction false} WantedOnly(c: Objects, a: Record, objs: seq<(Key, Obj)>, f: Faults, k: Key)
    requires forall o | o in objs :: Wants(a, o.0) && o.1 == WantedObj(a, o.0)
    ensures var r := ApplyObjects(c, objs, f);
      && (k in c ==> k in r)
      && (k in r ==> (k in c && r[k] == c[k]) || (Wants(a, k) && r[k] == WantedObj(a, k)))
    decreases |objs|
  {
    if objs != [] && objs[0].0 !in f.apply {
      assert objs[0] in objs;
      WantedOnly(c[objs[0].0 := objs[0].1], a, objs[1..], f, k);
    }
  }

  /**
   * Whatever throws, a pass never dooms a Secret or an unmanaged object, and it dooms a desired key only
   * if its apply did not get through and the object found there carries no live label of its own.
   */
  lemma SparedAlways(c: Objects, accounts: seq<Record>, f: Faults, k: Key)
    requires Distinct(accounts) && Doomed(ApplyAll(c, accounts, f), ById(accounts), k)
    ensures !k.kind.Secret?
    ensures k in c && c[k].managed && ApplyAll(c, accounts, f)[k] == c[k]
    ensures OrphanOrStale(ById(accounts), k.kind, c[k].account)
    ensures f.apply == {} ==> !IsDesired(accounts, k)
  {
    var r := ApplyAll(c, accounts, f);
    AppliedOrOld(c, accounts, f, k);
    DesiredIsUnion(accounts);
    ByIdFinds(accounts);
    if f.apply == {} {
      ApplyAllIsUnion(c, accounts, f);
      if IsDesired(accounts, k) {
        DesiredIsNotDoomed(accounts, k);
      }
    }
  }
}
