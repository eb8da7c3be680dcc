/** What the apply path writes, read from the manifests themselves and in any weather. */
module Manifests {
  import opened Kube
  import opened Resources
  import opened Controller
  import opened Ideal
  import opened ApplyLoop
  import opened Sweeps
  import opened Listings
  import Statuses

  lemma PreparedCarries(r: RawResource, c: string)
    requires r.Manifest?
    ensures Carries(Prepared(r, c), r, c)
  {}

  /** The object id of namespace m, if the namespace is still there, is what it was. */
  ghost predicate SameObject(s: State, t: State, m: string, id: ObjectId) {
    m in t.namespaces ==> SameAt(ObjectsIn(s, m), ObjectsIn(t, m), id)
  }

  lemma StoresIs(s: State, n: string, c: string, r: RawResource)
    requires r.Manifest?
    ensures var id := ObjectId(r.gvk.group, r.gvk.kind, r.name);
            Stores(s, n, c, r) <==> id in ObjectsIn(s, n) && Carries(ObjectsIn(s, n)[id], r, c)
  {}

  /** Applying one manifest: if it passes, the namespace holds the manifest, and in any case no
      other object of any namespace has changed. */
  lemma ApplyOneStores(w: World, s: State, n: string, c: string, r: RawResource, m: string, id: ObjectId)
    ensures var o := ApplyOne(w, s, n, c, r);
            && (o.value.Pass? ==> r.Manifest? && Stores(o.state, n, c, r))
            && (!(o.value.Pass? && m == n && id == ObjectId(r.gvk.group, r.gvk.kind, r.name)) ==>
                  SameObject(s, o.state, m, id))
  {
    var o := ApplyOne(w, s, n, c, r);
    ApplyOneIsAtomic(w, s, n, c, r);
    if r.Manifest? {
      PreparedCarries(r, c);
    }
  }

  // ---------- The apply loop ----------

  predicate WritesTo(r: RawResource, id: ObjectId) {
    r.Manifest? && id == ObjectId(r.gvk.group, r.gvk.kind, r.name)
  }

  /** Entry j is the last of the first k that writes id. */
  ghost predicate WritesLast(spec: seq<RawResource>, k: nat, j: nat, id: ObjectId) {
    j < k <= |spec| && WritesTo(spec[j], id) && forall i | j < i < k :: !WritesTo(spec[i], id)
  }

  ghost predicate Unwritten(spec: seq<RawResource>, k: nat, id: ObjectId)
    requires k <= |spec|
  {
    forall i | 0 <= i < k :: !WritesTo(spec[i], id)
  }

  /** Key id after the first k entries: the manifest of entry j, if that is the last to write it. */
  lemma AppliedAt(objects: Objects, c: string, spec: seq<RawResource>, k: nat, j: nat, id: ObjectId)
    requires k <= |spec|
    ensures WritesLast(spec, k, j, id) ==>
              id in Apply(objects, c, spec, k) && Carries(Apply(objects, c, spec, k)[id], spec[j], c)
    ensures Unwritten(spec, k, id) ==> SameAt(objects, Apply(objects, c, spec, k), id)
  {
    ApplyAt(objects, c, spec, k, id);
    forall i | 0 <= i < k ensures Writes(spec[i], id) <==> WritesTo(spec[i], id) {}
    if WritesLast(spec, k, j, id) {
      assert LastWriter(spec, k, id) == j;
      PreparedCarries(spec[j], c);
    }
  }

  predicate Live(s: State, n: string) {
    n in s.namespaces && !s.namespaces[n].meta.deleting
  }

  lemma SurvivesLive(s: State, t: State, n: string)
    requires Survives(s, t, n) && Live(t, n)
    ensures Live(s, n)
  {}

  /** What a passing apply of a spec, in namespace n, comes to at key id. */
  ghost predicate AppliedAll(s: State, t: State, n: string, c: string, spec: seq<RawResource>, j: nat, id: ObjectId) {
    && (WritesLast(spec, |spec|, j, id) ==> Stores(t, n, c, spec[j]))
    && (Unwritten(spec, |spec|, id) ==> SameObject(s, t, n, id))
  }

  lemma LoopApplies(w: World, s: State, n: string, c: string, spec: seq<RawResource>, j: nat, id: ObjectId)
    requires var r := ApplyFrom(w, s, n, c, spec, 0); r.value.Pass? && Live(r.state, n)
    ensures AppliedAll(s, ApplyFrom(w, s, n, c, spec, 0).state, n, c, spec, j, id)
  {
    var objects, r := ObjectsIn(s, n), ApplyFrom(w, s, n, c, spec, 0);
    var k, u := AppliesAPrefix(w, s, n, c, spec, 0, objects);
    if k < |spec| {
      StopsNotLive(w, u, n, c, spec, k, r);
    }
    AppliedAt(objects, c, spec, k, j, id);
    if WritesLast(spec, |spec|, j, id) {
      StoresIs(r.state, n, c, spec[j]);
    }
  }

  /** A loop that passes before its end was in a namespace that is not live. */
  lemma StopsNotLive(w: World, u: State, n: string, c: string, spec: seq<RawResource>, k: nat, r: Reply<Outcome>)
    requires k < |spec| && StopsAt(w, u, n, c, spec, k, r) && r.value.Pass?
    ensures !Live(r.state, n)
  {}

  lemma WaitSurvives(w: World, s: State, k: nat, n: string, id: ObjectId)
    ensures Survives(s, Wait(w, s, k), n) && SameObject(s, Wait(w, s, k), n, id)
  {
    WaitLoses(w, s, k, n, id);
  }

  lemma AppliedAllAfter(s: State, t: State, u: State, n: string, c: string, spec: seq<RawResource>, j: nat,
                        id: ObjectId)
    requires Live(u, n) && n in t.namespaces && SameObject(s, t, n, id) && AppliedAll(t, u, n, c, spec, j, id)
    ensures AppliedAll(s, u, n, c, spec, j, id)
  {}

  /** reconcileNamespaceClassResources, in any weather, for a namespace that is live afterwards:
      if it passes, each key holds the manifest of the last entry that writes it, as written, and
      every other key what it held. */
  lemma PassingApply(w: World, s: State, n: string, c: string, spec: seq<RawResource>, j: nat, id: ObjectId)
    requires var r := ApplyClass(w, s, n, c, spec, false); r.value.Pass? && Live(r.state, n)
    ensures var t := ApplyClass(w, s, n, c, spec, false).state;
            n in s.namespaces && AppliedAll(s, t, n, c, spec, j, id)
  {
    var ns := GetNamespace(w, s, n);
    var r := ApplyClass(w, s, n, c, spec, false);
    ArriveLoses(w, s, n, id);
    if ns.value.Ok? && !ns.value.value.deleting && spec != [] {
      var k := ManagedWaits(w, ns.state, n, c);
      var u := Managed(w, ns.state, n, c).state;
      WaitSurvives(w, ns.state, k, n, id);
      LoopApplies(w, u, n, c, spec, j, id);
      LoopSurvives(w, u, n, c, spec);
      AppliedAllAfter(ns.state, u, r.state, n, c, spec, j, id);
      AppliedAllAfter(s, ns.state, r.state, n, c, spec, j, id);
    }
  }

  lemma LoopSurvives(w: World, s: State, n: string, c: string, spec: seq<RawResource>)
    ensures Survives(s, ApplyFrom(w, s, n, c, spec, 0).state, n)
  {
    var k, u := AppliesAPrefix(w, s, n, c, spec, 0, ObjectsIn(s, n));
  }

  // ---------- One namespace with its class ----------

  /** Namespace n, if it is still there, is no livelier than it was, and its object id is what it was. */
  ghost predicate Stays(s: State, t: State, n: string, id: ObjectId) {
    (Live(t, n) ==> Live(s, n)) && SameObject(s, t, n, id)
  }

  lemma ArriveStays(w: World, s: State, n: string, id: ObjectId)
    ensures Stays(s, Arrive(w, s), n, id)
  {
    ArriveLoses(w, s, n, id);
  }

  lemma PatchStays(w: World, s: State, c: string, status: Status, n: string, id: ObjectId)
    ensures Stays(s, PatchStatus(w, s, c, status).state, n, id)
  {
    ArriveStays(w, s, n, id);
  }

  lemma RecordStays(w: World, s: State, n: string, c: string, previous: string, id: ObjectId)
    ensures Stays(s, Statuses.RecordSwitch(w, s, n, c, previous).state, n, id)
  {
    var latest := GetClass(w, s, c);
    ArriveStays(w, s, n, id);
    if latest.value.Ok? {
      var list := latest.value.value.status.namespaces;
      PatchStays(w, latest.state, c, Status(latest.value.value.generation, true,
        Statuses.SwitchEntries(list, Statuses.LookupMap(list), n, c, previous)), n, id);
    }
  }

  /** A reconcile that passes ends with an apply that passes, and perhaps the record of a switch. */
  ghost predicate EndsInApply(w: World, u: State, r: Reply<Outcome>, n: string, c: string, spec: seq<RawResource>,
                              deleting: bool) {
    var applied := ApplyClass(w, u, n, c, spec, deleting);
    && applied.value.Pass? && r.value.Pass?
    && (r.state == applied.state
        || exists previous :: r.state == Statuses.RecordSwitch(w, applied.state, n, c, previous).state)
  }

  lemma WithCurrentEnds(w: World, s: State, n: string, c: string, spec: seq<RawResource>, deleting: bool,
                        current: string)
    returns (u: State)
    requires WithCurrent(w, s, n, c, spec, deleting, current).value.Pass?
    ensures EndsInApply(w, u, WithCurrent(w, s, n, c, spec, deleting, current), n, c, spec, deleting)
  {
    if current != "" && current != c {
      var updated := UpdateCurrent(w, CleanupPrevious(w, s, n, current, c).state, n, c);
      u := Triggered(updated.state, current);
    } else if current == "" {
      u := UpdateCurrent(w, s, n, c).state;
    } else {
      u := s;
    }
  }

  lemma WithClassEnds(w: World, s: State, n: string, c: string, spec: seq<RawResource>) returns (u: State)
    requires WithClass(w, s, n, c, spec).value.Pass?
    ensures GetNamespace(w, s, n).value.Ok?
    ensures EndsInApply(w, u, WithClass(w, s, n, c, spec), n, c, spec, GetNamespace(w, s, n).value.value.deleting)
  {
    var latest := GetNamespace(w, s, n);
    var meta := latest.value.value;
    if Lookup(meta.annotations, LastApplied) == "" {
      var first := SetAnnotations(w, latest.state, n, c, c);
      u := WithCurrentEnds(w, first.state, n, c, spec, meta.deleting, c);
    } else {
      u := WithCurrentEnds(w, latest.state, n, c, spec, meta.deleting, Lookup(meta.annotations, Current));
    }
  }

  lemma EndStores(w: World, u: State, r: Reply<Outcome>, n: string, c: string, spec: seq<RawResource>,
                  j: nat, id: ObjectId)
    requires EndsInApply(w, u, r, n, c, spec, false) && Live(r.state, n) && WritesLast(spec, |spec|, j, id)
    ensures Stores(r.state, n, c, spec[j])
  {
    var applied := ApplyClass(w, u, n, c, spec, false);
    if r.state != applied.state {
      var previous :| r.state == Statuses.RecordSwitch(w, applied.state, n, c, previous).state;
      RecordStays(w, applied.state, n, c, previous, id);
    }
    PassingApply(w, u, n, c, spec, j, id);
    StoresIs(applied.state, n, c, spec[j]);
    StoresIs(r.state, n, c, spec[j]);
  }

  /** reconcileNamespaceWithClass, first time, switch or repeat, in any weather: if it passes for a
      namespace that was live when it was looked up and is live afterwards, every key the spec
      writes holds the manifest of the last entry that writes it, owned by the class. */
  lemma PassingReconcileStores(w: World, s: State, n: string, c: string, spec: seq<RawResource>, j: nat, id: ObjectId)
    requires var latest := GetNamespace(w, s, n).value; latest.Ok? && !latest.value.deleting
    requires var r := WithClass(w, s, n, c, spec); r.value.Pass? && Live(r.state, n)
    requires WritesLast(spec, |spec|, j, id)
    ensures Stores(WithClass(w, s, n, c, spec).state, n, c, spec[j])
  {
    var u := WithClassEnds(w, s, n, c, spec);
    EndStores(w, u, WithClass(w, s, n, c, spec), n, c, spec, j, id);
  }
}
