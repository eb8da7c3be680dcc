/** What a failure-free reconcile of a namespace leaves, field by field: annotations, the objects
    that go, and the objects that are written. */
module Fields {
  import opened Names
  import opened Kube
  import opened Watcher
  import opened Resources
  import opened Controller
  import opened Weather
  import opened Ideal
  import opened Refinement
  import opened Listings
  import opened Manifests
  import Refusals

  // ---------- Which kinds a listing gets ----------

  /** Discovery offers the kind for listing. */
  ghost predicate CanList(w: World, group: string, kind: string) {
    exists l <- w.discovery, r <- l.resources, v :: ListableAs(l, r, Gvk(group, v, kind))
  }

  /** Discovery offers the kind for watching, in a version that the server lists. */
  ghost predicate CanSweep(w: World, group: string, kind: string) {
    exists l <- w.discovery, r <- l.resources, v ::
      Watchable(l, r, Gvk(group, v, kind)) && Gvk(group, v, kind) in w.listable
  }

  lemma ListedFields(w: World, group: string, kind: string)
    ensures Listed(w, ByList, w.discovery, group, kind) <==> CanList(w, group, kind)
    ensures Listed(w, ByWatch, w.discovery, group, kind) <==> CanSweep(w, group, kind)
  {
    ListIsField(w, group, kind);
    WatchIsField(w, group, kind);
  }

  lemma ListIsField(w: World, group: string, kind: string)
    ensures Listed(w, ByList, w.discovery, group, kind) <==> CanList(w, group, kind)
  {
    if Listed(w, ByList, w.discovery, group, kind) {
      var l :| l in w.discovery && ListedBy(w, ByList, l, group, kind);
      var gv := ParseGroupVersion(l.groupVersion).gv;
      var r :| r in l.resources && Selects(w, ByList, gv, r) && r.kind == kind;
      assert ListableAs(l, r, Gvk(group, gv.version, kind));
    }
    if CanList(w, group, kind) {
      var l, r, v :| l in w.discovery && r in l.resources && ListableAs(l, r, Gvk(group, v, kind));
      assert Selects(w, ByList, GroupVersion(group, v), r);
      assert ListedBy(w, ByList, l, group, kind);
    }
  }

  lemma WatchIsField(w: World, group: string, kind: string)
    ensures Listed(w, ByWatch, w.discovery, group, kind) <==> CanSweep(w, group, kind)
  {
    if Listed(w, ByWatch, w.discovery, group, kind) {
      var l :| l in w.discovery && ListedBy(w, ByWatch, l, group, kind);
      var gv := ParseGroupVersion(l.groupVersion).gv;
      var r :| r in l.resources && Selects(w, ByWatch, gv, r) && r.kind == kind;
      assert Watchable(l, r, Gvk(group, gv.version, kind));
    }
    if CanSweep(w, group, kind) {
      var l, r, v :| l in w.discovery && r in l.resources && Watchable(l, r, Gvk(group, v, kind))
                     && Gvk(group, v, kind) in w.listable;
      assert Selects(w, ByWatch, GroupVersion(group, v), r);
      assert ListedBy(w, ByWatch, l, group, kind);
    }
  }

  // ---------- What a switch cleanup takes ----------

  /** The object is the previous class's, its kind is listed, and, while that class exists, no
      readable entry of the target has its kind and name. */
  ghost predicate ToGo(w: World, s: State, previous: string, spec: seq<RawResource>, id: ObjectId, obj: Object) {
    && OwnerOf(obj) == previous
    && if previous in s.classes then CanList(w, id.group, id.kind) && !Mentions(spec, id.kind, id.name)
       else CanSweep(w, id.group, id.kind)
  }

  lemma StaleFields(w: World, s: State, previous: string, spec: seq<RawResource>, id: ObjectId, obj: Object)
    requires ValidId(id)
    ensures Stale(w, previous, s.classes.Keys, spec, id, obj) <==> ToGo(w, s, previous, spec, id, obj)
  {
    ListedFields(w, id.group, id.kind);
    KeptIsMentioned(spec, id.kind, id.name);
  }

  /** Without failures an object of the namespace is gone after the switch cleanup if and only if
      the previous class owned it, its kind is listed, and, while that class exists, no readable
      entry of the target has its kind and name; what stays is as it was. */
  lemma SwitchCleanupTakes(w: World, s: State, n: string, previous: string, c: string, id: ObjectId)
    requires Steady(w) && WorldOk(w) && Wf(s) && n in s.namespaces && c in s.classes
    requires Up(w, CleanupPrevious(w, s, n, previous, c).state) && id in s.namespaces[n].objects
    ensures var t := CleanupPrevious(w, s, n, previous, c).state;
            && n in t.namespaces
            && (id !in t.namespaces[n].objects <==>
               ToGo(w, s, previous, s.classes[c].spec, id, s.namespaces[n].objects[id].obj))
            && (id in t.namespaces[n].objects ==> t.namespaces[n].objects[id] == s.namespaces[n].objects[id])
  {
    SwitchCleanupIsExact(w, s, n, previous, c);
    StaleFields(w, s, previous, s.classes[c].spec, id, s.namespaces[n].objects[id].obj);
    assert ValidId(id);
  }

  /** In any weather: while the previous class exists, the cleanup of a switch leaves every object
      of a namespace that is still there alone whose kind and name a readable entry of the target
      has. */
  lemma MentionedStays(w: World, s: State, n: string, previous: string, c: string, id: ObjectId)
    requires previous in s.classes && c in s.classes && ValidId(id) && Mentions(s.classes[c].spec, id.kind, id.name)
    ensures SameObject(s, CleanupPrevious(w, s, n, previous, c).state, n, id)
  {
    var spec := s.classes[c].spec;
    Refusals.CleanupLoses(w, s, n, previous, c, id);
    KeptIsMentioned(spec, id.kind, id.name);
    if Refusals.CleanedAway(w, s, n, previous, c, id) {
      var ids := Managed(w, GetClass(w, s, previous).state, n, previous);
      Refusals.ManagedLoses(w, GetClass(w, s, previous).state, n, previous, id);
      var target := GetClass(w, ids.state, c);
      Refusals.ErasedIsFound(w, target.state, n, KeepKeys(spec), ids.value.value, id);
    }
  }

  // ---------- A whole reconcile ----------

  /** The first entry that the server does not take is entry k: bytes that are no manifest, a type
      that is not served, or a name that is empty or holds a slash. */
  ghost predicate FirstRejected(w: World, spec: seq<RawResource>, k: nat) {
    && k <= |spec| && (forall i | 0 <= i < k :: Accepts(w, spec[i]))
    && (k < |spec| ==> !Accepts(w, spec[k]))
  }

  predicate Accepts(w: World, r: RawResource) {
    r.Manifest? && r.gvk in w.served && r.name != "" && '/' !in r.name
  }

  lemma RejectedIsCount(w: World, spec: seq<RawResource>, k: nat)
    requires FirstRejected(w, spec, k)
    ensures Count(w, spec) == k
  {
    forall i | 0 <= i < |spec| ensures Accepts(w, spec[i]) <==> Applicable(w, spec[i]) {}
  }

  /** The class that a reconcile with class c switches away from. */
  function Leaves(a: Annotations, c: string): string {
    var current := Lookup(a, Current);
    if Lookup(a, LastApplied) != "" && current != c then current else ""
  }

  /** The annotations of a reconciled namespace: it has class c; it was first given c, or c as it
      still is, or it comes from the class recorded as last applied. Other annotations stay. */
  ghost predicate AnnotationsAfter(before: Annotations, after: Annotations, c: string) {
    var last, current := Lookup(before, LastApplied), Lookup(before, Current);
    && Lookup(after, Current) == c
    && Lookup(after, LastApplied) == (if last == "" then c else if current in {"", c} then last else current)
    && after - {LastApplied, Current} == before - {LastApplied, Current}
  }

  lemma SettledAnnotationsAre(v: NsView, c: string)
    requires c != ""
    ensures AnnotationsAfter(v.annotations, SettledAnnotations(v, c), c)
    ensures SwitchedFrom(v, c) == Leaves(v.annotations, c)
  {}

  /** Object id after the reconcile: written by the last of the first k entries that writes it, or
      else gone with the class that was left, or else as it was. */
  ghost predicate ObjectAfter(w: World, s: State, before: NsView, after: NsView, c: string, spec: seq<RawResource>,
                              k: nat, j: nat, id: ObjectId)
    requires k <= |spec|
  {
    var previous := Leaves(before.annotations, c);
    && (!before.deleting && WritesLast(spec, k, j, id) ==>
          id in after.objects && Carries(after.objects[id], spec[j], c))
    && (before.deleting || Unwritten(spec, k, id) ==>
          && (id in after.objects <==>
             id in before.objects && !(previous != "" && ToGo(w, s, previous, spec, id, before.objects[id])))
          && (id in after.objects ==> after.objects[id] == before.objects[id]))
  }

  lemma SettleObject(w: World, s: State, v: NsView, c: string, spec: seq<RawResource>, k: nat, j: nat, id: ObjectId)
    requires c != "" && k == Count(w, spec) <= |spec| && ValidId(id)
    ensures ObjectAfter(w, s, v, Settle(w, v, c, spec, s.classes.Keys), c, spec, k, j, id)
  {
    var kept := Kept(w, v, c, spec, s.classes.Keys);
    SettledAnnotationsAre(v, c);
    AppliedAt(kept, c, spec, k, j, id);
    if id in v.objects {
      StaleFields(w, s, SwitchedFrom(v, c), spec, id, v.objects[id]);
    }
  }

  /** A failure-free reconcile, of whatever namespace with whatever spec: every annotation, the
      label and the deletion mark, and every object. */
  lemma ReconcileFields(w: World, s: State, n: string, c: string, k: nat, j: nat, id: ObjectId)
    requires AlwaysCalm(w) && WorldOk(w) && Wf(s) && n in s.namespaces && c in s.classes && ValidId(id)
    requires FirstRejected(w, s.classes[c].spec, k)
    ensures var t := WithClass(w, s, n, c, s.classes[c].spec).state;
            && n in t.namespaces
            && var before, after := ViewNs(s.namespaces[n]), ViewNs(t.namespaces[n]);
               && after.classLabel == before.classLabel && after.deleting == before.deleting
               && AnnotationsAfter(before.annotations, after.annotations, c)
               && ObjectAfter(w, s, before, after, c, s.classes[c].spec, k, j, id)
  {
    var v, spec := ViewNs(s.namespaces[n]), s.classes[c].spec;
    CalmSettles(w, s, n, c);
    RejectedIsCount(w, spec, k);
    SettledAnnotationsAre(v, c);
    SettleObject(w, s, v, c, spec, k, j, id);
  }
}
