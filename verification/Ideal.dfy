/** What an undisturbed reconcile means, without resource versions, call counts or
    listings: objects are removed by predicate and written by last writer. */
module Ideal {
  import opened Names
  import opened Kube
  import opened Resources
  import opened Statuses
  import opened Controller
  import opened Weather

  type Objects = map<ObjectId, Object>
  datatype NsView = NsView(classLabel: string, annotations: Annotations, deleting: bool, objects: Objects)
  datatype ClassView = ClassView(spec: seq<RawResource>, finalizers: seq<Kube.Finalizer>, deleting: bool,
    status: StatusMap)
  datatype View = View(namespaces: map<string, NsView>, classes: map<string, ClassView>)

  ghost predicate SameAt(a: Objects, b: Objects, id: ObjectId) {
    (id in a <==> id in b) && (id in a ==> a[id] == b[id])
  }

  function Contents(objects: map<ObjectId, Stored>): Objects {
    map id | id in objects :: objects[id].obj
  }

  function ViewNs(cell: Cell): NsView {
    NsView(cell.meta.classLabel, cell.meta.annotations, cell.meta.deleting, Contents(cell.objects))
  }

  function ViewClass(nc: Class): ClassView {
    ClassView(nc.spec, nc.finalizers, nc.deleting, LookupMap(nc.status.namespaces))
  }

  function ViewOf(s: State): View {
    View(map n | n in s.namespaces :: ViewNs(s.namespaces[n]), map c | c in s.classes :: ViewClass(s.classes[c]))
  }

  // ---------- Applying a spec ----------

  /** The server takes the entry: readable, of a served kind, with a valid name. */
  predicate Applicable(w: World, r: RawResource) {
    r.Manifest? && r.gvk in w.served && ValidName(r.name)
  }

  function CountFrom(w: World, spec: seq<RawResource>, i: nat): (k: nat)
    requires i <= |spec|
    ensures i <= k <= |spec|
    ensures forall j | i <= j < k :: Applicable(w, spec[j])
    ensures k < |spec| ==> !Applicable(w, spec[k])
    decreases |spec| - i
  {
    if i == |spec| || !Applicable(w, spec[i]) then i else CountFrom(w, spec, i + 1)
  }

  /** How many leading entries apply before the loop stops. */
  function Count(w: World, spec: seq<RawResource>): nat {
    CountFrom(w, spec, 0)
  }

  predicate Writes(r: RawResource, id: ObjectId) {
    r.Manifest? && IdOf(r.gvk, r.name) == id
  }

  /** The objects after the first k entries have been applied. */
  function Apply(objects: Objects, c: string, spec: seq<RawResource>, k: nat): Objects
    requires k <= |spec|
  {
    if k == 0 then objects else
      var r := spec[k - 1];
      var before := Apply(objects, c, spec, k - 1);
      if r.Manifest? then before[IdOf(r.gvk, r.name) := Prepared(r, c)] else before
  }

  /** The last of the first k entries that writes id, or -1. */
  function LastWriter(spec: seq<RawResource>, k: nat, id: ObjectId): (j: int)
    requires k <= |spec|
    ensures -1 <= j < k
    ensures 0 <= j ==> Writes(spec[j], id)
    ensures forall i | j < i < k :: !Writes(spec[i], id)
  {
    if k == 0 then -1 else if Writes(spec[k - 1], id) then k - 1 else LastWriter(spec, k - 1, id)
  }

  /** Last writer wins: each key of the applied entries holds its last manifest with the
      owner label forced, and every other key what it held before. */
  lemma {:induction false} ApplyAt(objects: Objects, c: string, spec: seq<RawResource>, k: nat, id: ObjectId)
    requires k <= |spec|
    ensures var j := LastWriter(spec, k, id);
            var after := Apply(objects, c, spec, k);
            if j >= 0 then id in after && after[id] == Prepared(spec[j], c)
            else (id in after <==> id in objects) && (id in after ==> after[id] == objects[id])
  {
    if k > 0 {
      ApplyAt(objects, c, spec, k - 1, id);
    }
  }

  /** Applying a spec on top of any part of it already applied is applying it once. */
  lemma ApplyAgain(objects: Objects, c: string, spec: seq<RawResource>, j: nat, k: nat)
    requires j <= k <= |spec|
    ensures Apply(Apply(objects, c, spec, j), c, spec, k) == Apply(objects, c, spec, k)
  {
    var part := Apply(objects, c, spec, j);
    forall id ensures id in Apply(part, c, spec, k) <==> id in Apply(objects, c, spec, k)
              ensures id in Apply(part, c, spec, k) ==> Apply(part, c, spec, k)[id] == Apply(objects, c, spec, k)[id] {
      ApplyAt(objects, c, spec, j, id);
      ApplyAt(part, c, spec, k, id);
      ApplyAt(objects, c, spec, k, id);
    }
  }

  // ---------- One namespace ----------

  /** The class a reconcile with class c switches away from, or "". */
  function SwitchedFrom(v: NsView, c: string): string {
    var current := Lookup(v.annotations, Current);
    if Lookup(v.annotations, LastApplied) == "" || current == c then "" else current
  }

  function SettledAnnotations(v: NsView, c: string): Annotations {
    if Lookup(v.annotations, LastApplied) == "" then SetBoth(v.annotations, c, c)
    else if Lookup(v.annotations, Current) == c then v.annotations
    else Swap(v.annotations, c)
  }

  /** What the switch cleanup removes. While the previous class exists: its listed objects
      whose kind and name the target spec does not mention. Otherwise: all its watched objects. */
  ghost predicate Stale(w: World, previous: string, known: set<string>, spec: seq<RawResource>, id: ObjectId,
                        obj: Object) {
    && OwnerOf(obj) == previous
    && if previous in known
       then Listed(w, ByList, w.discovery, id.group, id.kind) && KindName(id.kind, id.name) !in KeepKeys(spec)
       else Listed(w, ByWatch, w.discovery, id.group, id.kind)
  }

  ghost function Trim(w: World, objects: Objects, previous: string, known: set<string>,
                      spec: seq<RawResource>): Objects {
    map id | id in objects && !Stale(w, previous, known, spec, id, objects[id]) :: objects[id]
  }

  /** The objects left for the apply loop. */
  ghost function Kept(w: World, v: NsView, c: string, spec: seq<RawResource>, known: set<string>): Objects {
    if SwitchedFrom(v, c) == "" then v.objects else Trim(w, v.objects, SwitchedFrom(v, c), known, spec)
  }

  /** The namespace once its annotations are settled and k entries are applied. */
  ghost function Progress(w: World, v: NsView, c: string, spec: seq<RawResource>, known: set<string>, k: nat): NsView
    requires k <= |spec|
  {
    var kept := Kept(w, v, c, spec, known);
    v.(annotations := SettledAnnotations(v, c), objects := if v.deleting then kept else Apply(kept, c, spec, k))
  }

  /** A complete reconcile of a namespace with class c. */
  ghost function Settle(w: World, v: NsView, c: string, spec: seq<RawResource>, known: set<string>): NsView {
    Progress(w, v, c, spec, known, Count(w, spec))
  }

  /** A complete reconcile that switched classes and records the switch in the status. */
  predicate Recorded(w: World, v: NsView, c: string, spec: seq<RawResource>) {
    SwitchedFrom(v, c) != "" && (v.deleting || Count(w, spec) == |spec|)
  }

  function RecordedStatus(w: World, v: NsView, n: string, c: string, spec: seq<RawResource>,
                          status: StatusMap): StatusMap {
    if Recorded(w, v, c, spec) then status[n := SwitchedEntry(n, c, SwitchedFrom(v, c), status)] else status
  }

  /** What an interrupted reconcile may leave: the old annotations with part of the stale
      objects gone, or the settled annotations with part of the spec applied. */
  ghost predicate Interrupted(w: World, v: NsView, x: NsView, c: string, spec: seq<RawResource>, known: set<string>) {
    || (&& x == v.(objects := x.objects)
        && (forall id <- x.objects :: id in v.objects && x.objects[id] == v.objects[id])
        && (forall id <- Kept(w, v, c, spec, known) :: id in x.objects))
    || (exists k: nat :: k <= Count(w, spec) && x == Progress(w, v, c, spec, known, k))
  }

  lemma SettledIsSettled(v: NsView, c: string)
    requires c != ""
    ensures var a := SettledAnnotations(v, c); Lookup(a, LastApplied) != "" && Lookup(a, Current) == c
  {}

  /** Retrying an interrupted reconcile completes it. */
  lemma RetryCompletes(w: World, v: NsView, x: NsView, c: string, spec: seq<RawResource>, known: set<string>)
    requires c != "" && Interrupted(w, v, x, c, spec, known)
    ensures Settle(w, x, c, spec, known) == Settle(w, v, c, spec, known)
  {
    var kept := Kept(w, v, c, spec, known);
    if x == v.(objects := x.objects) && (forall id <- x.objects :: id in v.objects && x.objects[id] == v.objects[id])
       && (forall id <- kept :: id in x.objects) {
      assert Kept(w, x, c, spec, known) == kept;
    } else {
      var k: nat :| k <= Count(w, spec) && x == Progress(w, v, c, spec, known, k);
      SettledIsSettled(v, c);
      ApplyAgain(kept, c, spec, k, Count(w, spec));
    }
  }

  lemma SettleIdempotent(w: World, v: NsView, c: string, spec: seq<RawResource>, known: set<string>)
    requires c != ""
    ensures Settle(w, Settle(w, v, c, spec, known), c, spec, known) == Settle(w, v, c, spec, known)
    ensures SwitchedFrom(Settle(w, v, c, spec, known), c) == ""
  {
    assert Interrupted(w, v, Settle(w, v, c, spec, known), c, spec, known);
    RetryCompletes(w, v, Settle(w, v, c, spec, known), c, spec, known);
    SettledIsSettled(v, c);
  }
}
