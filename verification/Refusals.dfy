/** A namespace reconcile in which calls are refused, or discovery answered in part, here and
    there: what it leaves, and exactly when a retry makes up for it. */
module Refusals {
  import opened Names
  import opened Kube
  import opened Resources
  import opened Controller
  import opened Weather
  import opened Ideal
  import opened Refinement
  import opened Sweeps
  import opened Listings
  import Example
  import Finalizer
  import Retry
  import Statuses
  import Watcher

  // ---------- The cleanup, object by object ----------

  /** Deleting x by its identifier, in state s, takes the object id: the version found for it is
      served, and the deletion is answered. */
  predicate Erases(w: World, s: State, x: ObjectId, id: ObjectId) {
    var v := DeletionVersion(w, s, x.group, x.kind);
    x == id && Gvk(x.group, v.value, x.kind) in w.served && Answered(w, v.state.calls)
  }

  lemma ReadLoses(s: State, t: State, n: string, id: ObjectId)
    requires OnlyRead(s, t)
    ensures Loses(s, t, n, id, false)
  {}

  lemma VersionLoses(w: World, s: State, n: string, group: string, kind: string, id: ObjectId)
    ensures Loses(s, DeletionVersion(w, s, group, kind).state, n, id, false)
  {
    ArriveLoses(w, s, n, id);
    ReadLoses(s, s, n, id);
  }

  lemma DeleteByKindLoses(w: World, s: State, n: string, x: ObjectId, id: ObjectId)
    ensures Loses(s, DeleteByKind(w, s, n, x.kind, x.name, x.group).state, n, id, Erases(w, s, x, id))
  {
    var v := DeletionVersion(w, s, x.group, x.kind);
    var gvk := Gvk(x.group, v.value, x.kind);
    VersionLoses(w, s, n, x.group, x.kind, id);
    OneDeletion(w, v.state, n, Finalizer.Found(gvk, x.name), id);
    LosesTrans(s, v.state, DeleteObject(w, v.state, n, gvk, x.name).state, n, id, false, Erases(w, s, x, id));
  }

  /** The loop over the identifiers takes the object id. */
  predicate ErasedBy(w: World, s: State, n: string, keep: set<string>, ids: seq<string>, id: ObjectId)
    decreases |ids|
  {
    && ids != []
    && var parts := Split(ids[0]);
       if |parts| < 3 || KindName(parts[1], parts[2]) in keep then ErasedBy(w, s, n, keep, ids[1..], id) else
       || Erases(w, s, ObjectId(parts[0], parts[1], parts[2]), id)
       || ErasedBy(w, DeleteByKind(w, s, n, parts[1], parts[2], parts[0]).state, n, keep, ids[1..], id)
  }

  lemma {:induction false} DeleteStaleLoses(w: World, s: State, n: string, keep: set<string>, ids: seq<string>,
                                            id: ObjectId)
    ensures Loses(s, DeleteStale(w, s, n, keep, ids), n, id, ErasedBy(w, s, n, keep, ids, id))
    decreases |ids|
  {
    if ids == [] {
      ReadLoses(s, s, n, id);
    } else {
      var parts := Split(ids[0]);
      if |parts| < 3 || KindName(parts[1], parts[2]) in keep {
        DeleteStaleLoses(w, s, n, keep, ids[1..], id);
      } else {
        var x := ObjectId(parts[0], parts[1], parts[2]);
        var t := DeleteByKind(w, s, n, x.kind, x.name, x.group).state;
        DeleteByKindLoses(w, s, n, x, id);
        DeleteStaleLoses(w, t, n, keep, ids[1..], id);
        LosesTrans(s, t, DeleteStale(w, t, n, keep, ids[1..]), n, id, Erases(w, s, x, id),
          ErasedBy(w, t, n, keep, ids[1..], id));
      }
    }
  }

  /** The cleanup of a switch takes the object: the old class is looked up, the object is found
      by an answered discovery and listing, the target is looked up, and a deletion is answered. */
  predicate CleanedAway(w: World, s: State, n: string, previous: string, c: string, id: ObjectId) {
    var origin := GetClass(w, s, previous);
    match origin.value
    case Err(e) => e == NotFound && SweptAway(w, origin.state, n, previous, id)
    case Ok(_) =>
      var ids := Managed(w, origin.state, n, previous);
      && ids.value.Ok?
      && var target := GetClass(w, ids.state, c);
         && target.value.Ok?
         && ErasedBy(w, target.state, n, KeepKeys(target.value.value.spec), ids.value.value, id)
  }

  lemma ManagedLoses(w: World, s: State, n: string, owner: string, id: ObjectId)
    ensures Loses(s, Managed(w, s, n, owner).state, n, id, false)
  {
    var k := ManagedWaits(w, s, n, owner);
    WaitLoses(w, s, k, n, id);
  }

  /** The switch cleanup in any weather, object by object. */
  lemma CleanupLoses(w: World, s: State, n: string, previous: string, c: string, id: ObjectId)
    ensures Loses(s, CleanupPrevious(w, s, n, previous, c).state, n, id, CleanedAway(w, s, n, previous, c, id))
  {
    var origin := GetClass(w, s, previous);
    var t := CleanupPrevious(w, s, n, previous, c).state;
    ArriveLoses(w, s, n, id);
    if origin.value == Err(NotFound) {
      SweepRemoves(w, origin.state, n, previous, [], id);
      LosesTrans(s, origin.state, t, n, id, false, CleanedAway(w, s, n, previous, c, id));
    } else if origin.value.Ok? {
      var ids := Managed(w, origin.state, n, previous);
      ManagedLoses(w, origin.state, n, previous, id);
      LosesTrans(s, origin.state, ids.state, n, id, false, false);
      var target := GetClass(w, ids.state, c);
      ArriveLoses(w, ids.state, n, id);
      LosesTrans(s, ids.state, target.state, n, id, false, false);
      DiffLoses(w, s, n, c, ids, target, id);
    }
  }

  lemma DiffLoses(w: World, s: State, n: string, c: string, ids: Reply<Result<seq<string>>>,
                  target: Reply<Result<Class>>, id: ObjectId)
    requires Loses(s, target.state, n, id, false)
    ensures ids.value.Ok? && target.value.Ok? ==>
              var keep := KeepKeys(target.value.value.spec);
              Loses(s, DeleteStale(w, target.state, n, keep, ids.value.value), n, id,
                ErasedBy(w, target.state, n, keep, ids.value.value, id))
  {
    if ids.value.Ok? && target.value.Ok? {
      var keep := KeepKeys(target.value.value.spec);
      DeleteStaleLoses(w, target.state, n, keep, ids.value.value, id);
      LosesTrans(s, target.state, DeleteStale(w, target.state, n, keep, ids.value.value), n, id, false,
                 ErasedBy(w, target.state, n, keep, ids.value.value, id));
    }
  }

  // ---------- The cleanup's frame ----------

  lemma FrameTrans(s: State, t: State, u: State, n: string)
    requires OnlyObjects(s, t, n) && OnlyObjects(t, u, n)
    ensures OnlyObjects(s, u, n)
  {}

  lemma {:induction false} DeleteFoundFrame(w: World, s: State, n: string, found: seq<Finalizer.Found>,
                                            errs: seq<Error>)
    requires Peopled(w) && n in s.namespaces
    ensures OnlyObjects(s, Finalizer.DeleteFound(w, s, n, found, errs).state, n)
    decreases |found|
  {
    if found != [] {
      var r := DeleteObject(w, s, n, found[0].gvk, found[0].name);
      var errs' := if r.value.Fail? then errs + [r.value.error] else errs;
      DeleteObjectIs(w, s, s, n, found[0].gvk, found[0].name);
      DeleteFoundFrame(w, r.state, n, found[1..], errs');
      FrameTrans(s, r.state, Finalizer.DeleteFound(w, r.state, n, found[1..], errs').state, n);
    }
  }

  lemma {:induction false} DeleteStaleFrame(w: World, s: State, n: string, keep: set<string>, ids: seq<string>)
    requires Peopled(w) && n in s.namespaces
    ensures OnlyObjects(s, DeleteStale(w, s, n, keep, ids), n)
    decreases |ids|
  {
    if ids != [] {
      var parts := Split(ids[0]);
      if |parts| < 3 || KindName(parts[1], parts[2]) in keep {
        DeleteStaleFrame(w, s, n, keep, ids[1..]);
      } else {
        var v := DeletionVersion(w, s, parts[0], parts[1]);
        var t := DeleteByKind(w, s, n, parts[1], parts[2], parts[0]).state;
        DeletionVersionReads(w, s, parts[0], parts[1]);
        DeleteObjectIs(w, s, v.state, n, Gvk(parts[0], v.value, parts[1]), parts[2]);
        DeleteStaleFrame(w, t, n, keep, ids[1..]);
        FrameTrans(s, t, DeleteStale(w, t, n, keep, ids[1..]), n);
      }
    }
  }

  lemma {:induction false} WaitReads(w: World, s: State, k: nat)
    requires Peopled(w)
    ensures OnlyRead(s, Wait(w, s, k))
    decreases k
  {
    if k > 0 {
      WaitReads(w, Arrive(w, s), k - 1);
    }
  }

  lemma CleanupFrame(w: World, s: State, n: string, previous: string, c: string)
    requires Peopled(w) && n in s.namespaces
    ensures OnlyObjects(s, CleanupPrevious(w, s, n, previous, c).state, n)
  {
    var origin := GetClass(w, s, previous);
    assert OnlyRead(s, origin.state);
    if origin.value == Err(NotFound) {
      var found := Finalizer.Labelled(w, origin.state, n, previous);
      LabelledWaits(w, origin.state, n, previous);
      WaitReads(w, origin.state, 1 + |Watcher.Suitable(Discovered(w, origin.state.calls))|);
      DeleteFoundFrame(w, found.state, n, found.value, []);
      FrameTrans(s, found.state, Finalizer.DeleteFound(w, found.state, n, found.value, []).state, n);
    } else if origin.value.Ok? {
      var ids := Managed(w, origin.state, n, previous);
      ManagedReads(w, origin.state, n, previous);
      var target := GetClass(w, ids.state, c);
      assert OnlyRead(s, target.state);
      if ids.value.Ok? && target.value.Ok? {
        var keep := KeepKeys(target.value.value.spec);
        DeleteStaleFrame(w, target.state, n, keep, ids.value.value);
        FrameTrans(s, target.state, DeleteStale(w, target.state, n, keep, ids.value.value), n);
      }
    }
  }

  // ---------- Only stale objects are taken ----------

  lemma {:induction false} DeletesFound(w: World, k: nat, found: seq<Finalizer.Found>, id: ObjectId)
    requires Deletes(w, k, found, id)
    ensures exists f <- found :: IdOf(f.gvk, f.name) == id
    decreases |found|
  {
    if !Takes(w, k, found[0], id) {
      DeletesFound(w, k + 1, found[1..], id);
    }
  }

  lemma {:induction false} AskedSuits(w: World, k: nat, gvks: seq<Gvk>, gvk: Gvk)
    requires Asked(w, k, gvks, gvk)
    ensures gvk in gvks && gvk in w.listable
    decreases |gvks|
  {
    if !(gvks[0] == gvk && Lists(w, k, gvk)) {
      AskedSuits(w, k + 1, gvks[1..], gvk);
    }
  }

  lemma {:induction false} GroupSuits(w: World, gv: GroupVersion, rs: seq<ApiResource>, gvk: Gvk)
    requires gvk in Watcher.SuitableInGroup(gv, rs) && gvk in w.listable
    ensures gvk.group == gv.group && SelectedKind(w, ByWatch, gv, rs, gvk.kind)
    decreases |rs|
  {
    SelectedSplit(w, ByWatch, gv, rs, gvk.kind);
    if !(Watcher.ShouldWatchResource(rs[0]) && Watcher.GvkOf(gv, rs[0].kind) == gvk) {
      GroupSuits(w, gv, rs[1..], gvk);
    }
  }

  lemma {:induction false} SuitableIsListed(w: World, lists: seq<ResourceList>, gvk: Gvk)
    requires gvk in Watcher.Suitable(lists) && gvk in w.listable
    ensures Listed(w, ByWatch, lists, gvk.group, gvk.kind)
    decreases |lists|
  {
    ListedSplit(w, ByWatch, lists, gvk.group, gvk.kind);
    var p := ParseGroupVersion(lists[0].groupVersion);
    if p.Good? && gvk in Watcher.SuitableInGroup(p.gv, lists[0].resources) {
      GroupSuits(w, p.gv, lists[0].resources, gvk);
    } else {
      SuitableIsListed(w, lists[1..], gvk);
    }
  }

  lemma ListedInFull(w: World, sel: Selector, k: nat, group: string, kind: string)
    requires Honest(w) && Listed(w, sel, Discovered(w, k), group, kind)
    ensures Listed(w, sel, w.discovery, group, kind)
  {
    var l :| l in Discovered(w, k) && ListedBy(w, sel, l, group, kind);
    assert l in w.discovery;
  }

  lemma SweptIsListed(w: World, s: State, n: string, owner: string, id: ObjectId)
    requires Peopled(w) && Honest(w) && n in s.namespaces && SweptAway(w, s, n, owner, id)
    ensures OwnedAt(s, n, owner, id) && Listed(w, ByWatch, w.discovery, id.group, id.kind)
  {
    var found := Finalizer.Labelled(w, s, n, owner);
    LabelledWaits(w, s, n, owner);
    WaitReads(w, s, 1 + |Watcher.Suitable(Discovered(w, s.calls))|);
    DeletesFound(w, found.state.calls, found.value, id);
    var f :| f in found.value && IdOf(f.gvk, f.name) == id;
    LabelledFinds(w, s, n, owner, f);
    AskedSuits(w, s.calls + 1, Watcher.Suitable(Discovered(w, s.calls)), f.gvk);
    SuitableIsListed(w, Discovered(w, s.calls), f.gvk);
    ListedInFull(w, ByWatch, s.calls, id.group, id.kind);
  }

  lemma KindIsOwned(w: World, s: State, n: string, owner: string, gvk: Gvk, x: string)
    requires Peopled(w) && x in ManagedOfKind(w, s, n, owner, gvk).value
    ensures exists id :: OwnedAt(s, n, owner, id) && id.group == gvk.group && id.kind == gvk.kind && x == Ident(id)
  {
    var names := ListObjects(w, s, n, gvk, owner).value.value;
    var i :| 0 <= i < |names| && Identifiers(gvk, names)[i] == x;
    assert names[i] in OwnedNames(s, n, gvk, owner);
    assert OwnedAt(s, n, owner, IdOf(gvk, names[i])) && x == Ident(IdOf(gvk, names[i]));
  }

  lemma {:induction false} GroupIsOwned(w: World, s: State, n: string, owner: string,
                                        gv: GroupVersion, rs: seq<ApiResource>, ids: seq<string>, x: string)
    requires Peopled(w) && x in ManagedInGroup(w, s, n, owner, gv, rs, ids).value && x !in ids
    ensures exists id :: InGroup(w, s, n, owner, ByList, gv, rs, id) && x == Ident(id)
    decreases |rs|
  {
    if !Listable(rs[0]) {
      GroupIsOwned(w, s, n, owner, gv, rs[1..], ids, x);
      var id :| InGroup(w, s, n, owner, ByList, gv, rs[1..], id) && x == Ident(id);
      SelectedSplit(w, ByList, gv, rs, id.kind);
      assert InGroup(w, s, n, owner, ByList, gv, rs, id);
    } else {
      var gvk := Watcher.GvkOf(gv, rs[0].kind);
      var r := ManagedOfKind(w, s, n, owner, gvk);
      if x in r.value {
        KindIsOwned(w, s, n, owner, gvk, x);
        var id :| OwnedAt(s, n, owner, id) && id.group == gvk.group && id.kind == gvk.kind && x == Ident(id);
        SelectedSplit(w, ByList, gv, rs, id.kind);
        assert InGroup(w, s, n, owner, ByList, gv, rs, id);
      } else {
        GroupIsOwned(w, r.state, n, owner, gv, rs[1..], ids + r.value, x);
        var id :| InGroup(w, r.state, n, owner, ByList, gv, rs[1..], id) && x == Ident(id);
        SelectedSplit(w, ByList, gv, rs, id.kind);
        assert InGroup(w, s, n, owner, ByList, gv, rs, id);
      }
    }
  }

  lemma {:induction false} ListsAreOwned(w: World, s: State, n: string, owner: string,
                                         lists: seq<ResourceList>, ids: seq<string>, x: string)
    requires Peopled(w) && x in ManagedInLists(w, s, n, owner, lists, ids).value && x !in ids
    ensures exists id :: InLists(w, s, n, owner, ByList, lists, id) && x == Ident(id)
    decreases |lists|
  {
    var p := ParseGroupVersion(lists[0].groupVersion);
    if p.Good? {
      var r := ManagedInGroup(w, s, n, owner, p.gv, lists[0].resources, ids);
      GroupReads(w, s, n, owner, p.gv, lists[0].resources, ids);
      if x in r.value {
        GroupIsOwned(w, s, n, owner, p.gv, lists[0].resources, ids, x);
        var id :| InGroup(w, s, n, owner, ByList, p.gv, lists[0].resources, id) && x == Ident(id);
        ListedSplit(w, ByList, lists, id.group, id.kind);
        assert InLists(w, s, n, owner, ByList, lists, id);
      } else {
        ListsAreOwned(w, r.state, n, owner, lists[1..], r.value, x);
        var id :| InLists(w, r.state, n, owner, ByList, lists[1..], id) && x == Ident(id);
        ListedSplit(w, ByList, lists, id.group, id.kind);
        assert InLists(w, s, n, owner, ByList, lists, id);
      }
    } else {
      ListsAreOwned(w, s, n, owner, lists[1..], ids, x);
      var id :| InLists(w, s, n, owner, ByList, lists[1..], id) && x == Ident(id);
      ListedSplit(w, ByList, lists, id.group, id.kind);
      assert InLists(w, s, n, owner, ByList, lists, id);
    }
  }

  lemma ManagedIsOwned(w: World, s: State, n: string, owner: string, x: string)
    requires Peopled(w) && Honest(w)
    requires var r := Managed(w, s, n, owner).value; r.Ok? && x in r.value
    ensures exists id :: InLists(w, s, n, owner, ByList, w.discovery, id) && x == Ident(id)
  {
    var d := Discover(w, s);
    ListsAreOwned(w, d.state, n, owner, d.value.value, [], x);
    var id :| InLists(w, d.state, n, owner, ByList, d.value.value, id) && x == Ident(id);
    assert d.value.value == Discovered(w, s.calls);
    ListedInFull(w, ByList, s.calls, id.group, id.kind);
    assert InLists(w, s, n, owner, ByList, w.discovery, id);
  }

  lemma {:induction false} ErasedIsFound(w: World, s: State, n: string, keep: set<string>, ids: seq<string>,
                                         id: ObjectId)
    requires ErasedBy(w, s, n, keep, ids, id)
    ensures exists x <- ids :: |Split(x)| >= 3 && ObjectId(Split(x)[0], Split(x)[1], Split(x)[2]) == id
    ensures KindName(id.kind, id.name) !in keep
    decreases |ids|
  {
    var parts := Split(ids[0]);
    if |parts| < 3 || KindName(parts[1], parts[2]) in keep {
      ErasedIsFound(w, s, n, keep, ids[1..], id);
    } else if !Erases(w, s, ObjectId(parts[0], parts[1], parts[2]), id) {
      ErasedIsFound(w, DeleteByKind(w, s, n, parts[1], parts[2], parts[0]).state, n, keep, ids[1..], id);
    }
  }

  lemma ErasedIsListed(w: World, s: State, t: State, n: string, owner: string, keep: set<string>, id: ObjectId)
    requires Peopled(w) && Honest(w) && Wf(s)
    requires var r := Managed(w, s, n, owner).value; r.Ok? && ErasedBy(w, t, n, keep, r.value, id)
    ensures OwnedAt(s, n, owner, id) && Listed(w, ByList, w.discovery, id.group, id.kind)
            && KindName(id.kind, id.name) !in keep
  {
    var ids := Managed(w, s, n, owner).value.value;
    ErasedIsFound(w, t, n, keep, ids, id);
    var x :| x in ids && |Split(x)| >= 3 && ObjectId(Split(x)[0], Split(x)[1], Split(x)[2]) == id;
    ManagedIsOwned(w, s, n, owner, x);
    var y :| InLists(w, s, n, owner, ByList, w.discovery, y) && x == Ident(y);
    IdentifierRoundTrip(y.group, y.kind, y.name);
    assert y == id;
  }

  /** What the cleanup takes is stale. */
  lemma CleanedAwayIsStale(w: World, s: State, n: string, previous: string, c: string, id: ObjectId)
    requires Peopled(w) && Honest(w) && Wf(s) && n in s.namespaces && c in s.classes
    requires CleanedAway(w, s, n, previous, c, id)
    ensures StaleAt(w, s, n, previous, c, id)
  {
    var origin := GetClass(w, s, previous);
    assert OnlyRead(s, origin.state);
    if origin.value.Err? {
      SweptIsListed(w, origin.state, n, previous, id);
    } else {
      var ids := Managed(w, origin.state, n, previous);
      ManagedReads(w, origin.state, n, previous);
      var target := GetClass(w, ids.state, c);
      ErasedIsListed(w, origin.state, target.state, n, previous, KeepKeys(target.value.value.spec), id);
    }
  }

  // ---------- What an attempt leaves ----------

  /** `left` is what the cleanup of the switch left of the objects of v. */
  ghost predicate CanRemain(w: World, v: NsView, c: string, spec: seq<RawResource>, known: set<string>, left: Objects) {
    && (forall id <- left :: id in v.objects && left[id] == v.objects[id])
    && (forall id <- Kept(w, v, c, spec, known) :: id in left)
  }

  /** The attempt got past the annotation update: x has the settled annotations, and k entries
      were applied to what the cleanup left. */
  ghost predicate Proceeded(w: World, v: NsView, x: NsView, c: string, spec: seq<RawResource>, left: Objects, k: nat) {
    && k <= Count(w, spec) <= |spec|
    && x == v.(annotations := SettledAnnotations(v, c), objects := if v.deleting then left else Apply(left, c, spec, k))
  }

  /** What an attempt that switches may leave. */
  ghost predicate Attempted(w: World, v: NsView, x: NsView, c: string, spec: seq<RawResource>, left: Objects) {
    x == v.(objects := left) || exists k: nat :: Proceeded(w, v, x, c, spec, left, k)
  }

  /** The state t after an attempt on namespace n of s with class c. */
  ghost predicate AttemptIs(w: World, s: State, t: State, n: string, c: string, left: Objects) {
    && n in s.namespaces && c in s.classes && Moved(s, t, n, c) && Wf(t)
    && Attempted(w, ViewNs(s.namespaces[n]), ViewNs(t.namespaces[n]), c, s.classes[c].spec, left)
  }

  lemma CleanupLeaves(w: World, s: State, n: string, previous: string, c: string)
    requires Peopled(w) && Honest(w) && Wf(s) && n in s.namespaces && c in s.classes
    ensures OnlyObjects(s, CleanupPrevious(w, s, n, previous, c).state, n)
    ensures var t := CleanupPrevious(w, s, n, previous, c).state;
            var before, left := Contents(s.namespaces[n].objects), Contents(t.namespaces[n].objects);
            && Wf(t)
            && (forall id <- left :: id in before && left[id] == before[id])
            && (forall id <- before :: id !in left <==> CleanedAway(w, s, n, previous, c, id))
            && (forall id <- before :: id !in left ==> StaleAt(w, s, n, previous, c, id))
  {
    var t := CleanupPrevious(w, s, n, previous, c).state;
    CleanupFrame(w, s, n, previous, c);
    forall id
      ensures id in t.namespaces[n].objects <==> id in s.namespaces[n].objects && !CleanedAway(w, s, n, previous, c, id)
      ensures id in t.namespaces[n].objects ==> t.namespaces[n].objects[id] == s.namespaces[n].objects[id] {
      CleanupLoses(w, s, n, previous, c, id);
    }
    forall id | id in s.namespaces[n].objects && CleanedAway(w, s, n, previous, c, id)
      ensures StaleAt(w, s, n, previous, c, id) {
      CleanedAwayIsStale(w, s, n, previous, c, id);
    }
    FrameIsWf(s, t, n);
  }

  lemma FrameIsWf(s: State, t: State, n: string)
    requires Wf(s) && n in s.namespaces && OnlyObjects(s, t, n)
    requires forall id <- t.namespaces[n].objects :: id in s.namespaces[n].objects
    ensures Wf(t)
  {}

  lemma MovedTrans(s: State, t: State, u: State, n: string, c: string)
    requires Moved(s, t, n, c) && t.classes == s.classes && Moved(t, u, n, c)
    ensures Moved(s, u, n, c)
  {}

  /** The part of a switch after the annotation update. */
  lemma SwitchGoesOn(w: World, s: State, u: State, n: string, c: string, previous: string, left: Objects)
    requires Peopled(w) && WorldOk(w) && n in s.namespaces && c in s.classes && previous != "" && previous != c
    requires Moved(s, u, n, c) && u.classes == s.classes && Wf(u)
    requires ViewNs(u.namespaces[n]) == ViewNs(s.namespaces[n]).(
               annotations := SettledAnnotations(ViewNs(s.namespaces[n]), c), objects := left)
    ensures var applied := ApplyClass(w, u, n, c, s.classes[c].spec, s.namespaces[n].meta.deleting);
            AttemptIs(w, s, if applied.value.Fail? then applied.state
                            else Statuses.RecordSwitch(w, applied.state, n, c, previous).state, n, c, left)
  {
    var v, spec := ViewNs(s.namespaces[n]), s.classes[c].spec;
    var k := ApplyClassIs(w, u, n, c, spec);
    var applied := ApplyClass(w, u, n, c, spec, s.namespaces[n].meta.deleting);
    ApplyPhaseMoves(s, u, applied.state, n, c);
    assert Proceeded(w, v, ViewNs(applied.state.namespaces[n]), c, spec, left, k);
    StatusCalls(w, applied.state, n, c, previous);
    var recorded := Statuses.RecordSwitch(w, applied.state, n, c, previous).state;
    assert recorded.namespaces == applied.state.namespaces;
    assert Moved(applied.state, recorded, n, c);
    MovedTrans(s, applied.state, recorded, n, c);
  }

  /** A switch, begun in s0 after a read, from its cleanup on. */
  lemma SwitchRest(w: World, s: State, s0: State, n: string, c: string, cleaned: Reply<Outcome>, previous: string)
    requires Peopled(w) && WorldOk(w) && n in s.namespaces && c in s.classes && OnlyRead(s, s0)
    requires previous == SwitchedFrom(ViewNs(s.namespaces[n]), c) != ""
    requires OnlyObjects(s0, cleaned.state, n) && Wf(cleaned.state)
    ensures AttemptIs(w, s, AfterCleanup(w, n, c, s.classes[c].spec, s.namespaces[n].meta.deleting, cleaned,
            previous).state,
                      n, c, Contents(cleaned.state.namespaces[n].objects))
  {
    var left := Contents(cleaned.state.namespaces[n].objects);
    StopIsAttempt(w, s, s0, cleaned.state, n, c, left);
    if cleaned.value.Pass? {
      UpdateCurrentIs(w, cleaned.state, n, c);
      var updated := UpdateCurrent(w, cleaned.state, n, c);
      SwitchUpdated(w, s, s0, n, c, cleaned.state, updated, previous, left);
    }
  }

  lemma SwitchUpdated(w: World, s: State, s0: State, n: string, c: string, t: State, updated: Reply<Outcome>,
                      previous: string, left: Objects)
    requires Peopled(w) && WorldOk(w) && n in s.namespaces && c in s.classes && OnlyRead(s, s0)
    requires previous == SwitchedFrom(ViewNs(s.namespaces[n]), c) != ""
    requires OnlyObjects(s0, t, n) && Contents(t.namespaces[n].objects) == left && Wf(updated.state)
    requires if updated.value.Pass? then OnlyAnnotations(t, updated.state, n, Swap(t.namespaces[n].meta.annotations, c))
             else OnlyRead(t, updated.state)
    ensures AttemptIs(w, s, AfterUpdate(w, n, c, s.classes[c].spec, s.namespaces[n].meta.deleting, updated,
            previous).state,
                      n, c, left)
  {
    if updated.value.Pass? {
      UpdatedSwitch(s, s0, t, updated.state, n, c, previous, left);
      SwitchGoesOn(w, s, Triggered(updated.state, previous), n, c, previous, left);
    } else {
      StopIsAttempt(w, s, s0, updated.state, n, c, left);
    }
  }

  lemma StopIsAttempt(w: World, s: State, s0: State, t: State, n: string, c: string, left: Objects)
    requires n in s.namespaces && c in s.classes && OnlyRead(s, s0) && OnlyObjects(s0, t, n) && Wf(t)
    requires Contents(t.namespaces[n].objects) == left
    ensures AttemptIs(w, s, t, n, c, left)
  {
    assert ViewNs(t.namespaces[n]) == ViewNs(s.namespaces[n]).(objects := left);
  }

  lemma UpdatedSwitch(s: State, s0: State, t: State, u: State, n: string, c: string, previous: string, left: Objects)
    requires n in s.namespaces && c in s.classes && OnlyRead(s, s0) && OnlyObjects(s0, t, n)
    requires previous == SwitchedFrom(ViewNs(s.namespaces[n]), c) != "" && Contents(t.namespaces[n].objects) == left
    requires OnlyAnnotations(t, u, n, Swap(t.namespaces[n].meta.annotations, c))
    ensures Moved(s, Triggered(u, previous), n, c)
    ensures ViewNs(u.namespaces[n]) == ViewNs(s.namespaces[n]).(
              annotations := SettledAnnotations(ViewNs(s.namespaces[n]), c), objects := left)
  {}

  // ---------- When a retry makes up for it ----------

  /** What the cleanup should have taken and did not, and no entry writes over. */
  ghost predicate LeftBehind(w: World, v: NsView, c: string, spec: seq<RawResource>, known: set<string>,
                             left: Objects, id: ObjectId) {
    && id in left && id in v.objects && Stale(w, SwitchedFrom(v, c), known, spec, id, v.objects[id])
    && (v.deleting || LastWriter(spec, Count(w, spec), id) < 0)
  }

  lemma ProceededAgain(w: World, v: NsView, x: NsView, c: string, spec: seq<RawResource>, known: set<string>,
                       left: Objects, k: nat)
    requires c != "" && Proceeded(w, v, x, c, spec, left, k)
    ensures Settle(w, x, c, spec, known)
         == v.(annotations := SettledAnnotations(v, c), objects := if v.deleting then left
                                                                   else Apply(left, c, spec, Count(w, spec)))
  {
    SettledIsSettled(v, c);
    ApplyAgain(left, c, spec, k, Count(w, spec));
  }

  lemma SameEverywhere(a: Objects, b: Objects)
    requires forall id :: SameAt(a, b, id)
    ensures a == b
  {
    forall id ensures id in a <==> id in b { assert SameAt(a, b, id); }
    forall id | id in a ensures a[id] == b[id] { assert SameAt(a, b, id); }
  }

  /** A key at which two applications of a spec differ: one side has something the other has
      not, and no entry writes there. */
  ghost predicate Differs(a: Objects, b: Objects, spec: seq<RawResource>, k: nat, id: ObjectId)
    requires k <= |spec|
  {
    id in a && id !in b && LastWriter(spec, k, id) < 0
  }

  lemma AppliedSameAt(a: Objects, b: Objects, c: string, spec: seq<RawResource>, k: nat, id: ObjectId)
    requires k <= |spec| && forall id <- b :: id in a && a[id] == b[id]
    ensures SameAt(Apply(a, c, spec, k), Apply(b, c, spec, k), id) <==> !Differs(a, b, spec, k, id)
  {
    ApplyAt(a, c, spec, k, id);
    ApplyAt(b, c, spec, k, id);
  }

  lemma AppliedAlikeIff(a: Objects, b: Objects, c: string, spec: seq<RawResource>, k: nat)
    requires k <= |spec| && forall id <- b :: id in a && a[id] == b[id]
    ensures Apply(a, c, spec, k) == Apply(b, c, spec, k) <==> forall id :: !Differs(a, b, spec, k, id)
  {
    var x, y := Apply(a, c, spec, k), Apply(b, c, spec, k);
    if forall id :: !Differs(a, b, spec, k, id) {
      forall id ensures SameAt(x, y, id) {
        AppliedSameAt(a, b, c, spec, k, id);
      }
      SameEverywhere(x, y);
    } else {
      var id :| Differs(a, b, spec, k, id);
      AppliedSameAt(a, b, c, spec, k, id);
    }
  }

  /** After an attempt that got past the annotation update, settling gives what it would have
      given at first if and only if nothing stale was left behind. */
  lemma ProceededConvergesIff(w: World, v: NsView, x: NsView, c: string, spec: seq<RawResource>, known: set<string>,
                              left: Objects, k: nat)
    requires c != "" && SwitchedFrom(v, c) != "" && CanRemain(w, v, c, spec, known, left)
             && Proceeded(w, v, x, c, spec, left, k)
    ensures Settle(w, x, c, spec, known) == Settle(w, v, c, spec, known) <==>
            forall id :: !LeftBehind(w, v, c, spec, known, left, id)
  {
    var kept := Kept(w, v, c, spec, known);
    ProceededAgain(w, v, x, c, spec, known, left, k);
    AppliedAlikeIff(left, kept, c, spec, Count(w, spec));
    forall id ensures LeftBehind(w, v, c, spec, known, left, id) <==>
                      id in left && id !in kept && (v.deleting || Differs(left, kept, spec, Count(w, spec), id)) {}
    if v.deleting && forall id :: !LeftBehind(w, v, c, spec, known, left, id) {
      assert left == kept;
    }
  }

  /** An attempt whose annotation update was not accepted is made up for in any case. */
  lemma UnacceptedConverges(w: World, v: NsView, x: NsView, c: string, spec: seq<RawResource>, known: set<string>,
                            left: Objects)
    requires c != "" && CanRemain(w, v, c, spec, known, left) && x == v.(objects := left)
    ensures Settle(w, x, c, spec, known) == Settle(w, v, c, spec, known)
  {
    assert Interrupted(w, v, x, c, spec, known);
    RetryCompletes(w, v, x, c, spec, known);
  }

  /** An attempt that does not switch is an interrupted reconcile. */
  lemma PlainAttempt(w: World, s: State, n: string, c: string)
    requires Peopled(w) && WorldOk(w) && Wf(s) && n in s.namespaces && c in s.classes
    requires SwitchedFrom(ViewNs(s.namespaces[n]), c) == ""
    ensures var t := WithClass(w, s, n, c, s.classes[c].spec).state;
            && Moved(s, t, n, c) && Wf(t)
            && Interrupted(w, ViewNs(s.namespaces[n]), ViewNs(t.namespaces[n]), c, s.classes[c].spec, s.classes.Keys)
  {
    var latest := GetNamespace(w, s, n);
    WithClassBranches(w, s, n, c, s.classes[c].spec);
    assert OnlyRead(s, latest.state);
    if latest.value.Err? {
      PlainStop(w, s, latest.state, n, c);
    } else {
      PlainBranch(w, s, latest.state, n, c);
    }
  }

  lemma PlainBranch(w: World, s: State, s0: State, n: string, c: string)
    requires Peopled(w) && WorldOk(w) && Wf(s) && n in s.namespaces && c in s.classes && OnlyRead(s, s0)
    requires SwitchedFrom(ViewNs(s.namespaces[n]), c) == ""
    ensures var t := Branch(w, s0, n, c, s.classes[c].spec, s.namespaces[n].meta).state;
            && Moved(s, t, n, c) && Wf(t)
            && Interrupted(w, ViewNs(s.namespaces[n]), ViewNs(t.namespaces[n]), c, s.classes[c].spec, s.classes.Keys)
  {
    var v := ViewNs(s.namespaces[n]);
    if Lookup(v.annotations, LastApplied) == "" {
      SetAnnotationsIs(w, s0, n, c);
      PlainUpdate(w, s, s0, SetAnnotations(w, s0, n, c, c), n, c);
    } else if Lookup(v.annotations, Current) == "" {
      UpdateCurrentIs(w, s0, n, c);
      PlainUpdate(w, s, s0, UpdateCurrent(w, s0, n, c), n, c);
    } else {
      PlainApply(w, s, s0, n, c);
    }
  }

  lemma PlainStop(w: World, s: State, t: State, n: string, c: string)
    requires n in s.namespaces && c in s.classes && Wf(s) && OnlyRead(s, t)
    requires SwitchedFrom(ViewNs(s.namespaces[n]), c) == ""
    ensures Moved(s, t, n, c) && Wf(t)
    ensures Interrupted(w, ViewNs(s.namespaces[n]), ViewNs(t.namespaces[n]), c, s.classes[c].spec, s.classes.Keys)
  {}

  lemma PlainApply(w: World, s: State, u: State, n: string, c: string)
    requires Peopled(w) && WorldOk(w) && n in s.namespaces && c in s.classes && Moved(s, u, n, c) && Wf(u)
             && u.classes == s.classes
    requires var v := ViewNs(s.namespaces[n]);
             SwitchedFrom(v, c) == "" && ViewNs(u.namespaces[n]) == v.(annotations := SettledAnnotations(v, c))
    ensures var t := ApplyClass(w, u, n, c, s.classes[c].spec, s.namespaces[n].meta.deleting).state;
            && Moved(s, t, n, c) && Wf(t)
            && Interrupted(w, ViewNs(s.namespaces[n]), ViewNs(t.namespaces[n]), c, s.classes[c].spec, s.classes.Keys)
  {
    var v, spec, known := ViewNs(s.namespaces[n]), s.classes[c].spec, s.classes.Keys;
    var k := ApplyClassIs(w, u, n, c, spec);
    var t := ApplyClass(w, u, n, c, spec, s.namespaces[n].meta.deleting).state;
    ApplyPhaseMoves(s, u, t, n, c);
    assert ViewNs(t.namespaces[n]) == Progress(w, v, c, spec, known, k);
  }

  lemma PlainUpdate(w: World, s: State, s0: State, updated: Reply<Outcome>, n: string, c: string)
    requires Peopled(w) && WorldOk(w) && Wf(s) && n in s.namespaces && c in s.classes && OnlyRead(s, s0)
             && Wf(updated.state)
    requires var v := ViewNs(s.namespaces[n]);
             && SwitchedFrom(v, c) == ""
             && if updated.value.Pass? then OnlyAnnotations(s0, updated.state, n, SettledAnnotations(v, c))
                else OnlyRead(s0, updated.state)
    ensures var t := if updated.value.Fail? then updated.state
                     else ApplyClass(w, updated.state, n, c, s.classes[c].spec, s.namespaces[n].meta.deleting).state;
            && Moved(s, t, n, c) && Wf(t)
            && Interrupted(w, ViewNs(s.namespaces[n]), ViewNs(t.namespaces[n]), c, s.classes[c].spec, s.classes.Keys)
  {
    if updated.value.Fail? {
      PlainStop(w, s, updated.state, n, c);
    } else {
      PlainApply(w, s, updated.state, n, c);
    }
  }

  /** An attempt that switches: what its cleanup, begun after the first read, left. */
  lemma SwitchAttempt(w: World, s: State, n: string, c: string) returns (left: Objects)
    requires Peopled(w) && Honest(w) && WorldOk(w) && Wf(s) && n in s.namespaces && c in s.classes
    requires SwitchedFrom(ViewNs(s.namespaces[n]), c) != ""
    ensures var v, s0 := ViewNs(s.namespaces[n]), GetNamespace(w, s, n).state;
            var t, previous := WithClass(w, s, n, c, s.classes[c].spec).state, SwitchedFrom(v, c);
            && AttemptIs(w, s, t, n, c, left) && CanRemain(w, v, c, s.classes[c].spec, s.classes.Keys, left)
            && (t.namespaces[n].meta.annotations != v.annotations ==>
                  forall id <- v.objects :: id !in left <==> CleanedAway(w, s0, n, previous, c, id))
  {
    var v, latest := ViewNs(s.namespaces[n]), GetNamespace(w, s, n);
    var previous, spec := SwitchedFrom(v, c), s.classes[c].spec;
    left := v.objects;
    assert OnlyRead(s, latest.state);
    if latest.value.Err? {
      StopIsAttempt(w, s, latest.state, latest.state, n, c, left);
    } else {
      CleanupLeaves(w, latest.state, n, previous, c);
      var cleaned := CleanupPrevious(w, latest.state, n, previous, c);
      left := Contents(cleaned.state.namespaces[n].objects);
      SwitchRest(w, s, latest.state, n, c, cleaned, previous);
      WithClassSwitches(w, s, n, c);
      RemainsOf(w, s, latest.state, n, c, left);
    }
  }

  lemma WithClassSwitches(w: World, s: State, n: string, c: string)
    requires Peopled(w) && n in s.namespaces && c in s.classes && SwitchedFrom(ViewNs(s.namespaces[n]), c) != ""
    requires GetNamespace(w, s, n).value.Ok?
    ensures WithClass(w, s, n, c, s.classes[c].spec)
         == SwitchClass(w, GetNamespace(w, s, n).state, n, c, s.classes[c].spec, s.namespaces[n].meta.deleting,
                        SwitchedFrom(ViewNs(s.namespaces[n]), c))
  {}

  lemma RemainsOf(w: World, s: State, s0: State, n: string, c: string, left: Objects)
    requires n in s.namespaces && c in s.classes && OnlyRead(s, s0)
    requires var v := ViewNs(s.namespaces[n]);
             && SwitchedFrom(v, c) != ""
             && (forall id <- left :: id in v.objects && left[id] == v.objects[id])
             && (forall id <- v.objects :: id !in left ==> StaleAt(w, s0, n, SwitchedFrom(v, c), c, id))
    ensures CanRemain(w, ViewNs(s.namespaces[n]), c, s.classes[c].spec, s.classes.Keys, left)
  {}

  /** One namespace reconcile with any calls refused and any discovery answered in part: a
      complete retry ends where an uninterrupted reconcile ends if and only if the reconcile did
      not switch, or its annotation update was not accepted, or its cleanup had the answers to
      take every stale object that no entry writes over. */
  lemma RetryConvergesIff(w: World, w': World, s: State, n: string, c: string)
    requires Peopled(w) && Honest(w) && AlwaysCalm(w') && Retry.SameCatalog(w, w') && WorldOk(w)
    requires Wf(s) && n in s.namespaces && c in s.classes
    ensures var x := WithClass(w, s, n, c, s.classes[c].spec).state;
            && n in x.namespaces && n in WithClass(w', x, n, c, s.classes[c].spec).state.namespaces
            && n in WithClass(w', s, n, c, s.classes[c].spec).state.namespaces
    ensures var v, spec := ViewNs(s.namespaces[n]), s.classes[c].spec;
            var x, previous := WithClass(w, s, n, c, spec).state, SwitchedFrom(v, c);
            ViewNs(WithClass(w', x, n, c, spec).state.namespaces[n])
              == ViewNs(WithClass(w', s, n, c, spec).state.namespaces[n])
            <==>
            || previous == ""
            || Lookup(x.namespaces[n].meta.annotations, Current) == previous
            || forall id | Unsaved(w, v, c, spec, s.classes.Keys, id) ::
                 CleanedAway(w, GetNamespace(w, s, n).state, n, previous, c, id)
  {
    var v := ViewNs(s.namespaces[n]);
    var x := WithClass(w, s, n, c, s.classes[c].spec).state;
    if SwitchedFrom(v, c) == "" {
      PlainAttempt(w, s, n, c);
      BothSettle(w, w', s, x, n, c);
      RetryCompletes(w, v, ViewNs(x.namespaces[n]), c, s.classes[c].spec, s.classes.Keys);
    } else {
      var left := SwitchAttempt(w, s, n, c);
      BothSettle(w, w', s, x, n, c);
      SwitchConverges(w, s, x, n, c, left);
    }
  }

  lemma SwitchConverges(w: World, s: State, x: State, n: string, c: string, left: Objects)
    requires Wf(s) && AttemptIs(w, s, x, n, c, left)
    requires var v := ViewNs(s.namespaces[n]);
             var s0, previous := GetNamespace(w, s, n).state, SwitchedFrom(v, c);
             && previous != "" && CanRemain(w, v, c, s.classes[c].spec, s.classes.Keys, left)
             && (x.namespaces[n].meta.annotations != v.annotations ==>
                   forall id <- v.objects :: id !in left <==> CleanedAway(w, s0, n, previous, c, id))
    ensures var v, spec, known := ViewNs(s.namespaces[n]), s.classes[c].spec, s.classes.Keys;
            var previous := SwitchedFrom(v, c);
            Settle(w, ViewNs(x.namespaces[n]), c, spec, known) == Settle(w, v, c, spec, known) <==>
            || Lookup(x.namespaces[n].meta.annotations, Current) == previous
            || forall id | Unsaved(w, v, c, spec, known, id) ::
                 CleanedAway(w, GetNamespace(w, s, n).state, n, previous, c, id)
  {
    var v, spec, known := ViewNs(s.namespaces[n]), s.classes[c].spec, s.classes.Keys;
    AttemptConvergesIff(w, v, ViewNs(x.namespaces[n]), c, spec, known, left);
    if Lookup(x.namespaces[n].meta.annotations, Current) != SwitchedFrom(v, c) {
      forall id ensures LeftBehind(w, v, c, spec, known, left, id) <==>
                        Unsaved(w, v, c, spec, known, id)
                          && !CleanedAway(w, GetNamespace(w, s, n).state, n, SwitchedFrom(v, c), c, id) {}
    }
  }

  /** A stale object that the cleanup has to take, because no applied entry writes over it. */
  ghost predicate Unsaved(w: World, v: NsView, c: string, spec: seq<RawResource>, known: set<string>, id: ObjectId) {
    && id in v.objects && Stale(w, SwitchedFrom(v, c), known, spec, id, v.objects[id])
    && (v.deleting || LastWriter(spec, Count(w, spec), id) < 0)
  }

  lemma BothSettle(w: World, w': World, s: State, x: State, n: string, c: string)
    requires AlwaysCalm(w') && Retry.SameCatalog(w, w') && WorldOk(w) && Wf(s) && Wf(x)
    requires n in s.namespaces && c in s.classes && Moved(s, x, n, c)
    ensures var v, spec := ViewNs(s.namespaces[n]), s.classes[c].spec;
            var a, b := WithClass(w', x, n, c, spec).state, WithClass(w', s, n, c, spec).state;
            && n in a.namespaces && ViewNs(a.namespaces[n])
               == Settle(w, ViewNs(x.namespaces[n]), c, spec, s.classes.Keys)
            && n in b.namespaces && ViewNs(b.namespaces[n]) == Settle(w, v, c, spec, s.classes.Keys)
  {
    var spec, known := s.classes[c].spec, s.classes.Keys;
    CalmSettles(w', x, n, c);
    CalmSettles(w', s, n, c);
    Retry.SettleByCatalog(w, w', ViewNs(x.namespaces[n]), c, spec, known);
    Retry.SettleByCatalog(w, w', ViewNs(s.namespaces[n]), c, spec, known);
  }

  lemma AttemptConvergesIff(w: World, v: NsView, x: NsView, c: string, spec: seq<RawResource>, known: set<string>,
                            left: Objects)
    requires c != "" && SwitchedFrom(v, c) != "" && CanRemain(w, v, c, spec, known, left)
             && Attempted(w, v, x, c, spec, left)
    ensures Settle(w, x, c, spec, known) == Settle(w, v, c, spec, known) <==>
            Lookup(x.annotations, Current) == SwitchedFrom(v, c) || forall id ::
                                                                      !LeftBehind(w, v, c, spec, known, left, id)
  {
    if x == v.(objects := left) {
      UnacceptedConverges(w, v, x, c, spec, known, left);
    } else {
      var k: nat :| Proceeded(w, v, x, c, spec, left, k);
      SettledIsSettled(v, c);
      ProceededConvergesIff(w, v, x, c, spec, known, left, k);
    }
  }

  // ---------- A retry that does not make up for it ----------

  function EmptyClass(): Class {
    Class([], [], false, 1, Status(0, false, []), 0)
  }

  /** The namespace of the example moves to class "b"; its class "a" is gone. */
  function Orphaning(): State {
    State(map["n" := Example.Holder("b")], map["b" := EmptyClass()], 0, 0, [])
  }

  /** With call 2, the discovery of the sweep, refused, the sweep takes nothing, the annotation
      update is accepted all the same, and a complete retry does not end where an uninterrupted
      reconcile ends: the ConfigMap of class "a" stays. */
  lemma RetryCanDiverge()
    ensures var w, w', s := Example.AllBut(2), Example.AllCalm(), Orphaning();
            var x := WithClass(w, s, "n", "b", []).state;
            var a, b := WithClass(w', x, "n", "b", []).state, WithClass(w', s, "n", "b", []).state;
            "n" in a.namespaces && "n" in b.namespaces && ViewNs(a.namespaces["n"]) != ViewNs(b.namespaces["n"])
  {
    var w, w', s := Example.AllBut(2), Example.AllCalm(), Orphaning();
    Example.ConfigMapsAreListed(w.script);
    OrphaningIsWf();
    OrphanIsUnsaved(w);
    UpdateIsAccepted();
    DivergesWhen(w, w', s, "n", "b", Example.TheId());
  }

  lemma OrphaningIsWf()
    ensures Wf(Orphaning())
  {
    Example.TheIdIsValid();
  }

  /** One stale object that the cleanup had no answer for, before an accepted update. */
  lemma DivergesWhen(w: World, w': World, s: State, n: string, c: string, id: ObjectId)
    requires Peopled(w) && Honest(w) && AlwaysCalm(w') && Retry.SameCatalog(w, w') && WorldOk(w)
    requires Wf(s) && n in s.namespaces && c in s.classes
    requires var v, x := ViewNs(s.namespaces[n]), WithClass(w, s, n, c, s.classes[c].spec).state;
             var previous := SwitchedFrom(v, c);
             && previous !in {"", c} && n in x.namespaces && Lookup(x.namespaces[n].meta.annotations, Current) == c
             && Unsaved(w, v, c, s.classes[c].spec, s.classes.Keys, id)
             && !CleanedAway(w, GetNamespace(w, s, n).state, n, previous, c, id)
    ensures var x := WithClass(w, s, n, c, s.classes[c].spec).state;
            var a, b := WithClass(w', x, n, c, s.classes[c].spec).state,
              WithClass(w', s, n, c, s.classes[c].spec).state;
            n in a.namespaces && n in b.namespaces && ViewNs(a.namespaces[n]) != ViewNs(b.namespaces[n])
  {
    RetryConvergesIff(w, w', s, n, c);
  }

  lemma OrphanIsUnsaved(w: World)
    requires Listed(w, ByWatch, w.discovery, "", "ConfigMap")
    ensures Unsaved(w, ViewNs(Orphaning().namespaces["n"]), "b", [], Orphaning().classes.Keys, Example.TheId())
  {
    assert Example.TheId() in ViewNs(Orphaning().namespaces["n"]).objects;
  }

  lemma UpdateIsAccepted()
    ensures var w, s := Example.AllBut(2), Orphaning();
            var x := WithClass(w, s, "n", "b", []).state;
            && "n" in x.namespaces && Lookup(x.namespaces["n"].meta.annotations, Current) == "b"
            && !CleanedAway(w, GetNamespace(w, s, "n").state, "n", "a", "b", Example.TheId())
  {
    var w, s := Example.AllBut(2), Orphaning();
    var s1, s2, s3 := s.(calls := 1), s.(calls := 2), s.(calls := 3);
    assert GetNamespace(w, s, "n") == Reply(s1, Ok(Example.Holder("b").meta));
    assert GetClass(w, s1, "a") == Reply(s2, Err(NotFound));
    assert Finalizer.Labelled(w, s2, "n", "a") == Reply(s3, []);
    assert CleanupPrevious(w, s1, "n", "a", "b") == Reply(s3, Pass);
    EndOfSwitch(w, s, s3);
    WithClassSwitches(w, s, "n", "b");
  }

  lemma EndOfSwitch(w: World, s: State, s3: State)
    requires w == Example.AllBut(2) && s == Orphaning() && s3 == s.(calls := 3)
    ensures var x := AfterCleanup(w, "n", "b", [], false, Reply(s3, Pass), "a").state;
            "n" in x.namespaces && Lookup(x.namespaces["n"].meta.annotations, Current) == "b"
  {
    var updated := UpdateCurrent(w, s3, "n", "b");
    assert updated.value.Pass? && Lookup(updated.state.namespaces["n"].meta.annotations, Current) == "b";
    var u := Triggered(updated.state, "a");
    assert u.calls == 5;
    var applied := ApplyClass(w, u, "n", "b", [], false);
    assert applied == Reply(u.(calls := 6), Pass);
    assert Statuses.RecordSwitch(w, applied.state, "n", "b", "a").state.namespaces == u.namespaces;
  }
}
