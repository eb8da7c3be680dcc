/** Listing by label and deleting what was found, in any weather: which calls have to be
    answered for an object to go. */
module Sweeps {
  import opened Kube
  import opened Names
  import opened Watcher
  import opened Finalizer
  import opened Weather
  import opened ApplyLoop

  /** The k-th call of the script is answered. */
  predicate Answered(w: World, k: nat) {
    !w.script(k).Refuse?
  }

  // ---------- Calls that only read ----------

  /** The state after k reading calls. */
  function Wait(w: World, s: State, k: nat): State
    decreases k
  {
    if k == 0 then s else Wait(w, Arrive(w, s), k - 1)
  }

  /** Namespaces may have gone or begun to go, but keep their labels; versions do not overtake
      the clock. */
  ghost predicate Fades(s: State, t: State) {
    && s.clock <= t.clock
    && forall m <- t.namespaces ::
         && m in s.namespaces && t.namespaces[m].meta.classLabel == s.namespaces[m].meta.classLabel
         && (s.namespaces[m].meta.deleting ==> t.namespaces[m].meta.deleting)
         && (s.namespaces[m].meta.version <= s.clock ==> t.namespaces[m].meta.version <= t.clock)
  }

  lemma ArriveCalls(w: World, s: State)
    ensures Arrive(w, s).calls == s.calls + 1
  {}

  /** A namespace that is there afterwards was there before. */
  lemma {:induction false} WaitStays(w: World, s: State, k: nat, n: string)
    requires n in Wait(w, s, k).namespaces
    ensures n in s.namespaces
    decreases k
  {
    if k > 0 {
      WaitStays(w, Arrive(w, s), k - 1, n);
    }
  }

  // ---------- The listing, flattened ----------

  /** One listing after the other. */
  function LabelledEach(w: World, s: State, n: string, owner: string, gvks: seq<Gvk>,
                        found: seq<Found>): Reply<seq<Found>>
    decreases |gvks|
  {
    if gvks == [] then Reply(s, found) else
    var r := LabelledOfType(w, s, n, owner, gvks[0]);
    LabelledEach(w, r.state, n, owner, gvks[1..], found + r.value)
  }

  lemma {:induction false} EachConcat(w: World, s: State, n: string, owner: string,
                                      a: seq<Gvk>, b: seq<Gvk>, found: seq<Found>)
    ensures var r := LabelledEach(w, s, n, owner, a, found);
            LabelledEach(w, s, n, owner, a + b, found) == LabelledEach(w, r.state, n, owner, b, r.value)
    decreases |a|
  {
    if a == [] {
      assert a + b == b;
    } else {
      assert (a + b)[1..] == a[1..] + b;
      var r := LabelledOfType(w, s, n, owner, a[0]);
      EachConcat(w, r.state, n, owner, a[1..], b, found + r.value);
    }
  }

  lemma {:induction false} GroupIsEach(w: World, s: State, n: string, owner: string,
                                       gv: GroupVersion, rs: seq<ApiResource>, found: seq<Found>)
    ensures LabelledInGroup(w, s, n, owner, gv, rs, found)
         == LabelledEach(w, s, n, owner, SuitableInGroup(gv, rs), found)
    decreases |rs|
  {
    if rs != [] {
      if ShouldWatchResource(rs[0]) {
        var r := LabelledOfType(w, s, n, owner, GvkOf(gv, rs[0].kind));
        GroupIsEach(w, r.state, n, owner, gv, rs[1..], found + r.value);
        assert SuitableInGroup(gv, rs)[1..] == SuitableInGroup(gv, rs[1..]);
      } else {
        GroupIsEach(w, s, n, owner, gv, rs[1..], found);
      }
    }
  }

  /** The nested loops list the flattened, filtered discovery answer in order. */
  lemma {:induction false} ListsAreEach(w: World, s: State, n: string, owner: string,
                                        lists: seq<ResourceList>, found: seq<Found>)
    ensures LabelledInLists(w, s, n, owner, lists, found) == LabelledEach(w, s, n, owner, Suitable(lists), found)
    decreases |lists|
  {
    if lists != [] {
      match ParseGroupVersion(lists[0].groupVersion)
      case Bad => ListsAreEach(w, s, n, owner, lists[1..], found);
      case Good(gv) =>
        GroupIsEach(w, s, n, owner, gv, lists[0].resources, found);
        var r := LabelledInGroup(w, s, n, owner, gv, lists[0].resources, found);
        ListsAreEach(w, r.state, n, owner, lists[1..], r.value);
        EachConcat(w, s, n, owner, SuitableInGroup(gv, lists[0].resources), Suitable(lists[1..]), found);
    }
  }

  // ---------- What the listing finds ----------

  /** The k-th call, a listing of the type, brings its objects. */
  predicate Lists(w: World, k: nat, gvk: Gvk) {
    Answered(w, k) && gvk in w.served && gvk in w.listable
  }

  /** One of the listings, the first of which is call k, brings the objects of the type. */
  predicate Asked(w: World, k: nat, gvks: seq<Gvk>, gvk: Gvk)
    decreases |gvks|
  {
    gvks != [] && ((gvks[0] == gvk && Lists(w, k, gvk)) || Asked(w, k + 1, gvks[1..], gvk))
  }

  /** The namespace, if it is still there, holds the objects it held. */
  ghost predicate SameObjects(s: State, t: State, n: string) {
    n in t.namespaces ==> n in s.namespaces && t.namespaces[n].objects == s.namespaces[n].objects
  }

  lemma ArriveKeepsObjects(w: World, s: State, n: string)
    ensures SameObjects(s, Arrive(w, s), n)
  {}

  lemma SameOwned(w: World, s: State, n: string, owner: string, id: ObjectId)
    requires n in Arrive(w, s).namespaces
    ensures OwnedAt(Arrive(w, s), n, owner, id) <==> OwnedAt(s, n, owner, id)
  {
    ArriveKeepsObjects(w, s, n);
  }

  lemma FoundIsNamed(gvk: Gvk, names: seq<string>, f: Found)
    ensures f in FoundNames(gvk, names) <==> f.gvk == gvk && f.name in names
  {
    if f.gvk == gvk && f.name in names {
      var i :| 0 <= i < |names| && names[i] == f.name;
      assert FoundNames(gvk, names)[i] == f;
    }
  }

  lemma OwnedNamesAre(s: State, t: State, n: string, gvk: Gvk, owner: string, name: string)
    requires SameObjects(s, t, n) && n in t.namespaces
    ensures name in OwnedNames(t, n, gvk, owner) <==> OwnedAt(s, n, owner, IdOf(gvk, name))
  {
    if OwnedAt(s, n, owner, IdOf(gvk, name)) {
      assert IdOf(gvk, name) in t.namespaces[n].objects;
    }
  }

  lemma OneTypeFinds(w: World, s: State, n: string, owner: string, gvk: Gvk, f: Found)
    requires n in Arrive(w, s).namespaces
    ensures f in LabelledOfType(w, s, n, owner, gvk).value <==>
            f.gvk == gvk && Lists(w, s.calls, gvk) && OwnedAt(s, n, owner, IdOf(f.gvk, f.name))
  {
    var t := Arrive(w, s);
    ArriveKeepsObjects(w, s, n);
    FoundIsNamed(gvk, SortedNames(OwnedNames(t, n, gvk, owner)), f);
    OwnedNamesAre(s, t, n, gvk, owner, f.name);
  }

  lemma {:induction false} EachWaits(w: World, s: State, n: string, owner: string, gvks: seq<Gvk>, found: seq<Found>)
    ensures LabelledEach(w, s, n, owner, gvks, found).state == Wait(w, s, |gvks|)
    decreases |gvks|
  {
    if gvks != [] {
      var one := LabelledOfType(w, s, n, owner, gvks[0]);
      EachWaits(w, one.state, n, owner, gvks[1..], found + one.value);
    }
  }

  /** The listing makes one call for each type and finds, in a namespace that is still there
      at the end, exactly the owned objects of the types that it was answered for. */
  lemma {:induction false} EachFinds(w: World, s: State, n: string, owner: string,
                                     gvks: seq<Gvk>, found: seq<Found>, f: Found)
    requires n in Wait(w, s, |gvks|).namespaces
    ensures f in LabelledEach(w, s, n, owner, gvks, found).value <==>
            f in found || (Asked(w, s.calls, gvks, f.gvk) && OwnedAt(s, n, owner, IdOf(f.gvk, f.name)))
    decreases |gvks|
  {
    if gvks != [] {
      var t, more := Arrive(w, s), LabelledOfType(w, s, n, owner, gvks[0]).value;
      ArriveCalls(w, s);
      WaitStays(w, t, |gvks| - 1, n);
      OneTypeFinds(w, s, n, owner, gvks[0], f);
      EachFinds(w, t, n, owner, gvks[1..], found + more, f);
      SameOwned(w, s, n, owner, IdOf(f.gvk, f.name));
      assert f in found + more <==> f in found || f in more;
    }
  }

  /** What the k-th call, if it is a discovery, answers; nothing when it is refused. */
  function Discovered(w: World, k: nat): seq<ResourceList> {
    match w.script(k)
    case Refuse => []
    case Degraded(lists) => lists
    case _ => w.discovery
  }

  lemma LabelledIsEach(w: World, s: State, n: string, owner: string)
    ensures Finalizer.Labelled(w, s, n, owner)
         == LabelledEach(w, Arrive(w, s), n, owner, Suitable(Discovered(w, s.calls)), [])
  {
    ListsAreEach(w, Arrive(w, s), n, owner, Discovered(w, s.calls), []);
  }

  /** listResourcesWithLabel in any weather, for a namespace that is still there after it: it
      finds exactly the owned objects of those types in the discovery answer for which the
      listing is answered. A refused discovery answers no types. */
  lemma LabelledFinds(w: World, s: State, n: string, owner: string, f: Found)
    requires n in Finalizer.Labelled(w, s, n, owner).state.namespaces
    ensures f in Finalizer.Labelled(w, s, n, owner).value <==>
            Asked(w, s.calls + 1, Suitable(Discovered(w, s.calls)), f.gvk) && OwnedAt(s, n, owner, IdOf(f.gvk, f.name))
  {
    LabelledIsEach(w, s, n, owner);
    EachWaits(w, Arrive(w, s), n, owner, Suitable(Discovered(w, s.calls)), []);
    LaterEachFinds(w, s, n, owner, Suitable(Discovered(w, s.calls)), f);
  }

  lemma LaterEachFinds(w: World, s: State, n: string, owner: string, gvks: seq<Gvk>, f: Found)
    requires n in Wait(w, Arrive(w, s), |gvks|).namespaces
    ensures f in LabelledEach(w, Arrive(w, s), n, owner, gvks, []).value <==>
            Asked(w, s.calls + 1, gvks, f.gvk) && OwnedAt(s, n, owner, IdOf(f.gvk, f.name))
  {
    var t := Arrive(w, s);
    ArriveCalls(w, s);
    WaitStays(w, t, |gvks|, n);
    EachFinds(w, t, n, owner, gvks, [], f);
    SameOwned(w, s, n, owner, IdOf(f.gvk, f.name));
  }

  lemma LabelledWaits(w: World, s: State, n: string, owner: string)
    ensures Finalizer.Labelled(w, s, n, owner).state == Wait(w, s, 1 + |Suitable(Discovered(w, s.calls))|)
  {
    LabelledIsEach(w, s, n, owner);
    EachWaits(w, Arrive(w, s), n, owner, Suitable(Discovered(w, s.calls)), []);
  }

  // ---------- What the deletions remove ----------

  /** The k-th call, the deletion of what was found, takes the object. */
  predicate Takes(w: World, k: nat, f: Found, id: ObjectId) {
    IdOf(f.gvk, f.name) == id && f.gvk in w.served && Answered(w, k)
  }

  /** One of the deletions, the first of which is call k, takes the object. */
  predicate Deletes(w: World, k: nat, found: seq<Found>, id: ObjectId)
    decreases |found|
  {
    found != [] && (Takes(w, k, found[0], id) || Deletes(w, k + 1, found[1..], id))
  }

  /** The object id of namespace n, if the namespace is still there, is gone just when `gone`
      says so, and otherwise as it was. */
  ghost predicate LosesAt(s: State, t: State, n: string, id: ObjectId, gone: bool) {
    && Fades(s, t)
    && (n in t.namespaces ==>
          && (id in t.namespaces[n].objects <==> id in s.namespaces[n].objects && !gone)
          && (id in t.namespaces[n].objects ==> t.namespaces[n].objects[id] == s.namespaces[n].objects[id]))
  }

  /** The same, and no other namespace has lost anything. */
  ghost predicate Loses(s: State, t: State, n: string, id: ObjectId, gone: bool) {
    Survives(s, t, n) && LosesAt(s, t, n, id, gone)
  }

  lemma LosesTrans(s: State, t: State, u: State, n: string, id: ObjectId, a: bool, b: bool)
    requires Loses(s, t, n, id, a) && Loses(t, u, n, id, b)
    ensures Loses(s, u, n, id, a || b)
  {}

  lemma ArriveLoses(w: World, s: State, n: string, id: ObjectId)
    ensures Loses(s, Arrive(w, s), n, id, false)
  {}

  lemma {:induction false} WaitLoses(w: World, s: State, k: nat, n: string, id: ObjectId)
    ensures Loses(s, Wait(w, s, k), n, id, false) && Wait(w, s, k).calls == s.calls + k
    decreases k
  {
    if k > 0 {
      ArriveLoses(w, s, n, id);
      WaitLoses(w, Arrive(w, s), k - 1, n, id);
      LosesTrans(s, Arrive(w, s), Wait(w, s, k), n, id, false, false);
    }
  }

  lemma PutLoses(t: State, n: string, x: ObjectId, id: ObjectId)
    requires n in t.namespaces && x in t.namespaces[n].objects
    ensures Loses(t, PutObjects(t, n, t.namespaces[n].objects - {x}), n, id, x == id)
  {}

  lemma OneDeletion(w: World, s: State, n: string, f: Found, id: ObjectId)
    ensures var t := DeleteObject(w, s, n, f.gvk, f.name).state;
            t.calls == s.calls + 1 && Loses(s, t, n, id, Takes(w, s.calls, f, id))
  {
    var t, x := Arrive(w, s), IdOf(f.gvk, f.name);
    ArriveLoses(w, s, n, id);
    if DeleteObject(w, s, n, f.gvk, f.name).value.Pass? {
      PutLoses(t, n, x, id);
      LosesTrans(s, t, PutObjects(t, n, t.namespaces[n].objects - {x}), n, id, false, x == id);
    }
  }

  /** The deletions, begun in s, made one call for each object found, and the object went just
      when one of the deletions for it was answered. */
  ghost predicate Removes(w: World, s: State, t: State, n: string, found: seq<Found>, id: ObjectId) {
    t.calls == s.calls + |found| && Loses(s, t, n, id, Deletes(w, s.calls, found, id))
  }

  lemma RemovesStep(w: World, s: State, r: State, t: State, n: string, found: seq<Found>, id: ObjectId)
    requires found != [] && r.calls == s.calls + 1 && Loses(s, r, n, id, Takes(w, s.calls, found[0], id))
    requires Removes(w, r, t, n, found[1..], id)
    ensures Removes(w, s, t, n, found, id)
  {
    LosesTrans(s, r, t, n, id, Takes(w, s.calls, found[0], id), Deletes(w, s.calls + 1, found[1..], id));
  }

  lemma {:induction false} DeleteFoundRemoves(w: World, s: State, n: string, found: seq<Found>,
                                              errs: seq<Error>, id: ObjectId)
    ensures Removes(w, s, DeleteFound(w, s, n, found, errs).state, n, found, id)
    decreases |found|
  {
    if found == [] {
      assert Loses(s, s, n, id, false);
    } else {
      var r := DeleteObject(w, s, n, found[0].gvk, found[0].name);
      var errs' := if r.value.Fail? then errs + [r.value.error] else errs;
      OneDeletion(w, s, n, found[0], id);
      DeleteFoundRemoves(w, r.state, n, found[1..], errs', id);
      RemovesStep(w, s, r.state, DeleteFound(w, r.state, n, found[1..], errs').state, n, found, id);
    }
  }

  // ---------- Both ----------

  /** The sweep gets this object: a listing of its kind is answered, so that it is found, and
      so is one of the deletions for it. */
  predicate SweptAway(w: World, s: State, n: string, owner: string, id: ObjectId) {
    var found := Finalizer.Labelled(w, s, n, owner);
    Deletes(w, found.state.calls, found.value, id)
  }

  /** The sweep, in any weather, object by object. */
  lemma SweepRemoves(w: World, s: State, n: string, owner: string, errs: seq<Error>, id: ObjectId)
    ensures var found := Finalizer.Labelled(w, s, n, owner);
            var t := DeleteFound(w, found.state, n, found.value, errs).state;
            Loses(s, t, n, id, SweptAway(w, s, n, owner, id))
  {
    var found := Finalizer.Labelled(w, s, n, owner);
    LabelledWaits(w, s, n, owner);
    WaitLoses(w, s, 1 + |Suitable(Discovered(w, s.calls))|, n, id);
    DeleteFoundRemoves(w, found.state, n, found.value, errs, id);
    LosesTrans(s, found.state, DeleteFound(w, found.state, n, found.value, errs).state, n, id, false,
               SweptAway(w, s, n, owner, id));
  }
}
