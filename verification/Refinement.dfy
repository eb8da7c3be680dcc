/** The controller's operations in steady weather, measured against the ideal ones:
    a failure-free operation does exactly what the ideal one says, and one that is cut
    off leaves a state from which a retry completes. */
module Refinement {
  import opened Names
  import opened Kube
  import opened Watcher
  import opened Resources
  import opened Controller
  import opened Weather
  import opened Ideal
  import Statuses
  import Finalizer

  // ---------- Deleting by identifier ----------

  /** The list offers the kind under this group and version. */
  predicate Offers(l: ResourceList, group: string, version: string, kind: string) {
    ParseGroupVersion(l.groupVersion) == Good(GroupVersion(group, version)) && HasKind(l.resources, kind)
  }

  lemma {:induction false} PreferredVersionsListTheKind(lists: seq<ResourceList>, group: string, kind: string)
    ensures forall v <- PreferredVersions(lists, group, kind) :: exists l <- lists :: Offers(l, group, v, kind)
    ensures (exists l <- lists, v :: Offers(l, group, v, kind)) ==> PreferredVersions(lists, group, kind) != []
  {
    if lists != [] {
      var front, last := lists[..|lists| - 1], lists[|lists| - 1];
      PreferredVersionsListTheKind(front, group, kind);
      assert lists == front + [last];
      forall v | v in PreferredVersions(lists, group, kind) ensures exists l <- lists :: Offers(l, group, v, kind) {
        if v in PreferredVersions(front, group, kind) {
          var l :| l in front && Offers(l, group, v, kind);
          assert l in lists;
        } else {
          assert Offers(last, group, v, kind);
        }
      }
      if l, v :| l in lists && Offers(l, group, v, kind) {
        assert l in front || l == last;
      }
    }
  }

  /** Every listed group and kind resolves to a served version: for a named group, one under
      which discovery lists that kind; the fallback "v1" is used for the core group alone. */
  lemma ListedIsDeletable(w: World, s: State, sel: Selector, group: string, kind: string)
    requires WorldOk(w) && Listed(w, sel, w.discovery, group, kind)
    requires group != "" ==> Discover(w, s).value == Ok(w.discovery)
    ensures var v := DeletionVersion(w, s, group, kind).value;
            && Gvk(group, v, kind) in w.served
            && exists l <- w.discovery :: Offers(l, group, v, kind)
  {
    var l :| l in w.discovery && ListedBy(w, sel, l, group, kind);
    var gv := ParseGroupVersion(l.groupVersion).gv;
    var r :| r in l.resources && Selects(w, sel, gv, r) && r.kind == kind;
    assert AllServed(w, l) && GvkOf(gv, r.kind) in w.served;
    if group != "" {
      PreferredVersionsListTheKind(w.discovery, group, kind);
      assert Offers(l, group, gv.version, kind);
      var v := PreferredVersions(w.discovery, group, kind)[0];
      assert v in PreferredVersions(w.discovery, group, kind);
      var l' :| l' in w.discovery && Offers(l', group, v, kind);
      assert AllServed(w, l');
    }
  }

  /** The objects of t in namespace n are some of those of s. */
  ghost predicate Fewer(s: State, t: State, n: string)
    requires n in s.namespaces && n in t.namespaces
  {
    forall id <- t.namespaces[n].objects ::
      id in s.namespaces[n].objects && t.namespaces[n].objects[id] == s.namespaces[n].objects[id]
  }

  /** t is s with some objects of namespace n gone: id at most, and surely if `sure`. */
  ghost predicate Without(s: State, t: State, n: string, id: ObjectId, sure: bool)
    requires n in s.namespaces
  {
    && OnlyObjects(s, t, n) && Fewer(s, t, n)
    && (forall x <- s.namespaces[n].objects | x != id :: x in t.namespaces[n].objects)
    && (sure ==> id !in t.namespaces[n].objects)
  }

  lemma DeleteObjectIs(w: World, s: State, t: State, n: string, gvk: Gvk, name: string)
    requires Peopled(w) && n in s.namespaces && OnlyRead(s, t)
    ensures var u := DeleteObject(w, t, n, gvk, name).state; Without(s, u, n, IdOf(gvk, name), Unbroken(w, u)
            && gvk in w.served)
  {}

  lemma DeletionVersionReads(w: World, s: State, group: string, kind: string)
    requires Peopled(w)
    ensures OnlyRead(s, DeletionVersion(w, s, group, kind).state)
  {}

  lemma DeleteOne(w: World, s: State, n: string, id: ObjectId)
    requires Steady(w) && WorldOk(w) && n in s.namespaces && Listed(w, ByList, w.discovery, id.group, id.kind)
    ensures var t := DeleteByKind(w, s, n, id.kind, id.name, id.group).state; Without(s, t, n, id, Up(w, t))
  {
    var v := DeletionVersion(w, s, id.group, id.kind);
    DeletionVersionReads(w, s, id.group, id.kind);
    if Up(w, s) {
      ListedIsDeletable(w, s, ByList, id.group, id.kind);
    }
    DeleteObjectIs(w, s, v.state, n, Gvk(id.group, v.value, id.kind), id.name);
  }

  ghost predicate Deletable(w: World, x: string) {
    exists id :: ValidId(id) && Listed(w, ByList, w.discovery, id.group, id.kind) && x == Ident(id)
  }

  /** Whether the cleanup loop goes for the object. */
  ghost predicate Targeted(id: ObjectId, keep: set<string>, ids: seq<string>) {
    Ident(id) in ids && KindName(id.kind, id.name) !in keep
  }

  function AfterHead(w: World, s: State, n: string, keep: set<string>, id: ObjectId): State {
    if KindName(id.kind, id.name) in keep then s else DeleteByKind(w, s, n, id.kind, id.name, id.group).state
  }

  lemma DeleteStaleHead(w: World, s: State, n: string, keep: set<string>, ids: seq<string>, id: ObjectId)
    requires ids != [] && ValidId(id) && ids[0] == Ident(id)
    ensures DeleteStale(w, s, n, keep, ids) == DeleteStale(w, AfterHead(w, s, n, keep, id), n, keep, ids[1..])
    ensures forall x | ValidId(x) ::
              Targeted(x, keep, ids) <==>
              (x == id && KindName(id.kind, id.name) !in keep) || Targeted(x, keep, ids[1..])
  {
    IdentifierRoundTrip(id.group, id.kind, id.name);
    assert ids == [ids[0]] + ids[1..];
    forall x | ValidId(x) && Ident(x) == Ident(id) ensures x == id {
      IdentInjective(x, id);
    }
  }

  /** t is s without the objects the loop goes for, or without some of them when cut off. */
  ghost predicate StaleGone(w: World, s: State, t: State, n: string, keep: set<string>, ids: seq<string>)
    requires n in s.namespaces
  {
    && OnlyObjects(s, t, n) && Fewer(s, t, n)
    && (forall id <- s.namespaces[n].objects | !Targeted(id, keep, ids) :: id in t.namespaces[n].objects)
    && (Up(w, t) ==> forall id <- t.namespaces[n].objects :: !Targeted(id, keep, ids))
  }

  lemma StaleStep(w: World, s: State, r: State, t: State, n: string, keep: set<string>, ids: seq<string>, id: ObjectId)
    requires Steady(w) && Wf(s) && n in s.namespaces && ids != []
    requires Without(s, r, n, id, Up(w, r) && KindName(id.kind, id.name) !in keep)
             && (KindName(id.kind, id.name) in keep ==> r == s)
    requires StaleGone(w, r, t, n, keep, ids[1..])
    requires forall x | ValidId(x) ::
               Targeted(x, keep, ids) <==>
               (x == id && KindName(id.kind, id.name) !in keep) || Targeted(x, keep, ids[1..])
    ensures StaleGone(w, s, t, n, keep, ids)
  {
    assert forall x <- s.namespaces[n].objects :: ValidId(x);
    assert Up(w, t) ==> Up(w, r);
  }

  lemma HeadErased(w: World, s: State, n: string, keep: set<string>, id: ObjectId)
    requires Steady(w) && WorldOk(w) && Wf(s) && n in s.namespaces && Listed(w, ByList, w.discovery, id.group, id.kind)
    ensures var r := AfterHead(w, s, n, keep, id);
            && Without(s, r, n, id, Up(w, r) && KindName(id.kind, id.name) !in keep) && Wf(r)
            && (KindName(id.kind, id.name) in keep ==> r == s)
  {
    DeleteOne(w, s, n, id);
    FewerIsWf(s, AfterHead(w, s, n, keep, id), n);
  }

  lemma FewerIsWf(s: State, t: State, n: string)
    requires Wf(s) && n in s.namespaces && OnlyObjects(s, t, n) && Fewer(s, t, n)
    ensures Wf(t)
  {}

  lemma {:induction false} DeleteStaleIs(w: World, s: State, n: string, keep: set<string>, ids: seq<string>)
    requires Steady(w) && WorldOk(w) && Wf(s) && n in s.namespaces
    requires forall x <- ids :: Deletable(w, x)
    ensures StaleGone(w, s, DeleteStale(w, s, n, keep, ids), n, keep, ids)
    decreases |ids|
  {
    if ids == [] {
      NothingStale(w, s, n, keep);
    } else {
      assert Deletable(w, ids[0]);
      var id :| ValidId(id) && Listed(w, ByList, w.discovery, id.group, id.kind) && ids[0] == Ident(id);
      var r := AfterHead(w, s, n, keep, id);
      DeleteStaleHead(w, s, n, keep, ids, id);
      HeadErased(w, s, n, keep, id);
      DeleteStaleIs(w, r, n, keep, ids[1..]);
      StaleStep(w, s, r, DeleteStale(w, r, n, keep, ids[1..]), n, keep, ids, id);
    }
  }

  lemma NothingStale(w: World, s: State, n: string, keep: set<string>)
    requires n in s.namespaces
    ensures StaleGone(w, s, s, n, keep, [])
  {}

  lemma {:induction false} DeleteFoundIs(w: World, s: State, n: string, found: seq<Finalizer.Found>, errs: seq<Error>)
    requires Steady(w) && n in s.namespaces
    requires forall f <- found :: f.gvk in w.served
    ensures var t := Finalizer.DeleteFound(w, s, n, found, errs).state;
            && OnlyObjects(s, t, n) && Fewer(s, t, n)
            && (forall id <- s.namespaces[n].objects | !Reported(w, id, found) :: id in t.namespaces[n].objects)
            && (Up(w, t) ==> forall id <- t.namespaces[n].objects :: !Reported(w, id, found))
    decreases |found|
  {
    if found != [] {
      var r := DeleteObject(w, s, n, found[0].gvk, found[0].name);
      assert found == [found[0]] + found[1..];
      DeleteFoundIs(w, r.state, n, found[1..], if r.value.Fail? then errs + [r.value.error] else errs);
    }
  }

  // ---------- The switch cleanup ----------

  /** The stale objects of a namespace, as stored. */
  ghost predicate StaleAt(w: World, s: State, n: string, previous: string, c: string, id: ObjectId)
    requires n in s.namespaces && c in s.classes
  {
    id in s.namespaces[n].objects
      && Stale(w, previous, s.classes.Keys, s.classes[c].spec, id, s.namespaces[n].objects[id].obj)
  }

  /** Without failures the cleanup removes exactly the stale objects and changes nothing
      else, in any namespace; cut off, it has removed some of them. Listing a kind twice,
      so that a later delete finds nothing, makes no difference. */
  lemma SwitchCleanupIsExact(w: World, s: State, n: string, previous: string, c: string)
    requires Steady(w) && WorldOk(w) && Wf(s) && n in s.namespaces && c in s.classes
    ensures var r := CleanupPrevious(w, s, n, previous, c);
            var t := r.state;
            && OnlyObjects(s, t, n) && Fewer(s, t, n)
            && (forall id <- s.namespaces[n].objects | !StaleAt(w, s, n, previous, c, id) ::
                  id in t.namespaces[n].objects)
            && (Up(w, t) ==> r.value.Pass? && forall id <- t.namespaces[n].objects ::
                                                !StaleAt(w, s, n, previous, c, id))
  {
    var origin := GetClass(w, s, previous);
    if origin.value == Err(NotFound) {
      var found := Finalizer.Labelled(w, origin.state, n, previous);
      LabelledIsComplete(w, origin.state, n, previous);
      DeleteFoundIs(w, found.state, n, found.value, []);
      var t := Finalizer.CleanupAll(w, origin.state, n, previous);
      forall id | id in s.namespaces[n].objects && Reported(w, id, found.value)
        ensures StaleAt(w, s, n, previous, c, id) {
        var f :| f in found.value && f.gvk in w.served && IdOf(f.gvk, f.name) == id;
      }
      if Up(w, t) {
        forall id | StaleAt(w, s, n, previous, c, id) ensures id !in t.namespaces[n].objects {
          assert InLists(w, origin.state, n, previous, ByWatch, w.discovery, id);
          assert Reported(w, id, found.value);
        }
      }
    } else if origin.value.Ok? {
      var ids := Managed(w, origin.state, n, previous);
      ManagedIsComplete(w, origin.state, n, previous);
      if ids.value.Ok? {
        var target := GetClass(w, ids.state, c);
        if target.value.Ok? {
          SwitchDiff(w, s, n, previous, c, ids.value.value, target.state);
        }
      }
    }
  }

  lemma SwitchDiff(w: World, s: State, n: string, previous: string, c: string, ids: seq<string>, u: State)
    requires Steady(w) && WorldOk(w) && Wf(s) && n in s.namespaces && c in s.classes && previous in s.classes
    requires OnlyRead(s, u)
    requires forall x <- ids :: exists id :: InLists(w, s, n, previous, ByList, w.discovery, id) && x == Ident(id)
    requires Up(w, u) ==> forall id | InLists(w, s, n, previous, ByList, w.discovery, id) :: Ident(id) in ids
    ensures var t := DeleteStale(w, u, n, KeepKeys(s.classes[c].spec), ids);
            && OnlyObjects(s, t, n) && Fewer(s, t, n)
            && (forall id <- s.namespaces[n].objects | !StaleAt(w, s, n, previous, c, id) ::
                  id in t.namespaces[n].objects)
            && (Up(w, t) ==> forall id <- t.namespaces[n].objects :: !StaleAt(w, s, n, previous, c, id))
  {
    var keep := KeepKeys(s.classes[c].spec);
    forall x | x in ids ensures Deletable(w, x) {
      var id :| InLists(w, s, n, previous, ByList, w.discovery, id) && x == Ident(id);
      assert ValidId(id);
    }
    DeleteStaleIs(w, u, n, keep, ids);
    var t := DeleteStale(w, u, n, keep, ids);
    forall id | id in s.namespaces[n].objects && Targeted(id, keep, ids) ensures StaleAt(w, s, n, previous, c, id) {
      var id' :| InLists(w, s, n, previous, ByList, w.discovery, id') && Ident(id) == Ident(id');
      IdentInjective(id, id');
    }
    if Up(w, t) {
      forall id | StaleAt(w, s, n, previous, c, id) ensures id !in t.namespaces[n].objects {
        assert InLists(w, s, n, previous, ByList, w.discovery, id);
        assert Targeted(id, keep, ids);
      }
    }
  }

  /** The cleanup, on the view: stale objects go, unless it is cut off. */
  lemma CleanupTrims(w: World, s: State, n: string, previous: string, c: string)
    requires Steady(w) && WorldOk(w) && Wf(s) && n in s.namespaces && c in s.classes
    ensures OnlyObjects(s, CleanupPrevious(w, s, n, previous, c).state, n)
    ensures var r := CleanupPrevious(w, s, n, previous, c);
            var before, after := Contents(s.namespaces[n].objects), Contents(r.state.namespaces[n].objects);
            var trimmed := Trim(w, before, previous, s.classes.Keys, s.classes[c].spec);
            && Wf(r.state)
            && (forall id <- after :: id in before && after[id] == before[id])
            && (forall id <- trimmed :: id in after)
            && (Up(w, r.state) ==> r.value.Pass? && after == trimmed)
  {
    SwitchCleanupIsExact(w, s, n, previous, c);
    CleanupContents(w, s, n, previous, c, CleanupPrevious(w, s, n, previous, c));
  }

  lemma CleanupContents(w: World, s: State, n: string, previous: string, c: string, r: Reply<Outcome>)
    requires Wf(s) && n in s.namespaces && c in s.classes && OnlyObjects(s, r.state, n) && Fewer(s, r.state, n)
    requires forall id <- s.namespaces[n].objects | !StaleAt(w, s, n, previous, c, id) ::
               id in r.state.namespaces[n].objects
    requires Up(w, r.state) ==> r.value.Pass? && forall id <- r.state.namespaces[n].objects ::
                                                   !StaleAt(w, s, n, previous, c, id)
    ensures var before, after := Contents(s.namespaces[n].objects), Contents(r.state.namespaces[n].objects);
            var trimmed := Trim(w, before, previous, s.classes.Keys, s.classes[c].spec);
            && Wf(r.state)
            && (forall id <- after :: id in before && after[id] == before[id])
            && (forall id <- trimmed :: id in after)
            && (Up(w, r.state) ==> r.value.Pass? && after == trimmed)
  {
    FewerIsWf(s, r.state, n);
  }

  // ---------- Annotations and status ----------

  /** t differs from s in the annotations of namespace n, which are now a, and in its version. */
  ghost predicate OnlyAnnotations(s: State, t: State, n: string, a: Annotations) {
    && s.calls <= t.calls && s.clock < t.clock
    && t.classes == s.classes && t.pending == s.pending
    && t.namespaces.Keys == s.namespaces.Keys
    && (forall m <- s.namespaces | m != n :: t.namespaces[m] == s.namespaces[m])
    && n in s.namespaces
    && t.namespaces[n].objects == s.namespaces[n].objects
    && t.namespaces[n].meta == s.namespaces[n].meta.(annotations := a, version := t.clock)
  }

  lemma UpdateNamespaceIs(w: World, s: State, t: State, n: string, a: Annotations)
    requires Peopled(w) && Wf(s) && n in s.namespaces && OnlyRead(s, t)
    ensures var r := UpdateNamespace(w, t, n, s.namespaces[n].meta.(annotations := a));
            && Wf(r.state)
            && if r.value.Pass? then OnlyAnnotations(s, r.state, n, a)
               else OnlyRead(s, r.state) && !Unbroken(w, r.state)
  {}

  lemma LookupReads(w: World, s: State, n: string)
    requires Peopled(w) && Wf(s) && n in s.namespaces
    ensures var ns := GetNamespace(w, s, n);
            OnlyRead(s, ns.state) && Wf(ns.state) && (ns.value.Ok? ==> ns.value.value == s.namespaces[n].meta)
  {}

  lemma SetAnnotationsIs(w: World, s: State, n: string, c: string)
    requires Peopled(w) && Wf(s) && n in s.namespaces
    ensures var r := SetAnnotations(w, s, n, c, c);
            && Wf(r.state)
            && if r.value.Pass? then OnlyAnnotations(s, r.state, n, SetBoth(s.namespaces[n].meta.annotations, c, c))
               else OnlyRead(s, r.state) && !Unbroken(w, r.state)
  {
    var latest := GetNamespace(w, s, n);
    LookupReads(w, s, n);
    if latest.value.Ok? {
      UpdateNamespaceIs(w, s, latest.state, n, SetBoth(s.namespaces[n].meta.annotations, c, c));
    }
  }

  lemma UpdateCurrentIs(w: World, s: State, n: string, c: string)
    requires Peopled(w) && Wf(s) && n in s.namespaces
    ensures var r := UpdateCurrent(w, s, n, c);
            && Wf(r.state)
            && if r.value.Pass? then OnlyAnnotations(s, r.state, n, Swap(s.namespaces[n].meta.annotations, c))
               else OnlyRead(s, r.state) && !Unbroken(w, r.state)
  {
    var latest := GetNamespace(w, s, n);
    LookupReads(w, s, n);
    if latest.value.Ok? {
      UpdateNamespaceIs(w, s, latest.state, n, Swap(s.namespaces[n].meta.annotations, c));
    }
  }

  /** t differs from s in the status of class c, whose lookup map is now `status`. */
  ghost predicate OnlyStatus(s: State, t: State, c: string, status: Statuses.StatusMap) {
    && s.calls <= t.calls && s.clock < t.clock
    && t.namespaces == s.namespaces && t.pending == s.pending
    && t.classes.Keys == s.classes.Keys
    && (forall d <- s.classes | d != c :: t.classes[d] == s.classes[d])
    && c in s.classes
    && t.classes[c] == s.classes[c].(status := t.classes[c].status, version := t.clock)
    && Statuses.LookupMap(t.classes[c].status.namespaces) == status
  }

  lemma PatchIs(w: World, s: State, c: string, status: Status)
    requires Peopled(w) && Wf(s) && c in s.classes
    ensures var r := PatchStatus(w, s, c, status);
            && Wf(r.state)
            && if r.value.Pass? then OnlyStatus(s, r.state, c, Statuses.LookupMap(status.namespaces))
               else OnlyRead(s, r.state) && !Unbroken(w, r.state)
  {}

  lemma StatusCalls(w: World, s: State, n: string, c: string, previous: string)
    requires Peopled(w) && Wf(s) && c in s.classes && previous != "" && previous != c
    ensures var r := Statuses.RecordSwitch(w, s, n, c, previous);
            var before := Statuses.LookupMap(s.classes[c].status.namespaces);
            && Wf(r.state)
            && if r.value.Pass? then OnlyStatus(s, r.state, c,
                 before[n := Statuses.SwitchedEntry(n, c, previous, before)])
               else OnlyRead(s, r.state) && !Unbroken(w, r.state)
  {
    var list := s.classes[c].status.namespaces;
    Statuses.SwitchRefinesMap(list, n, c, previous);
    var latest := GetClass(w, s, c);
    if latest.value.Ok? {
      var entries := Statuses.SwitchEntries(list, Statuses.LookupMap(list), n, c, previous);
      PatchIs(w, latest.state, c, Status(s.classes[c].generation, true, entries));
    }
  }

  // ---------- The apply loop ----------

  lemma PutContents(s: State, t: State, n: string, id: ObjectId, obj: Object)
    requires OnlyRead(s, t) && n in s.namespaces
    ensures var u := PutObjects(t, n, t.namespaces[n].objects[id := Stored(obj, t.clock + 1)]);
            && OnlyObjects(s, u, n)
            && Contents(u.namespaces[n].objects) == Contents(s.namespaces[n].objects)[id := obj]
  {}

  lemma PutIsWf(s: State, t: State, n: string, id: ObjectId, obj: Object)
    requires OnlyRead(s, t) && Wf(s) && n in s.namespaces && ValidId(id)
    ensures Wf(PutObjects(t, n, t.namespaces[n].objects[id := Stored(obj, t.clock + 1)]))
  {}

  lemma PutIs(s: State, t: State, n: string, id: ObjectId, obj: Object)
    requires OnlyRead(s, t) && Wf(s) && n in s.namespaces && ValidId(id)
    ensures var u := PutObjects(t, n, t.namespaces[n].objects[id := Stored(obj, t.clock + 1)]);
            && OnlyObjects(s, u, n) && Wf(u)
            && Contents(u.namespaces[n].objects) == Contents(s.namespaces[n].objects)[id := obj]
  {
    PutContents(s, t, n, id, obj);
    PutIsWf(s, t, n, id, obj);
  }

  /** Writing obj at id, after some reads: done, refused, or not accepted. */
  ghost predicate Written(w: World, s: State, o: Reply<Outcome>, n: string, id: ObjectId, obj: Object, fits: bool)
    requires n in s.namespaces
  {
    && OnlyObjects(s, o.state, n) && Wf(o.state)
    && if o.value.Pass? then fits
         && Contents(o.state.namespaces[n].objects) == Contents(s.namespaces[n].objects)[id := obj]
       else o.state.namespaces == s.namespaces && (Unbroken(w, o.state) ==> !fits)
  }

  lemma NotWritten(w: World, s: State, t: State, n: string, id: ObjectId, obj: Object, fits: bool, e: Error)
    requires Peopled(w) && Wf(s) && n in s.namespaces && OnlyRead(s, t) && (Refused(w, t) || !fits)
    ensures Written(w, s, Reply(Arrive(w, t), Fail(e)), n, id, obj, fits)
  {}

  lemma IsWritten(w: World, s: State, t: State, n: string, id: ObjectId, obj: Object)
    requires Peopled(w) && Wf(s) && n in s.namespaces && OnlyRead(s, t) && ValidId(id)
    ensures var u := Arrive(w, t);
            Written(w, s, Reply(PutObjects(u, n, u.namespaces[n].objects[id := Stored(obj, u.clock + 1)]), Pass), n,
              id, obj, true)
  {
    PutIs(s, Arrive(w, t), n, id, obj);
  }

  lemma UpdateObjectIs(w: World, s: State, t: State, n: string, gvk: Gvk, name: string, obj: Object)
    requires Peopled(w) && Wf(s) && n in s.namespaces && OnlyRead(s, t) && gvk in w.served
    requires IdOf(gvk, name) in s.namespaces[n].objects
    ensures Written(w, s, UpdateObject(w, t, n, gvk, name, obj, s.namespaces[n].objects[IdOf(gvk, name)].version), n,
                    IdOf(gvk, name), obj, ValidName(name))
  {
    assert ValidId(IdOf(gvk, name));
    if Refused(w, t) {
      NotWritten(w, s, t, n, IdOf(gvk, name), obj, ValidName(name), Unavailable);
    } else {
      IsWritten(w, s, t, n, IdOf(gvk, name), obj);
    }
  }

  lemma CreateObjectIs(w: World, s: State, t: State, n: string, gvk: Gvk, name: string, obj: Object)
    requires Peopled(w) && WorldOk(w) && Wf(s) && n in s.namespaces && OnlyRead(s, t) && gvk in w.served
    requires !s.namespaces[n].meta.deleting && IdOf(gvk, name) !in s.namespaces[n].objects
    ensures Written(w, s, CreateObject(w, t, n, gvk, name, obj), n, IdOf(gvk, name), obj, ValidName(name))
  {
    if Refused(w, t) {
      NotWritten(w, s, t, n, IdOf(gvk, name), obj, ValidName(name), Unavailable);
    } else if !ValidName(name) {
      NotWritten(w, s, t, n, IdOf(gvk, name), obj, ValidName(name), Rejected);
    } else {
      IsWritten(w, s, t, n, IdOf(gvk, name), obj);
    }
  }

  lemma ApplyOneIs(w: World, s: State, n: string, c: string, r: RawResource)
    requires Peopled(w) && WorldOk(w) && Wf(s) && n in s.namespaces && !s.namespaces[n].meta.deleting
    ensures var o := ApplyOne(w, s, n, c, r);
            && OnlyObjects(s, o.state, n) && Wf(o.state)
            && (o.value.Pass? ==> Applicable(w, r))
            && (o.value.Pass? ==> Contents(o.state.namespaces[n].objects)
                                  == Contents(s.namespaces[n].objects)[IdOf(r.gvk, r.name) := Prepared(r, c)])
            && (o.value.Fail? ==> o.state.namespaces == s.namespaces && (Unbroken(w, o.state) ==> !Applicable(w, r)))
  {
    if r.Manifest? && r.gvk in w.served && Up(w, s) {
      var t := GetObject(w, s, n, r.gvk, r.name).state;
      assert OnlyRead(s, t);
      if IdOf(r.gvk, r.name) in s.namespaces[n].objects {
        UpdateObjectIs(w, s, t, n, r.gvk, r.name, Prepared(r, c));
      } else {
        CreateObjectIs(w, s, t, n, r.gvk, r.name, Prepared(r, c));
      }
    }
  }

  /** What the apply loop, started at entry i, comes to: k entries are applied in all. */
  ghost predicate LoopIs(w: World, s: State, r: Reply<Outcome>, n: string, c: string, spec: seq<RawResource>, i: nat,
                         k: nat, objects: Objects) {
    && i <= k <= Count(w, spec) <= |spec|
    && OnlyObjects(s, r.state, n) && n in s.namespaces && Wf(r.state)
    && Contents(r.state.namespaces[n].objects) == Apply(objects, c, spec, k)
    && (Unbroken(w, r.state) ==> k == Count(w, spec) && (r.value.Pass? <==> k == |spec|))
    && (r.value.Pass? ==> k == |spec|)
  }

  /** The apply loop is last-writer-wins on a prefix of the spec: all applicable entries
      up to the first one the server does not take, or fewer when it is cut off. */
  lemma {:induction false} ApplyLoopIs(w: World, s: State, n: string, c: string,
                                       spec: seq<RawResource>, i: nat, objects: Objects) returns (k: nat)
    requires Peopled(w) && WorldOk(w) && Wf(s) && n in s.namespaces && !s.namespaces[n].meta.deleting
    requires i <= Count(w, spec)
    requires Contents(s.namespaces[n].objects) == Apply(objects, c, spec, i)
    ensures LoopIs(w, s, ApplyFrom(w, s, n, c, spec, i), n, c, spec, i, k, objects)
    decreases |spec| - i
  {
    k := i;
    var ns := GetNamespace(w, s, n);
    if i < |spec| && ns.value.Ok? {
      LookupReads(w, s, n);
      ApplyFromUnfolds(w, s, n, c, spec, i);
      var o := ApplyOne(w, ns.state, n, c, spec[i]);
      ApplyOneIs(w, ns.state, n, c, spec[i]);
      if o.value.Pass? {
        CountPasses(w, spec, i);
        k := ApplyLoopIs(w, o.state, n, c, spec, i + 1, objects);
        LoopExtends(w, s, ns.state, o.state, ApplyFrom(w, o.state, n, c, spec, i + 1), n, c, spec, i, k, objects);
      } else {
        LoopFails(w, s, ns.state, o, n, c, spec, i, objects);
      }
    } else {
      ApplyFromEnds(w, s, n, c, spec, i);
      LoopEnds(w, s, ApplyFrom(w, s, n, c, spec, i), n, c, spec, i, objects);
    }
  }

  lemma ApplyFromUnfolds(w: World, s: State, n: string, c: string, spec: seq<RawResource>, i: nat)
    requires Peopled(w) && n in s.namespaces && !s.namespaces[n].meta.deleting && i < |spec|
             && GetNamespace(w, s, n).value.Ok?
    ensures var o := ApplyOne(w, GetNamespace(w, s, n).state, n, c, spec[i]);
            ApplyFrom(w, s, n, c, spec, i) == if o.value.Fail? then o else ApplyFrom(w, o.state, n, c, spec, i + 1)
  {}

  lemma ApplyFromEnds(w: World, s: State, n: string, c: string, spec: seq<RawResource>, i: nat)
    requires Peopled(w) && n in s.namespaces && i <= |spec| && (i == |spec| || GetNamespace(w, s, n).value.Err?)
    ensures var r := ApplyFrom(w, s, n, c, spec, i);
            if i == |spec| then r == Reply(s, Pass) else r == Reply(Arrive(w, s), Fail(Unavailable)) && Refused(w, s)
  {}

  lemma CountPasses(w: World, spec: seq<RawResource>, i: nat)
    requires i <= Count(w, spec) && i < |spec| && Applicable(w, spec[i])
    ensures i + 1 <= Count(w, spec)
  {}

  /** The loop is done, or cannot look at the namespace. */
  lemma LoopEnds(w: World, s: State, r: Reply<Outcome>, n: string, c: string, spec: seq<RawResource>, i: nat,
                 objects: Objects)
    requires Peopled(w) && Wf(s) && n in s.namespaces && i <= Count(w, spec)
    requires Contents(s.namespaces[n].objects) == Apply(objects, c, spec, i)
    requires if i == |spec| then r == Reply(s, Pass) else r == Reply(Arrive(w, s), Fail(Unavailable)) && Refused(w, s)
    ensures LoopIs(w, s, r, n, c, spec, i, i, objects)
  {}

  /** Entry i is not taken. */
  lemma LoopFails(w: World, s: State, t: State, o: Reply<Outcome>, n: string, c: string, spec: seq<RawResource>,
                  i: nat, objects: Objects)
    requires n in s.namespaces && i <= Count(w, spec) && i < |spec| && o.value.Fail?
    requires Contents(s.namespaces[n].objects) == Apply(objects, c, spec, i)
    requires OnlyRead(s, t) && OnlyObjects(t, o.state, n) && Wf(o.state) && o.state.namespaces == t.namespaces
    requires Unbroken(w, o.state) ==> !Applicable(w, spec[i])
    ensures LoopIs(w, s, o, n, c, spec, i, i, objects)
  {}

  lemma LoopExtends(w: World, s: State, t: State, u: State, r: Reply<Outcome>, n: string, c: string,
                    spec: seq<RawResource>, i: nat, k: nat, objects: Objects)
    requires n in s.namespaces && OnlyRead(s, t) && OnlyObjects(t, u, n)
             && LoopIs(w, u, r, n, c, spec, i + 1, k, objects)
    ensures LoopIs(w, s, r, n, c, spec, i, k, objects)
  {}

  lemma ApplyClassIs(w: World, s: State, n: string, c: string, spec: seq<RawResource>) returns (k: nat)
    requires Peopled(w) && WorldOk(w) && Wf(s) && n in s.namespaces
    ensures k <= Count(w, spec)
    ensures var deleting := s.namespaces[n].meta.deleting;
            var before := Contents(s.namespaces[n].objects);
            var r := ApplyClass(w, s, n, c, spec, deleting);
            && OnlyObjects(s, r.state, n) && Wf(r.state)
            && Contents(r.state.namespaces[n].objects) == (if deleting then before else Apply(before, c, spec, k))
            && (Unbroken(w, r.state) ==> k == Count(w, spec) && (r.value.Pass? <==> deleting || k == |spec|))
            && (r.value.Pass? ==> deleting || k == |spec|)
  {
    if s.namespaces[n].meta.deleting {
      k := Count(w, spec);
    } else {
      k := ApplyLiveIs(w, s, n, c, spec);
    }
  }

  lemma ApplyLiveIs(w: World, s: State, n: string, c: string, spec: seq<RawResource>) returns (k: nat)
    requires Peopled(w) && WorldOk(w) && Wf(s) && n in s.namespaces && !s.namespaces[n].meta.deleting
    ensures LoopIs(w, s, ApplyClass(w, s, n, c, spec, false), n, c, spec, 0, k, Contents(s.namespaces[n].objects))
  {
    k := 0;
    var before := Contents(s.namespaces[n].objects);
    var ns := GetNamespace(w, s, n);
    LookupReads(w, s, n);
    if ns.value.Err? || spec == [] {
      LoopReads(w, s, ApplyClass(w, s, n, c, spec, false), n, c, spec);
    } else {
      ManagedReads(w, ns.state, n, c);
      if Steady(w) { ManagedIsComplete(w, ns.state, n, c); }
      var ids := Managed(w, ns.state, n, c);
      if ids.value.Ok? {
        k := ApplyLoopIs(w, ids.state, n, c, spec, 0, before);
        LoopAfterReads(w, s, ids.state, ApplyFrom(w, ids.state, n, c, spec, 0), n, c, spec, k);
      } else {
        LoopReads(w, s, ApplyClass(w, s, n, c, spec, false), n, c, spec);
      }
    }
  }

  /** The loop is not reached. */
  lemma LoopReads(w: World, s: State, r: Reply<Outcome>, n: string, c: string, spec: seq<RawResource>)
    requires Wf(s) && n in s.namespaces && OnlyRead(s, r.state)
    requires Unbroken(w, r.state) ==> spec == [] && r.value.Pass?
    requires r.value.Pass? ==> spec == []
    ensures LoopIs(w, s, r, n, c, spec, 0, 0, Contents(s.namespaces[n].objects))
  {}

  lemma LoopAfterReads(w: World, s: State, t: State, r: Reply<Outcome>, n: string, c: string, spec: seq<RawResource>,
                       k: nat)
    requires n in s.namespaces && OnlyRead(s, t) && LoopIs(w, t, r, n, c, spec, 0, k, Contents(s.namespaces[n].objects))
    ensures LoopIs(w, s, r, n, c, spec, 0, k, Contents(s.namespaces[n].objects))
  {}

  // ---------- One namespace with its class ----------

  /** t differs from s at most in namespace n (not its label or deletion mark), in the status
      of class c, and in the backlog. */
  ghost predicate Moved(s: State, t: State, n: string, c: string) {
    && s.calls <= t.calls && s.clock <= t.clock
    && t.namespaces.Keys == s.namespaces.Keys && t.classes.Keys == s.classes.Keys
    && (forall m <- s.namespaces | m != n :: t.namespaces[m] == s.namespaces[m])
    && (n in s.namespaces ==> t.namespaces[n].meta.classLabel == s.namespaces[n].meta.classLabel
                              && t.namespaces[n].meta.deleting == s.namespaces[n].meta.deleting)
    && (forall d <- s.classes | d != c :: t.classes[d] == s.classes[d])
    && (c in s.classes ==> t.classes[c] == s.classes[c].(status := t.classes[c].status, version := t.classes[c].version)
                           && s.classes[c].version <= t.classes[c].version)
  }

  function Backlog(v: NsView, c: string): seq<string> {
    if SwitchedFrom(v, c) == "" then [] else [SwitchedFrom(v, c)]
  }

  /** What reconciling namespace n with class c, from s, comes to. */
  ghost predicate ReconcileIs(w: World, s: State, n: string, c: string, r: Reply<Outcome>)
    requires n in s.namespaces && c in s.classes
  {
    var v, spec, known := ViewNs(s.namespaces[n]), s.classes[c].spec, s.classes.Keys;
    var t := r.state;
    && Moved(s, t, n, c) && Wf(t)
    && Interrupted(w, v, ViewNs(t.namespaces[n]), c, spec, known)
    && (Up(w, t) ==>
          && ViewNs(t.namespaces[n]) == Settle(w, v, c, spec, known)
          && ViewClass(t.classes[c]).status == RecordedStatus(w, v, n, c, spec, ViewClass(s.classes[c]).status)
          && (t.classes[c].version == s.classes[c].version <==> !Recorded(w, v, c, spec))
          && t.pending == s.pending + Backlog(v, c)
          && (r.value.Pass? <==> v.deleting || Count(w, spec) == |spec|))
    && (r.value.Pass? ==>
          && ViewNs(t.namespaces[n]) == Settle(w, v, c, spec, known)
          && (v.deleting || Count(w, spec) == |spec|))
  }

  /** The apply phase, once the annotations are settled and the stale objects gone. */
  lemma ApplyPhase(w: World, s: State, u: State, n: string, c: string)
    requires Steady(w) && WorldOk(w) && n in s.namespaces && c in s.classes
    requires Moved(s, u, n, c) && Wf(u) && u.classes == s.classes && u.pending == s.pending
    requires var v := ViewNs(s.namespaces[n]);
             && SwitchedFrom(v, c) == ""
             && ViewNs(u.namespaces[n]) == v.(annotations := SettledAnnotations(v, c))
    ensures ReconcileIs(w, s, n, c, ApplyClass(w, u, n, c, s.classes[c].spec, u.namespaces[n].meta.deleting))
  {
    var v, spec, known := ViewNs(s.namespaces[n]), s.classes[c].spec, s.classes.Keys;
    var k := ApplyClassIs(w, u, n, c, spec);
    var r := ApplyClass(w, u, n, c, spec, u.namespaces[n].meta.deleting);
    ApplyPhaseMoves(s, u, r.state, n, c);
    assert ViewNs(r.state.namespaces[n]) == Progress(w, v, c, spec, known, k);
    ApplyPhaseEnds(w, s, n, c, k, r);
  }

  lemma ApplyPhaseMoves(s: State, u: State, t: State, n: string, c: string)
    requires n in s.namespaces && Moved(s, u, n, c) && OnlyObjects(u, t, n)
    ensures Moved(s, t, n, c)
  {}

  lemma ApplyPhaseEnds(w: World, s: State, n: string, c: string, k: nat, r: Reply<Outcome>)
    requires n in s.namespaces && c in s.classes && k <= Count(w, s.classes[c].spec)
    requires Moved(s, r.state, n, c) && Wf(r.state) && r.state.classes == s.classes && r.state.pending == s.pending
    requires var v := ViewNs(s.namespaces[n]);
             && SwitchedFrom(v, c) == ""
             && ViewNs(r.state.namespaces[n]) == Progress(w, v, c, s.classes[c].spec, s.classes.Keys, k)
             && (Up(w, r.state) ==>
                   k == Count(w, s.classes[c].spec) && (r.value.Pass? <==> v.deleting || k == |s.classes[c].spec|))
             && (r.value.Pass? ==> v.deleting || k == |s.classes[c].spec|)
    ensures ReconcileIs(w, s, n, c, r)
  {
    assert s.pending + Backlog(ViewNs(s.namespaces[n]), c) == s.pending;
  }

  /** A switch whose apply phase failed, or was cut off. */
  lemma SwitchStops(w: World, s: State, n: string, c: string, k: nat, r: Reply<Outcome>)
    requires n in s.namespaces && c in s.classes && k <= Count(w, s.classes[c].spec)
    requires Moved(s, r.state, n, c) && Wf(r.state) && r.state.classes == s.classes && r.value.Fail?
    requires var v := ViewNs(s.namespaces[n]);
             && r.state.pending == s.pending + Backlog(v, c)
             && ViewNs(r.state.namespaces[n]) == Progress(w, v, c, s.classes[c].spec, s.classes.Keys, k)
             && (Up(w, r.state) ==> k == Count(w, s.classes[c].spec) && !v.deleting && k != |s.classes[c].spec|)
    ensures ReconcileIs(w, s, n, c, r)
  {}

  /** A switch whose apply phase passed, with the record of it. */
  lemma SwitchEnds(w: World, s: State, n: string, c: string, k: nat, applied: State, recorded: Reply<Outcome>)
    requires n in s.namespaces && c in s.classes && k <= Count(w, s.classes[c].spec)
    requires Moved(s, applied, n, c) && Wf(applied) && applied.classes == s.classes
    requires var v := ViewNs(s.namespaces[n]);
             && SwitchedFrom(v, c) != ""
             && applied.pending == s.pending + Backlog(v, c)
             && ViewNs(applied.namespaces[n]) == Progress(w, v, c, s.classes[c].spec, s.classes.Keys, k)
             && (Up(w, applied) ==> k == Count(w, s.classes[c].spec))
             && (v.deleting || k == |s.classes[c].spec|)
    requires Wf(recorded.state)
    requires var v, before := ViewNs(s.namespaces[n]), ViewClass(s.classes[c]).status;
             if recorded.value.Pass? then
               && OnlyStatus(applied, recorded.state, c,
                  before[n := Statuses.SwitchedEntry(n, c, SwitchedFrom(v, c), before)])
               && Up(w, applied)
             else OnlyRead(applied, recorded.state) && !Up(w, recorded.state)
    ensures ReconcileIs(w, s, n, c, Reply(recorded.state, Pass))
  {
    RecordMoves(s, applied, recorded.state, n, c);
    if recorded.value.Pass? {
      assert recorded.state.classes[c].version > s.classes[c].version;
    }
  }

  lemma RecordMoves(s: State, t: State, u: State, n: string, c: string)
    requires n in s.namespaces && c in s.classes && Moved(s, t, n, c) && t.classes == s.classes && Wf(t)
    requires OnlyRead(t, u) || exists status :: OnlyStatus(t, u, c, status)
    ensures Moved(s, u, n, c) && u.namespaces == t.namespaces && u.pending == t.pending
  {}

  /** The apply phase of a switch, and the record of it. */
  lemma SwitchPhase(w: World, s: State, u: State, n: string, c: string, previous: string)
    requires Steady(w) && WorldOk(w) && n in s.namespaces && c in s.classes && Wf(s)
    requires Moved(s, u, n, c) && Wf(u) && u.classes == s.classes && u.pending == s.pending + [previous]
    requires var v := ViewNs(s.namespaces[n]);
             && SwitchedFrom(v, c) == previous != "" && previous != c
             && ViewNs(u.namespaces[n]) == v.(annotations := SettledAnnotations(v, c),
                                              objects := Kept(w, v, c, s.classes[c].spec, s.classes.Keys))
    ensures var applied := ApplyClass(w, u, n, c, s.classes[c].spec, u.namespaces[n].meta.deleting);
            ReconcileIs(w, s, n, c, if applied.value.Fail? then applied
                                    else Reply(Statuses.RecordSwitch(w, applied.state, n, c, previous).state, Pass))
  {
    var v, spec := ViewNs(s.namespaces[n]), s.classes[c].spec;
    var k := ApplyClassIs(w, u, n, c, spec);
    var applied := ApplyClass(w, u, n, c, spec, u.namespaces[n].meta.deleting);
    SwitchApplied(w, s, u, n, c, previous, k, applied);
  }

  lemma SwitchApplied(w: World, s: State, u: State, n: string, c: string, previous: string, k: nat,
                      applied: Reply<Outcome>)
    requires Steady(w) && n in s.namespaces && c in s.classes && Wf(s)
    requires Moved(s, u, n, c) && u.classes == s.classes && u.pending == s.pending + [previous]
    requires var v := ViewNs(s.namespaces[n]);
             && SwitchedFrom(v, c) == previous != "" && previous != c
             && ViewNs(u.namespaces[n]) == v.(annotations := SettledAnnotations(v, c),
                                              objects := Kept(w, v, c, s.classes[c].spec, s.classes.Keys))
    requires k <= Count(w, s.classes[c].spec) && OnlyObjects(u, applied.state, n) && Wf(applied.state)
    requires var deleting, before := u.namespaces[n].meta.deleting, Contents(u.namespaces[n].objects);
             && Contents(applied.state.namespaces[n].objects)
                == (if deleting then before else Apply(before, c, s.classes[c].spec, k))
             && (Up(w, applied.state) ==> k == Count(w, s.classes[c].spec)
                                          && (applied.value.Pass? <==> deleting || k == |s.classes[c].spec|))
             && (applied.value.Pass? ==> deleting || k == |s.classes[c].spec|)
    ensures ReconcileIs(w, s, n, c, if applied.value.Fail? then applied
                                    else Reply(Statuses.RecordSwitch(w, applied.state, n, c, previous).state, Pass))
  {
    var v, spec, known := ViewNs(s.namespaces[n]), s.classes[c].spec, s.classes.Keys;
    ApplyPhaseMoves(s, u, applied.state, n, c);
    assert ViewNs(applied.state.namespaces[n]) == Progress(w, v, c, spec, known, k);
    assert u.pending == s.pending + Backlog(v, c);
    if applied.value.Fail? {
      SwitchStops(w, s, n, c, k, applied);
    } else {
      var recorded := Statuses.RecordSwitch(w, applied.state, n, c, previous);
      StatusCalls(w, applied.state, n, c, previous);
      assert recorded.value.Pass? ==> Up(w, applied.state);
      SwitchEnds(w, s, n, c, k, applied.state, recorded);
    }
  }

  lemma StopsBefore(w: World, s: State, n: string, c: string, r: Reply<Outcome>)
    requires n in s.namespaces && c in s.classes && Moved(s, r.state, n, c) && Wf(r.state) && !Up(w, r.state)
             && r.value.Fail?
    requires var v, x := ViewNs(s.namespaces[n]), ViewNs(r.state.namespaces[n]);
             && x == v.(objects := x.objects)
             && (forall id <- x.objects :: id in v.objects && x.objects[id] == v.objects[id])
             && (forall id <- Kept(w, v, c, s.classes[c].spec, s.classes.Keys) :: id in x.objects)
    ensures ReconcileIs(w, s, n, c, r)
  {}

  lemma SwitchClassIs(w: World, s: State, u: State, n: string, c: string)
    requires Steady(w) && WorldOk(w) && Wf(s) && n in s.namespaces && c in s.classes && OnlyRead(s, u)
    requires SwitchedFrom(ViewNs(s.namespaces[n]), c) != ""
    ensures ReconcileIs(w, s, n, c, SwitchClass(w, u, n, c, s.classes[c].spec, s.namespaces[n].meta.deleting,
                                                SwitchedFrom(ViewNs(s.namespaces[n]), c)))
  {
    var v, spec, known := ViewNs(s.namespaces[n]), s.classes[c].spec, s.classes.Keys;
    var previous := SwitchedFrom(v, c);
    CleanupTrims(w, u, n, previous, c);
    var cleaned := CleanupPrevious(w, u, n, previous, c);
    SwitchCleaned(w, s, n, c, previous, cleaned);
  }

  lemma SwitchCleaned(w: World, s: State, n: string, c: string, previous: string, cleaned: Reply<Outcome>)
    requires Steady(w) && WorldOk(w) && Wf(s) && n in s.namespaces && c in s.classes
    requires previous == SwitchedFrom(ViewNs(s.namespaces[n]), c) != ""
    requires OnlyObjects(s, cleaned.state, n) && Wf(cleaned.state)
    requires var before, after := Contents(s.namespaces[n].objects), Contents(cleaned.state.namespaces[n].objects);
             var trimmed := Trim(w, before, previous, s.classes.Keys, s.classes[c].spec);
             && (forall id <- after :: id in before && after[id] == before[id])
             && (forall id <- trimmed :: id in after)
             && (Up(w, cleaned.state) ==> cleaned.value.Pass? && after == trimmed)
    ensures ReconcileIs(w, s, n, c,
            AfterCleanup(w, n, c, s.classes[c].spec, s.namespaces[n].meta.deleting, cleaned, previous))
  {
    if cleaned.value.Fail? {
      StopsBefore(w, s, n, c, cleaned);
    } else {
      UpdateCurrentIs(w, cleaned.state, n, c);
      SwitchUpdated(w, s, n, c, previous, cleaned.state, UpdateCurrent(w, cleaned.state, n, c));
    }
  }

  lemma SwitchUpdated(w: World, s: State, n: string, c: string, previous: string, t: State, updated: Reply<Outcome>)
    requires Steady(w) && WorldOk(w) && Wf(s) && n in s.namespaces && c in s.classes && Wf(updated.state)
    requires previous == SwitchedFrom(ViewNs(s.namespaces[n]), c) != ""
    requires OnlyObjects(s, t, n)
    requires var before, after := Contents(s.namespaces[n].objects), Contents(t.namespaces[n].objects);
             var trimmed := Trim(w, before, previous, s.classes.Keys, s.classes[c].spec);
             && (forall id <- after :: id in before && after[id] == before[id])
             && (forall id <- trimmed :: id in after)
             && (Up(w, t) ==> after == trimmed)
    requires if updated.value.Pass?
             then OnlyAnnotations(t, updated.state, n, Swap(t.namespaces[n].meta.annotations, c)) && Up(w, t)
             else OnlyRead(t, updated.state) && !Up(w, updated.state)
    ensures ReconcileIs(w, s, n, c,
            AfterUpdate(w, n, c, s.classes[c].spec, s.namespaces[n].meta.deleting, updated, previous))
  {
    if updated.value.Fail? {
      StopsBefore(w, s, n, c, updated);
    } else {
      SwitchPhase(w, s, Triggered(updated.state, previous), n, c, previous);
    }
  }

  lemma FirstTime(w: World, s: State, latest: State, n: string, c: string, r: Reply<Outcome>)
    requires Steady(w) && WorldOk(w) && Wf(s) && n in s.namespaces && c in s.classes && Wf(r.state)
    requires var v := ViewNs(s.namespaces[n]);
             && SwitchedFrom(v, c) == ""
             && if r.value.Pass? then OnlyRead(s, latest)
                  && OnlyAnnotations(latest, r.state, n, SettledAnnotations(v, c))
                else OnlyRead(s, r.state) && !Up(w, r.state)
    ensures ReconcileIs(w, s, n, c, if r.value.Fail? then r
                                    else ApplyClass(w, r.state, n, c, s.classes[c].spec, s.namespaces[n].meta.deleting))
  {
    if r.value.Fail? {
      StopsBefore(w, s, n, c, r);
    } else {
      ApplyPhase(w, s, r.state, n, c);
    }
  }

  /** What follows the first read: first-time setup, switch, late setup or plain reconcile. */
  function Branch(w: World, s: State, n: string, c: string, spec: seq<RawResource>, meta: Namespace): Reply<Outcome> {
    if Lookup(meta.annotations, LastApplied) == "" then
      UpdatedBranch(w, SetAnnotations(w, s, n, c, c), n, c, spec, meta.deleting)
    else if Lookup(meta.annotations, Current) == c then ApplyClass(w, s, n, c, spec, meta.deleting)
    else if Lookup(meta.annotations, Current) == "" then
      UpdatedBranch(w, UpdateCurrent(w, s, n, c), n, c, spec, meta.deleting)
    else SwitchClass(w, s, n, c, spec, meta.deleting, Lookup(meta.annotations, Current))
  }

  function UpdatedBranch(w: World, updated: Reply<Outcome>, n: string, c: string, spec: seq<RawResource>,
                         deleting: bool): Reply<Outcome> {
    if updated.value.Fail? then updated else ApplyClass(w, updated.state, n, c, spec, deleting)
  }

  /** reconcileNamespaceWithClass by its branches. */
  lemma WithClassBranches(w: World, s: State, n: string, c: string, spec: seq<RawResource>)
    requires c != ""
    ensures var latest := GetNamespace(w, s, n);
            WithClass(w, s, n, c, spec) ==
            match latest.value
            case Err(e) => Reply(latest.state, Fail(e))
            case Ok(meta) => Branch(w, latest.state, n, c, spec, meta)
  {}

  lemma BranchIs(w: World, s: State, latest: State, n: string, c: string)
    requires Steady(w) && WorldOk(w) && Wf(s) && n in s.namespaces && c in s.classes && OnlyRead(s, latest)
    ensures ReconcileIs(w, s, n, c, Branch(w, latest, n, c, s.classes[c].spec, s.namespaces[n].meta))
  {
    var v := ViewNs(s.namespaces[n]);
    if Lookup(v.annotations, LastApplied) == "" {
      SetAnnotationsIs(w, latest, n, c);
      FirstTime(w, s, latest, n, c, SetAnnotations(w, latest, n, c, c));
    } else if Lookup(v.annotations, Current) == c {
      ApplyPhase(w, s, latest, n, c);
    } else if Lookup(v.annotations, Current) == "" {
      UpdateCurrentIs(w, latest, n, c);
      FirstTime(w, s, latest, n, c, UpdateCurrent(w, latest, n, c));
    } else {
      SwitchClassIs(w, s, latest, n, c);
    }
  }

  /** reconcileNamespaceWithClass: complete, it settles the namespace; cut off anywhere,
      it leaves an interrupted reconcile. */
  lemma WithClassIs(w: World, s: State, n: string, c: string)
    requires Steady(w) && WorldOk(w) && Wf(s) && n in s.namespaces && c in s.classes
    ensures ReconcileIs(w, s, n, c, WithClass(w, s, n, c, s.classes[c].spec))
  {
    var latest := GetNamespace(w, s, n);
    WithClassBranches(w, s, n, c, s.classes[c].spec);
    assert OnlyRead(s, latest.state);
    if latest.value.Err? {
      StopsBefore(w, s, n, c, Reply(latest.state, Fail(latest.value.error)));
    } else {
      BranchIs(w, s, latest.state, n, c);
    }
  }

  /** Without failures it settles the namespace. */
  lemma CalmSettles(w: World, s: State, n: string, c: string)
    requires AlwaysCalm(w) && WorldOk(w) && Wf(s) && n in s.namespaces && c in s.classes
    ensures var t := WithClass(w, s, n, c, s.classes[c].spec).state;
            && n in t.namespaces
            && ViewNs(t.namespaces[n]) == Settle(w, ViewNs(s.namespaces[n]), c, s.classes[c].spec, s.classes.Keys)
  {
    WithClassIs(w, s, n, c);
    CalmIs(w, s, n, c, WithClass(w, s, n, c, s.classes[c].spec));
  }

  lemma CalmIs(w: World, s: State, n: string, c: string, r: Reply<Outcome>)
    requires AlwaysCalm(w) && n in s.namespaces && c in s.classes && ReconcileIs(w, s, n, c, r)
    ensures n in r.state.namespaces
    ensures ViewNs(r.state.namespaces[n]) == Settle(w, ViewNs(s.namespaces[n]), c, s.classes[c].spec, s.classes.Keys)
  {}
}
