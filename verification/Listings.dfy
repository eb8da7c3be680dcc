/** The listing by identifiers and the deletion by version in any weather: which answered calls
    an identifier or a version comes from. */
module Listings {
  import opened Names
  import opened Kube
  import opened Watcher
  import opened Resources
  import opened Weather
  import opened Sweeps

  // ---------- The types that are listed ----------

  function ListableInGroup(gv: GroupVersion, rs: seq<ApiResource>): seq<Gvk> {
    if rs == [] then []
    else if Listable(rs[0]) then [GvkOf(gv, rs[0].kind)] + ListableInGroup(gv, rs[1..])
    else ListableInGroup(gv, rs[1..])
  }

  function ListableTypes(lists: seq<ResourceList>): seq<Gvk> {
    if lists == [] then []
    else match ParseGroupVersion(lists[0].groupVersion)
      case Bad => ListableTypes(lists[1..])
      case Good(gv) => ListableInGroup(gv, lists[0].resources) + ListableTypes(lists[1..])
  }

  /** The resource, in this list, stands for the type and may be listed. */
  predicate ListableAs(l: ResourceList, r: ApiResource, gvk: Gvk) {
    && ParseGroupVersion(l.groupVersion) == Good(GroupVersion(gvk.group, gvk.version))
    && r.kind == gvk.kind && r.namespaced && "list" in r.verbs
  }

  lemma {:induction false} GroupFields(gv: GroupVersion, rs: seq<ApiResource>, gvk: Gvk)
    ensures gvk in ListableInGroup(gv, rs) <==>
            gv == GroupVersion(gvk.group, gvk.version)
            && exists r <- rs :: r.kind == gvk.kind && r.namespaced && "list" in r.verbs
  {
    if rs != [] {
      assert rs == [rs[0]] + rs[1..];
      GroupFields(gv, rs[1..], gvk);
    }
  }

  /** A type is listed if and only if some list offers it for listing, field by field. */
  lemma {:induction false} ListableFields(lists: seq<ResourceList>, gvk: Gvk)
    ensures gvk in ListableTypes(lists) <==> exists l <- lists, r <- l.resources :: ListableAs(l, r, gvk)
  {
    if lists != [] {
      assert lists == [lists[0]] + lists[1..];
      ListableFields(lists[1..], gvk);
      var p := ParseGroupVersion(lists[0].groupVersion);
      if p.Good? {
        GroupFields(p.gv, lists[0].resources, gvk);
      }
      assert (exists r <- lists[0].resources :: ListableAs(lists[0], r, gvk)) <==>
             p.Good? && gvk in ListableInGroup(p.gv, lists[0].resources);
    }
  }

  // ---------- The listing, flattened ----------

  function ManagedEach(w: World, s: State, n: string, owner: string, gvks: seq<Gvk>,
                       ids: seq<string>): Reply<seq<string>>
    decreases |gvks|
  {
    if gvks == [] then Reply(s, ids) else
    var r := ManagedOfKind(w, s, n, owner, gvks[0]);
    ManagedEach(w, r.state, n, owner, gvks[1..], ids + r.value)
  }

  lemma {:induction false} EachConcat(w: World, s: State, n: string, owner: string,
                                      a: seq<Gvk>, b: seq<Gvk>, ids: seq<string>)
    ensures var r := ManagedEach(w, s, n, owner, a, ids);
            ManagedEach(w, s, n, owner, a + b, ids) == ManagedEach(w, r.state, n, owner, b, r.value)
    decreases |a|
  {
    if a == [] {
      assert a + b == b;
    } else {
      assert (a + b)[1..] == a[1..] + b;
      var r := ManagedOfKind(w, s, n, owner, a[0]);
      EachConcat(w, r.state, n, owner, a[1..], b, ids + r.value);
    }
  }

  lemma {:induction false} GroupIsEach(w: World, s: State, n: string, owner: string,
                                       gv: GroupVersion, rs: seq<ApiResource>, ids: seq<string>)
    ensures ManagedInGroup(w, s, n, owner, gv, rs, ids) == ManagedEach(w, s, n, owner, ListableInGroup(gv, rs), ids)
    decreases |rs|
  {
    if rs != [] {
      if Listable(rs[0]) {
        var r := ManagedOfKind(w, s, n, owner, GvkOf(gv, rs[0].kind));
        GroupIsEach(w, r.state, n, owner, gv, rs[1..], ids + r.value);
        assert ListableInGroup(gv, rs)[1..] == ListableInGroup(gv, rs[1..]);
      } else {
        GroupIsEach(w, s, n, owner, gv, rs[1..], ids);
      }
    }
  }

  lemma {:induction false} ListsAreEach(w: World, s: State, n: string, owner: string,
                                        lists: seq<ResourceList>, ids: seq<string>)
    ensures ManagedInLists(w, s, n, owner, lists, ids) == ManagedEach(w, s, n, owner, ListableTypes(lists), ids)
    decreases |lists|
  {
    if lists != [] {
      match ParseGroupVersion(lists[0].groupVersion)
      case Bad => ListsAreEach(w, s, n, owner, lists[1..], ids);
      case Good(gv) =>
        GroupIsEach(w, s, n, owner, gv, lists[0].resources, ids);
        var r := ManagedInGroup(w, s, n, owner, gv, lists[0].resources, ids);
        ListsAreEach(w, r.state, n, owner, lists[1..], r.value);
        EachConcat(w, s, n, owner, ListableInGroup(gv, lists[0].resources), ListableTypes(lists[1..]), ids);
    }
  }

  lemma {:induction false} EachWaits(w: World, s: State, n: string, owner: string, gvks: seq<Gvk>, ids: seq<string>)
    ensures ManagedEach(w, s, n, owner, gvks, ids).state == Wait(w, s, |gvks|)
    decreases |gvks|
  {
    if gvks != [] {
      var one := ManagedOfKind(w, s, n, owner, gvks[0]);
      EachWaits(w, one.state, n, owner, gvks[1..], ids + one.value);
    }
  }

  // ---------- What the listing finds ----------

  /** One of the listings, the first of which is call k, brings the objects of the group and kind. */
  predicate AskedKind(w: World, k: nat, gvks: seq<Gvk>, group: string, kind: string)
    decreases |gvks|
  {
    gvks != [] && ((gvks[0].group == group && gvks[0].kind == kind && Lists(w, k, gvks[0]))
                   || AskedKind(w, k + 1, gvks[1..], group, kind))
  }

  ghost predicate ValidIn(s: State, n: string) {
    n in s.namespaces ==> forall id <- s.namespaces[n].objects :: ValidId(id)
  }

  lemma ArriveKeepsValid(w: World, s: State, n: string)
    requires ValidIn(s, n)
    ensures ValidIn(Arrive(w, s), n)
  {}

  /** The listing of one type brings the identifier of an object exactly when it is answered and
      the object is an owned one of the type. */
  lemma OneKindFinds(w: World, s: State, n: string, owner: string, gvk: Gvk, id: ObjectId)
    requires n in Arrive(w, s).namespaces && ValidIn(s, n) && ValidId(id)
    ensures Ident(id) in ManagedOfKind(w, s, n, owner, gvk).value <==>
            gvk.group == id.group && gvk.kind == id.kind && Lists(w, s.calls, gvk) && OwnedAt(s, n, owner, id)
  {
    if Lists(w, s.calls, gvk) {
      var t := Arrive(w, s);
      ArriveKeepsObjects(w, s, n);
      OwnedNamesAre(s, t, n, gvk, owner, id.name);
      NamedOnly(s, t, n, owner, gvk, SortedNames(OwnedNames(t, n, gvk, owner)), id);
    }
  }

  lemma NamedOnly(s: State, t: State, n: string, owner: string, gvk: Gvk, names: seq<string>, id: ObjectId)
    requires n in t.namespaces && SameObjects(s, t, n) && ValidIn(s, n) && ValidId(id)
    requires forall x :: x in names <==> x in OwnedNames(t, n, gvk, owner)
    ensures Ident(id) in Identifiers(gvk, names) <==>
            gvk.group == id.group && gvk.kind == id.kind && id.name in names
  {
    var ids := Identifiers(gvk, names);
    if Ident(id) in ids {
      var i :| 0 <= i < |ids| && ids[i] == Ident(id);
      var x := ObjectId(gvk.group, gvk.kind, names[i]);
      assert names[i] in OwnedNames(t, n, gvk, owner);
      assert x in t.namespaces[n].objects;
      IdentInjective(x, id);
    }
    if gvk.group == id.group && gvk.kind == id.kind && id.name in names {
      var i :| 0 <= i < |names| && names[i] == id.name;
      assert ids[i] == Ident(id);
    }
  }

  lemma {:induction false} EachFinds(w: World, s: State, n: string, owner: string,
                                     gvks: seq<Gvk>, ids: seq<string>, id: ObjectId)
    requires n in Wait(w, s, |gvks|).namespaces && ValidIn(s, n) && ValidId(id)
    ensures Ident(id) in ManagedEach(w, s, n, owner, gvks, ids).value <==>
            Ident(id) in ids || (AskedKind(w, s.calls, gvks, id.group, id.kind) && OwnedAt(s, n, owner, id))
    decreases |gvks|
  {
    if gvks != [] {
      var t, more := Arrive(w, s), ManagedOfKind(w, s, n, owner, gvks[0]).value;
      ArriveCalls(w, s);
      ArriveKeepsValid(w, s, n);
      WaitStays(w, t, |gvks| - 1, n);
      OneKindFinds(w, s, n, owner, gvks[0], id);
      EachFinds(w, t, n, owner, gvks[1..], ids + more, id);
      SameOwned(w, s, n, owner, id);
      assert Ident(id) in ids + more <==> Ident(id) in ids || Ident(id) in more;
    }
  }

  /** The k-th call, a discovery, is answered with something. */
  predicate Discovers(w: World, k: nat) {
    match w.script(k)
    case Refuse => false
    case Degraded(lists) => lists != []
    case _ => true
  }

  lemma ManagedIsEach(w: World, s: State, n: string, owner: string)
    ensures Managed(w, s, n, owner).value.Ok? <==> Discovers(w, s.calls)
    ensures !Discovers(w, s.calls) ==> Managed(w, s, n, owner) == Reply(Arrive(w, s), Err(Unavailable))
    ensures Discovers(w, s.calls) ==>
              var r := ManagedEach(w, Arrive(w, s), n, owner, ListableTypes(Discovered(w, s.calls)), []);
              Managed(w, s, n, owner) == Reply(r.state, Ok(r.value))
  {
    ListsAreEach(w, Arrive(w, s), n, owner, Discovered(w, s.calls), []);
  }

  lemma ManagedWaits(w: World, s: State, n: string, owner: string) returns (k: nat)
    ensures Managed(w, s, n, owner).state == Wait(w, s, k)
  {
    k := if Discovers(w, s.calls) then 1 + |ListableTypes(Discovered(w, s.calls))| else 1;
    ManagedIsEach(w, s, n, owner);
    EachWaits(w, Arrive(w, s), n, owner, ListableTypes(Discovered(w, s.calls)), []);
    assert k == 1 ==> Wait(w, s, 1) == Wait(w, Arrive(w, s), 0);
  }

  /** getCurrentNamespaceClassResources in any weather. It fails exactly when discovery answers
      nothing. Otherwise, for a namespace that is still there after it, it returns the identifier
      of an object exactly when the object is owned and one of the listings of its group and kind,
      each one call in discovery order, is answered: a listing that fails costs its own type only. */
  lemma ManagedFinds(w: World, s: State, n: string, owner: string, id: ObjectId)
    requires n in Managed(w, s, n, owner).state.namespaces && ValidIn(s, n) && ValidId(id)
    ensures Managed(w, s, n, owner).value.Ok? <==> Discovers(w, s.calls)
    ensures Discovers(w, s.calls) ==>
              (Ident(id) in Managed(w, s, n, owner).value.value <==>
              AskedKind(w, s.calls + 1, ListableTypes(Discovered(w, s.calls)), id.group, id.kind)
              && OwnedAt(s, n, owner, id))
  {
    ManagedIsEach(w, s, n, owner);
    if Discovers(w, s.calls) {
      var gvks := ListableTypes(Discovered(w, s.calls));
      EachWaits(w, Arrive(w, s), n, owner, gvks, []);
      WaitStays(w, Arrive(w, s), |gvks|, n);
      ArriveCalls(w, s);
      ArriveKeepsValid(w, s, n);
      EachFinds(w, Arrive(w, s), n, owner, gvks, [], id);
      SameOwned(w, s, n, owner, id);
    }
  }

  // ---------- The version of a deletion ----------

  /** The list has the kind, under this group and version. */
  predicate HasType(l: ResourceList, group: string, version: string, kind: string) {
    && ParseGroupVersion(l.groupVersion) == Good(GroupVersion(group, version))
    && exists r <- l.resources :: r.kind == kind
  }

  lemma {:induction false} PreferredConcat(a: seq<ResourceList>, b: seq<ResourceList>, group: string, kind: string)
    ensures PreferredVersions(a + b, group, kind) == PreferredVersions(a, group, kind)
            + PreferredVersions(b, group, kind)
    decreases |b|
  {
    if b == [] {
      assert a + b == a;
    } else {
      assert (a + b)[..|a + b| - 1] == a + b[..|b| - 1];
      PreferredConcat(a, b[..|b| - 1], group, kind);
    }
  }

  /** The preferred versions are one for each list that has the kind in the group, in discovery
      order. */
  lemma PreferredVersionsAre(a: seq<ResourceList>, b: seq<ResourceList>, l: ResourceList,
                             group: string, version: string, kind: string)
    ensures PreferredVersions(a + b, group, kind) == PreferredVersions(a, group, kind)
            + PreferredVersions(b, group, kind)
    ensures HasType(l, group, version, kind) ==> PreferredVersions([l], group, kind) == [version]
    ensures (forall v :: !HasType(l, group, v, kind)) ==> PreferredVersions([l], group, kind) == []
  {
    PreferredConcat(a, b, group, kind);
    assert [l][..0] == [];
    var p := ParseGroupVersion(l.groupVersion);
    if p.Good? && p.gv.group == group && HasKind(l.resources, kind) {
      assert HasType(l, group, p.gv.version, kind);
    }
  }

  /** List i is the first one that has the kind in the group, and it has it under this version. */
  ghost predicate FirstWith(lists: seq<ResourceList>, i: nat, group: string, version: string, kind: string) {
    && i < |lists| && HasType(lists[i], group, version, kind)
    && forall j, v | 0 <= j < i :: !HasType(lists[j], group, v, kind)
  }

  lemma {:induction false} FirstPreferred(lists: seq<ResourceList>, group: string, kind: string)
    ensures var versions := PreferredVersions(lists, group, kind);
            if versions == [] then forall l <- lists, v :: !HasType(l, group, v, kind)
            else exists i: nat :: FirstWith(lists, i, group, versions[0], kind)
  {
    if lists != [] {
      var front, last := lists[..|lists| - 1], lists[|lists| - 1];
      assert lists == front + [last];
      FirstPreferred(front, group, kind);
      var before, all := PreferredVersions(front, group, kind), PreferredVersions(lists, group, kind);
      if before != [] {
        var i: nat :| FirstWith(front, i, group, before[0], kind);
        assert FirstWith(lists, i, group, all[0], kind);
      } else if all != [] {
        assert FirstWith(lists, |front|, group, all[0], kind);
      }
    }
  }

  /** A deletion in the core group goes to v1 without a call; in another group it goes to the
      version of the first list with the kind in what discovery, one call, answers, and to v1 if
      there is no such list or no answer. */
  lemma DeletionVersionIs(w: World, s: State, group: string, kind: string)
    ensures group == "" ==> DeletionVersion(w, s, group, kind) == Reply(s, "v1")
    ensures group != "" ==>
              var r, lists := DeletionVersion(w, s, group, kind), Discovered(w, s.calls);
              && r.state == Arrive(w, s)
              && ((exists i: nat :: FirstWith(lists, i, group, r.value, kind))
                  || (r.value == "v1" && forall l <- lists, v :: !HasType(l, group, v, kind)))
  {
    FirstPreferred(Discovered(w, s.calls), group, kind);
  }

  /** deleteResourceByKindAndName: an object that is not there counts as deleted; a refused call
      or a version that is not served is the outcome. */
  lemma DeletionOutcome(w: World, s: State, n: string, id: ObjectId)
    ensures var v := DeletionVersion(w, s, id.group, id.kind);
            DeleteByKind(w, s, n, id.kind, id.name, id.group).value ==
            if !Answered(w, v.state.calls) then Fail(Unavailable)
            else if Gvk(id.group, v.value, id.kind) !in w.served then Fail(NoMatch)
            else Pass
  {}
}
