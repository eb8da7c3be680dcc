/** The calls and loops of the controller in steady weather: every call is answered
    until, from some call on, every call is refused. A run whose script never
    refuses is a run without failures; any other is a run that is cut off. */
module Weather {
  import opened Names
  import opened Kube
  import opened Watcher
  import opened Resources
  import Finalizer

  ghost predicate Steady(w: World) {
    && (forall k: nat :: w.script(k).Calm? || w.script(k).Refuse?)
    && (forall i: nat, j: nat :: i <= j && w.script(i).Refuse? ==> w.script(j).Refuse?)
  }

  ghost predicate AlwaysCalm(w: World) {
    forall k: nat :: w.script(k).Calm?
  }

  /** The next call will be answered. */
  predicate Up(w: World, s: State) {
    !w.script(s.calls).Refuse?
  }

  /** No call before s was refused, in steady weather. */
  ghost predicate Unbroken(w: World, s: State) {
    Steady(w) && Up(w, s)
  }

  /** Namespaces stay: the script only refuses calls and degrades discovery answers. */
  ghost predicate Peopled(w: World) {
    forall k: nat :: w.script(k).Calm? || w.script(k).Refuse? || w.script(k).Degraded?
  }

  /** A degraded discovery answer is a part of the full one. */
  ghost predicate Honest(w: World) {
    forall k: nat :: w.script(k).Degraded? ==> forall l <- w.script(k).lists :: l in w.discovery
  }

  /** What the discovery answer promises: every discovered type is served and listable if it says so, the names
      of groups and kinds hold no slash, and the core group is served as v1 only. */
  ghost predicate WorldOk(w: World) {
    && (forall g <- w.served :: SlashFree(g.group) && SlashFree(g.kind) && (g.group == "" ==> g.version == "v1"))
    && (forall l <- w.discovery :: AllServed(w, l))
  }

  /** Discovered types are served, and those that claim the list verb can be listed. */
  ghost predicate GroupServed(w: World, gv: GroupVersion, rs: seq<ApiResource>) {
    forall r <- rs :: GvkOf(gv, r.kind) in w.served && (Listable(r) ==> GvkOf(gv, r.kind) in w.listable)
  }

  ghost predicate AllServed(w: World, l: ResourceList) {
    var p := ParseGroupVersion(l.groupVersion);
    p.Good? ==> GroupServed(w, p.gv, l.resources)
  }

  ghost predicate ValidId(id: ObjectId) {
    SlashFree(id.group) && SlashFree(id.kind) && ValidName(id.name)
  }

  /** Well-formed server states: versions never run ahead of the clock, stored
      objects have the names the server accepts, class names are not empty. */
  ghost predicate Wf(s: State) {
    && (forall n <- s.namespaces :: s.namespaces[n].meta.version <= s.clock)
    && (forall n <- s.namespaces :: forall id <- s.namespaces[n].objects :: ValidId(id))
    && (forall c <- s.classes :: c != "" && s.classes[c].version <= s.clock)
  }

  // ---------- Frames ----------

  /** t is s after some calls that only read. */
  ghost predicate OnlyRead(s: State, t: State) {
    t == s.(calls := t.calls) && s.calls <= t.calls
  }

  /** t differs from s at most in the objects of namespace n. */
  ghost predicate OnlyObjects(s: State, t: State, n: string) {
    && s.calls <= t.calls && s.clock <= t.clock
    && t.classes == s.classes && t.pending == s.pending
    && t.namespaces.Keys == s.namespaces.Keys
    && (forall m <- s.namespaces | m != n :: t.namespaces[m] == s.namespaces[m])
    && (n in s.namespaces ==> t.namespaces[n].meta == s.namespaces[n].meta)
  }

  // ---------- Listing ----------

  function Ident(id: ObjectId): string {
    Identifier(id.group, id.kind, id.name)
  }

  lemma IdentInjective(a: ObjectId, b: ObjectId)
    requires ValidId(a) && ValidId(b) && Ident(a) == Ident(b)
    ensures a == b
  {
    IdentifierRoundTrip(a.group, a.kind, a.name);
    IdentifierRoundTrip(b.group, b.kind, b.name);
    var parts := Split(Ident(a));
    assert parts[0] == a.group == b.group && parts[1] == a.kind == b.kind && parts[2] == a.name == b.name;
  }

  datatype Selector = ByList | ByWatch

  /** The types a listing asks for and gets: the label listing does not look for the list verb,
      so the server may refuse it some. */
  predicate Selects(w: World, sel: Selector, gv: GroupVersion, r: ApiResource) {
    match sel
    case ByList => Listable(r)
    case ByWatch => ShouldWatchResource(r) && GvkOf(gv, r.kind) in w.listable
  }

  ghost predicate SelectedKind(w: World, sel: Selector, gv: GroupVersion, rs: seq<ApiResource>, kind: string) {
    exists r <- rs :: Selects(w, sel, gv, r) && r.kind == kind
  }

  ghost predicate ListedBy(w: World, sel: Selector, l: ResourceList, group: string, kind: string) {
    var p := ParseGroupVersion(l.groupVersion);
    p.Good? && p.gv.group == group && SelectedKind(w, sel, p.gv, l.resources, kind)
  }

  /** The discovery answer leads a listing with this filter to the objects of the group and kind. */
  ghost predicate Listed(w: World, sel: Selector, lists: seq<ResourceList>, group: string, kind: string) {
    exists l <- lists :: ListedBy(w, sel, l, group, kind)
  }

  ghost predicate OwnedAt(s: State, n: string, owner: string, id: ObjectId) {
    n in s.namespaces && id in s.namespaces[n].objects && OwnerOf(s.namespaces[n].objects[id].obj) == owner
  }

  ghost predicate InGroup(w: World, s: State, n: string, owner: string, sel: Selector, gv: GroupVersion,
                          rs: seq<ApiResource>, id: ObjectId) {
    OwnedAt(s, n, owner, id) && id.group == gv.group && SelectedKind(w, sel, gv, rs, id.kind)
  }

  lemma SelectedSplit(w: World, sel: Selector, gv: GroupVersion, rs: seq<ApiResource>, kind: string)
    requires rs != []
    ensures SelectedKind(w, sel, gv, rs, kind)
            <==> (Selects(w, sel, gv, rs[0]) && rs[0].kind == kind) || SelectedKind(w, sel, gv, rs[1..], kind)
  {
    assert rs == [rs[0]] + rs[1..];
  }

  lemma ListedSplit(w: World, sel: Selector, lists: seq<ResourceList>, group: string, kind: string)
    requires lists != []
    ensures Listed(w, sel, lists, group, kind)
            <==> ListedBy(w, sel, lists[0], group, kind) || Listed(w, sel, lists[1..], group, kind)
  {
    assert lists == [lists[0]] + lists[1..];
  }

  lemma OneKind(w: World, s: State, n: string, owner: string, gvk: Gvk)
    requires Steady(w) && gvk in w.served && gvk in w.listable
    ensures var r := ManagedOfKind(w, s, n, owner, gvk);
            && OnlyRead(s, r.state)
            && (forall x <- r.value ::
                  exists id :: OwnedAt(s, n, owner, id) && id.group == gvk.group && id.kind == gvk.kind
                    && x == Ident(id))
            && (Up(w, r.state) ==> forall id | OwnedAt(s, n, owner, id) && id.group == gvk.group && id.kind
               == gvk.kind :: Ident(id) in r.value)
  {
    var r := ListObjects(w, s, n, gvk, owner);
    assert !Refused(w, s) || r.value.Err?;
    if r.value.Ok? {
      var names := r.value.value;
      var ids := Identifiers(gvk, names);
      forall x <- ids ensures exists id ::
        OwnedAt(s, n, owner, id) && id.group == gvk.group && id.kind == gvk.kind && x == Ident(id) {
        var i :| 0 <= i < |ids| && ids[i] == x;
        assert names[i] in OwnedNames(s, n, gvk, owner);
        assert OwnedAt(s, n, owner, ObjectId(gvk.group, gvk.kind, names[i]));
      }
      forall id | OwnedAt(s, n, owner, id) && id.group == gvk.group && id.kind == gvk.kind ensures Ident(id) in ids {
        assert id.name in OwnedNames(s, n, gvk, owner);
        var i :| 0 <= i < |names| && names[i] == id.name;
        assert ids[i] == Ident(id);
      }
    }
  }

  lemma {:induction false} OneGroup(w: World, s: State, n: string, owner: string, gv: GroupVersion,
                                    rs: seq<ApiResource>, ids: seq<string>)
    requires Steady(w) && GroupServed(w, gv, rs)
    ensures var r := ManagedInGroup(w, s, n, owner, gv, rs, ids);
            && OnlyRead(s, r.state)
            && (forall x <- ids :: x in r.value)
            && (forall x <- r.value ::
                  x in ids || exists id :: InGroup(w, s, n, owner, ByList, gv, rs, id) && x == Ident(id))
            && (Up(w, r.state) ==> forall id | InGroup(w, s, n, owner, ByList, gv, rs, id) :: Ident(id) in r.value)
    decreases |rs|
  {
    if rs == [] {
    } else {
      forall kind { SelectedSplit(w, ByList, gv, rs, kind); }
      if !Listable(rs[0]) {
        OneGroup(w, s, n, owner, gv, rs[1..], ids);
      } else {
        var gvk := GvkOf(gv, rs[0].kind);
        assert rs[0] in rs;
        OneKind(w, s, n, owner, gvk);
        var r := ManagedOfKind(w, s, n, owner, gvk);
        OneGroup(w, r.state, n, owner, gv, rs[1..], ids + r.value);
        var t := ManagedInGroup(w, s, n, owner, gv, rs, ids);
        forall x | x in t.value && x !in ids
          ensures exists id :: InGroup(w, s, n, owner, ByList, gv, rs, id) && x == Ident(id) {
          if x in r.value {
            var id :| OwnedAt(s, n, owner, id) && id.group == gvk.group && id.kind == gvk.kind && x == Ident(id);
            assert InGroup(w, s, n, owner, ByList, gv, rs, id);
          } else {
            var id :| InGroup(w, r.state, n, owner, ByList, gv, rs[1..], id) && x == Ident(id);
            assert InGroup(w, s, n, owner, ByList, gv, rs, id);
          }
        }
      }
    }
  }

  ghost predicate InLists(w: World, s: State, n: string, owner: string, sel: Selector, lists: seq<ResourceList>,
                          id: ObjectId) {
    OwnedAt(s, n, owner, id) && Listed(w, sel, lists, id.group, id.kind)
  }

  lemma {:induction false} AllLists(w: World, s: State, n: string, owner: string, lists: seq<ResourceList>,
                                    ids: seq<string>)
    requires Steady(w) && forall l <- lists :: AllServed(w, l)
    ensures var r := ManagedInLists(w, s, n, owner, lists, ids);
            && OnlyRead(s, r.state)
            && (forall x <- ids :: x in r.value)
            && (forall x <- r.value ::
                  x in ids || exists id :: InLists(w, s, n, owner, ByList, lists, id) && x == Ident(id))
            && (Up(w, r.state) ==> forall id | InLists(w, s, n, owner, ByList, lists, id) :: Ident(id) in r.value)
    decreases |lists|
  {
    if lists != [] {
      forall group, kind { ListedSplit(w, ByList, lists, group, kind); }
      assert lists[0] in lists;
      match ParseGroupVersion(lists[0].groupVersion)
      case Bad =>
        AllLists(w, s, n, owner, lists[1..], ids);
      case Good(gv) =>
        OneGroup(w, s, n, owner, gv, lists[0].resources, ids);
        var r := ManagedInGroup(w, s, n, owner, gv, lists[0].resources, ids);
        AllLists(w, r.state, n, owner, lists[1..], r.value);
        var t := ManagedInLists(w, s, n, owner, lists, ids);
        forall x | x in t.value && x !in ids
          ensures exists id :: InLists(w, s, n, owner, ByList, lists, id) && x == Ident(id) {
          if x in r.value {
            var id :| InGroup(w, s, n, owner, ByList, gv, lists[0].resources, id) && x == Ident(id);
            assert InLists(w, s, n, owner, ByList, lists, id);
          } else {
            var id :| InLists(w, r.state, n, owner, ByList, lists[1..], id) && x == Ident(id);
            assert InLists(w, s, n, owner, ByList, lists, id);
          }
        }
    }
  }

  /** getCurrentNamespaceClassResources, without failures, returns the identifiers of exactly
      those owned objects whose group and kind discovery lists. */
  lemma ManagedIsComplete(w: World, s: State, n: string, owner: string)
    requires Steady(w) && WorldOk(w)
    ensures var r := Managed(w, s, n, owner);
            && OnlyRead(s, r.state)
            && (r.value.Err? ==> !Up(w, r.state))
            && (r.value.Ok? ==> forall x <- r.value.value ::
                                  exists id :: InLists(w, s, n, owner, ByList, w.discovery, id) && x == Ident(id))
            && (Up(w, r.state) ==> forall id | InLists(w, s, n, owner, ByList, w.discovery, id) ::
                                     Ident(id) in r.value.value)
  {
    var d := Discover(w, s);
    if d.value.Ok? {
      AllLists(w, d.state, n, owner, w.discovery, []);
      var r := Managed(w, s, n, owner);
      forall x <- r.value.value
        ensures exists id :: InLists(w, s, n, owner, ByList, w.discovery, id) && x == Ident(id) {
        var id :| InLists(w, d.state, n, owner, ByList, w.discovery, id) && x == Ident(id);
        assert InLists(w, s, n, owner, ByList, w.discovery, id);
      }
    }
  }

  // ---------- Listing where calls are refused here and there ----------

  lemma {:induction false} GroupReads(w: World, s: State, n: string, owner: string,
                                      gv: GroupVersion, rs: seq<ApiResource>, ids: seq<string>)
    requires Peopled(w)
    ensures OnlyRead(s, ManagedInGroup(w, s, n, owner, gv, rs, ids).state)
    decreases |rs|
  {
    if rs != [] {
      if Listable(rs[0]) {
        var r := ManagedOfKind(w, s, n, owner, GvkOf(gv, rs[0].kind));
        GroupReads(w, r.state, n, owner, gv, rs[1..], ids + r.value);
      } else {
        GroupReads(w, s, n, owner, gv, rs[1..], ids);
      }
    }
  }

  lemma {:induction false} ListsRead(w: World, s: State, n: string, owner: string, lists: seq<ResourceList>,
                                     ids: seq<string>)
    requires Peopled(w)
    ensures OnlyRead(s, ManagedInLists(w, s, n, owner, lists, ids).state)
    decreases |lists|
  {
    if lists != [] {
      match ParseGroupVersion(lists[0].groupVersion)
      case Bad => ListsRead(w, s, n, owner, lists[1..], ids);
      case Good(gv) =>
        GroupReads(w, s, n, owner, gv, lists[0].resources, ids);
        var r := ManagedInGroup(w, s, n, owner, gv, lists[0].resources, ids);
        ListsRead(w, r.state, n, owner, lists[1..], r.value);
    }
  }

  lemma ManagedReads(w: World, s: State, n: string, owner: string)
    requires Peopled(w)
    ensures OnlyRead(s, Managed(w, s, n, owner).state)
  {
    var d := Discover(w, s);
    if d.value.Ok? {
      ListsRead(w, d.state, n, owner, d.value.value, []);
    }
  }

  // ---------- Listing by label (the other cleanup) ----------

  ghost predicate Reported(w: World, id: ObjectId, found: seq<Finalizer.Found>) {
    exists f <- found :: f.gvk in w.served && IdOf(f.gvk, f.name) == id
  }

  lemma {:induction false} LabelledGroup(w: World, s: State, n: string, owner: string, gv: GroupVersion,
                                         rs: seq<ApiResource>, found: seq<Finalizer.Found>)
    requires Steady(w) && GroupServed(w, gv, rs)
    ensures var r := Finalizer.LabelledInGroup(w, s, n, owner, gv, rs, found);
            && OnlyRead(s, r.state)
            && (forall f <- found :: f in r.value)
            && (forall f <- r.value ::
                  f in found || (f.gvk in w.served && InGroup(w, s, n, owner, ByWatch, gv, rs, IdOf(f.gvk, f.name))))
            && (Up(w, r.state) ==> forall id | InGroup(w, s, n, owner, ByWatch, gv, rs, id) :: Reported(w, id, r.value))
    decreases |rs|
  {
    if rs != [] {
      forall kind { SelectedSplit(w, ByWatch, gv, rs, kind); }
      if !ShouldWatchResource(rs[0]) {
        LabelledGroup(w, s, n, owner, gv, rs[1..], found);
      } else {
        var gvk := GvkOf(gv, rs[0].kind);
        assert rs[0] in rs;
        var l := ListObjects(w, s, n, gvk, owner);
        var r := Finalizer.LabelledOfType(w, s, n, owner, gvk);
        LabelledGroup(w, r.state, n, owner, gv, rs[1..], found + r.value);
        var t := Finalizer.LabelledInGroup(w, s, n, owner, gv, rs, found);
        forall f | f in r.value ensures f.gvk == gvk && InGroup(w, s, n, owner, ByWatch, gv, rs, IdOf(f.gvk, f.name)) {
          var i :| 0 <= i < |r.value| && r.value[i] == f;
          assert l.value.value[i] in OwnedNames(s, n, gvk, owner);
        }
        if Up(w, t.state) {
          forall id | InGroup(w, s, n, owner, ByWatch, gv, rs, id) ensures Reported(w, id, t.value) {
            if id.kind == gvk.kind {
              assert id.name in OwnedNames(s, n, gvk, owner);
              var i :| 0 <= i < |l.value.value| && l.value.value[i] == id.name;
              assert r.value[i] in found + r.value;
              assert r.value[i] in t.value && IdOf(r.value[i].gvk, r.value[i].name) == id;
            } else {
              assert InGroup(w, r.state, n, owner, ByWatch, gv, rs[1..], id);
            }
          }
        }
      }
    }
  }

  lemma {:induction false} LabelledLists(w: World, s: State, n: string, owner: string, lists: seq<ResourceList>,
                                         found: seq<Finalizer.Found>)
    requires Steady(w) && forall l <- lists :: AllServed(w, l)
    ensures var r := Finalizer.LabelledInLists(w, s, n, owner, lists, found);
            && OnlyRead(s, r.state)
            && (forall f <- found :: f in r.value)
            && (forall f <- r.value ::
                  f in found || (f.gvk in w.served && InLists(w, s, n, owner, ByWatch, lists, IdOf(f.gvk, f.name))))
            && (Up(w, r.state) ==> forall id | InLists(w, s, n, owner, ByWatch, lists, id) :: Reported(w, id, r.value))
    decreases |lists|
  {
    if lists != [] {
      forall group, kind { ListedSplit(w, ByWatch, lists, group, kind); }
      assert lists[0] in lists;
      match ParseGroupVersion(lists[0].groupVersion)
      case Bad =>
        LabelledLists(w, s, n, owner, lists[1..], found);
      case Good(gv) =>
        LabelledGroup(w, s, n, owner, gv, lists[0].resources, found);
        var r := Finalizer.LabelledInGroup(w, s, n, owner, gv, lists[0].resources, found);
        LabelledLists(w, r.state, n, owner, lists[1..], r.value);
        var t := Finalizer.LabelledInLists(w, s, n, owner, lists, found);
        if Up(w, t.state) {
          forall id | InLists(w, s, n, owner, ByWatch, lists, id) ensures Reported(w, id, t.value) {
            if ListedBy(w, ByWatch, lists[0], id.group, id.kind) {
              assert InGroup(w, s, n, owner, ByWatch, gv, lists[0].resources, id);
              var f :| f in r.value && f.gvk in w.served && IdOf(f.gvk, f.name) == id;
              assert f in t.value;
            } else {
              assert InLists(w, r.state, n, owner, ByWatch, lists[1..], id);
            }
          }
        }
    }
  }

  /** listResourcesWithLabel, without failures, returns exactly the owned objects whose
      group and kind pass the watch filter. */
  lemma LabelledIsComplete(w: World, s: State, n: string, owner: string)
    requires Steady(w) && WorldOk(w)
    ensures var r := Finalizer.Labelled(w, s, n, owner);
            && OnlyRead(s, r.state)
            && (forall f <- r.value ::
                  f.gvk in w.served && InLists(w, s, n, owner, ByWatch, w.discovery, IdOf(f.gvk, f.name)))
            && (Up(w, r.state) ==> forall id | InLists(w, s, n, owner, ByWatch, w.discovery, id) ::
                                     Reported(w, id, r.value))
  {
    var d := Discover(w, s);
    if d.value.Ok? {
      LabelledLists(w, d.state, n, owner, w.discovery, []);
    }
  }
}
