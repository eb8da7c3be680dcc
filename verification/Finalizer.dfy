/** namespaceclass_finalizer.go: listing everything a class owns in a namespace,
    and the cleanup of a terminating class. */
module Finalizer {
  import opened Names
  import opened Kube
  import opened Watcher
  import Server

  datatype Found = Found(gvk: Gvk, name: string)

  // ---------- Listing by owner label ----------

  function FoundNames(gvk: Gvk, names: seq<string>): (r: seq<Found>)
    ensures |r| == |names|
    ensures forall i | 0 <= i < |names| :: r[i] == Found(gvk, names[i])
  {
    if names == [] then [] else [Found(gvk, names[0])] + FoundNames(gvk, names[1..])
  }

  /** listResourcesOfType: a type that cannot be listed contributes nothing. */
  function LabelledOfType(w: World, s: State, n: string, owner: string, gvk: Gvk): Reply<seq<Found>> {
    var r := ListObjects(w, s, n, gvk, owner);
    Reply(r.state, if r.value.Err? then [] else FoundNames(gvk, r.value.value))
  }

  function LabelledInGroup(w: World, s: State, n: string, owner: string, gv: GroupVersion,
                           rs: seq<ApiResource>, found: seq<Found>): Reply<seq<Found>>
    decreases |rs|
  {
    if rs == [] then Reply(s, found)
    else if !ShouldWatchResource(rs[0]) then LabelledInGroup(w, s, n, owner, gv, rs[1..], found)
    else
      var r := LabelledOfType(w, s, n, owner, GvkOf(gv, rs[0].kind));
      LabelledInGroup(w, r.state, n, owner, gv, rs[1..], found + r.value)
  }

  function LabelledInLists(w: World, s: State, n: string, owner: string,
                           lists: seq<ResourceList>, found: seq<Found>): Reply<seq<Found>>
    decreases |lists|
  {
    if lists == [] then Reply(s, found)
    else match ParseGroupVersion(lists[0].groupVersion)
      case Bad => LabelledInLists(w, s, n, owner, lists[1..], found)
      case Good(gv) =>
        var r := LabelledInGroup(w, s, n, owner, gv, lists[0].resources, found);
        LabelledInLists(w, r.state, n, owner, lists[1..], r.value)
  }

  /** listResourcesWithLabel: a failed discovery reads as "nothing found". */
  function Labelled(w: World, s: State, n: string, owner: string): Reply<seq<Found>> {
    var d := Discover(w, s);
    if d.value.Err? then Reply(d.state, []) else LabelledInLists(w, d.state, n, owner, d.value.value, [])
  }

  // ---------- The summary the listing keeps ----------

  function Count(summary: map<string, nat>, kind: string): nat {
    if kind in summary then summary[kind] else 0
  }

  /** How many objects of each kind were found. */
  function Tally(found: seq<Found>): map<string, nat> {
    if found == [] then map[] else
      var rest, kind := Tally(found[..|found| - 1]), found[|found| - 1].gvk.kind;
      rest[kind := Count(rest, kind) + 1]
  }

  lemma {:induction false} TallyGrows(found: seq<Found>, more: seq<Found>, gvk: Gvk)
    requires more != [] && forall f <- more :: f.gvk == gvk
    ensures Tally(found + more) == Tally(found)[gvk.kind := Count(Tally(found), gvk.kind) + |more|]
  {
    var k := |more| - 1;
    assert more[k] in more;
    assert (found + more)[..|found| + k] == found + more[..k];
    if k == 0 {
      assert found + more[..k] == found;
    } else {
      TallyGrows(found, more[..k], gvk);
    }
  }

  /** How many of the objects found are of the kind. */
  function OfKind(found: seq<Found>, kind: string): nat {
    if found == [] then 0
    else OfKind(found[..|found| - 1], kind) + if found[|found| - 1].gvk.kind == kind then 1 else 0
  }

  /** The summary counts, for each kind, the objects found of it, and lists no other kinds. */
  lemma {:induction false} TallyCounts(found: seq<Found>, kind: string)
    ensures Count(Tally(found), kind) == OfKind(found, kind) && (kind in Tally(found) <==> OfKind(found, kind) > 0)
  {
    if found != [] {
      TallyCounts(found[..|found| - 1], kind);
    }
  }

  ghost function Total(m: map<string, nat>): nat
    decreases |m|
  {
    if m == map[] then 0 else
      var k :| k in m;
      m[k] + Total(m - {k})
  }

  lemma {:induction false} TotalSplit(m: map<string, nat>, k: string)
    requires k in m
    ensures Total(m) == m[k] + Total(m - {k})
    decreases |m|
  {
    var j :| j in m && Total(m) == m[j] + Total(m - {j});
    if j != k {
      TotalSplit(m - {j}, k);
      TotalSplit(m - {k}, j);
      assert m - {j} - {k} == m - {k} - {j};
    }
  }

  /** The per-kind counts sum to the number of objects returned. */
  lemma {:induction false} SummaryConserves(found: seq<Found>)
    ensures Total(Tally(found)) == |found|
  {
    if found != [] {
      var rest, kind := Tally(found[..|found| - 1]), found[|found| - 1].gvk.kind;
      SummaryConserves(found[..|found| - 1]);
      TotalSplit(Tally(found), kind);
      if kind in rest {
        TotalSplit(rest, kind);
        assert Tally(found) - {kind} == rest - {kind};
      } else {
        assert Tally(found) - {kind} == rest;
      }
    }
  }

  method ListResourcesOfType(api: Server.ApiServer, n: string, owner: string, gvk: Gvk) returns (r: seq<Found>)
    modifies api
    ensures Reply(api.state, r) == LabelledOfType(api.world, old(api.state), n, owner, gvk)
    ensures forall f <- r :: f.gvk == gvk
  {
    var names := api.ListObjects(n, gvk, owner);
    if names.Err? {
      return [];
    }
    r := [];
    for i := 0 to |names.value|
      invariant |r| == i
      invariant forall j | 0 <= j < i :: r[j] == Found(gvk, names.value[j])
      modifies {}
    {
      r := r + [Found(gvk, names.value[i])];
    }
    assert r == FoundNames(gvk, names.value);
  }

  method AddToSummary(summary0: map<string, nat>, ghost found: seq<Found>, resources: seq<Found>, gvk: Gvk)
    returns (summary: map<string, nat>)
    requires summary0 == Tally(found)
    requires forall f <- resources :: f.gvk == gvk
    ensures summary == Tally(found + resources)
  {
    summary := summary0;
    if |resources| > 0 {
      TallyGrows(found, resources, gvk);
      assert resources[0] in resources;
      var kind := resources[0].gvk.kind;
      summary := summary[kind := Count(summary, kind) + |resources|];
    } else {
      assert found + resources == found;
    }
  }

  method ListResourcesWithLabel(api: Server.ApiServer, n: string, owner: string)
    returns (found: seq<Found>, summary: map<string, nat>)
    modifies api
    ensures Reply(api.state, found) == Labelled(api.world, old(api.state), n, owner)
    ensures summary == Tally(found) && Total(summary) == |found|
  {
    found, summary := [], map[];
    var d := api.Discover();
    if d.Ok? {
      found, summary := ListInLists(api, n, owner, d.value);
    }
    SummaryConserves(found);
  }

  method ListInLists(api: Server.ApiServer, n: string, owner: string, lists: seq<ResourceList>)
    returns (found: seq<Found>, summary: map<string, nat>)
    modifies api
    ensures Reply(api.state, found) == LabelledInLists(api.world, old(api.state), n, owner, lists, [])
    ensures summary == Tally(found)
  {
    found, summary := [], map[];
    ghost var whole := LabelledInLists(api.world, api.state, n, owner, lists, []);
    for i := 0 to |lists|
      invariant LabelledInLists(api.world, api.state, n, owner, lists[i..], found) == whole
      invariant summary == Tally(found)
    {
      assert lists[i..][1..] == lists[i + 1..];
      if |lists[i].resources| == 0 {
        continue;
      }
      var parsed := ParseGroupVersion(lists[i].groupVersion);
      if parsed.Bad? {
        continue;
      }
      found, summary := ListInGroup(api, n, owner, parsed.gv, lists[i].resources, found, summary);
    }
  }

  /** The inner loop of the listing, with the outer loop's accumulators. */
  method ListInGroup(api: Server.ApiServer, n: string, owner: string, gv: GroupVersion, rs: seq<ApiResource>,
                     found0: seq<Found>, summary0: map<string, nat>)
    returns (found: seq<Found>, summary: map<string, nat>)
    requires summary0 == Tally(found0)
    modifies api
    ensures Reply(api.state, found) == LabelledInGroup(api.world, old(api.state), n, owner, gv, rs, found0)
    ensures summary == Tally(found)
  {
    found, summary := found0, summary0;
    ghost var whole := LabelledInGroup(api.world, api.state, n, owner, gv, rs, found0);
    for i := 0 to |rs|
      invariant LabelledInGroup(api.world, api.state, n, owner, gv, rs[i..], found) == whole
      invariant summary == Tally(found)
    {
      assert rs[i..][1..] == rs[i + 1..];
      if !ShouldWatchResource(rs[i]) {
        continue;
      }
      var gvk := GvkOf(gv, rs[i].kind);
      var resources := ListResourcesOfType(api, n, owner, gvk);
      summary := AddToSummary(summary, found, resources, gvk);
      found := found + resources;
    }
  }

  // ---------- Deleting what was found ----------

  /** Deletes each found object and collects the failures, "not found" among them. */
  function DeleteFound(w: World, s: State, n: string, found: seq<Found>, errs: seq<Error>): Reply<seq<Error>>
    decreases |found|
  {
    if found == [] then Reply(s, errs)
    else
      var r := DeleteObject(w, s, n, found[0].gvk, found[0].name);
      DeleteFound(w, r.state, n, found[1..], if r.value.Fail? then errs + [r.value.error] else errs)
  }

  /** cleanupAllNamespaceClassResources: failures are logged and dropped. */
  function CleanupAll(w: World, s: State, n: string, c: string): State {
    var found := Labelled(w, s, n, c);
    DeleteFound(w, found.state, n, found.value, []).state
  }

  /** The failures do not steer the deletions. */
  lemma {:induction false} DeleteFoundIgnoresErrors(w: World, s: State, n: string, found: seq<Found>, a: seq<Error>,
                                                    b: seq<Error>)
    ensures DeleteFound(w, s, n, found, a).state == DeleteFound(w, s, n, found, b).state
    decreases |found|
  {
    if found != [] {
      var r := DeleteObject(w, s, n, found[0].gvk, found[0].name);
      DeleteFoundIgnoresErrors(w, r.state, n, found[1..],
                               if r.value.Fail? then a + [r.value.error]
                                 else a, if r.value.Fail? then b + [r.value.error] else b);
    }
  }

  method CleanupAllNamespaceClassResources(api: Server.ApiServer, n: string, c: string) returns (r: Outcome)
    modifies api
    ensures api.state == CleanupAll(api.world, old(api.state), n, c) && r == Pass
  {
    var resources, _ := ListResourcesWithLabel(api, n, c);
    ghost var whole := DeleteFound(api.world, api.state, n, resources, []).state;
    for i := 0 to |resources|
      invariant DeleteFound(api.world, api.state, n, resources[i..], []).state == whole
    {
      assert resources[i..][1..] == resources[i + 1..];
      ghost var errs := DeleteObject(api.world, api.state, n, resources[i].gvk, resources[i].name).value;
      var deleted := api.DeleteObject(n, resources[i].gvk, resources[i].name);
      DeleteFoundIgnoresErrors(api.world, api.state, n, resources[i + 1..], [],
        if errs.Fail? then [] + [errs.error] else []);
      if deleted == Fail(NotFound) {
        continue;
      }
    }
    r := Pass;
  }

  // ---------- The finalizer of a terminating class ----------

  function FinalizeNamespace(w: World, s: State, c: string, item: Item, errs: seq<Error>): Reply<seq<Error>> {
    if item.meta.deleting then Reply(s, errs) else
    var found := Labelled(w, s, item.name, c);
    var deleted := DeleteFound(w, found.state, item.name, found.value, errs);
    var ns := GetNamespace(w, deleted.state, item.name);
    if ns.value.Err? then Reply(ns.state, deleted.value + [ns.value.error]) else
    var meta := ns.value.value;
    if meta.annotations == map[] then Reply(ns.state, deleted.value) else
    var u := UpdateNamespace(w, ns.state, item.name, meta.(annotations := meta.annotations - {LastApplied}));
    Reply(u.state, if u.value.Fail? then deleted.value + [u.value.error] else deleted.value)
  }

  function FinalizeEach(w: World, s: State, c: string, items: seq<Item>, errs: seq<Error>): Reply<seq<Error>>
    decreases |items|
  {
    if items == [] then Reply(s, errs)
    else
      var r := FinalizeNamespace(w, s, c, items[0], errs);
      FinalizeEach(w, r.state, c, items[1..], r.value)
  }

  /** The finalizer list without its first own entry. */
  function WithoutOurs(fs: seq<Finalizer>): (r: seq<Finalizer>)
    ensures Ours !in fs ==> r == fs
    ensures Ours in fs ==> multiset(r) == multiset(fs) - multiset{Ours}
  {
    if fs == [] then []
    else if fs[0] == Ours then
      assert fs == [Ours] + fs[1..];
      fs[1..]
    else
      assert fs == [fs[0]] + fs[1..];
      [fs[0]] + WithoutOurs(fs[1..])
  }

  /** handleFinalizerCleanup */
  function HandleCleanup(w: World, s: State, c: string, nc: Class): Reply<Outcome> {
    var items := ListNamespaces(w, s, c);
    var cleaned := if items.value.Err? then Reply(items.state, [items.value.error])
                   else FinalizeEach(w, items.state, c, items.value.value, []);
    if Ours !in nc.finalizers then
      Reply(cleaned.state, if cleaned.value == [] then Pass else Fail(Joined(cleaned.value)))
    else
      var u := UpdateClass(w, cleaned.state, c, nc.(finalizers := WithoutOurs(nc.finalizers)));
      var errs := if u.value.Fail? then cleaned.value + [u.value.error] else cleaned.value;
      Reply(u.state, if errs == [] then Pass else Fail(Joined(errs)))
  }

  /** The parts of a list before and after an index, with and without its first element. */
  lemma PartsOfRest(fs: seq<Finalizer>, index: nat)
    requires 0 < index < |fs|
    ensures var rest := fs[1..];
            && fs[..index] == [fs[0]] + rest[..index - 1] && fs[index + 1..] == rest[index..]
            && rest[index - 1] == fs[index]
  {}

  lemma ConcatAssociates(a: seq<Finalizer>, b: seq<Finalizer>, c: seq<Finalizer>)
    ensures a + (b + c) == (a + b) + c
  {}

  lemma {:induction false} WithoutOursAt(fs: seq<Finalizer>, index: nat)
    requires index < |fs| && fs[index] == Ours && Ours !in fs[..index]
    ensures WithoutOurs(fs) == fs[..index] + fs[index + 1..]
  {
    if index > 0 {
      var rest := fs[1..];
      PartsOfRest(fs, index);
      assert fs[0] in fs[..index] && Ours !in rest[..index - 1];
      WithoutOursAt(rest, index - 1);
      ConcatAssociates([fs[0]], rest[..index - 1], rest[index..]);
    }
  }

  lemma {:induction false} WithoutOursShrinks(fs: seq<Finalizer>)
    ensures |WithoutOurs(fs)| == |fs| - if Ours in fs then 1 else 0
  {
    if fs != [] && fs[0] != Ours {
      assert Ours in fs <==> Ours in fs[1..];
      WithoutOursShrinks(fs[1..]);
    }
  }

  method RemoveFinalizer(fs: seq<Finalizer>) returns (r: seq<Finalizer>, had: bool)
    ensures had == (Ours in fs) && r == WithoutOurs(fs)
  {
    var index := 0;
    while index < |fs| && fs[index] != Ours
      invariant index <= |fs| && Ours !in fs[..index]
    {
      index := index + 1;
    }
    if index == |fs| {
      assert fs[..index] == fs;
      return fs, false;
    }
    WithoutOursAt(fs, index);
    r, had := fs[..index] + fs[index + 1..], true;
  }

  method FinalizeOneNamespace(api: Server.ApiServer, c: string, item: Item, errs0: seq<Error>)
    returns (errs: seq<Error>)
    modifies api
    ensures Reply(api.state, errs) == FinalizeNamespace(api.world, old(api.state), c, item, errs0)
  {
    errs := errs0;
    if item.meta.deleting {
      return;
    }
    var resources, _ := ListResourcesWithLabel(api, item.name, c);
    ghost var whole := DeleteFound(api.world, api.state, item.name, resources, errs);
    for i := 0 to |resources|
      invariant DeleteFound(api.world, api.state, item.name, resources[i..], errs) == whole
    {
      assert resources[i..][1..] == resources[i + 1..];
      var deleted := api.DeleteObject(item.name, resources[i].gvk, resources[i].name);
      if deleted.Fail? {
        errs := errs + [deleted.error];
      }
    }
    var ns := api.GetNamespace(item.name);
    if ns.Err? {
      errs := errs + [ns.error];
      return;
    }
    if ns.value.annotations != map[] {
      var annotations := ns.value.annotations - {LastApplied};
      var updated := api.UpdateNamespace(item.name, ns.value.(annotations := annotations));
      if updated.Fail? {
        errs := errs + [updated.error];
      }
    }
  }

  method HandleFinalizerCleanup(api: Server.ApiServer, c: string, nc: Class) returns (r: Outcome)
    modifies api
    ensures Reply(api.state, r) == HandleCleanup(api.world, old(api.state), c, nc)
  {
    var errs: seq<Error> := [];
    var items := api.ListNamespaces(c);
    if items.Err? {
      errs := errs + [items.error];
      assert errs == [items.error];
    } else {
      ghost var whole := FinalizeEach(api.world, api.state, c, items.value, []);
      for i := 0 to |items.value|
        invariant FinalizeEach(api.world, api.state, c, items.value[i..], errs) == whole
      {
        assert items.value[i..][1..] == items.value[i + 1..];
        errs := FinalizeOneNamespace(api, c, items.value[i], errs);
      }
    }
    var finalizers, had := RemoveFinalizer(nc.finalizers);
    if had {
      var updated := api.UpdateClass(c, nc.(finalizers := finalizers));
      if updated.Fail? {
        errs := errs + [updated.error];
      }
    }
    if |errs| > 0 {
      return Fail(Joined(errs));
    }
    r := Pass;
  }
}
