/** namespaceclass_resources.go: listing what a class manages in a namespace,
    applying manifests, and removing what a class switch leaves behind. */
module Resources {
  import opened Names
  import opened Kube
  import opened Watcher
  import Finalizer
  import Server

  // ---------- Listing managed resources as identifiers ----------

  function Identifiers(gvk: Gvk, names: seq<string>): (r: seq<string>)
    ensures |r| == |names|
    ensures forall i | 0 <= i < |names| :: r[i] == Identifier(gvk.group, gvk.kind, names[i])
  {
    if names == [] then [] else [Identifier(gvk.group, gvk.kind, names[0])] + Identifiers(gvk, names[1..])
  }

  /** listManagedResourcesOfKind: a kind that cannot be listed contributes nothing. */
  function ManagedOfKind(w: World, s: State, n: string, owner: string, gvk: Gvk): Reply<seq<string>> {
    var r := ListObjects(w, s, n, gvk, owner);
    Reply(r.state, if r.value.Err? then [] else Identifiers(gvk, r.value.value))
  }

  predicate Listable(r: ApiResource) {
    r.namespaced && "list" in r.verbs
  }

  function ManagedInGroup(w: World, s: State, n: string, owner: string, gv: GroupVersion,
                          rs: seq<ApiResource>, ids: seq<string>): Reply<seq<string>>
    decreases |rs|
  {
    if rs == [] then Reply(s, ids)
    else if !Listable(rs[0]) then ManagedInGroup(w, s, n, owner, gv, rs[1..], ids)
    else
      var r := ManagedOfKind(w, s, n, owner, GvkOf(gv, rs[0].kind));
      ManagedInGroup(w, r.state, n, owner, gv, rs[1..], ids + r.value)
  }

  function ManagedInLists(w: World, s: State, n: string, owner: string,
                          lists: seq<ResourceList>, ids: seq<string>): Reply<seq<string>>
    decreases |lists|
  {
    if lists == [] then Reply(s, ids)
    else match ParseGroupVersion(lists[0].groupVersion)
      case Bad => ManagedInLists(w, s, n, owner, lists[1..], ids)
      case Good(gv) =>
        var r := ManagedInGroup(w, s, n, owner, gv, lists[0].resources, ids);
        ManagedInLists(w, r.state, n, owner, lists[1..], r.value)
  }

  /** getCurrentNamespaceClassResources */
  function Managed(w: World, s: State, n: string, owner: string): Reply<Result<seq<string>>> {
    var d := Discover(w, s);
    if d.value.Err? then Reply(d.state, Err(d.value.error)) else
    var r := ManagedInLists(w, d.state, n, owner, d.value.value, []);
    Reply(r.state, Ok(r.value))
  }

  method ListManagedResourcesOfKind(api: Server.ApiServer, n: string, owner: string, gvk: Gvk)
    returns (ids: seq<string>)
    modifies api
    ensures Reply(api.state, ids) == ManagedOfKind(api.world, old(api.state), n, owner, gvk)
  {
    var names := api.ListObjects(n, gvk, owner);
    if names.Err? {
      return [];
    }
    ids := [];
    for i := 0 to |names.value|
      invariant |ids| == i
      invariant forall j | 0 <= j < i :: ids[j] == Identifier(gvk.group, gvk.kind, names.value[j])
      modifies {}
    {
      ids := ids + [gvk.group + "/" + gvk.kind + "/" + names.value[i]];
    }
    assert ids == Identifiers(gvk, names.value);
  }

  method FindManagedResourcesForGV(api: Server.ApiServer, n: string, owner: string, gv: GroupVersion,
                                   rs: seq<ApiResource>, ids0: seq<string>)
    returns (ids: seq<string>)
    modifies api
    ensures Reply(api.state, ids) == ManagedInGroup(api.world, old(api.state), n, owner, gv, rs, ids0)
  {
    ids := ids0;
    ghost var whole := ManagedInGroup(api.world, api.state, n, owner, gv, rs, ids);
    for i := 0 to |rs|
      invariant ManagedInGroup(api.world, api.state, n, owner, gv, rs[i..], ids) == whole
    {
      assert rs[i..][1..] == rs[i + 1..];
      if !rs[i].namespaced || "list" !in rs[i].verbs {
        continue;
      }
      var more := ListManagedResourcesOfKind(api, n, owner, GvkOf(gv, rs[i].kind));
      ids := ids + more;
    }
  }

  method GetCurrentNamespaceClassResources(api: Server.ApiServer, n: string, owner: string)
    returns (r: Result<seq<string>>)
    modifies api
    ensures Reply(api.state, r) == Managed(api.world, old(api.state), n, owner)
  {
    var d := api.Discover();
    if d.Err? {
      return Err(d.error);
    }
    var lists, ids := d.value, [];
    ghost var whole := ManagedInLists(api.world, api.state, n, owner, lists, ids);
    for i := 0 to |lists|
      invariant ManagedInLists(api.world, api.state, n, owner, lists[i..], ids) == whole
    {
      assert lists[i..][1..] == lists[i + 1..];
      if |lists[i].resources| == 0 {
        continue;
      }
      var parsed := ParseGroupVersion(lists[i].groupVersion);
      if parsed.Bad? {
        continue;
      }
      ids := FindManagedResourcesForGV(api, n, owner, parsed.gv, lists[i].resources, ids);
    }
    r := Ok(ids);
  }

  // ---------- Applying manifests ----------

  /** prepareResourceForNamespace: the manifest's content with the owner label forced. */
  function Prepared(r: RawResource, c: string): Object
    requires r.Manifest?
  {
    Object(r.labels[Owner := c], r.body)
  }

  /** applyUnstructuredResource: update what exists, create what does not. */
  function ApplyOne(w: World, s: State, n: string, c: string, r: RawResource): Reply<Outcome> {
    if r.Unreadable? then Reply(s, Fail(Malformed)) else
    var existing := GetObject(w, s, n, r.gvk, r.name);
    match existing.value
    case Ok(stored) => UpdateObject(w, existing.state, n, r.gvk, r.name, Prepared(r, c), stored.version)
    case Err(e) => if e == NotFound then CreateObject(w, existing.state, n, r.gvk, r.name, Prepared(r, c))
                   else Reply(existing.state, Fail(e))
  }

  /** The apply loop from entry i on: it looks at the namespace again before each entry. */
  function ApplyFrom(w: World, s: State, n: string, c: string, spec: seq<RawResource>, i: nat): Reply<Outcome>
    requires i <= |spec|
    decreases |spec| - i
  {
    if i == |spec| then Reply(s, Pass) else
    var ns := GetNamespace(w, s, n);
    if ns.value == Err(NotFound) then Reply(ns.state, Pass)
    else if ns.value.Err? then Reply(ns.state, Fail(ns.value.error))
    else if ns.value.value.deleting then Reply(ns.state, Pass)
    else
      var r := ApplyOne(w, ns.state, n, c, spec[i]);
      if r.value.Fail? then r else ApplyFrom(w, r.state, n, c, spec, i + 1)
  }

  /** The object is the manifest as it is written, but for the owner label, which names the class. */
  predicate Carries(obj: Object, r: RawResource, c: string)
    requires r.Manifest?
  {
    && obj.body == r.body
    && obj.labels.Keys == r.labels.Keys + {Owner} && obj.labels[Owner] == c
    && forall key <- r.labels | key != Owner :: obj.labels[key] == r.labels[key]
  }

  /** The namespace holds the manifest. */
  predicate Stores(s: State, n: string, c: string, r: RawResource)
    requires r.Manifest?
  {
    var id := ObjectId(r.gvk.group, r.gvk.kind, r.name);
    n in s.namespaces && id in s.namespaces[n].objects && Carries(s.namespaces[n].objects[id].obj, r, c)
  }

  method ApplyResourceToNamespace(api: Server.ApiServer, n: string, c: string, r: RawResource) returns (o: Outcome)
    modifies api
    ensures Reply(api.state, o) == ApplyOne(api.world, old(api.state), n, c, r)
    ensures o.Pass? ==> r.Manifest? && Stores(api.state, n, c, r)
  {
    if r.Unreadable? {
      return Fail(Malformed);
    }
    var labels := r.labels;
    labels := labels[Owner := c];
    var obj := Object(labels, r.body);
    var existing := api.GetObject(n, r.gvk, r.name);
    if existing.Ok? {
      o := api.UpdateObject(n, r.gvk, r.name, obj, existing.value.version);
      return;
    }
    if existing.error != NotFound {
      return Fail(existing.error);
    }
    o := api.CreateObject(n, r.gvk, r.name, obj);
  }

  // ---------- Deleting by identifier ----------

  predicate HasKind(rs: seq<ApiResource>, kind: string) {
    exists r <- rs :: r.kind == kind
  }

  /** getPreferredVersionForResource on a discovery answer. */
  function PreferredVersions(lists: seq<ResourceList>, group: string, kind: string): seq<string> {
    if lists == [] then []
    else PreferredVersions(lists[..|lists| - 1], group, kind)
         + (var l := lists[|lists| - 1];
            match ParseGroupVersion(l.groupVersion)
            case Bad => []
            case Good(gv) => if gv.group == group && HasKind(l.resources, kind) then [gv.version] else [])
  }

  /** The version under which an identifier is deleted. */
  function DeletionVersion(w: World, s: State, group: string, kind: string): Reply<string> {
    if group == "" then Reply(s, "v1") else
    var d := Discover(w, s);
    if d.value.Err? then Reply(d.state, "v1") else
    var versions := PreferredVersions(d.value.value, group, kind);
    Reply(d.state, if versions == [] then "v1" else versions[0])
  }

  /** deleteResourceByKindAndName: "not found" counts as done. */
  function DeleteByKind(w: World, s: State, n: string, kind: string, name: string, group: string): Reply<Outcome> {
    var v := DeletionVersion(w, s, group, kind);
    var r := DeleteObject(w, v.state, n, Gvk(group, v.value, kind), name);
    Reply(r.state, if r.value == Fail(NotFound) then Pass else r.value)
  }

  method GetPreferredVersionForResource(api: Server.ApiServer, group: string, kind: string)
    returns (r: Result<seq<string>>)
    modifies api
    ensures api.state == Discover(api.world, old(api.state)).state
    ensures r == var d := Discover(api.world, old(api.state)).value;
                 if d.Err? then Err(d.error) else Ok(PreferredVersions(d.value, group, kind))
  {
    var d := api.Discover();
    if d.Err? {
      return Err(d.error);
    }
    var lists, versions := d.value, [];
    for i := 0 to |lists|
      invariant versions == PreferredVersions(lists[..i], group, kind)
      modifies {}
    {
      assert lists[..i + 1][..i] == lists[..i];
      if |lists[i].resources| == 0 {
        continue;
      }
      var parsed := ParseGroupVersion(lists[i].groupVersion);
      if parsed.Bad? || parsed.gv.group != group {
        continue;
      }
      var found := FindKind(lists[i].resources, kind);
      if found {
        versions := versions + [parsed.gv.version];
      }
    }
    assert lists[..|lists|] == lists;
    r := Ok(versions);
  }

  method FindKind(rs: seq<ApiResource>, kind: string) returns (found: bool)
    ensures found <==> HasKind(rs, kind)
  {
    for i := 0 to |rs|
      invariant !HasKind(rs[..i], kind)
    {
      assert rs[..i + 1] == rs[..i] + [rs[i]];
      if rs[i].kind == kind {
        return true;
      }
    }
    assert rs[..|rs|] == rs;
    found := false;
  }

  method DeleteResourceByKindAndName(api: Server.ApiServer, n: string, kind: string, name: string, group: string)
    returns (o: Outcome)
    modifies api
    ensures Reply(api.state, o) == DeleteByKind(api.world, old(api.state), n, kind, name, group)
  {
    var preferred := "v1";
    if group != "" {
      var versions := GetPreferredVersionForResource(api, group, kind);
      if versions.Ok? && |versions.value| > 0 {
        preferred := versions.value[0];
      }
    }
    o := api.DeleteObject(n, Gvk(group, preferred, kind), name);
    if o == Fail(NotFound) {
      o := Pass;
    }
  }

  // ---------- Cleanup after a class switch ----------

  /** The "kind/name" keys of the readable entries of a spec. */
  function KeepKeys(spec: seq<RawResource>): set<string> {
    set r <- spec | r.Manifest? :: KindName(r.gvk.kind, r.name)
  }

  /** A readable entry of the spec has this kind and name, whatever its group. */
  predicate Mentions(spec: seq<RawResource>, kind: string, name: string) {
    exists r <- spec :: r.Manifest? && r.gvk.kind == kind && r.name == name
  }

  /** For slash-free kinds and names the keys decide which kinds and names are mentioned. */
  lemma KeptIsMentioned(spec: seq<RawResource>, kind: string, name: string)
    requires SlashFree(kind) && SlashFree(name)
    ensures KindName(kind, name) in KeepKeys(spec) <==> Mentions(spec, kind, name)
  {
    forall r | r in spec && r.Manifest?
      ensures KindName(kind, name) == KindName(r.gvk.kind, r.name) <==> kind == r.gvk.kind && name == r.name {
      KindNameDecides(kind, name, r.gvk.kind, r.name);
    }
  }

  /** Deletes each listed identifier whose "kind/name" key is not kept; failures are skipped. */
  function DeleteStale(w: World, s: State, n: string, keep: set<string>, ids: seq<string>): State
    decreases |ids|
  {
    if ids == [] then s else
    var parts := Split(ids[0]);
    if |parts| < 3 || KindName(parts[1], parts[2]) in keep then DeleteStale(w, s, n, keep, ids[1..])
    else DeleteStale(w, DeleteByKind(w, s, n, parts[1], parts[2], parts[0]).state, n, keep, ids[1..])
  }

  /** cleanupPreviousNamespaceClassResources */
  function CleanupPrevious(w: World, s: State, n: string, previous: string, c: string): Reply<Outcome> {
    var origin := GetClass(w, s, previous);
    if origin.value == Err(NotFound) then Reply(Finalizer.CleanupAll(w, origin.state, n, previous), Pass)
    else if origin.value.Err? then Reply(origin.state, Fail(origin.value.error)) else
    var ids := Managed(w, origin.state, n, previous);
    if ids.value.Err? then Reply(ids.state, Fail(ids.value.error)) else
    var target := GetClass(w, ids.state, c);
    if target.value.Err? then Reply(target.state, Fail(target.value.error)) else
    Reply(DeleteStale(w, target.state, n, KeepKeys(target.value.value.spec), ids.value.value), Pass)
  }

  method BuildResourceMap(spec: seq<RawResource>) returns (m: map<string, bool>)
    ensures m.Keys == KeepKeys(spec) && forall k <- m :: m[k]
    ensures forall kind, name | SlashFree(kind) && SlashFree(name) ::
              kind + "/" + name in m <==> Mentions(spec, kind, name)
  {
    m := map[];
    for i := 0 to |spec|
      invariant m.Keys == KeepKeys(spec[..i]) && forall k <- m :: m[k]
    {
      assert spec[..i + 1] == spec[..i] + [spec[i]];
      if spec[i].Unreadable? {
        continue;
      }
      var key := spec[i].gvk.kind + "/" + spec[i].name;
      m := m[key := true];
    }
    assert spec[..|spec|] == spec;
    forall kind, name | SlashFree(kind) && SlashFree(name)
      ensures kind + "/" + name in m <==> Mentions(spec, kind, name) {
      KeptIsMentioned(spec, kind, name);
      assert KindName(kind, name) == kind + "/" + name;
    }
  }

  method CleanupPreviousNamespaceClassResources(api: Server.ApiServer, n: string, previous: string, c: string)
    returns (o: Outcome)
    modifies api
    ensures Reply(api.state, o) == CleanupPrevious(api.world, old(api.state), n, previous, c)
  {
    var previousClass := api.GetClass(previous);
    if previousClass.Err? {
      if previousClass.error == NotFound {
        o := Finalizer.CleanupAllNamespaceClassResources(api, n, previous);
        return;
      }
      return Fail(previousClass.error);
    }
    var ids := GetCurrentNamespaceClassResources(api, n, previous);
    if ids.Err? {
      return Fail(ids.error);
    }
    var target := api.GetClass(c);
    if target.Err? {
      return Fail(target.error);
    }
    var keep := BuildResourceMap(target.value.spec);
    DeleteEachStale(api, n, keep, ids.value);
    o := Pass;
  }

  method DeleteEachStale(api: Server.ApiServer, n: string, keep: map<string, bool>, ids: seq<string>)
    requires forall k <- keep :: keep[k]
    modifies api
    ensures api.state == DeleteStale(api.world, old(api.state), n, keep.Keys, ids)
  {
    ghost var whole := DeleteStale(api.world, api.state, n, keep.Keys, ids);
    for i := 0 to |ids|
      invariant DeleteStale(api.world, api.state, n, keep.Keys, ids[i..]) == whole
    {
      assert ids[i..][1..] == ids[i + 1..];
      var parts := Split(ids[i]);
      if |parts| < 3 {
        continue;
      }
      var key := parts[1] + "/" + parts[2];
      if key in keep && keep[key] {
        continue;
      }
      var deleted := DeleteResourceByKindAndName(api, n, parts[1], parts[2], parts[0]);
      if deleted.Fail? {
        continue;
      }
    }
  }
}
