/** namespaceclass_resource_watcher.go: which discovered types are suitable, and
    the partition of them into watched and failed types. */
module Watcher {
  import opened Names
  import opened Kube
  import Server

  predicate ShouldWatchResource(r: ApiResource) {
    r.namespaced && "watch" in r.verbs && SlashFree(r.name)
  }

  function GvkOf(gv: GroupVersion, kind: string): Gvk {
    Gvk(gv.group, gv.version, kind)
  }

  /** The suitable types of one group version, in discovery order. */
  function SuitableInGroup(gv: GroupVersion, rs: seq<ApiResource>): seq<Gvk> {
    if rs == [] then []
    else if ShouldWatchResource(rs[0]) then [GvkOf(gv, rs[0].kind)] + SuitableInGroup(gv, rs[1..])
    else SuitableInGroup(gv, rs[1..])
  }

  /** The flattened, filtered discovery answer. */
  function Suitable(lists: seq<ResourceList>): seq<Gvk> {
    if lists == [] then []
    else match ParseGroupVersion(lists[0].groupVersion)
      case Bad => Suitable(lists[1..])
      case Good(gv) => SuitableInGroup(gv, lists[0].resources) + Suitable(lists[1..])
  }

  /** The resource, in this list, stands for the type and may be watched. */
  predicate Watchable(l: ResourceList, r: ApiResource, gvk: Gvk) {
    && ParseGroupVersion(l.groupVersion) == Good(GroupVersion(gvk.group, gvk.version))
    && r.kind == gvk.kind && r.namespaced && "watch" in r.verbs && '/' !in r.name
  }

  lemma {:induction false} GroupConcat(gv: GroupVersion, a: seq<ApiResource>, b: seq<ApiResource>)
    ensures SuitableInGroup(gv, a + b) == SuitableInGroup(gv, a) + SuitableInGroup(gv, b)
  {
    if a == [] {
      assert a + b == b;
    } else {
      assert (a + b)[1..] == a[1..] + b;
      GroupConcat(gv, a[1..], b);
    }
  }

  lemma {:induction false} SuitableConcat(a: seq<ResourceList>, b: seq<ResourceList>)
    ensures Suitable(a + b) == Suitable(a) + Suitable(b)
  {
    if a == [] {
      assert a + b == b;
    } else {
      assert (a + b)[1..] == a[1..] + b;
      SuitableConcat(a[1..], b);
    }
  }

  /** The suitable types are those of the lists one after the other, in each list those of its
      resources one after the other; a resource gives its type once or, if it is not namespaced,
      cannot be watched or is a subresource, not at all. */
  lemma SuitableIs(a: seq<ResourceList>, b: seq<ResourceList>, groupVersion: string,
                   rs: seq<ApiResource>, r: ApiResource, gvk: Gvk)
    requires gvk.kind == r.kind && ParseGroupVersion(groupVersion) == Good(GroupVersion(gvk.group, gvk.version))
    ensures Suitable(a + b) == Suitable(a) + Suitable(b)
    ensures Suitable([ResourceList(groupVersion, rs + [r])])
            == Suitable([ResourceList(groupVersion, rs)])
               + if r.namespaced && "watch" in r.verbs && '/' !in r.name then [gvk] else []
    ensures Suitable([ResourceList(groupVersion, [])]) == []
  {
    var gv := GroupVersion(gvk.group, gvk.version);
    SuitableConcat(a, b);
    GroupConcat(gv, rs, [r]);
    assert SuitableInGroup(gv, [r]) == if ShouldWatchResource(r) then [gvk] else [];
  }

  lemma {:induction false} GroupFields(gv: GroupVersion, rs: seq<ApiResource>, gvk: Gvk)
    ensures gvk in SuitableInGroup(gv, rs) <==>
            gv == GroupVersion(gvk.group, gvk.version)
            && exists r <- rs :: r.kind == gvk.kind && r.namespaced && "watch" in r.verbs && '/' !in r.name
  {
    if rs != [] {
      assert rs == [rs[0]] + rs[1..];
      GroupFields(gv, rs[1..], gvk);
    }
  }

  /** A type is suitable if and only if some list offers it, field by field. */
  lemma {:induction false} SuitableFields(lists: seq<ResourceList>, gvk: Gvk)
    ensures gvk in Suitable(lists) <==> exists l <- lists, r <- l.resources :: Watchable(l, r, gvk)
  {
    if lists != [] {
      assert lists == [lists[0]] + lists[1..];
      SuitableFields(lists[1..], gvk);
      var p := ParseGroupVersion(lists[0].groupVersion);
      if p.Good? {
        GroupFields(p.gv, lists[0].resources, gvk);
      }
      assert (exists r <- lists[0].resources :: Watchable(lists[0], r, gvk)) <==>
             p.Good? && gvk in SuitableInGroup(p.gv, lists[0].resources);
    }
  }

  datatype WatchResult = WatchResult(watched: seq<Gvk>, failed: seq<Gvk>)

  /** `attempt` stands for the controller registration, which may fail on any try. */
  function WatchEach(attempt: nat -> bool, gvks: seq<Gvk>, r: WatchResult): WatchResult {
    if gvks == [] then r
    else if attempt(|r.watched| + |r.failed|) then WatchEach(attempt, gvks[1..], r.(watched := r.watched + [gvks[0]]))
    else WatchEach(attempt, gvks[1..], r.(failed := r.failed + [gvks[0]]))
  }

  lemma {:induction false} WatchEachConcat(attempt: nat -> bool, a: seq<Gvk>, b: seq<Gvk>, r: WatchResult)
    ensures WatchEach(attempt, a + b, r) == WatchEach(attempt, b, WatchEach(attempt, a, r))
  {
    if a == [] {
      assert a + b == b;
    } else {
      assert (a + b)[1..] == a[1..] + b;
      WatchEachConcat(attempt, a[1..], b, r.(watched := r.watched + [a[0]]));
      WatchEachConcat(attempt, a[1..], b, r.(failed := r.failed + [a[0]]));
    }
  }

  /** How many of the first k registrations succeed. */
  function Successes(attempt: nat -> bool, k: nat): (m: nat)
    ensures m <= k
  {
    if k == 0 then 0 else Successes(attempt, k - 1) + if attempt(k - 1) then 1 else 0
  }

  lemma {:induction false} SuccessesGrow(attempt: nat -> bool, j: nat, k: nat)
    requires j <= k
    ensures Successes(attempt, j) <= Successes(attempt, k) && j - Successes(attempt, j) <= k - Successes(attempt, k)
    ensures j < k ==> if attempt(j) then Successes(attempt, j) < Successes(attempt, k)
                      else j - Successes(attempt, j) < k - Successes(attempt, k)
  {
    if j < k {
      if j < k - 1 { SuccessesGrow(attempt, j, k - 1); }
    }
  }

  /** Type i is where the outcome of its own registration puts it: the types of the successful
      ones are watched and the others failed, both in order, and nothing else is reported. */
  ghost predicate Follows(attempt: nat -> bool, gvks: seq<Gvk>, r: WatchResult) {
    && |r.watched| == Successes(attempt, |gvks|) && |r.failed| == |gvks| - |r.watched|
    && forall i | 0 <= i < |gvks| :: ReportedAt(attempt, gvks, r, i)
  }

  ghost predicate ReportedAt(attempt: nat -> bool, gvks: seq<Gvk>, r: WatchResult, i: nat)
    requires i < |gvks|
  {
    var m := Successes(attempt, i);
    if attempt(i) then m < |r.watched| && r.watched[m] == gvks[i]
    else i - m < |r.failed| && r.failed[i - m] == gvks[i]
  }

  lemma FollowsOne(attempt: nat -> bool, gvks: seq<Gvk>, r: WatchResult, x: Gvk)
    requires Follows(attempt, gvks, r)
    ensures Follows(attempt, gvks + [x], if attempt(|gvks|) then r.(watched := r.watched + [x])
                                         else r.(failed := r.failed + [x]))
  {
    var all, r' := gvks + [x], if attempt(|gvks|) then r.(watched := r.watched + [x])
                               else r.(failed := r.failed + [x]);
    forall i | 0 <= i < |all| ensures ReportedAt(attempt, all, r', i) {
      assert i < |gvks| ==> ReportedAt(attempt, gvks, r, i) && all[i] == gvks[i];
      SuccessesGrow(attempt, i, |gvks|);
    }
  }

  lemma {:induction false} FollowsMore(attempt: nat -> bool, done: seq<Gvk>, gvks: seq<Gvk>, r: WatchResult)
    requires Follows(attempt, done, r)
    ensures Follows(attempt, done + gvks, WatchEach(attempt, gvks, r))
    decreases |gvks|
  {
    if gvks == [] {
      assert done + gvks == done;
    } else {
      assert done + gvks == (done + [gvks[0]]) + gvks[1..];
      FollowsOne(attempt, done, r, gvks[0]);
      FollowsMore(attempt, done + [gvks[0]], gvks[1..], if attempt(|done|) then r.(watched := r.watched + [gvks[0]])
                                                        else r.(failed := r.failed + [gvks[0]]));
    }
  }

  method WatchResourcesInGroupVersion(attempt: nat -> bool, gv: GroupVersion, rs: seq<ApiResource>, result: WatchResult)
    returns (r: WatchResult)
    ensures r == WatchEach(attempt, SuitableInGroup(gv, rs), result)
    ensures forall done :: Follows(attempt, done, result) ==> Follows(attempt, done + SuitableInGroup(gv, rs), r)
  {
    forall done | Follows(attempt, done, result)
      ensures Follows(attempt, done + SuitableInGroup(gv, rs), WatchEach(attempt, SuitableInGroup(gv, rs), result)) {
      FollowsMore(attempt, done, SuitableInGroup(gv, rs), result);
    }
    r := result;
    for i := 0 to |rs|
      invariant WatchEach(attempt, SuitableInGroup(gv, rs[i..]), r)
                == WatchEach(attempt, SuitableInGroup(gv, rs), result)
    {
      assert rs[i..][1..] == rs[i + 1..];
      if !ShouldWatchResource(rs[i]) {
        continue;
      }
      var gvk := GvkOf(gv, rs[i].kind);
      assert SuitableInGroup(gv, rs[i..])[1..] == SuitableInGroup(gv, rs[i + 1..]);
      if attempt(|r.watched| + |r.failed|) {
        r := r.(watched := r.watched + [gvk]);
      } else {
        r := r.(failed := r.failed + [gvk]);
      }
    }
  }

  /** One list of the discovery answer at a time. */
  lemma WatchOneList(attempt: nat -> bool, lists: seq<ResourceList>, i: nat, r: WatchResult)
    requires i < |lists|
    ensures WatchEach(attempt, Suitable(lists[i..]), r) ==
            match ParseGroupVersion(lists[i].groupVersion)
            case Bad => WatchEach(attempt, Suitable(lists[i + 1..]), r)
            case Good(gv) =>
              WatchEach(attempt, Suitable(lists[i + 1..]),
                WatchEach(attempt, SuitableInGroup(gv, lists[i].resources), r))
  {
    assert lists[i..][1..] == lists[i + 1..];
    var parsed := ParseGroupVersion(lists[i].groupVersion);
    if parsed.Good? {
      WatchEachConcat(attempt, SuitableInGroup(parsed.gv, lists[i].resources), Suitable(lists[i + 1..]), r);
    }
  }

  /** Type i of the suitable types is watched if registration i succeeds and failed if not; both
      halves keep the order and hold nothing else. */
  lemma WatchPartition(attempt: nat -> bool, lists: seq<ResourceList>)
    ensures var r, gvks := WatchEach(attempt, Suitable(lists), WatchResult([], [])), Suitable(lists);
            && |r.watched| == Successes(attempt, |gvks|) && |r.watched| + |r.failed| == |gvks|
            && forall i | 0 <= i < |gvks| :: ReportedAt(attempt, gvks, r, i)
  {
    FollowsMore(attempt, [], Suitable(lists), WatchResult([], []));
    assert [] + Suitable(lists) == Suitable(lists);
  }

  method WatchDiscoveredResources(api: Server.ApiServer, attempt: nat -> bool)
    returns (r: WatchResult, outcome: Outcome)
    modifies api
    ensures api.state == Discover(api.world, old(api.state)).state
    ensures match Discover(api.world, old(api.state)).value
            case Err(e) => outcome == Fail(e) && r == WatchResult([], [])
            case Ok(lists) => outcome == Pass && r == WatchEach(attempt, Suitable(lists), WatchResult([], []))
                              && Follows(attempt, Suitable(lists), r)
  {
    r := WatchResult([], []);
    var d := api.Discover();
    if d.Err? {
      return r, Fail(d.error);
    }
    var lists := d.value;
    ghost var whole := WatchEach(attempt, Suitable(lists), r);
    WatchPartition(attempt, lists);
    for i := 0 to |lists|
      invariant WatchEach(attempt, Suitable(lists[i..]), r) == whole
      modifies {}
    {
      WatchOneList(attempt, lists, i, r);
      if |lists[i].resources| == 0 {
        continue;
      }
      var parsed := ParseGroupVersion(lists[i].groupVersion);
      if parsed.Bad? {
        continue;
      }
      r := WatchResourcesInGroupVersion(attempt, parsed.gv, lists[i].resources, r);
    }
    outcome := Pass;
  }
}
