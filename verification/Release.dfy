/** The safety of the finalizer in any weather: when the cleanup that releases a terminating
    class has really removed what the class owns. */
module Release {
  import opened Kube
  import opened Names
  import opened Weather
  import opened Ideal
  import opened Sweeps
  import Example
  import Requests
  import Termination
  import Finalizer

  // ---------- One namespace ----------

  lemma LosesAtTrans(s: State, t: State, u: State, n: string, id: ObjectId, a: bool, b: bool)
    requires LosesAt(s, t, n, id, a) && LosesAt(t, u, n, id, b)
    ensures LosesAt(s, u, n, id, a || b)
  {}

  lemma ArriveLosesNothing(w: World, s: State, n: string, id: ObjectId)
    ensures LosesAt(s, Arrive(w, s), n, id, false)
  {
    ArriveLoses(w, s, n, id);
  }

  /** The annotation update after the sweep: a namespace that began to go in between has a new
      version, so the stale copy cannot bring it back. */
  lemma ForgetLosesNothing(w: World, s: State, m: string, n: string, id: ObjectId)
    requires m in s.namespaces ==> s.namespaces[m].meta.version <= s.clock
    ensures var ns := GetNamespace(w, s, m);
            && LosesAt(s, ns.state, n, id, false)
            && (ns.value.Ok? ==>
                  var meta := ns.value.value;
                  LosesAt(s, UpdateNamespace(w, ns.state, m,
                    meta.(annotations := meta.annotations - {LastApplied})).state, n, id, false))
  {
    var ns := GetNamespace(w, s, m);
    ArriveLosesNothing(w, s, n, id);
    if ns.value.Ok? {
      var meta := ns.value.value;
      var t := Arrive(w, ns.state);
      ArriveLosesNothing(w, ns.state, n, id);
      LosesAtTrans(s, ns.state, t, n, id, false, false);
      if m in t.namespaces && t.namespaces[m].meta.version == meta.version && !Refused(w, ns.state) {
        TouchLosesNothing(t, m, meta.(annotations := meta.annotations - {LastApplied}), n, id);
        LosesAtTrans(s, t, Touch(t, m, meta.(annotations := meta.annotations - {LastApplied})), n, id, false, false);
      }
    }
  }

  lemma TouchLosesNothing(t: State, m: string, meta: Namespace, n: string, id: ObjectId)
    requires m in t.namespaces && meta.classLabel == t.namespaces[m].meta.classLabel
    requires t.namespaces[m].meta.deleting ==> meta.deleting
    ensures LosesAt(t, Touch(t, m, meta), n, id, false)
  {}

  /** Object id of namespace n, over the handling of one member. */
  lemma OneMember(w: World, s: State, c: string, item: Item, errs: seq<Error>, n: string, id: ObjectId)
    requires item.name in s.namespaces ==> s.namespaces[item.name].meta.version <= s.clock
    ensures LosesAt(s, Finalizer.FinalizeNamespace(w, s, c, item, errs).state, n, id,
                    n == item.name && !item.meta.deleting && SweptAway(w, s, n, c, id))
  {
    if !item.meta.deleting {
      var m := item.name;
      var found := Finalizer.Labelled(w, s, m, c);
      var t := Finalizer.DeleteFound(w, found.state, m, found.value, errs).state;
      var gone := n == m && SweptAway(w, s, n, c, id);
      SweepRemoves(w, s, m, c, errs, id);
      assert LosesAt(s, t, n, id, gone);
      ForgetLosesNothing(w, t, m, n, id);
      var u := Finalizer.FinalizeNamespace(w, s, c, item, errs).state;
      assert LosesAt(t, u, n, id, false) by {
        assert LosesAt(t, t, n, id, false);
      }
      LosesAtTrans(s, t, u, n, id, gone, false);
    }
  }

  // ---------- All members ----------

  /** The loop over the members gets object id of namespace n: when it reaches n, in the state
      it is in by then, the sweep gets it. */
  ghost predicate Reaps(w: World, s: State, c: string, items: seq<Item>, errs: seq<Error>, n: string, id: ObjectId)
    decreases |items|
  {
    && items != []
    && if items[0].name == n then !items[0].meta.deleting && SweptAway(w, s, n, c, id) else
       var r := Finalizer.FinalizeNamespace(w, s, c, items[0], errs);
       Reaps(w, r.state, c, items[1..], r.value, n, id)
  }

  lemma {:induction false} OthersAreNotReaped(w: World, s: State, c: string, items: seq<Item>, errs: seq<Error>,
                                              n: string, id: ObjectId)
    requires n !in Requests.NamesOf(items)
    ensures !Reaps(w, s, c, items, errs, n, id)
    decreases |items|
  {
    if items != [] {
      assert Requests.NamesOf(items)[0] == items[0].name;
      var r := Finalizer.FinalizeNamespace(w, s, c, items[0], errs);
      OthersAreNotReaped(w, r.state, c, items[1..], r.value, n, id);
    }
  }

  ghost predicate Clocked(s: State) {
    forall n <- s.namespaces :: s.namespaces[n].meta.version <= s.clock
  }

  lemma {:induction false} FinalizeEachReaps(w: World, s: State, c: string, items: seq<Item>, errs: seq<Error>,
                                             n: string, id: ObjectId)
    requires Clocked(s) && Requests.Distinct(Requests.NamesOf(items))
    ensures LosesAt(s, Finalizer.FinalizeEach(w, s, c, items, errs).state, n, id, Reaps(w, s, c, items, errs, n, id))
    decreases |items|
  {
    if items == [] {
      assert LosesAt(s, s, n, id, false);
    } else {
      var r := Finalizer.FinalizeNamespace(w, s, c, items[0], errs);
      var t := Finalizer.FinalizeEach(w, r.state, c, items[1..], r.value).state;
      Requests.NamesSplit(items);
      OneMember(w, s, c, items[0], errs, n, id);
      FinalizeEachReaps(w, r.state, c, items[1..], r.value, n, id);
      if items[0].name == n {
        OthersAreNotReaped(w, r.state, c, items[1..], r.value, n, id);
      }
      LosesAtTrans(s, r.state, t, n, id, n == items[0].name && !items[0].meta.deleting && SweptAway(w, s, n, c, id),
                   Reaps(w, r.state, c, items[1..], r.value, n, id));
    }
  }

  // ---------- The whole cleanup ----------

  /** The cleanup gets object id of namespace n: the members are listed, and when the loop is at
      n a listing of the kind and a deletion of the object are answered. */
  ghost predicate Cleans(w: World, s: State, c: string, n: string, id: ObjectId) {
    var items := ListNamespaces(w, s, c);
    items.value.Ok? && Reaps(w, items.state, c, items.value.value, [], n, id)
  }

  lemma CleanupCleans(w: World, s: State, c: string, nc: Class, n: string, id: ObjectId)
    requires Clocked(s)
    ensures LosesAt(s, Finalizer.HandleCleanup(w, s, c, nc).state, n, id, Cleans(w, s, c, n, id))
  {
    var items := ListNamespaces(w, s, c);
    ArriveLosesNothing(w, s, n, id);
    var t := items.state;
    if items.value.Ok? {
      assert Requests.NamesOf(items.value.value) == SortedNames(Kube.Labelled(items.state, c));
      FinalizeEachReaps(w, items.state, c, items.value.value, [], n, id);
      t := Finalizer.FinalizeEach(w, items.state, c, items.value.value, []).state;
      LosesAtTrans(s, items.state, t, n, id, false, Cleans(w, s, c, n, id));
    }
    var u := Finalizer.HandleCleanup(w, s, c, nc).state;
    ReleaseLosesNothing(w, t, c, nc, n, id);
    LosesAtTrans(s, t, u, n, id, Cleans(w, s, c, n, id), false);
  }

  lemma PutClassLosesNothing(t: State, c: string, nc: Class, n: string, id: ObjectId)
    ensures LosesAt(t, PutClass(t, c, nc), n, id, false)
    ensures LosesAt(t, t.(classes := t.classes - {c}, clock := t.clock + 1), n, id, false)
  {}

  lemma UpdateClassLosesNothing(w: World, t: State, c: string, nc: Class, n: string, id: ObjectId)
    ensures LosesAt(t, UpdateClass(w, t, c, nc).state, n, id, false)
  {
    var u := Arrive(w, t);
    ArriveLosesNothing(w, t, n, id);
    if c in u.classes {
      PutClassLosesNothing(u, c, nc.(status := u.classes[c].status), n, id);
      LosesAtTrans(t, u, PutClass(u, c, nc.(status := u.classes[c].status)), n, id, false, false);
      LosesAtTrans(t, u, u.(classes := u.classes - {c}, clock := u.clock + 1), n, id, false, false);
    }
  }

  lemma ReleaseLosesNothing(w: World, t: State, c: string, nc: Class, n: string, id: ObjectId)
    ensures LosesAt(t, UpdateClass(w, t, c, nc.(finalizers := Finalizer.WithoutOurs(nc.finalizers))).state, n, id,
            false)
    ensures LosesAt(t, t, n, id, false)
  {
    UpdateClassLosesNothing(w, t, c, nc.(finalizers := Finalizer.WithoutOurs(nc.finalizers)), n, id);
  }

  predicate LiveMember(t: State, n: string, c: string) {
    n in t.namespaces && t.namespaces[n].meta.classLabel == c && !t.namespaces[n].meta.deleting
  }

  /** An object that the cleanup has to remove. */
  ghost predicate Due(w: World, s: State, n: string, c: string, id: ObjectId) {
    n in s.namespaces && id in s.namespaces[n].objects && Termination.Wiped(w, c, id, s.namespaces[n].objects[id].obj)
  }

  lemma ClearedMeansNothingDue(w: World, t: State, c: string)
    ensures Termination.Cleared(w, ViewOf(t), c) <==> forall n, id | LiveMember(t, n, c) :: !Due(w, t, n, c, id)
  {
    var v := ViewOf(t);
    if Termination.Cleared(w, v, c) {
      forall n, id | LiveMember(t, n, c) ensures !Due(w, t, n, c, id) {
        assert v.namespaces[n] == ViewNs(t.namespaces[n]);
      }
    }
    if forall n, id | LiveMember(t, n, c) :: !Due(w, t, n, c, id) {
      forall n | n in v.namespaces && v.namespaces[n].classLabel == c && !v.namespaces[n].deleting
        ensures forall id <- v.namespaces[n].objects :: OwnerOf(v.namespaces[n].objects[id]) == c ==>
                  !Listed(w, ByWatch, w.discovery, id.group, id.kind) {
        assert v.namespaces[n] == ViewNs(t.namespaces[n]) && LiveMember(t, n, c);
        forall id | id in v.namespaces[n].objects ensures !Due(w, t, n, c, id) {}
      }
    }
  }

  lemma DueAfterwards(w: World, s: State, t: State, n: string, c: string, id: ObjectId, gone: bool)
    requires LosesAt(s, t, n, id, gone) && n in t.namespaces
    ensures Due(w, t, n, c, id) <==> Due(w, s, n, c, id) && !gone
  {}

  /** In any weather, and whether or not the class is released by it: the cleanup leaves the
      live members clear of what the class owns if and only if it gets each object it has to
      remove, which takes an answered listing of the namespaces, of the kind, and an answered
      deletion. The release itself asks for none of this. */
  lemma ReleaseClearsIff(w: World, s: State, c: string, nc: Class)
    requires Clocked(s)
    ensures var t := Finalizer.HandleCleanup(w, s, c, nc).state;
            Termination.Cleared(w, ViewOf(t), c) <==>
            forall n, id | LiveMember(t, n, c) && Due(w, s, n, c, id) :: Cleans(w, s, c, n, id)
  {
    var t := Finalizer.HandleCleanup(w, s, c, nc).state;
    ClearedMeansNothingDue(w, t, c);
    forall n, id | LiveMember(t, n, c) ensures Due(w, t, n, c, id) <==> Due(w, s, n, c, id) && !Cleans(w, s, c, n, id) {
      CleanupCleans(w, s, c, nc, n, id);
      DueAfterwards(w, s, t, n, c, id, Cleans(w, s, c, n, id));
    }
  }

  // ---------- What an error-free cleanup can hide ----------

  lemma {:induction false} ErrorFreeDeletions(w: World, s: State, n: string, found: seq<Finalizer.Found>,
                                              errs: seq<Error>, f: Finalizer.Found)
    requires Finalizer.DeleteFound(w, s, n, found, errs).value == []
    ensures errs == [] && (f in found ==> Deletes(w, s.calls, found, IdOf(f.gvk, f.name)))
    decreases |found|
  {
    if found != [] {
      var r := DeleteObject(w, s, n, found[0].gvk, found[0].name);
      ArriveCalls(w, s);
      ErrorFreeDeletions(w, r.state, n, found[1..], if r.value.Fail? then errs + [r.value.error] else errs, f);
      assert r.value.Pass?;
    }
  }

  ghost predicate IsFound(found: seq<Finalizer.Found>, id: ObjectId) {
    exists f <- found :: IdOf(f.gvk, f.name) == id
  }

  /** The loop, at n, finds object id. */
  ghost predicate Finds(w: World, s: State, c: string, items: seq<Item>, errs: seq<Error>, n: string, id: ObjectId)
    decreases |items|
  {
    && items != []
    && if items[0].name == n then !items[0].meta.deleting && IsFound(Finalizer.Labelled(w, s, n, c).value, id) else
       var r := Finalizer.FinalizeNamespace(w, s, c, items[0], errs);
       Finds(w, r.state, c, items[1..], r.value, n, id)
  }

  lemma ErrorFreeMember(w: World, s: State, c: string, item: Item, errs: seq<Error>)
    requires Finalizer.FinalizeNamespace(w, s, c, item, errs).value == []
    ensures errs == []
    ensures !item.meta.deleting ==> forall f <- Finalizer.Labelled(w, s, item.name, c).value ::
                                      SweptAway(w, s, item.name, c, IdOf(f.gvk, f.name))
  {
    if !item.meta.deleting {
      var found := Finalizer.Labelled(w, s, item.name, c);
      assert Finalizer.DeleteFound(w, found.state, item.name, found.value, errs).value == [];
      forall f | f in found.value ensures SweptAway(w, s, item.name, c, IdOf(f.gvk, f.name)) {
        ErrorFreeDeletions(w, found.state, item.name, found.value, errs, f);
      }
      ErrorFreeDeletions(w, found.state, item.name, found.value, errs, Finalizer.Found(Gvk("", "", ""), ""));
    }
  }

  lemma {:induction false} ErrorFreeLoop(w: World, s: State, c: string, items: seq<Item>, errs: seq<Error>,
                                         n: string, id: ObjectId)
    requires Finalizer.FinalizeEach(w, s, c, items, errs).value == []
    ensures errs == [] && (Finds(w, s, c, items, errs, n, id) ==> Reaps(w, s, c, items, errs, n, id))
    decreases |items|
  {
    if items != [] {
      var r := Finalizer.FinalizeNamespace(w, s, c, items[0], errs);
      ErrorFreeLoop(w, r.state, c, items[1..], r.value, n, id);
      ErrorFreeMember(w, s, c, items[0], errs);
    }
  }

  /** A cleanup without an error has listed the namespaces and removed everything it found: what
      it may have missed is what a refused discovery or listing kept from it. */
  lemma ErrorFreeCleanup(w: World, s: State, c: string, nc: Class, n: string, id: ObjectId)
    requires Finalizer.HandleCleanup(w, s, c, nc).value.Pass?
    ensures var items := ListNamespaces(w, s, c);
            && items.value.Ok?
            && (Finds(w, items.state, c, items.value.value, [], n, id) ==> Cleans(w, s, c, n, id))
  {
    var items := ListNamespaces(w, s, c);
    if items.value.Ok? {
      ErrorFreeLoop(w, items.state, c, items.value.value, [], n, id);
    }
  }

  // ---------- A release that leaves everything behind ----------

  function Terminating(): Class {
    Class([], [Ours], true, 1, Status(0, false, []), 0)
  }

  /** The namespace of the example is the one member of the terminating class "a". */
  function OneMemberLeft(): State {
    State(map["n" := Example.Holder("a")], map["a" := Terminating()], 0, 0, [])
  }

  lemma SortedSingleton(x: string)
    ensures SortedNames({x}) == [x]
  {
    var r := SortedNames({x});
    assert x in r;
    assert |r| > 1 ==> r[0] != r[1];
    forall i | 0 <= i < |r| ensures r[i] == x { assert r[i] in r; }
  }

  lemma OneItem(w: World, s: State)
    requires s.namespaces == map["n" := Example.Holder("a")] && w.script(s.calls).Calm?
    ensures ListNamespaces(w, s, "a") == Reply(s.(calls := s.calls + 1), Ok([Item("n", Example.Holder("a").meta)]))
  {
    var t := Arrive(w, s);
    assert t == s.(calls := s.calls + 1) && t.namespaces["n"].meta == Example.Holder("a").meta;
    assert Kube.Labelled(t, "a") == {"n"};
    SortedSingleton("n");
    assert ItemsOf(t, ["n"]) == [Item("n", Example.Holder("a").meta)];
  }

  /** With call 1, the discovery, refused: the cleanup passes, the class is gone, and the
      namespace holds what it held. A refused discovery reads as an empty one. */
  lemma ReleaseCanLeaveObjects()
    ensures var r := Finalizer.HandleCleanup(Example.AllBut(1), OneMemberLeft(), "a", Terminating());
            && r.value.Pass? && "a" !in r.state.classes
            && LiveMember(r.state, "n", "a") && r.state.namespaces["n"].objects == Example.Holder("a").objects
  {
    var w, s := Example.AllBut(1), OneMemberLeft();
    OneItem(w, s);
    var s1, item := s.(calls := 1), Item("n", Example.Holder("a").meta);
    assert Finalizer.Labelled(w, s1, "n", "a") == Reply(s.(calls := 2), []);
    assert LastApplied in item.meta.annotations;
    var r := Finalizer.FinalizeNamespace(w, s1, "a", item, []);
    assert r.value == [] && r.state.calls == 4 && r.state.classes == s.classes;
    assert Finalizer.FinalizeEach(w, s1, "a", [item], []) == r;
    assert Finalizer.WithoutOurs([Ours]) == [];
  }
}
