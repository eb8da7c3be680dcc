/** The outcome of a request on a terminating class: what a cleanup that passes has done, that the
    release never waits for it, and exactly when the request passes. */
module Finality {
  import opened Kube
  import opened Controller
  import opened Ideal
  import opened ApplyLoop
  import opened Sweeps
  import opened Finalizer
  import opened Reports
  import opened Outcomes
  import Fields
  import Manifests
  import Names
  import Release
  import Requests
  import Statuses
  import Termination
  import Watcher
  import Weather

  // ---------- What a cleanup that passes has done ----------

  /** Namespace n has no last applied class now, if it had none before. */
  ghost predicate StaysForgotten(s: State, t: State, n: string) {
    n in t.namespaces && LastApplied in t.namespaces[n].meta.annotations ==>
      n in s.namespaces && LastApplied in s.namespaces[n].meta.annotations
  }

  predicate HasForgotten(s: State, n: string) {
    n in s.namespaces ==> LastApplied !in s.namespaces[n].meta.annotations
  }

  lemma SurvivesForgotten(s: State, t: State, m: string, n: string)
    requires Survives(s, t, m)
    ensures StaysForgotten(s, t, n)
  {}

  lemma SweepSurvives(w: World, s: State, n: string, c: string, errs: seq<Error>)
    ensures var found := Finalizer.Labelled(w, s, n, c);
            Survives(s, DeleteFound(w, found.state, n, found.value, errs).state, n)
  {
    SweepRemoves(w, s, n, c, errs, ObjectId("", "", ""));
  }

  lemma ForgetUpdate(w: World, s: State, m: string, meta: Namespace, n: string)
    requires LastApplied !in meta.annotations
    ensures var r := UpdateNamespace(w, s, m, meta);
            && r.state.classes == s.classes && StaysForgotten(s, r.state, n)
            && (r.value.Pass? ==> HasForgotten(r.state, m))
  {
    ArriveHolds(w, s, m);
  }

  /** One member: nobody is reminded, and without an error this member has forgotten. */
  lemma MemberForgets(w: World, s: State, c: string, item: Item, errs: seq<Error>, n: string)
    ensures var r := FinalizeNamespace(w, s, c, item, errs);
            && r.state.classes == s.classes && StaysForgotten(s, r.state, n)
            && (r.value == [] && !item.meta.deleting ==> HasForgotten(r.state, item.name))
  {
    if !item.meta.deleting {
      var m := item.name;
      var found := Finalizer.Labelled(w, s, m, c);
      var deleted := DeleteFound(w, found.state, m, found.value, errs);
      SweepSurvives(w, s, m, c, errs);
      SurvivesForgotten(s, deleted.state, m, n);
      var ns := GetNamespace(w, deleted.state, m);
      ArriveHolds(w, deleted.state, m);
      SurvivesForgotten(deleted.state, ns.state, m, n);
      if ns.value.Ok? {
        var meta := ns.value.value;
        ForgetUpdate(w, ns.state, m, meta.(annotations := meta.annotations - {LastApplied}), n);
      }
    }
  }

  lemma {:induction false} LoopForgets(w: World, s: State, c: string, items: seq<Item>, errs: seq<Error>, n: string)
    ensures var r := FinalizeEach(w, s, c, items, errs);
            && r.state.classes == s.classes && StaysForgotten(s, r.state, n)
            && (r.value == [] ==> errs == [])
            && (r.value == [] && (exists i <- items :: i.name == n && !i.meta.deleting) ==> HasForgotten(r.state, n))
    decreases |items|
  {
    if items != [] {
      var r := FinalizeNamespace(w, s, c, items[0], errs);
      MemberForgets(w, s, c, items[0], errs, n);
      LoopForgets(w, r.state, c, items[1..], r.value, n);
      assert items == [items[0]] + items[1..];
      if r.value == [] { Release.ErrorFreeMember(w, s, c, items[0], errs); }
    }
  }

  lemma EntryCallKeeps(w: World, s: State, c: string, nc: Class, n: string)
    ensures StaysForgotten(s, UpdateClass(w, s, c, nc).state, n)
  {
    ArriveHolds(w, s, n);
  }

  /** The class without its own finalizer entry, if it had one, or gone. */
  ghost predicate EntryGone(t: State, c: string, nc: Class, i: nat)
    requires i < |nc.finalizers|
  {
    c in t.classes ==> t.classes[c].finalizers == nc.finalizers[..i] + nc.finalizers[i + 1..]
  }

  lemma EntryUpdated(w: World, s: State, c: string, nc: Class, i: nat)
    requires i < |nc.finalizers| && nc.finalizers[i] == Ours && Ours !in nc.finalizers[..i]
    requires UpdateClass(w, s, c, nc.(finalizers := WithoutOurs(nc.finalizers))).value.Pass?
    ensures EntryGone(UpdateClass(w, s, c, nc.(finalizers := WithoutOurs(nc.finalizers))).state, c, nc, i)
  {
    WithoutOursAt(nc.finalizers, i);
  }

  /** A cleanup that passes, in any weather: the members were listed, every one of them that was
      live then has no last applied class, and the first own finalizer entry is off. */
  lemma PassingCleanup(w: World, s: State, c: string, nc: Class, n: string, i: nat)
    requires HandleCleanup(w, s, c, nc).value.Pass?
    ensures var t, u := HandleCleanup(w, s, c, nc).state, Arrive(w, s);
            && Answered(w, s.calls)
            && (Manifests.Live(u, n) && u.namespaces[n].meta.classLabel == c ==> HasForgotten(t, n))
            && (i < |nc.finalizers| && nc.finalizers[i] == Ours && Ours !in nc.finalizers[..i] ==>
                  EntryGone(t, c, nc, i))
  {
    var items := ListNamespaces(w, s, c);
    var cleaned := FinalizeEach(w, items.state, c, items.value.value, []);
    LoopForgets(w, items.state, c, items.value.value, [], n);
    EntryCallKeeps(w, cleaned.state, c, nc.(finalizers := WithoutOurs(nc.finalizers)), n);
    if Manifests.Live(items.state, n) && items.state.namespaces[n].meta.classLabel == c {
      ListedMember(items.state, c, n);
    }
    if i < |nc.finalizers| && nc.finalizers[i] == Ours && Ours !in nc.finalizers[..i] {
      EntryUpdated(w, cleaned.state, c, nc, i);
    }
  }

  lemma ListedMember(s: State, c: string, n: string)
    requires n in s.namespaces && s.namespaces[n].meta.classLabel == c
    ensures Item(n, s.namespaces[n].meta) in ItemsOf(s, Names.SortedNames(Kube.Labelled(s, c)))
  {
    var names := Names.SortedNames(Kube.Labelled(s, c));
    assert n in names;
    var j :| 0 <= j < |names| && names[j] == n;
    assert ItemsOf(s, names)[j] == Item(n, s.namespaces[n].meta);
  }

  // ---------- The release waits for nothing ----------

  /** Whatever failed before, the cleanup goes on to the guarded update that takes the own entry
      off; what that call comes to decides the class. */
  lemma ReleaseIsAttempted(w: World, s: State, c: string, nc: Class) returns (u: State)
    requires Ours in nc.finalizers
    ensures u.classes == s.classes
    ensures var call := UpdateClass(w, u, c, nc.(finalizers := WithoutOurs(nc.finalizers)));
            && HandleCleanup(w, s, c, nc).state == call.state
            && (HandleCleanup(w, s, c, nc).value.Pass? ==> call.value.Pass?)
  {
    var items := ListNamespaces(w, s, c);
    ArriveKeepsClasses(w, s);
    u := items.state;
    if items.value.Ok? {
      LoopForgets(w, items.state, c, items.value.value, [], "");
      u := FinalizeEach(w, items.state, c, items.value.value, []).state;
    }
  }

  // ---------- The request ----------

  /** A request on a terminating class, in any weather: after its members it runs the cleanup, and
      fails with it; else it refreshes the status, which fails if the class is gone by then. */
  lemma TerminatingOutcome(w: World, s: State, c: string)
    requires c != "" && c in s.classes && s.classes[c].deleting
    ensures var r, k, t := Request(w, s, c), s.calls, AfterMembers(w, s, c);
            var cleaned := HandleCleanup(w, t, c, s.classes[c]);
            if !Answered(w, k) || !Answered(w, k + 1) then r.value == Fail(Unavailable)
            else if cleaned.value.Fail? then r == cleaned
            else && r == Statuses.Refresh(w, cleaned.state, c)
                 && (c !in cleaned.state.classes ==> r.value.Fail?)
  {
    ArriveCalls(w, s);
    ArriveKeepsClasses(w, s);
    ArriveKeepsClasses(w, Arrive(w, s));
    RefreshOutcome(w, HandleCleanup(w, AfterMembers(w, s, c), c, s.classes[c]).state, c);
  }

  // ---------- When it passes ----------

  /** The type brings the objects of the group and kind. */
  predicate Brings(w: World, gvk: Gvk, group: string, kind: string) {
    gvk.group == group && gvk.kind == kind && gvk in w.served && gvk in w.listable
  }

  ghost predicate Brought(w: World, gvks: seq<Gvk>, group: string, kind: string) {
    exists i | 0 <= i < |gvks| :: Brings(w, gvks[i], group, kind)
  }

  /** Two of the types bring them. */
  ghost predicate Twice(w: World, gvks: seq<Gvk>, group: string, kind: string) {
    exists i, j | 0 <= i < j < |gvks| :: Brings(w, gvks[i], group, kind) && Brings(w, gvks[j], group, kind)
  }

  lemma BroughtSplit(w: World, gvks: seq<Gvk>, group: string, kind: string)
    requires gvks != []
    ensures Brought(w, gvks, group, kind) <==>
            Brings(w, gvks[0], group, kind) || Brought(w, gvks[1..], group, kind)
  {
    var rest := gvks[1..];
    if Brought(w, rest, group, kind) {
      var j :| 0 <= j < |rest| && Brings(w, rest[j], group, kind);
      assert Brings(w, gvks[j + 1], group, kind);
    }
    if Brought(w, gvks, group, kind) {
      var j :| 0 <= j < |gvks| && Brings(w, gvks[j], group, kind);
      assert j > 0 ==> Brings(w, rest[j - 1], group, kind);
    }
  }

  lemma TwiceSplit(w: World, gvks: seq<Gvk>, group: string, kind: string)
    requires gvks != []
    ensures Twice(w, gvks, group, kind) <==>
            (Brings(w, gvks[0], group, kind) && Brought(w, gvks[1..], group, kind))
            || Twice(w, gvks[1..], group, kind)
  {
    var rest := gvks[1..];
    if Brings(w, gvks[0], group, kind) && Brought(w, rest, group, kind) {
      var j :| 0 <= j < |rest| && Brings(w, rest[j], group, kind);
      assert Brings(w, gvks[j + 1], group, kind);
    }
    if Twice(w, rest, group, kind) {
      var i, j :| 0 <= i < j < |rest| && Brings(w, rest[i], group, kind) && Brings(w, rest[j], group, kind);
      assert Brings(w, gvks[i + 1], group, kind) && Brings(w, gvks[j + 1], group, kind);
    }
    if Twice(w, gvks, group, kind) {
      var i, j :| 0 <= i < j < |gvks| && Brings(w, gvks[i], group, kind) && Brings(w, gvks[j], group, kind);
      assert Brings(w, rest[j - 1], group, kind);
      assert i > 0 ==> Brings(w, rest[i - 1], group, kind);
    }
  }

  function KeyOf(f: Found): ObjectId {
    IdOf(f.gvk, f.name)
  }

  ghost predicate Has(found: seq<Found>, id: ObjectId) {
    exists f <- found :: KeyOf(f) == id
  }

  /** No object is found twice. */
  ghost predicate NoRepeats(found: seq<Found>) {
    forall i, j | 0 <= i < j < |found| :: KeyOf(found[i]) != KeyOf(found[j])
  }

  lemma NoRepeatsConcat(a: seq<Found>, b: seq<Found>)
    ensures NoRepeats(a + b) <==> NoRepeats(a) && NoRepeats(b) && forall id :: !(Has(a, id) && Has(b, id))
  {
    if NoRepeats(a + b) {
      forall i, j | 0 <= i < j < |a| ensures KeyOf(a[i]) != KeyOf(a[j]) {
        assert (a + b)[i] == a[i] && (a + b)[j] == a[j];
      }
      forall i, j | 0 <= i < j < |b| ensures KeyOf(b[i]) != KeyOf(b[j]) {
        assert (a + b)[|a| + i] == b[i] && (a + b)[|a| + j] == b[j];
      }
      forall i, j | 0 <= i < |a| && 0 <= j < |b| ensures KeyOf(a[i]) != KeyOf(b[j]) {
        assert (a + b)[i] == a[i] && (a + b)[|a| + j] == b[j];
      }
    }
    if NoRepeats(a) && NoRepeats(b) && forall id :: !(Has(a, id) && Has(b, id)) {
      forall i, j | 0 <= i < j < |a + b| ensures KeyOf((a + b)[i]) != KeyOf((a + b)[j]) {
        if i < |a| <= j {
          assert a[i] in a && b[j - |a|] in b;
          assert Has(a, KeyOf(a[i])) && Has(b, KeyOf(b[j - |a|]));
        }
      }
    }
  }

  /** What the listings bring when all are answered. */
  function Flat(w: World, s: State, n: string, c: string, gvks: seq<Gvk>): seq<Found> {
    if gvks == [] then [] else
    (if gvks[0] in w.served && gvks[0] in w.listable
     then FoundNames(gvks[0], Names.SortedNames(OwnedNames(s, n, gvks[0], c))) else [])
    + Flat(w, s, n, c, gvks[1..])
  }

  lemma {:induction false} EachIsFlat(w: World, s: State, k: nat, n: string, c: string, gvks: seq<Gvk>,
                                      found: seq<Found>)
    requires Weather.AlwaysCalm(w)
    ensures LabelledEach(w, s.(calls := k), n, c, gvks, found).value == found + Flat(w, s, n, c, gvks)
    decreases |gvks|
  {
    if gvks != [] {
      var t := s.(calls := k);
      var r := LabelledOfType(w, t, n, c, gvks[0]);
      assert r.state == s.(calls := k + 1);
      assert OwnedNames(r.state, n, gvks[0], c) == OwnedNames(s, n, gvks[0], c);
      EachIsFlat(w, s, k + 1, n, c, gvks[1..], found + r.value);
      assert found + r.value + Flat(w, s, n, c, gvks[1..]) == found + (r.value + Flat(w, s, n, c, gvks[1..]));
    }
  }

  lemma NamesNoRepeats(gvk: Gvk, names: seq<string>)
    requires forall i, j | 0 <= i < j < |names| :: names[i] != names[j]
    ensures NoRepeats(FoundNames(gvk, names))
  {}

  lemma {:induction false} FlatHas(w: World, s: State, n: string, c: string, gvks: seq<Gvk>, id: ObjectId)
    ensures Has(Flat(w, s, n, c, gvks), id) <==>
            Brought(w, gvks, id.group, id.kind) && Weather.OwnedAt(s, n, c, id)
    decreases |gvks|
  {
    if gvks != [] {
      var gvk, rest := gvks[0], Flat(w, s, n, c, gvks[1..]);
      var names := Names.SortedNames(OwnedNames(s, n, gvk, c));
      var head := if gvk in w.served && gvk in w.listable then FoundNames(gvk, names) else [];
      BroughtSplit(w, gvks, id.group, id.kind);
      FlatHas(w, s, n, c, gvks[1..], id);
      HeadHas(w, s, n, c, gvk, id);
      assert Has(head + rest, id) <==> Has(head, id) || Has(rest, id);
    }
  }

  lemma HeadHas(w: World, s: State, n: string, c: string, gvk: Gvk, id: ObjectId)
    ensures Has(FoundNames(gvk, Names.SortedNames(OwnedNames(s, n, gvk, c))), id) <==>
            gvk.group == id.group && gvk.kind == id.kind && Weather.OwnedAt(s, n, c, id)
  {
    var names := Names.SortedNames(OwnedNames(s, n, gvk, c));
    var f := Found(gvk, id.name);
    FoundIsNamed(gvk, names, f);
    forall g | g in FoundNames(gvk, names) ensures g.gvk == gvk && g.name in names { FoundIsNamed(gvk, names, g); }
    if gvk.group == id.group && gvk.kind == id.kind {
      assert KeyOf(f) == id;
      assert id.name in names <==> Weather.OwnedAt(s, n, c, id) by {
        assert Weather.OwnedAt(s, n, c, id) ==> id in s.namespaces[n].objects;
      }
    }
  }

  lemma {:induction false} FlatRepeats(w: World, s: State, n: string, c: string, gvks: seq<Gvk>)
    ensures NoRepeats(Flat(w, s, n, c, gvks)) <==>
            forall id | Weather.OwnedAt(s, n, c, id) :: !Twice(w, gvks, id.group, id.kind)
    decreases |gvks|
  {
    if gvks != [] {
      var gvk, rest := gvks[0], Flat(w, s, n, c, gvks[1..]);
      var names := Names.SortedNames(OwnedNames(s, n, gvk, c));
      var head := if gvk in w.served && gvk in w.listable then FoundNames(gvk, names) else [];
      NamesNoRepeats(gvk, names);
      NoRepeatsConcat(head, rest);
      FlatRepeats(w, s, n, c, gvks[1..]);
      forall id: ObjectId ensures Has(head, id) && Has(rest, id) <==>
                        Brings(w, gvk, id.group, id.kind) && Brought(w, gvks[1..], id.group, id.kind)
                        && Weather.OwnedAt(s, n, c, id) {
        HeadHas(w, s, n, c, gvk, id);
        FlatHas(w, s, n, c, gvks[1..], id);
      }
      forall id: ObjectId ensures Twice(w, gvks, id.group, id.kind) <==>
                        (Brings(w, gvk, id.group, id.kind) && Brought(w, gvks[1..], id.group, id.kind))
                        || Twice(w, gvks[1..], id.group, id.kind) {
        TwiceSplit(w, gvks, id.group, id.kind);
      }
    }
  }

  ghost predicate AllIn(s: State, n: string, found: seq<Found>)
    requires n in s.namespaces
  {
    forall f <- found :: KeyOf(f) in s.namespaces[n].objects
  }

  lemma {:induction false} DeletionErrorsGrow(w: World, s: State, n: string, found: seq<Found>, errs: seq<Error>)
    ensures |DeleteFound(w, s, n, found, errs).value| >= |errs|
    decreases |found|
  {
    if found != [] {
      var r := DeleteObject(w, s, n, found[0].gvk, found[0].name);
      DeletionErrorsGrow(w, r.state, n, found[1..], if r.value.Fail? then errs + [r.value.error] else errs);
    }
  }

  lemma HeadDeleted(w: World, s: State, n: string, f: Found, rest: seq<Found>)
    requires Weather.AlwaysCalm(w) && n in s.namespaces && f.gvk in w.served
    ensures var r := DeleteObject(w, s, n, f.gvk, f.name);
            && n in r.state.namespaces
            && (r.value.Pass? <==> KeyOf(f) in s.namespaces[n].objects)
            && (r.value.Pass? ==> (AllIn(r.state, n, rest) <==> AllIn(s, n, rest) && !Has(rest, KeyOf(f))))
  {
    var r := DeleteObject(w, s, n, f.gvk, f.name);
    if r.value.Pass? {
      assert r.state.namespaces[n].objects == s.namespaces[n].objects - {KeyOf(f)};
    }
  }

  lemma NoRepeatsSplit(found: seq<Found>)
    requires found != []
    ensures NoRepeats(found) <==> NoRepeats(found[1..]) && !Has(found[1..], KeyOf(found[0]))
  {
    var head, rest := [found[0]], found[1..];
    assert found == head + rest;
    NoRepeatsConcat(head, rest);
    assert found[0] in head && Has(head, KeyOf(found[0]));
  }

  /** Without refusals the deletions go without an error exactly when each object found is there
      and none is found twice. */
  lemma {:induction false} DeletionsPass(w: World, s: State, n: string, found: seq<Found>, errs: seq<Error>)
    requires Weather.AlwaysCalm(w) && n in s.namespaces && forall f <- found :: f.gvk in w.served
    ensures |DeleteFound(w, s, n, found, errs).value| == |errs| <==> NoRepeats(found) && AllIn(s, n, found)
    decreases |found|
  {
    if found != [] {
      var r := DeleteObject(w, s, n, found[0].gvk, found[0].name);
      var errs' := if r.value.Fail? then errs + [r.value.error] else errs;
      assert found == [found[0]] + found[1..];
      HeadDeleted(w, s, n, found[0], found[1..]);
      NoRepeatsSplit(found);
      DeletionErrorsGrow(w, r.state, n, found[1..], errs');
      DeletionsPass(w, r.state, n, found[1..], errs');
    }
  }

  /** No object the class owns in the namespace is brought by two of the discovered types. */
  ghost predicate Clean(w: World, s: State, n: string, c: string) {
    forall id | Weather.OwnedAt(s, n, c, id) :: !Twice(w, Watcher.Suitable(w.discovery), id.group, id.kind)
  }

  lemma CalmListing(w: World, s: State, n: string, c: string)
    requires Weather.AlwaysCalm(w)
    ensures Finalizer.Labelled(w, s, n, c).value == Flat(w, s, n, c, Watcher.Suitable(w.discovery))
  {
    LabelledIsEach(w, s, n, c);
    assert Arrive(w, s) == s.(calls := s.calls + 1);
    EachIsFlat(w, s, s.calls + 1, n, c, Watcher.Suitable(w.discovery), []);
  }

  lemma CalmFound(w: World, s: State, n: string, c: string)
    requires Weather.AlwaysCalm(w) && Weather.WorldOk(w) && n in s.namespaces
    ensures var found := Finalizer.Labelled(w, s, n, c);
            && n in found.state.namespaces && found.state.namespaces[n] == s.namespaces[n]
            && (NoRepeats(found.value) <==> Clean(w, s, n, c)) && AllIn(found.state, n, found.value)
            && forall f <- found.value :: f.gvk in w.served
  {
    CalmListing(w, s, n, c);
    FlatRepeats(w, s, n, c, Watcher.Suitable(w.discovery));
    FoundIsThere(w, s, n, c);
  }

  lemma FoundIsThere(w: World, s: State, n: string, c: string)
    requires Weather.AlwaysCalm(w) && Weather.WorldOk(w) && n in s.namespaces
    ensures var found := Finalizer.Labelled(w, s, n, c);
            && n in found.state.namespaces && found.state.namespaces[n] == s.namespaces[n]
            && AllIn(found.state, n, found.value) && forall f <- found.value :: f.gvk in w.served
  {
    Weather.LabelledIsComplete(w, s, n, c);
  }

  lemma CalmForget(w: World, s: State, u: State, n: string)
    requires Weather.AlwaysCalm(w) && n in s.namespaces && Weather.OnlyObjects(s, u, n) && Weather.Wf(u)
    ensures var ns := GetNamespace(w, u, n);
            && ns.value == Ok(u.namespaces[n].meta)
            && var meta := ns.value.value;
               UpdateNamespace(w, ns.state, n, meta.(annotations := meta.annotations - {LastApplied})).value.Pass?
  {
    Termination.FinalizeAnnotations(w, s, u, n);
  }

  lemma MemberPasses(w: World, s: State, c: string, item: Item, errs: seq<Error>)
    requires Weather.AlwaysCalm(w) && Weather.WorldOk(w) && Weather.Wf(s) && item.name in s.namespaces
    ensures var r := FinalizeNamespace(w, s, c, item, errs);
            |r.value| >= |errs| && (|r.value| == |errs| <==> item.meta.deleting || Clean(w, s, item.name, c))
  {
    if !item.meta.deleting {
      var n := item.name;
      var found := Finalizer.Labelled(w, s, n, c);
      var deleted := DeleteFound(w, found.state, n, found.value, errs);
      CalmFound(w, s, n, c);
      DeletionsPass(w, found.state, n, found.value, errs);
      DeletionErrorsGrow(w, found.state, n, found.value, errs);
      Termination.WipeIs(w, s, n, c, errs);
      CalmForget(w, s, deleted.state, n);
      assert FinalizeNamespace(w, s, c, item, errs).value == deleted.value;
    }
  }

  lemma CleanElsewhere(w: World, s: State, t: State, n: string, c: string)
    requires n in s.namespaces && n in t.namespaces && t.namespaces[n].objects == s.namespaces[n].objects
    ensures Clean(w, t, n, c) <==> Clean(w, s, n, c)
  {
    forall id ensures Weather.OwnedAt(t, n, c, id) <==> Weather.OwnedAt(s, n, c, id) {}
  }

  ghost predicate AllClean(w: World, s: State, c: string, items: seq<Item>) {
    forall i <- items :: i.meta.deleting || Clean(w, s, i.name, c)
  }

  lemma AllCleanSplit(w: World, s: State, r: State, c: string, items: seq<Item>)
    requires items != [] && items[0].name in s.namespaces && Termination.OnlyNamespace(s, r, items[0].name)
    requires items[0].name !in Requests.NamesOf(items[1..])
    requires forall i <- items :: i.name in s.namespaces
    ensures AllClean(w, s, c, items) <==>
            (items[0].meta.deleting || Clean(w, s, items[0].name, c)) && AllClean(w, r, c, items[1..])
  {
    assert items == [items[0]] + items[1..];
    forall i | i in items[1..] ensures Clean(w, r, i.name, c) <==> Clean(w, s, i.name, c) {
      var j :| 0 <= j < |items[1..]| && items[1..][j] == i;
      assert Requests.NamesOf(items[1..])[j] == i.name;
      CleanElsewhere(w, s, r, i.name, c);
    }
  }

  ghost predicate Current(s: State, items: seq<Item>) {
    forall i | 0 <= i < |items| ::
      items[i].name in s.namespaces && items[i].meta.deleting == s.namespaces[items[i].name].meta.deleting
  }

  lemma {:induction false} LoopPasses(w: World, s: State, c: string, items: seq<Item>, errs: seq<Error>)
    requires Weather.AlwaysCalm(w) && Weather.WorldOk(w) && Weather.Wf(s)
    requires Requests.Distinct(Requests.NamesOf(items)) && Current(s, items)
    ensures var r := FinalizeEach(w, s, c, items, errs);
            |r.value| >= |errs| && (|r.value| == |errs| <==> AllClean(w, s, c, items))
    decreases |items|
  {
    if items != [] {
      var r := FinalizeNamespace(w, s, c, items[0], errs);
      MemberPasses(w, s, c, items[0], errs);
      RestIsCurrent(w, s, c, items, errs);
      LoopPasses(w, r.state, c, items[1..], r.value);
    }
  }

  lemma RestIsCurrent(w: World, s: State, c: string, items: seq<Item>, errs: seq<Error>)
    requires Weather.AlwaysCalm(w) && Weather.WorldOk(w) && Weather.Wf(s) && items != []
    requires Requests.Distinct(Requests.NamesOf(items)) && Current(s, items)
    ensures var r := FinalizeNamespace(w, s, c, items[0], errs);
            && Weather.Wf(r.state) && Requests.Distinct(Requests.NamesOf(items[1..])) && Current(r.state, items[1..])
            && (AllClean(w, s, c, items) <==>
               (items[0].meta.deleting || Clean(w, s, items[0].name, c)) && AllClean(w, r.state, c, items[1..]))
  {
    var r := FinalizeNamespace(w, s, c, items[0], errs);
    Termination.FinalizeNamespaceIs(w, s, c, items[0], errs);
    Requests.NamesSplit(items);
    Termination.RestIsUntouched(s, r.state, items);
    AllCleanSplit(w, s, r.state, c, items);
  }

  /** Without refusals the cleanup passes if and only if no object of a live member is found under
      two types and, with an own entry to take off, the class has not moved since it was read. */
  lemma CleanupPassesIff(w: World, s: State, c: string, nc: Class)
    requires Weather.AlwaysCalm(w) && Weather.WorldOk(w) && Weather.Wf(s) && c in s.classes
    ensures HandleCleanup(w, s, c, nc).value.Pass? <==>
            && (forall n | Release.LiveMember(s, n, c) :: Clean(w, s, n, c))
            && (Ours in nc.finalizers ==> s.classes[c].version == nc.version)
  {
    var items := ListNamespaces(w, s, c);
    CalmItems(w, s, c);
    var cleaned := FinalizeEach(w, items.state, c, items.value.value, []);
    ItemsPass(w, s, items.state, c, items.value.value);
    EntryPasses(w, s, cleaned.state, c, nc);
    assert |cleaned.value| == 0 <==> cleaned.value == [];
  }

  lemma CalmItems(w: World, s: State, c: string)
    requires Weather.AlwaysCalm(w)
    ensures var items := ListNamespaces(w, s, c);
            items.value.Ok? && Weather.OnlyRead(s, items.state) && MembersItems(s, c, items.value.value)
  {
    Requests.MembersAreListed(w, s, c);
  }

  /** The items are the members of the class, each once and as stored. */
  ghost predicate MembersItems(s: State, c: string, items: seq<Item>) {
    var names := Requests.NamesOf(items);
    && Requests.Distinct(names) && (forall n :: n in names <==> n in Kube.Labelled(s, c))
    && (forall i <- items :: i.meta.classLabel == c && i.name in s.namespaces
                             && i.meta == s.namespaces[i.name].meta)
  }

  lemma ItemsPass(w: World, s: State, s1: State, c: string, items: seq<Item>)
    requires Weather.AlwaysCalm(w) && Weather.WorldOk(w) && Weather.Wf(s) && Weather.OnlyRead(s, s1)
    requires MembersItems(s, c, items)
    ensures var r := FinalizeEach(w, s1, c, items, []);
            && r.state.classes == s.classes
            && (|r.value| == 0 <==> forall n | Release.LiveMember(s, n, c) :: Clean(w, s, n, c))
  {
    ReadIsWf(s, s1);
    MembersClean(w, s, s1, c, items);
    LoopPasses(w, s1, c, items, []);
    LoopForgets(w, s1, c, items, [], "");
  }

  lemma EntryPasses(w: World, s: State, u: State, c: string, nc: Class)
    requires Weather.AlwaysCalm(w) && c in s.classes && u.classes == s.classes
    ensures UpdateClass(w, u, c, nc.(finalizers := WithoutOurs(nc.finalizers))).value.Pass?
            <==> s.classes[c].version == nc.version
  {}

  lemma MembersClean(w: World, s: State, s1: State, c: string, items: seq<Item>)
    requires Weather.OnlyRead(s, s1)
    requires var names := Requests.NamesOf(items);
             && (forall n :: n in names <==> n in Kube.Labelled(s, c))
             && (forall i <- items :: i.meta.classLabel == c && i.name in s.namespaces
                                      && i.meta == s.namespaces[i.name].meta)
    ensures Current(s1, items)
    ensures AllClean(w, s1, c, items) <==> forall n | Release.LiveMember(s, n, c) :: Clean(w, s, n, c)
  {
    var names := Requests.NamesOf(items);
    forall i | 0 <= i < |items| ensures items[i] in items {}
    forall n | Release.LiveMember(s, n, c) ensures exists i <- items :: i.name == n && !i.meta.deleting {
      assert n in names;
      var j :| 0 <= j < |names| && names[j] == n;
      assert items[j] in items && items[j].name == n;
    }
    forall i | i in items
      ensures !i.meta.deleting <==> Release.LiveMember(s, i.name, c)
      ensures Clean(w, s1, i.name, c) <==> Clean(w, s, i.name, c) {
      CleanElsewhere(w, s, s1, i.name, c);
    }
  }

  // ---------- The whole request, without refusals ----------

  /** Of what the class owns in a namespace of this view, nothing is brought by two types. */
  ghost predicate CleanView(w: World, v: NsView, c: string) {
    forall id <- v.objects | OwnerOf(v.objects[id]) == c ::
      !Twice(w, Watcher.Suitable(w.discovery), id.group, id.kind)
  }

  lemma CleanIsView(w: World, s: State, n: string, c: string)
    requires n in s.namespaces
    ensures Clean(w, s, n, c) <==> CleanView(w, ViewNs(s.namespaces[n]), c)
  {
    var v := ViewNs(s.namespaces[n]);
    forall id ensures Weather.OwnedAt(s, n, c, id) <==> id in v.objects && OwnerOf(v.objects[id]) == c {}
  }

  lemma EntryLeft(w: World, s: State, u: State, c: string, nc: Class)
    requires Weather.AlwaysCalm(w) && c in s.classes && nc.deleting && u.classes == s.classes
    ensures c in UpdateClass(w, u, c, nc.(finalizers := WithoutOurs(nc.finalizers))).state.classes <==>
            !(s.classes[c].version == nc.version && WithoutOurs(nc.finalizers) == [])
  {}

  lemma ClassLeft(w: World, s: State, c: string, nc: Class)
    requires Weather.AlwaysCalm(w) && c in s.classes && nc.deleting
    ensures c in HandleCleanup(w, s, c, nc).state.classes <==>
            !(Ours in nc.finalizers && s.classes[c].version == nc.version && |nc.finalizers| == 1)
  {
    var items := ListNamespaces(w, s, c);
    LoopForgets(w, items.state, c, items.value.value, [], "");
    WithoutOursShrinks(nc.finalizers);
    EntryLeft(w, s, FinalizeEach(w, items.state, c, items.value.value, []).state, c, nc);
  }

  lemma CleanAfterSettling(w: World, s: State, t: State, c: string)
    requires c in s.classes && t.namespaces.Keys == s.namespaces.Keys
    requires forall n <- s.namespaces | s.namespaces[n].meta.classLabel == c ::
               ViewNs(t.namespaces[n])
               == Settle(w, ViewNs(s.namespaces[n]), c, s.classes[c].spec, s.classes.Keys)
    requires forall n <- s.namespaces | s.namespaces[n].meta.classLabel != c :: t.namespaces[n] == s.namespaces[n]
    ensures (forall n | Release.LiveMember(t, n, c) :: Clean(w, t, n, c)) <==>
            forall n | Release.LiveMember(s, n, c) ::
              CleanView(w, Settle(w, ViewNs(s.namespaces[n]), c, s.classes[c].spec, s.classes.Keys), c)
  {
    forall n | n in s.namespaces && s.namespaces[n].meta.classLabel == c
      ensures Release.LiveMember(t, n, c) <==> Release.LiveMember(s, n, c)
      ensures Clean(w, t, n, c) <==>
              CleanView(w, Settle(w, ViewNs(s.namespaces[n]), c, s.classes[c].spec, s.classes.Keys), c) {
      CleanIsView(w, t, n, c);
      assert ViewNs(t.namespaces[n]).classLabel == c
             && ViewNs(t.namespaces[n]).deleting == ViewNs(s.namespaces[n]).deleting;
    }
  }

  /** The state t once the members of class c of s have been reconciled. */
  ghost predicate Reconciled(w: World, s: State, t: State, c: string)
    requires c in s.classes
  {
    && Weather.Wf(t) && t.namespaces.Keys == s.namespaces.Keys && c in t.classes
    && (forall n <- s.namespaces | s.namespaces[n].meta.classLabel == c ::
          ViewNs(t.namespaces[n]) == Settle(w, ViewNs(s.namespaces[n]), c, s.classes[c].spec, s.classes.Keys))
    && (forall n <- s.namespaces | s.namespaces[n].meta.classLabel != c :: t.namespaces[n] == s.namespaces[n])
    && (Termination.SomeRecorded(w, ViewOf(s), c) <==> t.classes[c].version != s.classes[c].version)
  }

  lemma SweptMembers(w: World, s: State, s1: State, t: State, c: string, names: seq<string>)
    requires Weather.Up(w, t) && Weather.Wf(t) && c in s.classes && Weather.OnlyRead(s, s1)
    requires names == Names.SortedNames(Kube.Labelled(s, c))
    requires Requests.SweepFrame(s1, t, c, names) && Requests.SweepViews(w, s1, t, c, names)
    requires Requests.SweepRecords(w, s1, t, c, names)
    ensures Reconciled(w, s, t, c)
  {
    Requests.SettledMembers(w, s, s1, t, c, names);
    Termination.ConflictIffRecorded(w, s, s1, t, c, names);
  }

  lemma CalmMembers(w: World, s: State, c: string)
    requires Weather.AlwaysCalm(w) && c in s.classes
    ensures var items := ListNamespaces(w, Arrive(w, s), c);
            && items.value.Ok? && items.state == s.(calls := s.calls + 2)
            && AfterMembers(w, s, c) == ReconcileEach(w, items.state, c, s.classes[c].spec, items.value.value)
  {}

  lemma CalmNames(w: World, s: State, c: string)
    requires Weather.AlwaysCalm(w)
    ensures var items := ListNamespaces(w, Arrive(w, s), c);
            && items.value.Ok?
            && var names := Requests.NamesOf(items.value.value);
               && names == Names.SortedNames(Kube.Labelled(s, c)) && Requests.Distinct(names)
               && forall n <- names :: n in s.namespaces
  {
    Requests.MembersAreListed(w, Arrive(w, s), c);
    assert Kube.Labelled(Arrive(w, s), c) == Kube.Labelled(s, c);
  }

  lemma MembersAfter(w: World, s: State, c: string)
    requires Weather.AlwaysCalm(w) && Weather.WorldOk(w) && Weather.Wf(s) && c in s.classes
    ensures Reconciled(w, s, AfterMembers(w, s, c), c)
  {
    CalmMembers(w, s, c);
    CalmNames(w, s, c);
    MembersSwept(w, s, s.(calls := s.calls + 2), c, ListNamespaces(w, Arrive(w, s), c).value.value);
  }

  lemma MembersSwept(w: World, s: State, s1: State, c: string, items: seq<Item>)
    requires Weather.AlwaysCalm(w) && Weather.WorldOk(w) && Weather.Wf(s) && c in s.classes && Weather.OnlyRead(s, s1)
    requires var names := Requests.NamesOf(items);
             && names == Names.SortedNames(Kube.Labelled(s, c)) && Requests.Distinct(names)
             && forall n <- names :: n in s.namespaces
    ensures Reconciled(w, s, ReconcileEach(w, s1, c, s.classes[c].spec, items), c)
  {
    ReadIsWf(s, s1);
    SweepOf(w, s1, c, items);
    SweptMembers(w, s, s1, ReconcileEach(w, s1, c, s.classes[c].spec, items), c, Requests.NamesOf(items));
  }

  lemma ReadIsWf(s: State, t: State)
    requires Weather.Wf(s) && Weather.OnlyRead(s, t)
    ensures Weather.Wf(t)
  {}

  lemma SweepOf(w: World, s: State, c: string, items: seq<Item>)
    requires Weather.Steady(w) && Weather.WorldOk(w) && Weather.Wf(s) && c in s.classes
    requires Requests.Distinct(Requests.NamesOf(items)) && forall n <- Requests.NamesOf(items) :: n in s.namespaces
    requires Weather.Up(w, ReconcileEach(w, s, c, s.classes[c].spec, items))
    ensures var t, names := ReconcileEach(w, s, c, s.classes[c].spec, items), Requests.NamesOf(items);
            && Weather.Wf(t) && Requests.SweepFrame(s, t, c, names)
            && Requests.SweepViews(w, s, t, c, names) && Requests.SweepRecords(w, s, t, c, names)
  {
    Requests.SweepIs(w, s, c, items);
  }

  /** Without refusals a request on a terminating class passes if and only if none of its settled
      live members holds an object of the class of a kind that two discovered types bring, and, with
      an own finalizer entry to take off, no member has recorded a switch and other entries keep the
      class there for the refresh. */
  lemma TerminatingPassesIff(w: World, s: State, c: string)
    requires Weather.AlwaysCalm(w) && Weather.WorldOk(w) && Weather.Wf(s) && c in s.classes && s.classes[c].deleting
    ensures Request(w, s, c).value.Pass? <==>
            && (forall n | Release.LiveMember(s, n, c) ::
                  CleanView(w, Settle(w, ViewNs(s.namespaces[n]), c, s.classes[c].spec, s.classes.Keys), c))
            && (Ours in s.classes[c].finalizers ==>
                  !Termination.SomeRecorded(w, ViewOf(s), c) && |s.classes[c].finalizers| > 1)
  {
    var t, nc := AfterMembers(w, s, c), s.classes[c];
    MembersAfter(w, s, c);
    CleanAfterSettling(w, s, t, c);
    CleanupPassesIff(w, t, c, nc);
    ClassLeft(w, t, c, nc);
    TerminatingOutcome(w, s, c);
    RefreshOutcome(w, HandleCleanup(w, t, c, nc).state, c);
  }

  // ---------- What it leaves, field by field ----------

  /** One member after a failure-free terminating request: it went through its reconcile, and if it
      is live it has lost its last applied class, no other annotation, and of its settled objects
      exactly those of the class whose kind can be swept. */
  lemma TerminatedFields(w: World, s: State, c: string, n: string)
    requires Weather.AlwaysCalm(w) && Weather.WorldOk(w) && Weather.Wf(s) && c in s.classes && s.classes[c].deleting
    requires Release.LiveMember(s, n, c)
    ensures var t, before := Request(w, s, c).state, ViewNs(s.namespaces[n]);
            var settled := Settle(w, before, c, s.classes[c].spec, s.classes.Keys);
            && n in t.namespaces
            && var after := ViewNs(t.namespaces[n]);
               && after == before.(annotations := after.annotations, objects := after.objects)
               && LastApplied !in after.annotations && Lookup(after.annotations, AnnotationKey.Current) == c
               && after.annotations - {LastApplied, AnnotationKey.Current}
                  == before.annotations - {LastApplied, AnnotationKey.Current}
               && (forall id <- after.objects :: id in settled.objects && after.objects[id] == settled.objects[id])
               && (forall id <- settled.objects :: id in after.objects <==>
                     !(OwnerOf(settled.objects[id]) == c && Fields.CanSweep(w, id.group, id.kind)))
  {
    var t, before := Request(w, s, c).state, ViewNs(s.namespaces[n]);
    var settled := Settle(w, before, c, s.classes[c].spec, s.classes.Keys);
    TerminatedView(w, s, c, n);
    Fields.SettledAnnotationsAre(before, c);
    FinalizedFields(w, settled, c);
    WithoutLast(before.annotations, settled.annotations, c);
  }

  lemma WithoutLast(before: Annotations, settled: Annotations, c: string)
    requires Fields.AnnotationsAfter(before, settled, c)
    ensures var after := settled - {LastApplied};
            && LastApplied !in after && Lookup(after, AnnotationKey.Current) == c
            && after - {LastApplied, AnnotationKey.Current} == before - {LastApplied, AnnotationKey.Current}
  {
    assert settled - {LastApplied} - {LastApplied, AnnotationKey.Current}
        == settled - {LastApplied, AnnotationKey.Current};
  }

  lemma TerminatedView(w: World, s: State, c: string, n: string)
    requires Weather.AlwaysCalm(w) && Weather.WorldOk(w) && Weather.Wf(s) && c in s.classes && s.classes[c].deleting
    requires Release.LiveMember(s, n, c)
    ensures var t := Request(w, s, c).state;
            && n in t.namespaces
            && ViewNs(t.namespaces[n])
               == Termination.Finalized(w,
                 Settle(w, ViewNs(s.namespaces[n]), c, s.classes[c].spec, s.classes.Keys), c)
  {
    var status := Termination.TerminatingRequestIs(w, s, c);
    MemberView(s, Request(w, s, c).state, c, n, Termination.TerminatedNamespaces(w, ViewOf(s), c));
    assert ViewOf(s).classes[c] == ViewClass(s.classes[c]) && ViewOf(s).classes.Keys == s.classes.Keys;
  }

  lemma MemberView(s: State, t: State, c: string, n: string, namespaces: map<string, NsView>)
    requires n in s.namespaces && ViewOf(t).namespaces == namespaces && n in namespaces
    ensures n in t.namespaces && ViewNs(t.namespaces[n]) == namespaces[n]
    ensures n in ViewOf(s).namespaces && ViewOf(s).namespaces[n] == ViewNs(s.namespaces[n])
  {
    assert n in ViewOf(t).namespaces;
  }

  lemma FinalizedFields(w: World, v: NsView, c: string)
    requires !v.deleting
    ensures var x := Termination.Finalized(w, v, c);
            && x == v.(annotations := v.annotations - {LastApplied}, objects := x.objects)
            && (forall id <- x.objects :: id in v.objects && x.objects[id] == v.objects[id])
            && (forall id <- v.objects :: id in x.objects <==>
                  !(OwnerOf(v.objects[id]) == c && Fields.CanSweep(w, id.group, id.kind)))
  {
    forall id: ObjectId { Fields.ListedFields(w, id.group, id.kind); }
  }
}
