/** Requests on a terminating class: what they leave, and why two are enough. */
module Termination {
  import opened Names
  import opened Kube
  import opened Controller
  import opened Weather
  import opened Ideal
  import opened Refinement
  import opened Requests
  import Statuses
  import Finalizer

  // ---------- The ideal terminating request ----------

  ghost predicate Wiped(w: World, c: string, id: ObjectId, obj: Object) {
    OwnerOf(obj) == c && Listed(w, ByWatch, w.discovery, id.group, id.kind)
  }

  /** A live member loses what the class owns there, and its last-applied annotation. */
  ghost function Finalized(w: World, v: NsView, c: string): NsView {
    if v.deleting then v else
    v.(annotations := v.annotations - {LastApplied},
       objects := map id | id in v.objects && !Wiped(w, c, id, v.objects[id]) :: v.objects[id])
  }

  /** Some member, on its way through, records a switch in the status of the class. */
  ghost predicate SomeRecorded(w: World, v: View, c: string)
    requires c in v.classes
  {
    exists n <- Members(v, c) :: Recorded(w, v.namespaces[n], c, v.classes[c].spec)
  }

  ghost function TerminatedNamespaces(w: World, v: View, c: string): map<string, NsView>
    requires c in v.classes
  {
    map n | n in v.namespaces ::
      if v.namespaces[n].classLabel == c
      then Finalized(w, Settle(w, v.namespaces[n], c, v.classes[c].spec, v.classes.Keys), c) else v.namespaces[n]
  }

  /** The class after the request: unchanged on a conflict, else without its own finalizer,
      and gone when no finalizer is left. */
  function TerminatedClasses(classes: map<string, ClassView>, c: string, conflict: bool,
                             status: Statuses.StatusMap): map<string, ClassView>
    requires c in classes
  {
    var nc := classes[c];
    var finalizers := if conflict then nc.finalizers else Finalizer.WithoutOurs(nc.finalizers);
    if Ours in nc.finalizers && finalizers == [] then classes - {c}
    else classes[c := nc.(finalizers := finalizers, status := status)]
  }

  ghost function IdealTerminate(w: World, v: View, c: string, status: Statuses.StatusMap): View
    requires c in v.classes
  {
    View(TerminatedNamespaces(w, v, c), TerminatedClasses(v.classes, c, SomeRecorded(w, v, c), status))
  }

  // ---------- Finalizing the members ----------

  /** t differs from s in namespace n alone. */
  ghost predicate OnlyNamespace(s: State, t: State, n: string) {
    && s.clock <= t.clock && t.classes == s.classes && t.pending == s.pending
    && t.namespaces.Keys == s.namespaces.Keys
    && (forall m <- s.namespaces | m != n :: t.namespaces[m] == s.namespaces[m])
  }

  lemma WipeIs(w: World, s: State, n: string, c: string, errs: seq<Error>)
    requires AlwaysCalm(w) && WorldOk(w) && Wf(s) && n in s.namespaces
    ensures var found := Finalizer.Labelled(w, s, n, c);
            OnlyObjects(s, Finalizer.DeleteFound(w, found.state, n, found.value, errs).state, n)
    ensures var found := Finalizer.Labelled(w, s, n, c);
            var t := Finalizer.DeleteFound(w, found.state, n, found.value, errs).state;
            var before := Contents(s.namespaces[n].objects);
            && Wf(t)
            && Contents(t.namespaces[n].objects) == map id | id in before && !Wiped(w, c, id, before[id]) :: before[id]
  {
    var found := Finalizer.Labelled(w, s, n, c);
    LabelledIsComplete(w, s, n, c);
    DeleteFoundIs(w, found.state, n, found.value, errs);
    forall id | id in s.namespaces[n].objects
      ensures Reported(w, id, found.value) <==> Wiped(w, c, id, s.namespaces[n].objects[id].obj) {
      assert Wiped(w, c, id, s.namespaces[n].objects[id].obj) <==> InLists(w, s, n, c, ByWatch, w.discovery, id);
    }
    WipeLeaves(w, s, Finalizer.DeleteFound(w, found.state, n, found.value, errs).state, n, c, found.value);
  }

  lemma WipeLeaves(w: World, s: State, t: State, n: string, c: string, found: seq<Finalizer.Found>)
    requires Wf(s) && n in s.namespaces && OnlyObjects(s, t, n) && Fewer(s, t, n)
    requires forall id <- s.namespaces[n].objects :: id in t.namespaces[n].objects <==> !Reported(w, id, found)
    requires forall id <- s.namespaces[n].objects ::
               Reported(w, id, found) <==> Wiped(w, c, id, s.namespaces[n].objects[id].obj)
    ensures var before := Contents(s.namespaces[n].objects);
            && Wf(t)
            && Contents(t.namespaces[n].objects) == map id | id in before && !Wiped(w, c, id, before[id]) :: before[id]
  {
    FewerIsWf(s, t, n);
    WipedContents(w, s.namespaces[n].objects, t.namespaces[n].objects, c);
  }

  lemma WipedContents(w: World, before: map<ObjectId, Stored>, after: map<ObjectId, Stored>, c: string)
    requires forall id <- after :: id in before && after[id] == before[id]
    requires forall id <- before :: id in after <==> !Wiped(w, c, id, before[id].obj)
    ensures Contents(after) == map id | id in Contents(before) && !Wiped(w, c, id, Contents(before)[id]) ::
                                 Contents(before)[id]
  {}

  lemma FinalizeNamespaceIs(w: World, s: State, c: string, item: Item, errs: seq<Error>)
    requires AlwaysCalm(w) && WorldOk(w) && Wf(s) && item.name in s.namespaces
    requires item.meta.deleting == s.namespaces[item.name].meta.deleting
    ensures var n, t := item.name, Finalizer.FinalizeNamespace(w, s, c, item, errs).state;
            && OnlyNamespace(s, t, n) && Wf(t)
            && ViewNs(t.namespaces[n]) == Finalized(w, ViewNs(s.namespaces[n]), c)
  {
    if !item.meta.deleting {
      var n := item.name;
      var found := Finalizer.Labelled(w, s, n, c);
      WipeIs(w, s, n, c, errs);
      var deleted := Finalizer.DeleteFound(w, found.state, n, found.value, errs);
      MemberFinalized(w, s, c, n, deleted);
      assert Finalizer.FinalizeNamespace(w, s, c, item, errs).state == Forgotten(w, deleted.state, n);
    }
  }

  /** The end of a member's finalization: forget the last applied class. */
  function Forgotten(w: World, s: State, n: string): State {
    var ns := GetNamespace(w, s, n);
    if ns.value.Err? || ns.value.value.annotations == map[] then ns.state else
    var meta := ns.value.value;
    UpdateNamespace(w, ns.state, n, meta.(annotations := meta.annotations - {LastApplied})).state
  }

  lemma MemberFinalized(w: World, s: State, c: string, n: string, deleted: Reply<seq<Error>>)
    requires AlwaysCalm(w) && n in s.namespaces && !s.namespaces[n].meta.deleting
    requires OnlyObjects(s, deleted.state, n) && Wf(deleted.state)
    requires var before := Contents(s.namespaces[n].objects);
             Contents(deleted.state.namespaces[n].objects) == map id | id in before
               && !Wiped(w, c, id, before[id]) :: before[id]
    ensures var t := Forgotten(w, deleted.state, n);
            OnlyNamespace(s, t, n) && Wf(t) && ViewNs(t.namespaces[n]) == Finalized(w, ViewNs(s.namespaces[n]), c)
  {
    var u := deleted.state;
    ForgottenIs(w, s, u, n);
    assert ViewNs(u.namespaces[n]) == ViewNs(s.namespaces[n]).(objects := Contents(u.namespaces[n].objects));
    FinalizedView(w, ViewNs(s.namespaces[n]), ViewNs(Forgotten(w, u, n).namespaces[n]), c);
  }

  lemma ForgottenIs(w: World, s: State, u: State, n: string)
    requires AlwaysCalm(w) && n in s.namespaces && OnlyObjects(s, u, n) && Wf(u)
    ensures var t := Forgotten(w, u, n);
            && Wf(t) && OnlyNamespace(s, t, n)
            && ViewNs(t.namespaces[n])
               == ViewNs(u.namespaces[n]).(annotations := u.namespaces[n].meta.annotations - {LastApplied})
  {
    FinalizeAnnotations(w, s, u, n);
    ForgottenCases(w, u, n);
    assert u.namespaces[n].meta.annotations == map[] ==> u.namespaces[n].meta.annotations - {LastApplied} == map[];
  }

  lemma ForgottenCases(w: World, u: State, n: string)
    requires AlwaysCalm(w) && n in u.namespaces
    ensures var ns, meta := GetNamespace(w, u, n), u.namespaces[n].meta;
            Forgotten(w, u, n) ==
            if meta.annotations == map[] then ns.state
            else UpdateNamespace(w, ns.state, n, meta.(annotations := meta.annotations - {LastApplied})).state
  {}

  lemma FinalizedView(w: World, v: NsView, x: NsView, c: string)
    requires !v.deleting && x == v.(annotations := v.annotations - {LastApplied}, objects := x.objects)
    requires x.objects == map id | id in v.objects && !Wiped(w, c, id, v.objects[id]) :: v.objects[id]
    ensures x == Finalized(w, v, c)
  {}

  lemma FinalizeAnnotations(w: World, s: State, u: State, n: string)
    requires AlwaysCalm(w) && n in s.namespaces && OnlyObjects(s, u, n) && Wf(u)
    ensures var ns := GetNamespace(w, u, n);
            && ns.value == Ok(u.namespaces[n].meta) && Wf(ns.state) && OnlyNamespace(s, ns.state, n)
            && ns.state.namespaces[n] == u.namespaces[n]
            && var meta := ns.value.value;
               var r := UpdateNamespace(w, ns.state, n, meta.(annotations := meta.annotations - {LastApplied}));
               && r.value.Pass? && Wf(r.state) && OnlyNamespace(s, r.state, n)
               && ViewNs(r.state.namespaces[n])
                  == ViewNs(u.namespaces[n]).(annotations := meta.annotations - {LastApplied})
  {}

  /** t differs from s in the named namespaces, each of which is finalized. */
  ghost predicate AllFinalized(w: World, s: State, t: State, c: string, names: seq<string>) {
    && s.clock <= t.clock && Wf(t) && t.classes == s.classes && t.pending == s.pending
    && t.namespaces.Keys == s.namespaces.Keys
    && (forall n <- s.namespaces | n !in names :: t.namespaces[n] == s.namespaces[n])
    && (forall n <- s.namespaces | n in names :: ViewNs(t.namespaces[n]) == Finalized(w, ViewNs(s.namespaces[n]), c))
  }

  lemma AllFinalizedStep(w: World, s: State, r: State, t: State, c: string, n: string, rest: seq<string>)
    requires n in s.namespaces && n !in rest && OnlyNamespace(s, r, n)
    requires ViewNs(r.namespaces[n]) == Finalized(w, ViewNs(s.namespaces[n]), c)
    requires AllFinalized(w, r, t, c, rest)
    ensures AllFinalized(w, s, t, c, [n] + rest)
  {}

  lemma RestIsUntouched(s: State, r: State, items: seq<Item>)
    requires items != [] && items[0].name in s.namespaces && OnlyNamespace(s, r, items[0].name)
    requires items[0].name !in NamesOf(items[1..])
    requires forall i | 0 <= i < |items| ::
               items[i].name in s.namespaces && items[i].meta.deleting == s.namespaces[items[i].name].meta.deleting
    ensures forall i | 0 <= i < |items[1..]| ::
              items[1..][i].name in r.namespaces
                && items[1..][i].meta.deleting == r.namespaces[items[1..][i].name].meta.deleting
  {
    forall i | 0 <= i < |items[1..]| ensures items[1..][i].name != items[0].name {
      assert NamesOf(items[1..])[i] in NamesOf(items[1..]);
    }
  }

  lemma {:induction false} FinalizeEachIs(w: World, s: State, c: string, items: seq<Item>, errs: seq<Error>)
    requires AlwaysCalm(w) && WorldOk(w) && Wf(s) && Distinct(NamesOf(items))
    requires forall i | 0 <= i < |items| ::
               items[i].name in s.namespaces && items[i].meta.deleting == s.namespaces[items[i].name].meta.deleting
    ensures AllFinalized(w, s, Finalizer.FinalizeEach(w, s, c, items, errs).state, c, NamesOf(items))
    decreases |items|
  {
    if items != [] {
      var n, rest := items[0].name, NamesOf(items[1..]);
      FinalizeNamespaceIs(w, s, c, items[0], errs);
      var r := Finalizer.FinalizeNamespace(w, s, c, items[0], errs);
      NamesSplit(items);
      RestIsUntouched(s, r.state, items);
      FinalizeEachIs(w, r.state, c, items[1..], r.value);
      AllFinalizedStep(w, s, r.state, Finalizer.FinalizeEach(w, r.state, c, items[1..], r.value).state, c, n, rest);
    }
  }

  // ---------- The finalizer entry ----------

  /** The guarded update of the class: it goes through unless the class moved since it was read. */
  ghost predicate EntryRemoved(s: State, t: State, c: string, nc: Class)
    requires c in s.classes
  {
    && t.namespaces == s.namespaces && t.pending == s.pending && Wf(t)
    && if s.classes[c].version != nc.version then t.classes == s.classes
       else if Ours in nc.finalizers && Finalizer.WithoutOurs(nc.finalizers) == [] then t.classes == s.classes - {c}
       else t.classes.Keys == s.classes.Keys
            && (forall d <- s.classes | d != c :: t.classes[d] == s.classes[d])
            && ViewClass(t.classes[c]) == ViewClass(s.classes[c]).(finalizers := Finalizer.WithoutOurs(nc.finalizers))
  }

  lemma EntryCall(w: World, s: State, c: string, nc: Class)
    requires AlwaysCalm(w) && Wf(s) && c in s.classes && nc.deleting && Ours in nc.finalizers
    requires s.classes[c] == nc.(status := s.classes[c].status, version := s.classes[c].version)
    ensures EntryRemoved(s, UpdateClass(w, s, c, nc.(finalizers := Finalizer.WithoutOurs(nc.finalizers))).state, c, nc)
  {
    var u := nc.(finalizers := Finalizer.WithoutOurs(nc.finalizers));
    var t := s.(calls := s.calls + 1);
    EntryCases(w, s, c, u);
    if s.classes[c].version != nc.version {
      EntryConflict(s, t, c, nc);
    } else if u.finalizers == [] {
      EntryGone(s, t, c, nc);
    } else {
      EntryPut(t, c, u.(status := s.classes[c].status), s);
    }
  }

  lemma EntryConflict(s: State, t: State, c: string, nc: Class)
    requires Wf(s) && c in s.classes && OnlyRead(s, t) && s.classes[c].version != nc.version
    ensures EntryRemoved(s, t, c, nc)
  {}

  lemma EntryGone(s: State, t: State, c: string, nc: Class)
    requires Wf(s) && c in s.classes && OnlyRead(s, t) && s.classes[c].version == nc.version
    requires Ours in nc.finalizers && Finalizer.WithoutOurs(nc.finalizers) == []
    ensures EntryRemoved(s, t.(classes := t.classes - {c}, clock := t.clock + 1), c, nc)
  {}

  lemma EntryCases(w: World, s: State, c: string, u: Class)
    requires AlwaysCalm(w) && c in s.classes && u.deleting
    ensures var t := s.(calls := s.calls + 1);
            UpdateClass(w, s, c, u).state ==
            if s.classes[c].version != u.version then t
            else if u.finalizers == [] then t.(classes := t.classes - {c}, clock := t.clock + 1)
            else PutClass(t, c, u.(status := s.classes[c].status))
  {}

  lemma EntryPut(t: State, c: string, u: Class, s: State)
    requires Wf(s) && t == s.(calls := t.calls) && c in s.classes && u.status == s.classes[c].status
    requires u == s.classes[c].(finalizers := u.finalizers, version := u.version)
    ensures var r := PutClass(t, c, u);
            && r.namespaces == s.namespaces && r.pending == s.pending && Wf(r)
            && r.classes.Keys == s.classes.Keys
            && (forall d <- s.classes | d != c :: r.classes[d] == s.classes[d])
            && ViewClass(r.classes[c]) == ViewClass(s.classes[c]).(finalizers := u.finalizers)
  {}

  ghost predicate Cleaned(w: World, s: State, t: State, c: string, nc: Class)
    requires c in s.classes
  {
    exists u: State :: AllFinalized(w, s, u, c, SortedNames(Labelled(s, c))) && EntryRemoved(u, t, c, nc)
  }

  lemma CleanupIs(w: World, s: State, c: string, nc: Class)
    requires AlwaysCalm(w) && WorldOk(w) && Wf(s) && c in s.classes && nc.deleting
    requires s.classes[c] == nc.(status := s.classes[c].status, version := s.classes[c].version)
    ensures Cleaned(w, s, Finalizer.HandleCleanup(w, s, c, nc).state, c, nc)
  {
    var items := ListNamespaces(w, s, c);
    MembersFinalized(w, s, c);
    CleanupEnds(w, s, Finalizer.FinalizeEach(w, items.state, c, items.value.value, []).state, c, nc);
  }

  lemma MembersFinalized(w: World, s: State, c: string)
    requires AlwaysCalm(w) && WorldOk(w) && Wf(s)
    ensures var items := ListNamespaces(w, s, c);
            items.value.Ok? && AllFinalized(w, s,
              Finalizer.FinalizeEach(w, items.state, c, items.value.value, []).state, c,
                                            SortedNames(Labelled(s, c)))
  {
    MembersAreListed(w, s, c);
    var items := ListNamespaces(w, s, c);
    var t := Finalizer.FinalizeEach(w, items.state, c, items.value.value, []).state;
    assert Wf(items.state);
    FinalizeEachIs(w, items.state, c, items.value.value, []);
    FinalizedAfterRead(w, s, items.state, t, c, SortedNames(Labelled(s, c)));
  }

  lemma FinalizedAfterRead(w: World, s: State, s1: State, t: State, c: string, names: seq<string>)
    requires OnlyRead(s, s1) && AllFinalized(w, s1, t, c, names)
    ensures AllFinalized(w, s, t, c, names)
  {}

  lemma CleanupEnds(w: World, s: State, u: State, c: string, nc: Class)
    requires AlwaysCalm(w) && c in s.classes && nc.deleting
    requires s.classes[c] == nc.(status := s.classes[c].status, version := s.classes[c].version)
    requires AllFinalized(w, s, u, c, SortedNames(Labelled(s, c)))
    ensures Cleaned(w, s, if Ours in nc.finalizers
                          then UpdateClass(w, u, c, nc.(finalizers := Finalizer.WithoutOurs(nc.finalizers))).state
                          else u, c, nc)
  {
    if Ours in nc.finalizers {
      EntryCall(w, u, c, nc);
    }
  }

  // ---------- The whole request ----------

  lemma TerminateNamespaces(w: World, s: State, t1: State, t: State, c: string)
    requires c in s.classes && t.namespaces.Keys == t1.namespaces.Keys == s.namespaces.Keys
    requires forall n <- s.namespaces ::
               if s.namespaces[n].meta.classLabel == c
               then && ViewNs(t1.namespaces[n])
                 == Settle(w, ViewNs(s.namespaces[n]), c, s.classes[c].spec, s.classes.Keys)
                    && ViewNs(t.namespaces[n]) == Finalized(w, ViewNs(t1.namespaces[n]), c)
               else t.namespaces[n] == s.namespaces[n]
    ensures c in ViewOf(s).classes && ViewOf(t).namespaces == TerminatedNamespaces(w, ViewOf(s), c)
  {
    var v := ViewOf(s);
    assert v.classes.Keys == s.classes.Keys && v.classes[c] == ViewClass(s.classes[c]);
    NamespaceViews(t, TerminatedNamespaces(w, v, c));
  }

  /** The classes after the request, whatever became of the status of c. */
  ghost predicate ClassesAfter(s: State, t: State, c: string, conflict: bool)
    requires c in s.classes
  {
    var nc := s.classes[c];
    var finalizers := if conflict then nc.finalizers else Finalizer.WithoutOurs(nc.finalizers);
    if Ours in nc.finalizers && finalizers == [] then t.classes == s.classes - {c}
    else && t.classes.Keys == s.classes.Keys
         && (forall d <- s.classes | d != c :: t.classes[d] == s.classes[d])
         && ViewClass(t.classes[c])
            == ViewClass(nc).(finalizers := finalizers, status := ViewClass(t.classes[c]).status)
  }

  lemma ClassGone(s: State, t: State, c: string)
    requires t.classes == s.classes - {c}
    ensures ViewOf(t).classes == ViewOf(s).classes - {c}
  {}

  lemma ClassPut(s: State, t: State, c: string)
    requires c in s.classes && t.classes.Keys == s.classes.Keys
    requires forall d <- s.classes | d != c :: t.classes[d] == s.classes[d]
    ensures ViewOf(t).classes == ViewOf(s).classes[c := ViewClass(t.classes[c])]
  {
    ClassViews(t, ViewOf(s).classes[c := ViewClass(t.classes[c])]);
  }

  lemma TerminateClasses(s: State, t: State, c: string, status: Statuses.StatusMap, conflict: bool)
    requires c in s.classes && ClassesAfter(s, t, c, conflict)
    requires c in t.classes ==> status == ViewClass(t.classes[c]).status
    ensures c in ViewOf(s).classes && ViewOf(t).classes == TerminatedClasses(ViewOf(s).classes, c, conflict, status)
  {
    assert ViewOf(s).classes[c] == ViewClass(s.classes[c]);
    if c !in t.classes {
      ClassGone(s, t, c);
    } else {
      ClassPut(s, t, c);
    }
  }

  lemma SomeOrNone(w: World, s: State, c: string, names: seq<string>)
    requires c in s.classes && forall n :: n in names <==> n in Labelled(s, c)
    ensures SomeRecorded(w, ViewOf(s), c) <==> !NoneRecorded(w, s, c, names)
  {
    assert Labelled(s, c) == Members(ViewOf(s), c);
    if SomeRecorded(w, ViewOf(s), c) {
      var n :| n in Members(ViewOf(s), c) && Recorded(w, ViewOf(s).namespaces[n], c, ViewOf(s).classes[c].spec);
      assert n in names;
    }
    if !NoneRecorded(w, s, c, names) {
      var n :| n in names && Recorded(w, ViewNs(s.namespaces[n]), c, s.classes[c].spec);
      assert n in Members(ViewOf(s), c) && ViewOf(s).namespaces[n] == ViewNs(s.namespaces[n]);
    }
  }

  /** t2 is the state after the cleanup; the request may end there, or refresh the status. */
  lemma RequestCases(w: World, s: State, c: string)
    requires AlwaysCalm(w) && c in s.classes && s.classes[c].deleting
    ensures var nc := s.classes[c];
            var items := ListNamespaces(w, GetClass(w, s, c).state, c);
            var t1 := ReconcileEach(w, items.state, c, nc.spec, items.value.value);
            var t2 := Finalizer.HandleCleanup(w, t1, c, nc);
            Request(w, s, c).state == if t2.value.Fail? then t2.state else Statuses.Refresh(w, t2.state, c).state
  {}

  lemma AfterCleanup(w: World, t2: Reply<Outcome>, c: string)
    requires AlwaysCalm(w) && Wf(t2.state)
    ensures var t := if t2.value.Fail? then t2.state else Statuses.Refresh(w, t2.state, c).state;
            && Wf(t) && t.namespaces == t2.state.namespaces && t.pending == t2.state.pending
            && t.classes.Keys == t2.state.classes.Keys
            && (forall d <- t.classes | d != c :: t.classes[d] == t2.state.classes[d])
            && (c in t.classes ==>
                  ViewClass(t.classes[c]) == ViewClass(t2.state.classes[c]).(status := ViewClass(t.classes[c]).status))
  {
    if c in t2.state.classes {
      RefreshIs(w, t2.state, c);
    }
  }

  /** Without failures, a request on a terminating class does exactly what the ideal one says. */
  lemma TerminatingRequestIs(w: World, s: State, c: string) returns (status: Statuses.StatusMap)
    requires AlwaysCalm(w) && WorldOk(w) && Wf(s) && c in s.classes && s.classes[c].deleting
    ensures var t := Request(w, s, c).state;
            && Wf(t) && ViewOf(t) == IdealTerminate(w, ViewOf(s), c, status)
            && t.pending == s.pending + Backlogs(s, c, SortedNames(Labelled(s, c)))
  {
    var nc := s.classes[c];
    var u := GetClass(w, s, c).state;
    MembersAreListed(w, u, c);
    var items := ListNamespaces(w, u, c);
    var names := NamesOf(items.value.value);
    SweepIs(w, items.state, c, items.value.value);
    var t1 := ReconcileEach(w, items.state, c, nc.spec, items.value.value);
    CleanupIs(w, t1, c, nc);
    var t2 := Finalizer.HandleCleanup(w, t1, c, nc);
    AfterCleanup(w, t2, c);
    RequestCases(w, s, c);
    status := TerminatingEnds(w, s, items.state, t1, t2.state, Request(w, s, c).state, c, names);
  }

  lemma ConflictIffRecorded(w: World, s: State, s1: State, t1: State, c: string, names: seq<string>)
    requires c in s.classes && OnlyRead(s, s1) && c in t1.classes
    requires names == SortedNames(Labelled(s, c))
    requires t1.classes[c].version == s1.classes[c].version <==> NoneRecorded(w, s1, c, names)
    ensures SomeRecorded(w, ViewOf(s), c) <==> t1.classes[c].version != s.classes[c].version
  {
    SomeOrNone(w, s, c, names);
    assert NoneRecorded(w, s1, c, names) <==> NoneRecorded(w, s, c, names);
  }

  lemma TerminatingEnds(w: World, s: State, s1: State, t1: State, t2: State, t: State, c: string, names: seq<string>)
    returns (status: Statuses.StatusMap)
    requires AlwaysCalm(w) && c in s.classes && s.classes[c].deleting && OnlyRead(s, s1)
    requires names == SortedNames(Labelled(s, c))
    requires SweepFrame(s1, t1, c, names) && SweepViews(w, s1, t1, c, names) && SweepRecords(w, s1, t1, c, names)
    requires Cleaned(w, t1, t2, c, s.classes[c])
    requires t.namespaces == t2.namespaces && t.pending == t2.pending && t.classes.Keys == t2.classes.Keys
    requires forall d <- t.classes | d != c :: t.classes[d] == t2.classes[d]
    requires c in t.classes ==>
               ViewClass(t.classes[c]) == ViewClass(t2.classes[c]).(status := ViewClass(t.classes[c]).status)
    ensures ViewOf(t) == IdealTerminate(w, ViewOf(s), c, status)
    ensures t.pending == s.pending + Backlogs(s, c, names)
  {
    var nc := s.classes[c];
    status := if c in t.classes then ViewClass(t.classes[c]).status else map[];
    assert Labelled(t1, c) == Labelled(s, c);
    var u: State :| AllFinalized(w, t1, u, c, SortedNames(Labelled(t1, c))) && EntryRemoved(u, t2, c, nc);
    assert t.pending == t1.pending;
    SweepLocal(w, s, s1, c, names, ViewClass(nc).status);
    ConflictIffRecorded(w, s, s1, t1, c, names);
    TerminatingClasses(s, t1, u, t2, t, c);
    TerminateClasses(s, t, c, status, SomeRecorded(w, ViewOf(s), c));
    TerminatingNamespaces(w, s, s1, t1, u, t, c, names);
  }

  lemma TerminatingNamespaces(w: World, s: State, s1: State, t1: State, u: State, t: State, c: string,
                              names: seq<string>)
    requires AlwaysCalm(w) && c in s.classes && OnlyRead(s, s1) && names == SortedNames(Labelled(s, c))
    requires SweepFrame(s1, t1, c, names) && SweepViews(w, s1, t1, c, names)
    requires AllFinalized(w, t1, u, c, names) && t.namespaces == u.namespaces
    ensures c in ViewOf(s).classes && ViewOf(t).namespaces == TerminatedNamespaces(w, ViewOf(s), c)
  {
    SettledMembers(w, s, s1, t1, c, names);
    forall n | n in s.namespaces && s.namespaces[n].meta.classLabel == c
      ensures ViewNs(t.namespaces[n]) == Finalized(w, ViewNs(t1.namespaces[n]), c) {
      assert n in names;
    }
    TerminateNamespaces(w, s, t1, t, c);
  }

  lemma TerminatingClasses(s: State, t1: State, u: State, t2: State, t: State, c: string)
    requires c in s.classes && t1.classes.Keys == s.classes.Keys && u.classes == t1.classes
    requires forall d <- s.classes | d != c :: t1.classes[d] == s.classes[d]
    requires t1.classes[c] == s.classes[c].(status := t1.classes[c].status, version := t1.classes[c].version)
    requires EntryRemoved(u, t2, c, s.classes[c])
    requires t.classes.Keys == t2.classes.Keys
    requires forall d <- t.classes | d != c :: t.classes[d] == t2.classes[d]
    requires c in t.classes ==>
               ViewClass(t.classes[c]) == ViewClass(t2.classes[c]).(status := ViewClass(t.classes[c]).status)
    ensures ClassesAfter(s, t, c, t1.classes[c].version != s.classes[c].version)
  {
    if c in t.classes {
      KeptClass(s, t1, t2, t, c);
    } else {
      assert t.classes == s.classes - {c};
    }
  }

  lemma KeptClass(s: State, t1: State, t2: State, t: State, c: string)
    requires c in s.classes && t1.classes.Keys == s.classes.Keys && c in t2.classes
    requires forall d <- s.classes | d != c :: t1.classes[d] == s.classes[d]
    requires t2.classes.Keys == t1.classes.Keys && forall d <- t1.classes | d != c :: t2.classes[d] == t1.classes[d]
    requires t.classes.Keys == t2.classes.Keys
    requires forall d <- t.classes | d != c :: t.classes[d] == t2.classes[d]
    ensures t.classes.Keys == s.classes.Keys && forall d <- s.classes | d != c :: t.classes[d] == s.classes[d]
  {}

  // ---------- Two requests finish ----------

  /** No live member holds an object the class owns, of any kind that discovery offers for watching. */
  ghost predicate Cleared(w: World, v: View, c: string) {
    forall n <- v.namespaces | v.namespaces[n].classLabel == c && !v.namespaces[n].deleting ::
      forall id <- v.namespaces[n].objects ::
        OwnerOf(v.namespaces[n].objects[id]) == c ==> !Listed(w, ByWatch, w.discovery, id.group, id.kind)
  }

  /** The class no longer waits for the controller. */
  ghost predicate Released(v: View, c: string) {
    c !in v.classes || Ours !in v.classes[c].finalizers
  }

  /** The first request clears every live member; it also releases the class, unless a
      member recorded a switch and so moved the class under the guarded update. */
  lemma FirstRequest(w: World, v: View, c: string, status: Statuses.StatusMap)
    requires c in v.classes && multiset(v.classes[c].finalizers)[Ours] == 1
    ensures var u := IdealTerminate(w, v, c, status);
            Cleared(w, u, c) && (Released(u, c) <==> !SomeRecorded(w, v, c))
  {
    var fs := v.classes[c].finalizers;
    assert Ours in multiset(fs);
    assert Ours !in multiset(Finalizer.WithoutOurs(fs));
  }

  /** After one terminating request no member can switch any more. */
  lemma NoSwitchLeft(w: World, v: View, c: string, status: Statuses.StatusMap)
    requires c != "" && c in v.classes && c in IdealTerminate(w, v, c, status).classes
    ensures !SomeRecorded(w, IdealTerminate(w, v, c, status), c)
  {
    var u, nc := IdealTerminate(w, v, c, status), v.classes[c];
    forall n | n in Members(u, c) ensures SwitchedFrom(u.namespaces[n], c) == "" {
      SettledIsSettled(v.namespaces[n], c);
    }
  }

  /** At most two requests take a terminating class's own finalizer entry away and clear its
      live members; the second is needed exactly when the first one recorded a switch. */
  lemma TwoRequestsFinish(w: World, s: State, c: string)
    requires AlwaysCalm(w) && WorldOk(w) && Wf(s) && c in s.classes && s.classes[c].deleting
    requires multiset(s.classes[c].finalizers)[Ours] == 1
    ensures var s1 := Request(w, s, c).state;
            && Cleared(w, ViewOf(s1), c)
            && (Released(ViewOf(s1), c) <==> !SomeRecorded(w, ViewOf(s), c))
            && (!Released(ViewOf(s1), c) ==>
                  var s2 := Request(w, s1, c).state; Cleared(w, ViewOf(s2), c) && Released(ViewOf(s2), c))
  {
    var status := TerminatingRequestIs(w, s, c);
    FirstRequest(w, ViewOf(s), c, status);
    if !Released(ViewOf(Request(w, s, c).state), c) {
      SecondRequest(w, s, Request(w, s, c).state, c, status);
    }
  }

  lemma SecondRequest(w: World, s: State, s1: State, c: string, status: Statuses.StatusMap)
    requires AlwaysCalm(w) && WorldOk(w) && Wf(s) && c in s.classes && s.classes[c].deleting
    requires multiset(s.classes[c].finalizers)[Ours] == 1
    requires Wf(s1) && ViewOf(s1) == IdealTerminate(w, ViewOf(s), c, status)
    requires !Released(ViewOf(s1), c)
    ensures var s2 := Request(w, s1, c).state; Cleared(w, ViewOf(s2), c) && Released(ViewOf(s2), c)
  {
    assert c in ViewOf(s1).classes;
    NoSwitchLeft(w, ViewOf(s), c, status);
    FirstRequest(w, ViewOf(s), c, status);
    assert ViewOf(s1).classes[c] == ViewClass(s1.classes[c]);
    assert s1.classes[c].finalizers == s.classes[c].finalizers && s1.classes[c].deleting;
    var status' := TerminatingRequestIs(w, s1, c);
    FirstRequest(w, ViewOf(s1), c, status');
  }
}
