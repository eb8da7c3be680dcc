/** Whole requests: a reconcile of a namespace, or of a class with all its namespaces. */
module Requests {
  import opened Names
  import opened Kube
  import opened Controller
  import opened Weather
  import opened Ideal
  import opened Refinement
  import Statuses

  // ---------- The ideal requests ----------

  function Members(v: View, c: string): set<string> {
    set n | n in v.namespaces && v.namespaces[n].classLabel == c
  }

  function LastOf(status: Statuses.StatusMap, n: string): string {
    if n in status then status[n].lastAppliedClass else ""
  }

  /** The status entry of a member after a class reconcile. */
  function MemberEntry(w: World, ns: NsView, n: string, c: string, spec: seq<RawResource>,
                       status: Statuses.StatusMap): StatusEntry {
    StatusEntry(n, c, if Recorded(w, ns, c, spec) then SwitchedFrom(ns, c) else LastOf(status, n), "Applied")
  }

  /** Every member settles, and the status lists exactly the members. */
  ghost function IdealClass(w: World, v: View, c: string): View
    requires c in v.classes
  {
    var nc := v.classes[c];
    View(map n | n in v.namespaces ::
           if v.namespaces[n].classLabel == c then Settle(w, v.namespaces[n], c, nc.spec, v.classes.Keys)
             else v.namespaces[n],
         v.classes[c := nc.(status := map n | n in Members(v, c) ::
                                        MemberEntry(w, v.namespaces[n], n, c, nc.spec, nc.status))])
  }

  /** A live namespace whose label names an existing class. */
  predicate Governed(v: View, n: string) {
    n in v.namespaces && !v.namespaces[n].deleting && v.namespaces[n].classLabel != ""
      && v.namespaces[n].classLabel in v.classes
  }

  ghost function IdealNamespace(w: World, v: View, n: string): View {
    if !Governed(v, n) then v else
    var ns := v.namespaces[n];
    var c := ns.classLabel;
    var nc := v.classes[c];
    View(v.namespaces[n := Settle(w, ns, c, nc.spec, v.classes.Keys)],
         v.classes[c := nc.(status := RecordedStatus(w, ns, n, c, nc.spec, nc.status))])
  }

  /** A request names a class or else a namespace; this is its meaning unless the class is terminating. */
  ghost function IdealRequest(w: World, v: View, name: string): View {
    if name in v.classes then IdealClass(w, v, name) else IdealNamespace(w, v, name)
  }

  // ---------- The loop over the members ----------

  ghost function LoopStatus(w: World, s: State, c: string, names: seq<string>,
                            status: Statuses.StatusMap): Statuses.StatusMap
    requires c in s.classes && forall n <- names :: n in s.namespaces
  {
    if names == [] then status
    else LoopStatus(w, s, c, names[1..],
      RecordedStatus(w, ViewNs(s.namespaces[names[0]]), names[0], c, s.classes[c].spec, status))
  }

  ghost function Backlogs(s: State, c: string, names: seq<string>): seq<string>
    requires forall n <- names :: n in s.namespaces
  {
    if names == [] then [] else Backlog(ViewNs(s.namespaces[names[0]]), c) + Backlogs(s, c, names[1..])
  }

  ghost predicate NoneRecorded(w: World, s: State, c: string, names: seq<string>)
    requires c in s.classes && forall n <- names :: n in s.namespaces
  {
    forall n <- names :: !Recorded(w, ViewNs(s.namespaces[n]), c, s.classes[c].spec)
  }

  ghost predicate Distinct(names: seq<string>) {
    forall i, j | 0 <= i < j < |names| :: names[i] != names[j]
  }

  /** What can differ after reconciling the named namespaces with class c. */
  ghost predicate SweepFrame(s: State, t: State, c: string, names: seq<string>) {
    && s.calls <= t.calls && s.clock <= t.clock
    && t.namespaces.Keys == s.namespaces.Keys && t.classes.Keys == s.classes.Keys
    && (forall n <- s.namespaces | n !in names :: t.namespaces[n] == s.namespaces[n])
    && (forall n <- s.namespaces :: t.namespaces[n].meta.classLabel == s.namespaces[n].meta.classLabel
                                    && t.namespaces[n].meta.deleting == s.namespaces[n].meta.deleting)
    && (forall d <- s.classes | d != c :: t.classes[d] == s.classes[d])
    && c in s.classes
    && t.classes[c] == s.classes[c].(status := t.classes[c].status, version := t.classes[c].version)
    && s.classes[c].version <= t.classes[c].version
  }

  ghost predicate SweepViews(w: World, s: State, t: State, c: string, names: seq<string>)
    requires SweepFrame(s, t, c, names) && forall n <- names :: n in s.namespaces
  {
    forall n <- names ::
      var v, x := ViewNs(s.namespaces[n]), ViewNs(t.namespaces[n]);
      && Interrupted(w, v, x, c, s.classes[c].spec, s.classes.Keys)
      && (Up(w, t) ==> x == Settle(w, v, c, s.classes[c].spec, s.classes.Keys))
  }

  ghost predicate SweepRecords(w: World, s: State, t: State, c: string, names: seq<string>)
    requires SweepFrame(s, t, c, names) && forall n <- names :: n in s.namespaces
  {
    && ViewClass(t.classes[c]).status == LoopStatus(w, s, c, names, ViewClass(s.classes[c]).status)
    && (t.classes[c].version == s.classes[c].version <==> NoneRecorded(w, s, c, names))
    && t.pending == s.pending + Backlogs(s, c, names)
  }

  function NamesOf(items: seq<Item>): (r: seq<string>)
    ensures |r| == |items| && forall i | 0 <= i < |items| :: r[i] == items[i].name
  {
    if items == [] then [] else [items[0].name] + NamesOf(items[1..])
  }

  /** LoopStatus, Backlogs and NoneRecorded depend on the named namespaces only. */
  lemma {:induction false} SweepLocal(w: World, s: State, r: State, c: string, names: seq<string>,
                                      status: Statuses.StatusMap)
    requires c in s.classes && c in r.classes && r.classes[c].spec == s.classes[c].spec
    requires forall n <- names :: n in s.namespaces && n in r.namespaces && r.namespaces[n] == s.namespaces[n]
    ensures LoopStatus(w, r, c, names, status) == LoopStatus(w, s, c, names, status)
    ensures Backlogs(r, c, names) == Backlogs(s, c, names)
    decreases |names|
  {
    if names != [] {
      SweepLocal(w, s, r, c, names[1..],
        RecordedStatus(w, ViewNs(s.namespaces[names[0]]), names[0], c, s.classes[c].spec, status));
    }
  }

  lemma NamesSplit(items: seq<Item>)
    requires items != [] && Distinct(NamesOf(items))
    ensures var n, rest := items[0].name, NamesOf(items[1..]);
            && NamesOf(items) == [n] + rest && n !in rest && Distinct(rest)
            && forall m :: m in NamesOf(items) <==> m == n || m in rest
  {
    var n, rest := items[0].name, NamesOf(items[1..]);
    assert NamesOf(items) == [n] + rest;
    forall i | 0 <= i < |rest| ensures rest[i] == NamesOf(items)[i + 1] {}
  }

  /** After one reconcile the rest of the sweep starts from what it would have started from. */
  lemma SweepNext(w: World, s: State, r: Reply<Outcome>, n: string, c: string, rest: seq<string>)
    requires c in s.classes && n in s.namespaces && ReconcileIs(w, s, n, c, r)
    requires forall m <- rest :: m in s.namespaces && m != n
    ensures Wf(r.state) && c in r.state.classes && r.state.classes[c].spec == s.classes[c].spec
    ensures forall m <- rest :: m in r.state.namespaces && r.state.namespaces[m] == s.namespaces[m]
  {}

  lemma {:induction false} SweepIs(w: World, s: State, c: string, items: seq<Item>)
    requires Steady(w) && WorldOk(w) && Wf(s) && c in s.classes
    requires Distinct(NamesOf(items)) && forall n <- NamesOf(items) :: n in s.namespaces
    ensures var t, names := ReconcileEach(w, s, c, s.classes[c].spec, items), NamesOf(items);
            && Wf(t) && SweepFrame(s, t, c, names) && SweepViews(w, s, t, c, names)
            && (Up(w, t) ==> SweepRecords(w, s, t, c, names))
    decreases |items|
  {
    if items != [] {
      var rest, n := NamesOf(items[1..]), items[0].name;
      NamesSplit(items);
      WithClassIs(w, s, n, c);
      var r := WithClass(w, s, n, c, s.classes[c].spec);
      SweepNext(w, s, r, n, c, rest);
      SweepIs(w, r.state, c, items[1..]);
      SweepStep(w, s, r, n, c, rest, ReconcileEach(w, r.state, c, s.classes[c].spec, items[1..]));
    }
  }

  lemma SweepStep(w: World, s: State, r: Reply<Outcome>, n: string, c: string, rest: seq<string>, t: State)
    requires Steady(w) && c in s.classes && n in s.namespaces && n !in rest && forall m <- rest :: m in s.namespaces
    requires ReconcileIs(w, s, n, c, r)
    requires SweepFrame(r.state, t, c, rest) && SweepViews(w, r.state, t, c, rest)
    requires Up(w, t) ==> SweepRecords(w, r.state, t, c, rest)
    ensures var names := [n] + rest;
            && SweepFrame(s, t, c, names) && SweepViews(w, s, t, c, names)
            && (Up(w, t) ==> SweepRecords(w, s, t, c, names))
  {
    SweepStepViews(w, s, r.state, n, c, rest, t);
    if Up(w, t) {
      SweepStepEnds(w, s, r, n, c, rest, t);
    }
  }

  lemma SweepStepEnds(w: World, s: State, r: Reply<Outcome>, n: string, c: string, rest: seq<string>, t: State)
    requires Steady(w) && c in s.classes && n in s.namespaces && forall m <- rest :: m in s.namespaces && m != n
    requires ReconcileIs(w, s, n, c, r) && Up(w, t)
    requires SweepFrame(r.state, t, c, rest) && SweepRecords(w, r.state, t, c, rest)
    requires SweepFrame(s, t, c, [n] + rest)
    ensures SweepRecords(w, s, t, c, [n] + rest)
  {
    SweepNext(w, s, r, n, c, rest);
    SweepStepRecords(w, s, r.state, n, c, rest, t);
    SweepStepVersion(w, s, r.state, n, c, rest, t);
  }

  lemma SweepStepViews(w: World, s: State, r: State, n: string, c: string, rest: seq<string>, t: State)
    requires Steady(w) && c in s.classes && n in s.namespaces && n !in rest && forall m <- rest :: m in s.namespaces
    requires Moved(s, r, n, c)
    requires var v, x := ViewNs(s.namespaces[n]), ViewNs(r.namespaces[n]);
             && Interrupted(w, v, x, c, s.classes[c].spec, s.classes.Keys)
             && (Up(w, r) ==> x == Settle(w, v, c, s.classes[c].spec, s.classes.Keys))
    requires SweepFrame(r, t, c, rest) && SweepViews(w, r, t, c, rest)
    ensures SweepFrame(s, t, c, [n] + rest) && SweepViews(w, s, t, c, [n] + rest)
  {
    assert SweepFrame(s, t, c, [n] + rest);
    forall m | m in [n] + rest
      ensures var v, x := ViewNs(s.namespaces[m]), ViewNs(t.namespaces[m]);
              && Interrupted(w, v, x, c, s.classes[c].spec, s.classes.Keys)
              && (Up(w, t) ==> x == Settle(w, v, c, s.classes[c].spec, s.classes.Keys)) {
      if m != n {
        assert m in rest && r.namespaces[m] == s.namespaces[m];
      }
    }
  }

  lemma NoneRecordedSplit(w: World, s: State, r: State, n: string, c: string, rest: seq<string>)
    requires c in s.classes && c in r.classes && r.classes[c].spec == s.classes[c].spec && n in s.namespaces
    requires forall m <- rest :: m in s.namespaces && m in r.namespaces && r.namespaces[m] == s.namespaces[m]
    ensures NoneRecorded(w, s, c, [n] + rest) <==>
            !Recorded(w, ViewNs(s.namespaces[n]), c, s.classes[c].spec) && NoneRecorded(w, r, c, rest)
  {
    if NoneRecorded(w, s, c, [n] + rest) {
      assert n in [n] + rest;
      forall m | m in rest ensures !Recorded(w, ViewNs(r.namespaces[m]), c, r.classes[c].spec) {
        assert m in [n] + rest;
      }
    }
  }

  lemma StatusAndBacklogSplit(w: World, s: State, r: State, n: string, c: string, rest: seq<string>,
                              status: Statuses.StatusMap)
    requires c in s.classes && c in r.classes && r.classes[c].spec == s.classes[c].spec && n in s.namespaces
    requires forall m <- rest :: m in s.namespaces && m in r.namespaces && r.namespaces[m] == s.namespaces[m]
    ensures LoopStatus(w, s, c, [n] + rest, status)
         == LoopStatus(w, r, c, rest, RecordedStatus(w, ViewNs(s.namespaces[n]), n, c, s.classes[c].spec, status))
    ensures Backlogs(s, c, [n] + rest) == Backlog(ViewNs(s.namespaces[n]), c) + Backlogs(r, c, rest)
  {
    assert ([n] + rest)[1..] == rest;
    SweepLocal(w, s, r, c, rest, RecordedStatus(w, ViewNs(s.namespaces[n]), n, c, s.classes[c].spec, status));
  }

  lemma SweepStepVersion(w: World, s: State, r: State, n: string, c: string, rest: seq<string>, t: State)
    requires c in s.classes && c in r.classes && c in t.classes && r.classes[c].spec == s.classes[c].spec
             && n in s.namespaces
    requires forall m <- rest :: m in s.namespaces && m in r.namespaces && r.namespaces[m] == s.namespaces[m]
    requires s.classes[c].version <= r.classes[c].version <= t.classes[c].version
    requires r.classes[c].version == s.classes[c].version
             <==> !Recorded(w, ViewNs(s.namespaces[n]), c, s.classes[c].spec)
    requires t.classes[c].version == r.classes[c].version <==> NoneRecorded(w, r, c, rest)
    ensures t.classes[c].version == s.classes[c].version <==> NoneRecorded(w, s, c, [n] + rest)
  {
    NoneRecordedSplit(w, s, r, n, c, rest);
  }

  lemma SweepStepRecords(w: World, s: State, r: State, n: string, c: string, rest: seq<string>, t: State)
    requires c in s.classes && c in r.classes && c in t.classes && r.classes[c].spec == s.classes[c].spec
             && n in s.namespaces
    requires forall m <- rest :: m in s.namespaces && m in r.namespaces && r.namespaces[m] == s.namespaces[m]
    requires ViewClass(r.classes[c]).status
          == RecordedStatus(w, ViewNs(s.namespaces[n]), n, c, s.classes[c].spec, ViewClass(s.classes[c]).status)
    requires r.pending == s.pending + Backlog(ViewNs(s.namespaces[n]), c)
    requires ViewClass(t.classes[c]).status == LoopStatus(w, r, c, rest, ViewClass(r.classes[c]).status)
    requires t.pending == r.pending + Backlogs(r, c, rest)
    ensures ViewClass(t.classes[c]).status == LoopStatus(w, s, c, [n] + rest, ViewClass(s.classes[c]).status)
    ensures t.pending == s.pending + Backlogs(s, c, [n] + rest)
  {
    StatusAndBacklogSplit(w, s, r, n, c, rest, ViewClass(s.classes[c]).status);
    var a, b := Backlog(ViewNs(s.namespaces[n]), c), Backlogs(r, c, rest);
    assert s.pending + (a + b) == (s.pending + a) + b;
  }

  /** Namespaces of different names do not meet in the status map. */
  lemma {:induction false} LoopStatusAt(w: World, s: State, c: string, names: seq<string>,
                                        status: Statuses.StatusMap, n: string)
    requires c in s.classes && Distinct(names) && forall m <- names :: m in s.namespaces
    ensures n !in names ==> LastOf(LoopStatus(w, s, c, names, status), n) == LastOf(status, n)
    ensures n in names ==> LastOf(LoopStatus(w, s, c, names, status), n)
                           == MemberEntry(w, ViewNs(s.namespaces[n]), n, c, s.classes[c].spec, status).lastAppliedClass
    decreases |names|
  {
    if names != [] {
      assert names == [names[0]] + names[1..];
      var next := RecordedStatus(w, ViewNs(s.namespaces[names[0]]), names[0], c, s.classes[c].spec, status);
      LoopStatusAt(w, s, c, names[1..], next, n);
    }
  }

  // ---------- A class request ----------

  /** Listing by label, while calls are answered, gives each member once, with its current metadata. */
  lemma MembersAreListed(w: World, s: State, c: string)
    requires Steady(w)
    ensures var r := ListNamespaces(w, s, c);
            && OnlyRead(s, r.state)
            && (r.value.Err? ==> !Up(w, r.state))
            && (r.value.Ok? ==> var names := NamesOf(r.value.value);
                                && names == SortedNames(Labelled(s, c)) && Distinct(names)
                                && (forall n :: n in names <==> n in Labelled(s, c))
                                && (forall i <- r.value.value :: i.meta.classLabel == c && i.name in s.namespaces
                                                                && i.meta == s.namespaces[i.name].meta))
    ensures Labelled(s, c) == Members(ViewOf(s), c)
  {
    var r := ListNamespaces(w, s, c);
    if r.value.Ok? {
      var names := SortedNames(Labelled(s, c));
      assert NamesOf(r.value.value) == names;
      forall i | i in r.value.value
        ensures i.meta.classLabel == c && i.name in s.namespaces && i.meta == s.namespaces[i.name].meta {
        var j :| 0 <= j < |r.value.value| && r.value.value[j] == i;
        assert names[j] in Labelled(s, c);
      }
    }
  }

  lemma BuiltStatus(c: string, items: seq<Item>, existing: Statuses.StatusMap, members: set<string>)
    requires forall i <- items :: i.meta.classLabel == c
    requires forall n :: n in NamesOf(items) <==> n in members
    ensures Statuses.LookupMap(Statuses.BuildEntries(c, items, existing))
            == map n | n in members :: Statuses.NewEntry(n, c, existing)
  {
    Statuses.BuildRefinesMap(c, items, existing);
    var names := NamesOf(items);
    forall n | n in members ensures n in set i <- items | i.meta.classLabel == c :: i.name {
      var j :| 0 <= j < |names| && names[j] == n;
      assert items[j] in items;
    }
    forall i | i in items ensures i.name in members {
      var j :| 0 <= j < |items| && items[j] == i;
      assert names[j] == i.name;
    }
  }

  /** The status refresh rebuilds the list for the members of the class. */
  lemma RefreshIs(w: World, s: State, c: string)
    requires Steady(w) && Wf(s) && c in s.classes
    ensures var r, before := Statuses.Refresh(w, s, c), ViewClass(s.classes[c]).status;
            && Wf(r.state)
            && if r.value.Pass? then OnlyStatus(s, r.state, c, map n | n in Labelled(s, c) ::
                                                                 Statuses.NewEntry(n, c, before))
               else OnlyRead(s, r.state) && !Up(w, r.state)
  {
    var latest := GetClass(w, s, c);
    if latest.value.Ok? {
      MembersAreListed(w, latest.state, c);
      var items := ListNamespaces(w, latest.state, c);
      if items.value.Ok? {
        RefreshPatch(w, s, c, items.state, items.value.value);
      }
    }
  }

  lemma RefreshPatch(w: World, s: State, c: string, u: State, items: seq<Item>)
    requires Steady(w) && Wf(s) && c in s.classes && OnlyRead(s, u)
    requires forall i <- items :: i.meta.classLabel == c
    requires forall n :: n in NamesOf(items) <==> n in Labelled(s, c)
    ensures var before := ViewClass(s.classes[c]).status;
            var r := Statuses.ApplyStatus(w, u, c, s.classes[c], Statuses.BuildEntries(c, items, before));
            && Wf(r.state)
            && if r.value.Pass? then OnlyStatus(s, r.state, c, map n | n in Labelled(s, c) ::
                                                                 Statuses.NewEntry(n, c, before))
               else OnlyRead(s, r.state) && !Up(w, r.state)
  {
    var existing := Statuses.LookupMap(s.classes[c].status.namespaces);
    var entries := Statuses.BuildEntries(c, items, existing);
    BuiltStatus(c, items, existing, Labelled(s, c));
    PatchIs(w, u, c, Status(s.classes[c].generation, true, entries));
  }

  /** The namespaces a request is about: the members of the class, or the governed namespace. */
  predicate Reached(v: View, name: string, n: string) {
    && n in v.namespaces && v.namespaces[n].classLabel in v.classes
    && if name in v.classes then v.namespaces[n].classLabel == name else n == name && Governed(v, n)
  }

  /** t is s with some of the namespaces the request reaches partly reconciled, and perhaps other statuses. */
  ghost predicate PartlyReconciled(w: World, s: State, t: State, name: string) {
    && s.calls <= t.calls && Wf(t)
    && t.namespaces.Keys == s.namespaces.Keys && t.classes.Keys == s.classes.Keys
    && (forall c <- s.classes ::
          t.classes[c] == s.classes[c].(status := t.classes[c].status, version := t.classes[c].version))
    && (forall n <- s.namespaces :: var v, x := ViewNs(s.namespaces[n]), ViewNs(t.namespaces[n]);
          || x == v
          || (Reached(ViewOf(s), name, n)
             && Interrupted(w, v, x, v.classLabel, s.classes[v.classLabel].spec, s.classes.Keys)))
  }

  lemma SweepIsPartial(w: World, s: State, t: State, c: string, names: seq<string>)
    requires Wf(t) && SweepFrame(s, t, c, names)
             && (forall n <- names :: n in s.namespaces && s.namespaces[n].meta.classLabel == c)
    requires SweepViews(w, s, t, c, names)
    ensures PartlyReconciled(w, s, t, c)
  {
    forall n | n in s.namespaces && n in names ensures Reached(ViewOf(s), c, n) {
      assert ViewOf(s).namespaces[n] == ViewNs(s.namespaces[n]) && c in ViewOf(s).classes;
    }
  }

  /** A class request on a class that is not terminating. */
  lemma ClassRequestIs(w: World, s: State, c: string)
    requires Steady(w) && WorldOk(w) && Wf(s) && c in s.classes && !s.classes[c].deleting
    ensures var t := Request(w, s, c).state;
            && PartlyReconciled(w, s, t, c)
            && (Up(w, t) || Request(w, s, c).value.Pass? ==>
                  && ViewOf(t) == IdealClass(w, ViewOf(s), c)
                  && t.pending == s.pending + Backlogs(s, c, SortedNames(Labelled(s, c))))
  {
    var nc := GetClass(w, s, c);
    if nc.value.Ok? {
      var u := nc.state;
      MembersAreListed(w, u, c);
      var items := ListNamespaces(w, u, c);
      if items.value.Ok? {
        var s1 := items.state;
        SweepIs(w, s1, c, items.value.value);
        var t1 := ReconcileEach(w, s1, c, s.classes[c].spec, items.value.value);
        assert Request(w, s, c) == Statuses.Refresh(w, t1, c);
        ClassRequestRefreshed(w, s, s1, t1, c, NamesOf(items.value.value));
      }
    }
  }

  lemma ClassRequestRefreshed(w: World, s: State, s1: State, t1: State, c: string, names: seq<string>)
    requires Steady(w) && Wf(s) && Wf(t1) && c in s.classes && OnlyRead(s, s1)
    requires Distinct(names) && names == SortedNames(Labelled(s, c))
    requires SweepFrame(s1, t1, c, names) && SweepViews(w, s1, t1, c, names)
    requires Up(w, t1) ==> SweepRecords(w, s1, t1, c, names)
    ensures var r := Statuses.Refresh(w, t1, c);
            && PartlyReconciled(w, s, r.state, c)
            && (Up(w, r.state) || r.value.Pass? ==>
                  && ViewOf(r.state) == IdealClass(w, ViewOf(s), c)
                  && r.state.pending == s.pending + Backlogs(s, c, names))
  {
    var r := Statuses.Refresh(w, t1, c);
    SweepIsPartial(w, s1, t1, c, names);
    RefreshIs(w, t1, c);
    ClassRequestPartial(w, s, s1, t1, r.state, c);
    if Up(w, r.state) || r.value.Pass? {
      assert Up(w, t1);
      ClassRequestEnds(w, s, s1, t1, r.state, c, names);
    }
  }

  lemma PartlyReconciledExtends(w: World, s: State, s1: State, t1: State, t: State, c: string)
    requires OnlyRead(s, s1) && PartlyReconciled(w, s1, t1, c) && Wf(t) && t1.calls <= t.calls
    requires t.namespaces == t1.namespaces && t.classes.Keys == t1.classes.Keys
    requires forall d <- t1.classes ::
               t.classes[d] == t1.classes[d].(status := t.classes[d].status, version := t.classes[d].version)
    ensures PartlyReconciled(w, s, t, c)
  {
    assert ViewOf(s1) == ViewOf(s);
  }

  /** The refresh changes the status of c at most. */
  lemma RefreshFrame(t1: State, t: State, c: string)
    requires OnlyRead(t1, t) || exists status :: OnlyStatus(t1, t, c, status)
    ensures t1.calls <= t.calls && t.namespaces == t1.namespaces && t.classes.Keys == t1.classes.Keys
    ensures forall d <- t1.classes ::
              t.classes[d] == t1.classes[d].(status := t.classes[d].status, version := t.classes[d].version)
  {}

  lemma ClassRequestPartial(w: World, s: State, s1: State, t1: State, t: State, c: string)
    requires OnlyRead(s, s1) && PartlyReconciled(w, s1, t1, c) && Wf(t)
    requires OnlyRead(t1, t) || exists status :: OnlyStatus(t1, t, c, status)
    ensures PartlyReconciled(w, s, t, c)
  {
    RefreshFrame(t1, t, c);
    PartlyReconciledExtends(w, s, s1, t1, t, c);
  }

  lemma ClassRequestEnds(w: World, s: State, s1: State, t1: State, t: State, c: string, names: seq<string>)
    requires Wf(s) && c in s.classes && OnlyRead(s, s1) && Distinct(names) && names == SortedNames(Labelled(s, c))
    requires SweepFrame(s1, t1, c, names) && SweepViews(w, s1, t1, c, names) && SweepRecords(w, s1, t1, c, names)
             && Up(w, t1)
    requires OnlyStatus(t1, t, c, map n | n in Labelled(t1, c) ::
                                    Statuses.NewEntry(n, c, ViewClass(t1.classes[c]).status))
    ensures ViewOf(t) == IdealClass(w, ViewOf(s), c)
    ensures t.pending == s.pending + Backlogs(s, c, names)
  {
    SettledMembers(w, s, s1, t1, c, names);
    MembersRecorded(w, s, s1, t1, c, names);
    ClassRequestViews(w, s, t1, t, c);
    TriggersAre(w, s, s1, t1, c, names);
  }

  /** After an unbroken sweep every member is settled and no other namespace has changed. */
  lemma SettledMembers(w: World, s: State, s1: State, t1: State, c: string, names: seq<string>)
    requires c in s.classes && OnlyRead(s, s1) && names == SortedNames(Labelled(s, c)) && Up(w, t1)
    requires SweepFrame(s1, t1, c, names) && SweepViews(w, s1, t1, c, names)
    ensures t1.namespaces.Keys == s.namespaces.Keys
    ensures forall n <- s.namespaces ::
              && t1.namespaces[n].meta.classLabel == s.namespaces[n].meta.classLabel
              && if s.namespaces[n].meta.classLabel == c
                 then ViewNs(t1.namespaces[n])
                   == Settle(w, ViewNs(s.namespaces[n]), c, s.classes[c].spec, s.classes.Keys)
                 else t1.namespaces[n] == s.namespaces[n]
  {
    forall n | n in s.namespaces && s.namespaces[n].meta.classLabel == c ensures n in names {}
  }

  lemma TriggersAre(w: World, s: State, s1: State, t1: State, c: string, names: seq<string>)
    requires c in s.classes && OnlyRead(s, s1) && forall n <- names :: n in s.namespaces
    requires t1.pending == s1.pending + Backlogs(s1, c, names)
    ensures t1.pending == s.pending + Backlogs(s, c, names)
  {
    SweepLocal(w, s, s1, c, names, ViewClass(s.classes[c]).status);
  }

  lemma MembersRecorded(w: World, s: State, s1: State, t1: State, c: string, names: seq<string>)
    requires c in s.classes && OnlyRead(s, s1) && Distinct(names) && names == SortedNames(Labelled(s, c))
    requires c in t1.classes && ViewClass(t1.classes[c]).status
             == LoopStatus(w, s1, c, names, ViewClass(s1.classes[c]).status)
    ensures forall n <- Labelled(s, c) ::
              Statuses.NewEntry(n, c, ViewClass(t1.classes[c]).status)
              == MemberEntry(w, ViewNs(s.namespaces[n]), n, c, s.classes[c].spec, ViewClass(s.classes[c]).status)
  {
    forall n | n in Labelled(s, c)
      ensures Statuses.NewEntry(n, c, ViewClass(t1.classes[c]).status)
           == MemberEntry(w, ViewNs(s.namespaces[n]), n, c, s.classes[c].spec, ViewClass(s.classes[c]).status) {
      LoopStatusAt(w, s1, c, names, ViewClass(s.classes[c]).status, n);
    }
  }

  /** A view of namespaces, one namespace at a time. */
  lemma NamespaceViews(t: State, namespaces: map<string, NsView>)
    requires t.namespaces.Keys == namespaces.Keys && forall n <- t.namespaces ::
                                                       ViewNs(t.namespaces[n]) == namespaces[n]
    ensures ViewOf(t).namespaces == namespaces
  {}

  lemma ClassRequestNamespaces(w: World, s: State, t: State, c: string)
    requires c in s.classes && t.namespaces.Keys == s.namespaces.Keys
    requires forall n <- s.namespaces ::
               if s.namespaces[n].meta.classLabel == c
               then ViewNs(t.namespaces[n]) == Settle(w, ViewNs(s.namespaces[n]), c, s.classes[c].spec, s.classes.Keys)
               else t.namespaces[n] == s.namespaces[n]
    ensures ViewOf(t).namespaces == IdealClass(w, ViewOf(s), c).namespaces
  {
    var v := ViewOf(s);
    assert v.classes.Keys == s.classes.Keys && v.classes[c] == ViewClass(s.classes[c]);
    NamespaceViews(t, IdealClass(w, v, c).namespaces);
  }

  lemma MemberStatus(w: World, s: State, c: string, status: Statuses.StatusMap)
    requires c in s.classes && status.Keys == Labelled(s, c)
    requires forall n <- Labelled(s, c) ::
               status[n] == MemberEntry(w, ViewNs(s.namespaces[n]), n, c, s.classes[c].spec,
                 ViewClass(s.classes[c]).status)
    ensures var v, nc := ViewOf(s), ViewClass(s.classes[c]);
            status == map n | n in Members(v, c) :: MemberEntry(w, v.namespaces[n], n, c, nc.spec, nc.status)
  {
    assert Labelled(s, c) == Members(ViewOf(s), c);
  }

  /** A view of classes, one class at a time. */
  lemma ClassViews(t: State, classes: map<string, ClassView>)
    requires t.classes.Keys == classes.Keys && forall d <- t.classes :: ViewClass(t.classes[d]) == classes[d]
    ensures ViewOf(t).classes == classes
  {}

  lemma ClassRequestClasses(w: World, s: State, t: State, c: string, status: Statuses.StatusMap)
    requires c in s.classes && t.classes.Keys == s.classes.Keys
    requires forall d <- s.classes | d != c :: t.classes[d] == s.classes[d]
    requires ViewClass(t.classes[c]) == ViewClass(s.classes[c]).(status := status)
    requires status.Keys == Labelled(s, c)
    requires forall n <- Labelled(s, c) ::
               status[n] == MemberEntry(w, ViewNs(s.namespaces[n]), n, c, s.classes[c].spec,
                 ViewClass(s.classes[c]).status)
    ensures ViewOf(t).classes == IdealClass(w, ViewOf(s), c).classes
  {
    MemberStatus(w, s, c, status);
    ClassViews(t, ViewOf(s).classes[c := ViewClass(s.classes[c]).(status := status)]);
  }

  lemma ClassRequestViews(w: World, s: State, t1: State, t: State, c: string)
    requires c in s.classes && t1.namespaces.Keys == s.namespaces.Keys && t1.classes.Keys == s.classes.Keys
    requires forall n <- s.namespaces ::
               && t1.namespaces[n].meta.classLabel == s.namespaces[n].meta.classLabel
               && if s.namespaces[n].meta.classLabel == c
                  then ViewNs(t1.namespaces[n])
                    == Settle(w, ViewNs(s.namespaces[n]), c, s.classes[c].spec, s.classes.Keys)
                  else t1.namespaces[n] == s.namespaces[n]
    requires forall d <- s.classes | d != c :: t1.classes[d] == s.classes[d]
    requires t1.classes[c] == s.classes[c].(status := t1.classes[c].status, version := t1.classes[c].version)
    requires forall n <- Labelled(s, c) ::
               Statuses.NewEntry(n, c, ViewClass(t1.classes[c]).status)
               == MemberEntry(w, ViewNs(s.namespaces[n]), n, c, s.classes[c].spec, ViewClass(s.classes[c]).status)
    requires OnlyStatus(t1, t, c, map n | n in Labelled(t1, c) ::
                                    Statuses.NewEntry(n, c, ViewClass(t1.classes[c]).status))
    ensures ViewOf(t) == IdealClass(w, ViewOf(s), c)
  {
    assert Labelled(t1, c) == Labelled(s, c);
    ClassRequestNamespaces(w, s, t, c);
    ClassRequestClasses(w, s, t, c, ViewClass(t.classes[c]).status);
  }

  // ---------- A namespace request ----------

  /** A namespace request either only reads, or reconciles the governed namespace after some reads. */
  lemma NamespaceRequestCases(w: World, s: State, n: string)
    requires Steady(w) && n !in s.classes
    ensures var r := Request(w, s, n);
            || (OnlyRead(s, r.state) && (Up(w, r.state) || r.value.Pass? ==> !Governed(ViewOf(s), n)))
            || (n in s.namespaces && Governed(ViewOf(s), n)
                && var c := s.namespaces[n].meta.classLabel;
                   exists u: State :: OnlyRead(s, u) && c in s.classes && r == WithClass(w, u, n, c, s.classes[c].spec))
  {
    var nc := GetClass(w, s, n);
    var ns := GetNamespace(w, nc.state, n);
    if n in s.namespaces {
      assert ViewOf(s).namespaces[n] == ViewNs(s.namespaces[n]) && ViewOf(s).classes.Keys == s.classes.Keys;
    }
    if nc.value == Err(NotFound) && ns.value.Ok? && Governed(ViewOf(s), n) {
      var target := GetClass(w, ns.state, ns.value.value.classLabel);
      assert OnlyRead(s, target.state);
    }
  }

  lemma ReadingIsPartial(w: World, s: State, t: State, name: string)
    requires Wf(s) && OnlyRead(s, t)
    ensures PartlyReconciled(w, s, t, name) && ViewOf(t) == ViewOf(s)
  {}

  lemma NamespaceRequestIs(w: World, s: State, n: string)
    requires Steady(w) && WorldOk(w) && Wf(s) && n !in s.classes
    ensures var t := Request(w, s, n).state;
            && PartlyReconciled(w, s, t, n)
            && (Up(w, t) ==> ViewOf(t) == IdealNamespace(w, ViewOf(s), n)
                             && t.pending == s.pending + if Governed(ViewOf(s), n)
                                                         then Backlog(ViewNs(s.namespaces[n]),
                                                           s.namespaces[n].meta.classLabel) else [])
            && (Request(w, s, n).value.Pass? ==>
                  ViewOf(t).namespaces == IdealNamespace(w, ViewOf(s), n).namespaces)
  {
    NamespaceRequestCases(w, s, n);
    var r := Request(w, s, n);
    if OnlyRead(s, r.state) && (Up(w, r.state) || r.value.Pass? ==> !Governed(ViewOf(s), n)) {
      ReadingIsPartial(w, s, r.state, n);
    } else {
      var c := s.namespaces[n].meta.classLabel;
      var u: State :| OnlyRead(s, u) && r == WithClass(w, u, n, c, s.classes[c].spec);
      WithClassIs(w, u, n, c);
      NamespaceRequestEnds(w, s, u, r, n, c);
      if r.value.Pass? { NamespaceRequestPasses(w, s, u, r, n, c); }
    }
  }

  lemma NamespaceRequestEnds(w: World, s: State, u: State, r: Reply<Outcome>, n: string, c: string)
    requires Governed(ViewOf(s), n) && n !in s.classes && c == s.namespaces[n].meta.classLabel
    requires OnlyRead(s, u) && ReconcileIs(w, u, n, c, r)
    ensures var t := r.state;
            && PartlyReconciled(w, s, t, n)
            && (Up(w, t) ==> ViewOf(t) == IdealNamespace(w, ViewOf(s), n)
                             && t.pending == s.pending + Backlog(ViewNs(s.namespaces[n]), c))
  {
    if Up(w, r.state) {
      NamespaceRequestNamespaces(w, s, r.state, n, c);
      NamespaceRequestClasses(w, s, r.state, n, c);
    }
  }

  lemma NamespaceRequestPasses(w: World, s: State, u: State, r: Reply<Outcome>, n: string, c: string)
    requires Governed(ViewOf(s), n) && n !in s.classes && c == s.namespaces[n].meta.classLabel
    requires OnlyRead(s, u) && ReconcileIs(w, u, n, c, r) && r.value.Pass?
    ensures ViewOf(r.state).namespaces == IdealNamespace(w, ViewOf(s), n).namespaces
  {
    NamespaceRequestNamespaces(w, s, r.state, n, c);
  }

  lemma NamespaceRequestNamespaces(w: World, s: State, t: State, n: string, c: string)
    requires Governed(ViewOf(s), n) && c == s.namespaces[n].meta.classLabel
    requires t.namespaces.Keys == s.namespaces.Keys
    requires forall m <- s.namespaces | m != n :: t.namespaces[m] == s.namespaces[m]
    requires ViewNs(t.namespaces[n]) == Settle(w, ViewNs(s.namespaces[n]), c, s.classes[c].spec, s.classes.Keys)
    ensures ViewOf(t).namespaces == IdealNamespace(w, ViewOf(s), n).namespaces
  {
    var v := ViewOf(s);
    assert v.classes.Keys == s.classes.Keys && v.classes[c] == ViewClass(s.classes[c])
           && v.namespaces[n] == ViewNs(s.namespaces[n]);
    NamespaceViews(t, v.namespaces[n := Settle(w, v.namespaces[n], c, v.classes[c].spec, v.classes.Keys)]);
  }

  lemma NamespaceRequestClasses(w: World, s: State, t: State, n: string, c: string)
    requires Governed(ViewOf(s), n) && c == s.namespaces[n].meta.classLabel
    requires t.classes.Keys == s.classes.Keys
    requires forall d <- s.classes | d != c :: t.classes[d] == s.classes[d]
    requires t.classes[c] == s.classes[c].(status := t.classes[c].status, version := t.classes[c].version)
    requires ViewClass(t.classes[c]).status
          == RecordedStatus(w, ViewNs(s.namespaces[n]), n, c, s.classes[c].spec, ViewClass(s.classes[c]).status)
    ensures ViewOf(t).classes == IdealNamespace(w, ViewOf(s), n).classes
  {
    var v := ViewOf(s);
    assert v.classes[c] == ViewClass(s.classes[c]) && v.namespaces[n] == ViewNs(s.namespaces[n]);
    ClassViews(t, v.classes[c := v.classes[c].(status := ViewClass(t.classes[c]).status)]);
  }

  /** Without failures a request, on anything but a terminating class, does exactly what
      the ideal request says, whatever versions, calls and listings it took. */
  lemma RequestRefinesIdeal(w: World, s: State, name: string)
    requires AlwaysCalm(w) && WorldOk(w) && Wf(s) && (name in s.classes ==> !s.classes[name].deleting)
    ensures var t := Request(w, s, name).state;
            Wf(t) && ViewOf(t) == IdealRequest(w, ViewOf(s), name)
  {
    if name in s.classes {
      ClassRequestIs(w, s, name);
    } else {
      NamespaceRequestIs(w, s, name);
    }
  }
}
