/** Which requests pass and which fail, and what a request that passes has done. */
module Outcomes {
  import opened Kube
  import opened Resources
  import opened Controller
  import opened Weather
  import opened Ideal
  import opened ApplyLoop
  import opened Sweeps
  import opened Listings
  import opened Manifests
  import opened Fields
  import opened Reports
  import Refinement
  import Refusals
  import Requests
  import Statuses

  // ---------- The calls on annotations ----------

  predicate Stamped(s: State, n: string) {
    n in s.namespaces ==> s.namespaces[n].meta.version <= s.clock
  }

  /** The outcome of reading a namespace and writing it back: both calls have to be answered, the
      namespace has to be there for both, and must not begin to go in between. */
  function WriteBack(w: World, s: State, n: string): Outcome {
    var t := Arrive(w, s);
    if !Answered(w, s.calls) then Fail(Unavailable)
    else if n !in t.namespaces then Fail(NotFound)
    else if !Answered(w, s.calls + 1) then Fail(Unavailable)
    else if w.script(s.calls + 1) == Remove(n) then Fail(NotFound)
    else if w.script(s.calls + 1) == MarkDeleting(n) then Fail(Conflict)
    else Pass
  }

  lemma UpdateOutcome(w: World, s: State, n: string, a: Annotations)
    requires n in s.namespaces && Stamped(s, n)
    ensures UpdateNamespace(w, s, n, s.namespaces[n].meta.(annotations := a)).value ==
            if !Answered(w, s.calls) then Fail(Unavailable)
            else if w.script(s.calls) == Remove(n) then Fail(NotFound)
            else if w.script(s.calls) == MarkDeleting(n) then Fail(Conflict)
            else Pass
  {}

  lemma ArriveStamps(w: World, s: State, n: string)
    requires Stamped(s, n)
    ensures Stamped(Arrive(w, s), n)
  {}

  /** setClassAnnotations and updateCurrentClassAnnotation, in any weather. */
  lemma AnnotationOutcomes(w: World, s: State, n: string, original: string, c: string)
    requires Stamped(s, n)
    ensures SetAnnotations(w, s, n, original, c).value == WriteBack(w, s, n)
    ensures UpdateCurrent(w, s, n, c).value == WriteBack(w, s, n)
  {
    var latest := GetNamespace(w, s, n);
    ArriveCalls(w, s);
    ArriveStamps(w, s, n);
    if latest.value.Ok? {
      var meta := latest.value.value;
      UpdateOutcome(w, latest.state, n, SetBoth(meta.annotations, original, c));
      UpdateOutcome(w, latest.state, n, Swap(meta.annotations, c));
    }
  }

  /** Namespace n, if it is still there, has these annotations. */
  ghost predicate Annotated(s: State, n: string, a: Annotations) {
    n in s.namespaces ==> s.namespaces[n].meta.annotations == a
  }

  lemma UpdateAnnotates(w: World, s: State, n: string, meta: Namespace)
    ensures var r := UpdateNamespace(w, s, n, meta);
            r.state.classes == s.classes && (r.value.Pass? ==> Annotated(r.state, n, meta.annotations))
  {}

  /** The new annotations, if the call passes. */
  lemma AnnotationsSet(w: World, s: State, n: string, original: string, c: string, a: Annotations)
    requires Annotated(s, n, a)
    ensures var r := SetAnnotations(w, s, n, original, c);
            r.state.classes == s.classes && (r.value.Pass? ==> Annotated(r.state, n, SetBoth(a, original, c)))
    ensures var r := UpdateCurrent(w, s, n, c);
            r.state.classes == s.classes && (r.value.Pass? ==> Annotated(r.state, n, Swap(a, c)))
  {
    var latest := GetNamespace(w, s, n);
    ArriveHolds(w, s, n);
    if latest.value.Ok? {
      var meta := latest.value.value;
      UpdateAnnotates(w, latest.state, n, meta.(annotations := SetBoth(meta.annotations, original, c)));
      UpdateAnnotates(w, latest.state, n, meta.(annotations := Swap(meta.annotations, c)));
    }
  }

  // ---------- Applying ----------

  lemma SurvivesTrans(s: State, t: State, u: State, n: string)
    requires Survives(s, t, n) && Survives(t, u, n)
    ensures Survives(s, u, n)
  {}

  lemma ApplySurvives(w: World, s: State, n: string, c: string, spec: seq<RawResource>, deleting: bool)
    ensures Survives(s, ApplyClass(w, s, n, c, spec, deleting).state, n)
  {
    var ns := GetNamespace(w, s, n);
    var r := ApplyClass(w, s, n, c, spec, deleting);
    ArriveHolds(w, s, n);
    if r.state != s && r.state != ns.state {
      var u := Managed(w, ns.state, n, c).state;
      Refusals.ManagedLoses(w, ns.state, n, c, ObjectId("", "", ""));
      SurvivesTrans(s, ns.state, u, n);
      LoopSurvives(w, u, n, c, spec);
      if r.state != u { SurvivesTrans(s, u, r.state, n); }
    }
  }

  /** Where the apply ends before its loop: the lookup, or, with something to apply, the discovery
      of what the class holds already, is refused; or the namespace is gone or going. In all but the
      refused calls it passes. */
  lemma ApplyOutcome(w: World, s: State, n: string, c: string, spec: seq<RawResource>, deleting: bool)
    ensures var r, t := ApplyClass(w, s, n, c, spec, deleting), Arrive(w, s);
            if deleting then r == Reply(s, Pass)
            else if !Answered(w, s.calls) then r == Reply(t, Fail(Unavailable))
            else if !Live(t, n) || spec == [] then r == Reply(t, Pass)
            else if !Discovers(w, s.calls + 1) then r == Reply(Arrive(w, t), Fail(Unavailable))
            else r == ApplyFrom(w, Managed(w, t, n, c).state, n, c, spec, 0)
  {
    ArriveCalls(w, s);
    ManagedIsEach(w, Arrive(w, s), n, c);
  }

  // ---------- The cleanup of a switch ----------

  /** The cleanup of a switch fails only if a class cannot be looked up or the discovery of what
      the old class holds is not answered; a class that is gone needs no more than its lookup.
      Failed deletions and listings, and the failed discovery of a sweep, are passed over. */
  lemma CleanupOutcome(w: World, s: State, n: string, previous: string, c: string)
    ensures CleanupPrevious(w, s, n, previous, c).value ==
            if !Answered(w, s.calls) then Fail(Unavailable)
            else if previous !in s.classes then Pass
            else if !Discovers(w, s.calls + 1) then Fail(Unavailable)
            else if !Answered(w, Managed(w, Arrive(w, s), n, previous).state.calls) then Fail(Unavailable)
            else if c !in s.classes then Fail(NotFound)
            else Pass
  {
    var origin := GetClass(w, s, previous);
    ArriveCalls(w, s);
    ArriveKeepsClasses(w, s);
    ManagedIsEach(w, origin.state, n, previous);
    var ids := Managed(w, origin.state, n, previous);
    Refusals.ManagedLoses(w, origin.state, n, previous, ObjectId("", "", ""));
    ArriveKeepsClasses(w, ids.state);
  }

  lemma CleanupSurvives(w: World, s: State, n: string, previous: string, c: string)
    ensures Survives(s, CleanupPrevious(w, s, n, previous, c).state, n)
  {
    Refusals.CleanupLoses(w, s, n, previous, c, ObjectId("", "", ""));
  }

  /** A switch passes if and only if its cleanup, its annotation update and its apply do: the record
      of it in the status is best effort. */
  lemma SwitchOutcome(w: World, s: State, n: string, c: string, spec: seq<RawResource>, deleting: bool,
                      previous: string)
    ensures var cleaned := CleanupPrevious(w, s, n, previous, c);
            var updated := UpdateCurrent(w, cleaned.state, n, c);
            var applied := ApplyClass(w, updated.state.(pending := updated.state.pending + [previous]), n, c, spec,
                                      deleting);
            SwitchClass(w, s, n, c, spec, deleting, previous).value ==
            if cleaned.value.Fail? then cleaned.value
            else if updated.value.Fail? then updated.value else applied.value
  {}

  // ---------- One namespace with its class ----------

  /** Classes stay, and so does what users write in them. */
  ghost predicate ClassesStay(s: State, t: State) {
    && t.classes.Keys == s.classes.Keys
    && forall d <- s.classes ::
         t.classes[d] == s.classes[d].(status := t.classes[d].status, version := t.classes[d].version)
  }

  lemma PatchKeeps(w: World, s: State, c: string, status: Status, n: string, a: Annotations)
    ensures var t := PatchStatus(w, s, c, status).state;
            ClassesStay(s, t) && (Annotated(s, n, a) ==> Annotated(t, n, a))
  {
    ArriveHolds(w, s, n);
  }

  lemma RecordKeeps(w: World, s: State, n: string, c: string, previous: string, a: Annotations)
    ensures var t := Statuses.RecordSwitch(w, s, n, c, previous).state;
            ClassesStay(s, t) && (Annotated(s, n, a) ==> Annotated(t, n, a))
  {
    var latest := GetClass(w, s, c);
    ArriveHolds(w, s, n);
    if latest.value.Ok? {
      var list := latest.value.value.status.namespaces;
      PatchKeeps(w, latest.state, c, Status(latest.value.value.generation, true,
        Statuses.SwitchEntries(list, Statuses.LookupMap(list), n, c, previous)), n, a);
    }
  }

  /** The state t of a namespace reconcile: classes stay, and if it passed the annotations are a. */
  ghost predicate Ends(s: State, r: Reply<Outcome>, n: string, a: Annotations) {
    ClassesStay(s, r.state) && (r.value.Pass? ==> Annotated(r.state, n, a))
  }

  lemma UpdateEnds(w: World, s: State, u: State, n: string, c: string, spec: seq<RawResource>, deleting: bool,
                   a: Annotations)
    requires u.classes == s.classes && Annotated(u, n, a)
    ensures Ends(s, ApplyClass(w, u, n, c, spec, deleting), n, a)
  {
    ApplySurvives(w, u, n, c, spec, deleting);
  }

  lemma SwitchEnds(w: World, s: State, n: string, c: string, spec: seq<RawResource>, deleting: bool,
                   previous: string, a: Annotations)
    requires Annotated(s, n, a)
    ensures Ends(s, SwitchClass(w, s, n, c, spec, deleting, previous), n, Swap(a, c))
  {
    var cleaned := CleanupPrevious(w, s, n, previous, c);
    CleanupSurvives(w, s, n, previous, c);
    AnnotationsSet(w, cleaned.state, n, c, c, a);
    var updated := UpdateCurrent(w, cleaned.state, n, c);
    SwitchRestEnds(w, s, n, c, spec, deleting, updated, previous, Swap(a, c));
  }

  lemma SwitchRestEnds(w: World, s: State, n: string, c: string, spec: seq<RawResource>, deleting: bool,
                       updated: Reply<Outcome>, previous: string, a: Annotations)
    requires updated.state.classes == s.classes && (updated.value.Pass? ==> Annotated(updated.state, n, a))
    ensures Ends(s, AfterUpdate(w, n, c, spec, deleting, updated, previous), n, a)
  {
    if updated.value.Pass? {
      var u := Triggered(updated.state, previous);
      UpdateEnds(w, s, u, n, c, spec, deleting, a);
      RecordKeeps(w, ApplyClass(w, u, n, c, spec, deleting).state, n, c, previous, a);
    }
  }

  lemma CurrentEnds(w: World, s: State, n: string, c: string, spec: seq<RawResource>, deleting: bool, a: Annotations)
    requires c != "" && Annotated(s, n, a)
    ensures Ends(s, WithCurrent(w, s, n, c, spec, deleting, Lookup(a, Current)), n,
                 if Lookup(a, Current) == c then a else Swap(a, c))
  {
    var current := Lookup(a, Current);
    if current != "" && current != c {
      SwitchEnds(w, s, n, c, spec, deleting, current, a);
    } else if current == "" {
      AnnotationsSet(w, s, n, c, c, a);
      var updated := UpdateCurrent(w, s, n, c);
      if updated.value.Pass? {
        UpdateEnds(w, s, updated.state, n, c, spec, deleting, Swap(a, c));
      }
    } else {
      UpdateEnds(w, s, s, n, c, spec, deleting, a);
    }
  }

  lemma EndsAfter(s: State, t: State, r: Reply<Outcome>, n: string, a: Annotations)
    requires t.classes == s.classes && Ends(t, r, n, a)
    ensures Ends(s, r, n, a)
  {}

  /** The annotations a reconcile with class c aims at. */
  function Aim(a: Annotations, c: string): Annotations {
    if Lookup(a, LastApplied) == "" then SetBoth(a, c, c)
    else if Lookup(a, Current) == c then a else Swap(a, c)
  }

  lemma ReconcileEnds(w: World, s: State, n: string, c: string, spec: seq<RawResource>, a: Annotations)
    requires c != "" && Annotated(s, n, a)
    ensures Ends(s, WithClass(w, s, n, c, spec), n, Aim(a, c))
  {
    var latest := GetNamespace(w, s, n);
    var r := WithClass(w, s, n, c, spec);
    ArriveHolds(w, s, n);
    if latest.value.Ok? {
      var meta := latest.value.value;
      assert meta.annotations == a;
      if Lookup(a, LastApplied) == "" {
        AnnotationsSet(w, latest.state, n, c, c, a);
        var first := SetAnnotations(w, latest.state, n, c, c);
        if first.value.Pass? {
          CurrentEnds(w, first.state, n, c, spec, meta.deleting, SetBoth(a, c, c));
          EndsAfter(s, first.state, r, n, Aim(a, c));
        }
      } else {
        CurrentEnds(w, latest.state, n, c, spec, meta.deleting, a);
        EndsAfter(s, latest.state, r, n, Aim(a, c));
      }
    }
  }

  lemma AimIs(a: Annotations, c: string)
    requires c != ""
    ensures AnnotationsAfter(a, Aim(a, c), c)
  {}

  /** reconcileNamespaceWithClass in any weather, with classes that stay throughout: if it passes,
      a namespace that is still there has class c, records the class it had before, and keeps all
      other annotations; a switch has got through its cleanup; and if it was live all the while,
      every key that the spec writes holds its last manifest. */
  lemma PassMeansDone(w: World, s: State, n: string, c: string, spec: seq<RawResource>, j: nat, id: ObjectId)
    requires c != "" && n in s.namespaces && WithClass(w, s, n, c, spec).value.Pass?
    ensures var t, before := WithClass(w, s, n, c, spec).state, s.namespaces[n].meta;
            var previous := Leaves(before.annotations, c);
            && ClassesStay(s, t)
            && (n in t.namespaces ==> AnnotationsAfter(before.annotations, t.namespaces[n].meta.annotations, c))
            && (previous != "" ==> CleanupPrevious(w, Arrive(w, s), n, previous, c).value.Pass?)
            && (Live(Arrive(w, s), n) && Live(t, n) && WritesLast(spec, |spec|, j, id) ==> Stores(t, n, c, spec[j]))
  {
    var a := s.namespaces[n].meta.annotations;
    ReconcileEnds(w, s, n, c, spec, a);
    AimIs(a, c);
    if Leaves(a, c) != "" { PassedCleanup(w, s, n, c, spec); }
    var t := WithClass(w, s, n, c, spec).state;
    if Live(Arrive(w, s), n) && Live(t, n) && WritesLast(spec, |spec|, j, id) {
      PassingReconcileStores(w, s, n, c, spec, j, id);
    }
  }

  lemma PassedCleanup(w: World, s: State, n: string, c: string, spec: seq<RawResource>)
    requires c != "" && n in s.namespaces && WithClass(w, s, n, c, spec).value.Pass?
    requires Leaves(s.namespaces[n].meta.annotations, c) != ""
    ensures CleanupPrevious(w, Arrive(w, s), n, Leaves(s.namespaces[n].meta.annotations, c), c).value.Pass?
  {
    ArriveHolds(w, s, n);
    assert GetNamespace(w, s, n).value.Ok?;
  }

  // ---------- A namespace request ----------

  /** A namespace request in any weather. It fails if a lookup is refused or the label names a class
      that does not exist, passes if the namespace is gone, going or without a label, and else comes
      to what reconciling the namespace with its class comes to. */
  lemma NamespaceOutcome(w: World, s: State, n: string)
    requires n !in s.classes
    ensures var r, k, t, u := Request(w, s, n), s.calls, Arrive(w, Arrive(w, s)), Arrive(w, Arrive(w, Arrive(w, s)));
            if !Answered(w, k) || !Answered(w, k + 1) then r.value == Fail(Unavailable)
            else if !Live(t, n) || t.namespaces[n].meta.classLabel == "" then r == Reply(t, Pass)
            else if !Answered(w, k + 2) then r == Reply(u, Fail(Unavailable))
            else if t.namespaces[n].meta.classLabel !in s.classes then r == Reply(u, Fail(NotFound))
            else var c := t.namespaces[n].meta.classLabel; r == WithClass(w, u, n, c, s.classes[c].spec)
  {
    var t := Arrive(w, s);
    ArriveCalls(w, s);
    ArriveCalls(w, t);
    ArriveKeepsClasses(w, s);
    ArriveKeepsClasses(w, t);
    ArriveKeepsClasses(w, Arrive(w, t));
  }

  /** Without failures a namespace request passes if and only if the namespace is gone, going or
      without a label, or its class exists and the server takes every entry of the spec. */
  lemma CalmNamespaceOutcome(w: World, s: State, n: string)
    requires AlwaysCalm(w) && WorldOk(w) && Wf(s) && n !in s.classes
    ensures Request(w, s, n).value.Pass? <==>
            || !Live(s, n) || s.namespaces[n].meta.classLabel == ""
            || (s.namespaces[n].meta.classLabel in s.classes
                && forall e <- s.classes[s.namespaces[n].meta.classLabel].spec :: Accepts(w, e))
    ensures Live(s, n) && s.namespaces[n].meta.classLabel !in s.classes.Keys + {""} ==>
              Request(w, s, n).value == Fail(NotFound)
  {
    NamespaceOutcome(w, s, n);
    CalmArrives(w, s);
    if Live(s, n) && s.namespaces[n].meta.classLabel in s.classes {
      var c, u := s.namespaces[n].meta.classLabel, s.(calls := s.calls + 3);
      Refinement.WithClassIs(w, u, n, c);
      AllAccepted(w, s.classes[c].spec);
    }
  }

  lemma CalmArrives(w: World, s: State)
    requires AlwaysCalm(w)
    ensures Arrive(w, s) == s.(calls := s.calls + 1)
    ensures Arrive(w, Arrive(w, s)) == s.(calls := s.calls + 2)
    ensures Arrive(w, Arrive(w, Arrive(w, s))) == s.(calls := s.calls + 3)
  {}

  lemma AllAccepted(w: World, spec: seq<RawResource>)
    ensures Count(w, spec) == |spec| <==> forall e <- spec :: Accepts(w, e)
  {
    forall i | 0 <= i < |spec| ensures Accepts(w, spec[i]) <==> Applicable(w, spec[i]) {}
    if Count(w, spec) < |spec| {
      assert spec[Count(w, spec)] in spec;
    }
  }

  // ---------- A class request ----------

  /** updateNamespaceClassStatus: three calls, of a class that exists. */
  lemma RefreshOutcome(w: World, s: State, c: string)
    ensures Statuses.Refresh(w, s, c).value ==
            if !Answered(w, s.calls) then Fail(Unavailable)
            else if c !in s.classes then Fail(NotFound)
            else if !Answered(w, s.calls + 1) || !Answered(w, s.calls + 2) then Fail(Unavailable)
            else Pass
  {
    var t := Arrive(w, s);
    ArriveCalls(w, s);
    ArriveCalls(w, t);
    ArriveKeepsClasses(w, s);
    ArriveKeepsClasses(w, t);
    ArriveKeepsClasses(w, Arrive(w, t));
  }

  lemma ClassesStayTrans(s: State, t: State, u: State)
    requires ClassesStay(s, t) && ClassesStay(t, u)
    ensures ClassesStay(s, u)
  {}

  lemma {:induction false} MembersKeepClasses(w: World, s: State, c: string, spec: seq<RawResource>, items: seq<Item>)
    requires c != ""
    ensures ClassesStay(s, ReconcileEach(w, s, c, spec, items))
    decreases |items|
  {
    if items != [] {
      var n := items[0].name;
      var t := WithClass(w, s, n, c, spec).state;
      ReconcileEnds(w, s, n, c, spec, if n in s.namespaces then s.namespaces[n].meta.annotations else map[]);
      MembersKeepClasses(w, t, c, spec, items[1..]);
      ClassesStayTrans(s, t, ReconcileEach(w, t, c, spec, items[1..]));
    }
  }

  /** The state of a class request before its last three calls, the refresh of the status. */
  function AfterMembers(w: World, s: State, c: string): State
    requires c in s.classes
  {
    var items := ListNamespaces(w, Arrive(w, s), c);
    if items.value.Err? then items.state else ReconcileEach(w, items.state, c, s.classes[c].spec, items.value.value)
  }

  /** A request on a class that is not terminating, in any weather: what becomes of its members does
      not matter; it passes if and only if the lookup, the listing of the members and the three calls
      of the refresh at its end are answered. A request that passes leaves the class up to date and
      ready, and nothing else of it changed. */
  lemma ClassOutcome(w: World, s: State, c: string)
    requires c != "" && c in s.classes && !s.classes[c].deleting
    ensures var r, k, m := Request(w, s, c), s.calls, AfterMembers(w, s, c).calls;
            && r.value == (if Answered(w, k) && Answered(w, k + 1) && Answered(w, m) && Answered(w, m + 1)
                              && Answered(w, m + 2) then Pass else Fail(Unavailable))
            && (r.value.Pass? ==> UpToDate(r.state, c) && ClassesStay(s, r.state))
  {
    var t := AfterMembers(w, s, c);
    ArriveCalls(w, s);
    ArriveKeepsClasses(w, s);
    ArriveKeepsClasses(w, Arrive(w, s));
    var items := ListNamespaces(w, Arrive(w, s), c);
    if items.value.Ok? {
      MembersKeepClasses(w, items.state, c, s.classes[c].spec, items.value.value);
      RefreshOutcome(w, t, c);
      RefreshedClass(w, s, t, c);
    }
  }

  lemma RefreshedClass(w: World, s: State, t: State, c: string)
    requires ClassesStay(s, t)
    ensures var r := Statuses.Refresh(w, t, c); r.value.Pass? ==> UpToDate(r.state, c) && ClassesStay(s, r.state)
  {
    var r := Statuses.Refresh(w, t, c);
    if r.value.Pass? {
      RefreshReports(w, t, c);
      ClassesStayTrans(s, t, r.state);
    }
  }

  /** Without failures such a request passes, and the class has seen its generation and is ready. */
  lemma CalmClassOutcome(w: World, s: State, c: string)
    requires AlwaysCalm(w) && c != "" && c in s.classes && !s.classes[c].deleting
    ensures var r := Request(w, s, c);
            && r.value == Pass && c in r.state.classes && r.state.classes[c].generation == s.classes[c].generation
            && r.state.classes[c].status.observedGeneration == s.classes[c].generation
            && r.state.classes[c].status.ready
  {
    ClassOutcome(w, s, c);
  }

  // ---------- A request that is cut off ----------

  /** A request refused from some call on, on anything but a terminating class: if it passes it has
      settled all the namespaces it is about, so a request cut off before that is queued again. */
  lemma CutOffIsNotPassed(w: World, s: State, name: string)
    requires Steady(w) && WorldOk(w) && Wf(s) && (name in s.classes ==> !s.classes[name].deleting)
    ensures Request(w, s, name).value.Pass? ==>
              ViewOf(Request(w, s, name).state).namespaces
              == Requests.IdealRequest(w, ViewOf(s), name).namespaces
  {
    if name in s.classes {
      Requests.ClassRequestIs(w, s, name);
    } else {
      Requests.NamespaceRequestIs(w, s, name);
    }
  }

  // ---------- What a class reports ----------

  /** What a failure-free class request reports for a member: the class it left, if it switched and,
      unless it is going, the server took every entry; else what was reported before. */
  lemma CalmMemberReport(w: World, s: State, c: string, n: string)
    requires AlwaysCalm(w) && WorldOk(w) && Wf(s) && c in s.classes && !s.classes[c].deleting
    requires n in s.namespaces && s.namespaces[n].meta.classLabel == c
    ensures var t, previous := Request(w, s, c).state, Leaves(s.namespaces[n].meta.annotations, c);
            && c in t.classes
            && var before, list := s.classes[c].status.namespaces, t.classes[c].status.namespaces;
               var i, j := LastEntry(before, n), LastEntry(list, n);
               && j >= 0
               && list[j] == StatusEntry(n, c,
                    if previous != "" && (s.namespaces[n].meta.deleting
                                          || forall e <- s.classes[c].spec :: Accepts(w, e)) then previous
                    else if i >= 0 then before[i].lastAppliedClass else "", "Applied")
  {
    var t, v := Request(w, s, c).state, ViewNs(s.namespaces[n]);
    MemberEntryIs(w, s, c, n);
    SettledAnnotationsAre(v, c);
    AllAccepted(w, s.classes[c].spec);
    LookupIsLast(s.classes[c].status.namespaces, n);
    LookupIsLast(t.classes[c].status.namespaces, n);
  }

  lemma MemberEntryIs(w: World, s: State, c: string, n: string)
    requires AlwaysCalm(w) && WorldOk(w) && Wf(s) && c in s.classes && !s.classes[c].deleting
    requires n in s.namespaces && s.namespaces[n].meta.classLabel == c
    ensures var t := Request(w, s, c).state;
            && c in t.classes && n in ViewClass(t.classes[c]).status
            && ViewClass(t.classes[c]).status[n]
               == Requests.MemberEntry(w, ViewNs(s.namespaces[n]), n, c, s.classes[c].spec,
                                       ViewClass(s.classes[c]).status)
  {
    Requests.ClassRequestIs(w, s, c);
    IdealEntry(w, s, Request(w, s, c).state, c, n);
  }

  lemma IdealEntry(w: World, s: State, t: State, c: string, n: string)
    requires c in s.classes && n in s.namespaces && s.namespaces[n].meta.classLabel == c
    requires c in ViewOf(s).classes && ViewOf(t) == Requests.IdealClass(w, ViewOf(s), c)
    ensures c in t.classes && n in ViewClass(t.classes[c]).status
    ensures ViewClass(t.classes[c]).status[n]
            == Requests.MemberEntry(w, ViewNs(s.namespaces[n]), n, c, s.classes[c].spec,
                                    ViewClass(s.classes[c]).status)
  {
    assert ViewOf(s).classes[c] == ViewClass(s.classes[c]) && ViewOf(s).namespaces[n] == ViewNs(s.namespaces[n]);
    assert n in Requests.Members(ViewOf(s), c);
    assert c in ViewOf(t).classes;
    assert ViewOf(t).classes[c] == ViewClass(t.classes[c]);
  }
}
