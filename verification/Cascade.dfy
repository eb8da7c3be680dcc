/** The trigger cascade: whatever calls fail, each background request is paid for by a
    namespace whose annotation catches up with its label. */
module Cascade {
  import opened Kube
  import opened Watcher
  import opened Resources
  import opened Controller
  import Finalizer
  import Statuses
  import Server

  function CurrentOf(s: State, n: string): string
    requires n in s.namespaces
  {
    Lookup(s.namespaces[n].meta.annotations, Current)
  }

  /** The namespaces whose current annotation differs from their label. */
  function Mismatched(s: State): set<string> {
    set n | n in s.namespaces && CurrentOf(s, n) != s.namespaces[n].meta.classLabel
  }

  function Budget(s: State): nat {
    |s.pending| + |Mismatched(s)|
  }

  /** Labels and current annotations are as they were, for the namespaces still there. */
  ghost predicate Quiet(s: State, t: State) {
    && t.pending == s.pending && t.namespaces.Keys <= s.namespaces.Keys
    && (forall n <- t.namespaces :: t.namespaces[n].meta.classLabel == s.namespaces[n].meta.classLabel
                                    && CurrentOf(t, n) == CurrentOf(s, n))
  }

  /** Labels are as they were, annotations only catch up with them, and the budget does not grow. */
  ghost predicate Paid(s: State, t: State) {
    && t.namespaces.Keys <= s.namespaces.Keys && Budget(t) <= Budget(s)
    && (forall n <- t.namespaces :: t.namespaces[n].meta.classLabel == s.namespaces[n].meta.classLabel)
    && Mismatched(t) <= Mismatched(s)
  }

  lemma Fewer(a: set<string>, b: set<string>)
    requires a <= b
    ensures |a| <= |b|
  {
    if a != {} {
      var x :| x in a;
      Fewer(a - {x}, b - {x});
    }
  }

  lemma QuietIsPaid(s: State, t: State)
    requires Quiet(s, t)
    ensures Paid(s, t)
  {
    Fewer(Mismatched(t), Mismatched(s));
  }

  // ---------- Everything but an annotation update is quiet ----------

  lemma ArriveQuiet(w: World, s: State)
    ensures Quiet(s, Arrive(w, s))
  {}

  lemma QuietTrans(s: State, t: State, u: State)
    requires Quiet(s, t) && Quiet(t, u)
    ensures Quiet(s, u)
  {}

  lemma {:induction false} ManagedInGroupQuiet(w: World, s: State, n: string, owner: string, gv: Names.GroupVersion,
                                               rs: seq<ApiResource>, ids: seq<string>)
    ensures Quiet(s, ManagedInGroup(w, s, n, owner, gv, rs, ids).state)
    decreases |rs|
  {
    if rs != [] {
      var r := ManagedOfKind(w, s, n, owner, GvkOf(gv, rs[0].kind));
      ManagedInGroupQuiet(w, s, n, owner, gv, rs[1..], ids);
      ManagedInGroupQuiet(w, r.state, n, owner, gv, rs[1..], ids + r.value);
    }
  }

  lemma {:induction false} ManagedInListsQuiet(w: World, s: State, n: string, owner: string,
                                               lists: seq<ResourceList>, ids: seq<string>)
    ensures Quiet(s, ManagedInLists(w, s, n, owner, lists, ids).state)
    decreases |lists|
  {
    if lists != [] {
      ManagedInListsQuiet(w, s, n, owner, lists[1..], ids);
      var p := Names.ParseGroupVersion(lists[0].groupVersion);
      if p.Good? {
        ManagedInGroupQuiet(w, s, n, owner, p.gv, lists[0].resources, ids);
        var r := ManagedInGroup(w, s, n, owner, p.gv, lists[0].resources, ids);
        ManagedInListsQuiet(w, r.state, n, owner, lists[1..], r.value);
      }
    }
  }

  lemma ManagedQuiet(w: World, s: State, n: string, owner: string)
    ensures Quiet(s, Managed(w, s, n, owner).state)
  {
    var d := Discover(w, s);
    ArriveQuiet(w, s);
    if d.value.Ok? {
      var r := ManagedInLists(w, d.state, n, owner, d.value.value, []);
      ManagedInListsQuiet(w, d.state, n, owner, d.value.value, []);
      QuietTrans(s, d.state, r.state);
    }
  }

  lemma {:induction false} LabelledInGroupQuiet(w: World, s: State, n: string, owner: string, gv: Names.GroupVersion,
                                                rs: seq<ApiResource>, found: seq<Finalizer.Found>)
    ensures Quiet(s, Finalizer.LabelledInGroup(w, s, n, owner, gv, rs, found).state)
    decreases |rs|
  {
    if rs != [] {
      var r := Finalizer.LabelledOfType(w, s, n, owner, GvkOf(gv, rs[0].kind));
      LabelledInGroupQuiet(w, s, n, owner, gv, rs[1..], found);
      LabelledInGroupQuiet(w, r.state, n, owner, gv, rs[1..], found + r.value);
    }
  }

  lemma {:induction false} LabelledInListsQuiet(w: World, s: State, n: string, owner: string,
                                                lists: seq<ResourceList>, found: seq<Finalizer.Found>)
    ensures Quiet(s, Finalizer.LabelledInLists(w, s, n, owner, lists, found).state)
    decreases |lists|
  {
    if lists != [] {
      LabelledInListsQuiet(w, s, n, owner, lists[1..], found);
      var p := Names.ParseGroupVersion(lists[0].groupVersion);
      if p.Good? {
        LabelledInGroupQuiet(w, s, n, owner, p.gv, lists[0].resources, found);
        var r := Finalizer.LabelledInGroup(w, s, n, owner, p.gv, lists[0].resources, found);
        LabelledInListsQuiet(w, r.state, n, owner, lists[1..], r.value);
      }
    }
  }

  lemma LabelledQuiet(w: World, s: State, n: string, owner: string)
    ensures Quiet(s, Finalizer.Labelled(w, s, n, owner).state)
  {
    var d := Discover(w, s);
    ArriveQuiet(w, s);
    if d.value.Ok? {
      var r := Finalizer.LabelledInLists(w, d.state, n, owner, d.value.value, []);
      LabelledInListsQuiet(w, d.state, n, owner, d.value.value, []);
      QuietTrans(s, d.state, r.state);
    }
  }

  lemma PutObjectsQuiet(s: State, t: State, n: string, objects: map<ObjectId, Stored>)
    requires Quiet(s, t) && n in t.namespaces
    ensures Quiet(s, PutObjects(t, n, objects))
  {}

  lemma DeleteObjectQuiet(w: World, s: State, n: string, gvk: Gvk, name: string)
    ensures Quiet(s, DeleteObject(w, s, n, gvk, name).state)
  {
    var t := Arrive(w, s);
    ArriveQuiet(w, s);
    if n in t.namespaces {
      PutObjectsQuiet(s, t, n, t.namespaces[n].objects - {IdOf(gvk, name)});
    }
  }

  lemma {:induction false} DeleteFoundQuiet(w: World, s: State, n: string, found: seq<Finalizer.Found>,
                                            errs: seq<Error>)
    ensures Quiet(s, Finalizer.DeleteFound(w, s, n, found, errs).state)
    decreases |found|
  {
    if found != [] {
      var r := DeleteObject(w, s, n, found[0].gvk, found[0].name);
      var errs' := if r.value.Fail? then errs + [r.value.error] else errs;
      DeleteObjectQuiet(w, s, n, found[0].gvk, found[0].name);
      DeleteFoundQuiet(w, r.state, n, found[1..], errs');
      QuietTrans(s, r.state, Finalizer.DeleteFound(w, r.state, n, found[1..], errs').state);
    }
  }

  lemma DeleteByKindQuiet(w: World, s: State, n: string, kind: string, name: string, group: string)
    ensures Quiet(s, DeleteByKind(w, s, n, kind, name, group).state)
  {
    var v := DeletionVersion(w, s, group, kind);
    DeletionVersionQuiet(w, s, group, kind);
    DeleteObjectQuiet(w, v.state, n, Gvk(group, v.value, kind), name);
    QuietTrans(s, v.state, DeleteObject(w, v.state, n, Gvk(group, v.value, kind), name).state);
  }

  lemma DeletionVersionQuiet(w: World, s: State, group: string, kind: string)
    ensures Quiet(s, DeletionVersion(w, s, group, kind).state)
  {
    ArriveQuiet(w, s);
  }

  lemma GetNamespaceQuiet(w: World, s: State, n: string)
    ensures Quiet(s, GetNamespace(w, s, n).state)
  {}

  lemma GetClassQuiet(w: World, s: State, c: string)
    ensures Quiet(s, GetClass(w, s, c).state)
  {}

  lemma ListQuiet(w: World, s: State, c: string)
    ensures Quiet(s, ListNamespaces(w, s, c).state)
  {}

  lemma GetObjectQuiet(w: World, s: State, n: string, gvk: Gvk, name: string)
    ensures Quiet(s, GetObject(w, s, n, gvk, name).state)
  {}

  lemma CreateQuiet(w: World, s: State, n: string, gvk: Gvk, name: string, obj: Object)
    ensures Quiet(s, CreateObject(w, s, n, gvk, name, obj).state)
  {
    var t := Arrive(w, s);
    ArriveQuiet(w, s);
    if n in t.namespaces {
      PutObjectsQuiet(s, t, n, t.namespaces[n].objects[IdOf(gvk, name) := Stored(obj, t.clock + 1)]);
    }
  }

  lemma UpdateQuiet(w: World, s: State, n: string, gvk: Gvk, name: string, obj: Object, version: nat)
    ensures Quiet(s, UpdateObject(w, s, n, gvk, name, obj, version).state)
  {
    var t := Arrive(w, s);
    ArriveQuiet(w, s);
    if n in t.namespaces {
      PutObjectsQuiet(s, t, n, t.namespaces[n].objects[IdOf(gvk, name) := Stored(obj, t.clock + 1)]);
    }
  }

  lemma PatchQuiet(w: World, s: State, c: string, status: Status)
    ensures Quiet(s, PatchStatus(w, s, c, status).state)
  {}

  lemma UpdateClassQuiet(w: World, s: State, c: string, nc: Class)
    ensures Quiet(s, UpdateClass(w, s, c, nc).state)
  {
    ArriveQuiet(w, s);
  }

  lemma {:induction false} DeleteStaleQuiet(w: World, s: State, n: string, keep: set<string>, ids: seq<string>)
    ensures Quiet(s, DeleteStale(w, s, n, keep, ids))
    decreases |ids|
  {
    if ids != [] {
      var parts := Names.Split(ids[0]);
      if |parts| < 3 || Names.KindName(parts[1], parts[2]) in keep {
        DeleteStaleQuiet(w, s, n, keep, ids[1..]);
      } else {
        DeleteByKindQuiet(w, s, n, parts[1], parts[2], parts[0]);
        DeleteStaleQuiet(w, DeleteByKind(w, s, n, parts[1], parts[2], parts[0]).state, n, keep, ids[1..]);
      }
    }
  }

  lemma CleanupAllQuiet(w: World, s: State, n: string, c: string)
    ensures Quiet(s, Finalizer.CleanupAll(w, s, n, c))
  {
    var found := Finalizer.Labelled(w, s, n, c);
    LabelledQuiet(w, s, n, c);
    DeleteFoundQuiet(w, found.state, n, found.value, []);
  }

  lemma CleanupQuiet(w: World, s: State, n: string, previous: string, c: string)
    ensures Quiet(s, CleanupPrevious(w, s, n, previous, c).state)
  {
    var origin := GetClass(w, s, previous);
    GetClassQuiet(w, s, previous);
    CleanupRestQuiet(w, s, origin, n, previous, c);
  }

  lemma CleanupRestQuiet(w: World, s: State, origin: Reply<Result<Class>>, n: string, previous: string, c: string)
    requires Quiet(s, origin.state)
    ensures Quiet(s, if origin.value == Err(NotFound) then Finalizer.CleanupAll(w, origin.state, n, previous)
                     else if origin.value.Err? then origin.state else
                     var ids := Managed(w, origin.state, n, previous);
                     if ids.value.Err? then ids.state else
                     var target := GetClass(w, ids.state, c);
                     if target.value.Err? then target.state else
                     DeleteStale(w, target.state, n, KeepKeys(target.value.value.spec), ids.value.value))
  {
    CleanupAllQuiet(w, origin.state, n, previous);
    ManagedQuiet(w, origin.state, n, previous);
    var ids := Managed(w, origin.state, n, previous);
    QuietTrans(s, origin.state, ids.state);
    GetClassQuiet(w, ids.state, c);
    var target := GetClass(w, ids.state, c);
    QuietTrans(s, ids.state, target.state);
    if ids.value.Ok? && target.value.Ok? {
      DeleteStaleQuiet(w, target.state, n, KeepKeys(target.value.value.spec), ids.value.value);
    }
  }

  lemma ApplyOneQuiet(w: World, s: State, n: string, c: string, r: RawResource)
    ensures Quiet(s, ApplyOne(w, s, n, c, r).state)
  {
    if r.Manifest? {
      GetObjectQuiet(w, s, n, r.gvk, r.name);
      ApplyRestQuiet(w, s, GetObject(w, s, n, r.gvk, r.name), n, r, Prepared(r, c));
    }
  }

  lemma ApplyRestQuiet(w: World, s: State, existing: Reply<Result<Stored>>, n: string, r: RawResource, obj: Object)
    requires r.Manifest? && Quiet(s, existing.state)
    ensures Quiet(s, match existing.value
                     case Ok(stored) => UpdateObject(w, existing.state, n, r.gvk, r.name, obj, stored.version).state
                     case Err(e) => if e == NotFound
                                    then CreateObject(w, existing.state, n, r.gvk, r.name, obj).state
                                      else existing.state)
  {
    match existing.value
    case Ok(stored) => UpdateQuiet(w, existing.state, n, r.gvk, r.name, obj, stored.version);
    case Err(_) => CreateQuiet(w, existing.state, n, r.gvk, r.name, obj);
  }

  lemma {:induction false} ApplyFromQuiet(w: World, s: State, n: string, c: string, spec: seq<RawResource>, i: nat)
    requires i <= |spec|
    ensures Quiet(s, ApplyFrom(w, s, n, c, spec, i).state)
    decreases |spec| - i
  {
    if i < |spec| {
      var ns := GetNamespace(w, s, n);
      GetNamespaceQuiet(w, s, n);
      ApplyOneQuiet(w, ns.state, n, c, spec[i]);
      var r := ApplyOne(w, ns.state, n, c, spec[i]);
      QuietTrans(s, ns.state, r.state);
      ApplyFromQuiet(w, r.state, n, c, spec, i + 1);
      QuietTrans(s, r.state, ApplyFrom(w, r.state, n, c, spec, i + 1).state);
    }
  }

  lemma ApplyClassQuiet(w: World, s: State, n: string, c: string, spec: seq<RawResource>, deleting: bool)
    ensures Quiet(s, ApplyClass(w, s, n, c, spec, deleting).state)
  {
    var ns := GetNamespace(w, s, n);
    var ids := Managed(w, ns.state, n, c);
    GetNamespaceQuiet(w, s, n);
    ManagedQuiet(w, ns.state, n, c);
    QuietTrans(s, ns.state, ids.state);
    ApplyFromQuiet(w, ids.state, n, c, spec, 0);
    QuietTrans(s, ids.state, ApplyFrom(w, ids.state, n, c, spec, 0).state);
  }

  lemma RecordSwitchQuiet(w: World, s: State, n: string, c: string, previous: string)
    ensures Quiet(s, Statuses.RecordSwitch(w, s, n, c, previous).state)
  {
    var latest := GetClass(w, s, c);
    GetClassQuiet(w, s, c);
    if latest.value.Ok? {
      var list := latest.value.value.status.namespaces;
      var status := Status(latest.value.value.generation, true,
        Statuses.SwitchEntries(list, Statuses.LookupMap(list), n, c, previous));
      PatchQuiet(w, latest.state, c, status);
      QuietTrans(s, latest.state, PatchStatus(w, latest.state, c, status).state);
    }
  }

  lemma RefreshQuiet(w: World, s: State, c: string)
    ensures Quiet(s, Statuses.Refresh(w, s, c).state)
  {
    var latest := GetClass(w, s, c);
    var items := ListNamespaces(w, latest.state, c);
    GetClassQuiet(w, s, c);
    ListQuiet(w, latest.state, c);
    QuietTrans(s, latest.state, items.state);
    if latest.value.Ok? && items.value.Ok? {
      var nc := latest.value.value;
      var entries := Statuses.BuildEntries(c, items.value.value, Statuses.LookupMap(nc.status.namespaces));
      PatchQuiet(w, items.state, c, Status(nc.generation, true, entries));
      QuietTrans(s, items.state, PatchStatus(w, items.state, c, Status(nc.generation, true, entries)).state);
    }
  }

  // ---------- Annotation updates ----------

  lemma PaidTrans(s: State, t: State, u: State)
    requires Paid(s, t) && Paid(t, u)
    ensures Paid(s, u)
  {}

  lemma TouchIsPaid(s: State, n: string, meta: Namespace)
    requires n in s.namespaces && meta.classLabel == s.namespaces[n].meta.classLabel
    requires Lookup(meta.annotations, Current) in {CurrentOf(s, n), meta.classLabel}
    ensures Paid(s, Touch(s, n, meta))
  {
    Fewer(Mismatched(Touch(s, n, meta)), Mismatched(s));
  }

  /** An update that keeps the label and either the current annotation or sets it to the label. */
  lemma UpdateIsPaid(w: World, s: State, n: string, meta: Namespace)
    requires n in s.namespaces ==> meta.classLabel == s.namespaces[n].meta.classLabel
    requires n in s.namespaces ==> Lookup(meta.annotations, Current) in {CurrentOf(s, n), meta.classLabel}
    ensures var r := UpdateNamespace(w, s, n, meta);
            && Paid(s, r.state) && r.state.pending == s.pending
            && (r.value.Pass? ==> n in s.namespaces && n in r.state.namespaces
                                  && CurrentOf(r.state, n) == Lookup(meta.annotations, Current))
  {
    var t := Arrive(w, s);
    ArriveQuiet(w, s);
    QuietIsPaid(s, t);
    if n in t.namespaces {
      TouchIsPaid(t, n, meta);
      PaidTrans(s, t, Touch(t, n, meta));
    }
  }

  /** A successful update that takes n from a differing current class to its label frees one unit. */
  lemma UpdateFrees(s: State, t: State, n: string)
    requires Paid(s, t) && t.pending == s.pending && n in s.namespaces && n in t.namespaces
    requires CurrentOf(s, n) != s.namespaces[n].meta.classLabel && CurrentOf(t, n) == t.namespaces[n].meta.classLabel
    ensures Budget(t) + 1 <= Budget(s)
  {
    assert n in Mismatched(s) && n !in Mismatched(t);
    Fewer(Mismatched(t) + {n}, Mismatched(s));
  }

  /** n, if it is there, is labelled c. */
  predicate LabelIs(s: State, n: string, c: string) {
    n in s.namespaces ==> s.namespaces[n].meta.classLabel == c
  }

  lemma SetAnnotationsPaid(w: World, s: State, n: string, c: string)
    requires LabelIs(s, n, c)
    ensures Paid(s, SetAnnotations(w, s, n, c, c).state)
  {
    var latest := GetNamespace(w, s, n);
    GetNamespaceQuiet(w, s, n);
    QuietIsPaid(s, latest.state);
    if latest.value.Ok? {
      var meta := latest.value.value;
      var meta' := meta.(annotations := SetBoth(meta.annotations, c, c));
      UpdateIsPaid(w, latest.state, n, meta');
      PaidTrans(s, latest.state, UpdateNamespace(w, latest.state, n, meta').state);
    }
  }

  lemma UpdateCurrentPaid(w: World, s: State, n: string, c: string)
    requires LabelIs(s, n, c)
    ensures var r := UpdateCurrent(w, s, n, c);
            && Paid(s, r.state) && r.state.pending == s.pending
            && (r.value.Pass? ==> n in s.namespaces && n in r.state.namespaces && CurrentOf(r.state, n) == c)
  {
    var latest := GetNamespace(w, s, n);
    GetNamespaceQuiet(w, s, n);
    QuietIsPaid(s, latest.state);
    if latest.value.Ok? {
      var meta := latest.value.value;
      var meta' := meta.(annotations := Swap(meta.annotations, c));
      UpdateIsPaid(w, latest.state, n, meta');
      PaidTrans(s, latest.state, UpdateNamespace(w, latest.state, n, meta').state);
    }
  }

  /** Queuing one request is paid for by the unit that the annotation update has freed. */
  lemma TriggerPaid(s: State, t: State, n: string, previous: string)
    requires Paid(s, t) && t.pending == s.pending && n in s.namespaces && n in t.namespaces
    requires CurrentOf(s, n) != s.namespaces[n].meta.classLabel && CurrentOf(t, n) == t.namespaces[n].meta.classLabel
    ensures Paid(s, Triggered(t, previous))
  {
    UpdateFrees(s, t, n);
    assert Mismatched(Triggered(t, previous)) == Mismatched(t);
  }

  lemma ApplyAndRecordQuiet(w: World, s: State, n: string, c: string, spec: seq<RawResource>, deleting: bool,
                            previous: string)
    ensures var applied := ApplyClass(w, s, n, c, spec, deleting);
            Quiet(s, applied.state) && Quiet(s, Statuses.RecordSwitch(w, applied.state, n, c, previous).state)
  {
    ApplyClassQuiet(w, s, n, c, spec, deleting);
    var applied := ApplyClass(w, s, n, c, spec, deleting);
    RecordSwitchQuiet(w, applied.state, n, c, previous);
    QuietTrans(s, applied.state, Statuses.RecordSwitch(w, applied.state, n, c, previous).state);
  }

  lemma CleanedUpdateTriggers(w: World, s: State, cleaned: State, n: string, c: string, previous: string)
    requires LabelIs(s, n, c) && previous != c && (n in s.namespaces ==> CurrentOf(s, n) == previous)
             && Quiet(s, cleaned)
    ensures var updated := UpdateCurrent(w, cleaned, n, c);
            Paid(s, updated.state) && (updated.value.Pass? ==> Paid(s, Triggered(updated.state, previous)))
  {
    QuietIsPaid(s, cleaned);
    UpdateCurrentPaid(w, cleaned, n, c);
    var updated := UpdateCurrent(w, cleaned, n, c);
    PaidTrans(s, cleaned, updated.state);
    if updated.value.Pass? {
      TriggerPaid(s, updated.state, n, previous);
    }
  }

  /** A switch queues one request and has freed one unit for it. */
  lemma SwitchClassPaid(w: World, s: State, n: string, c: string, spec: seq<RawResource>, deleting: bool,
                        previous: string)
    requires LabelIs(s, n, c) && previous != c && (n in s.namespaces ==> CurrentOf(s, n) == previous)
    ensures Paid(s, SwitchClass(w, s, n, c, spec, deleting, previous).state)
  {
    CleanupQuiet(w, s, n, previous, c);
    var cleaned := CleanupPrevious(w, s, n, previous, c);
    QuietIsPaid(s, cleaned.state);
    CleanedUpdateTriggers(w, s, cleaned.state, n, c, previous);
    var updated := UpdateCurrent(w, cleaned.state, n, c);
    if updated.value.Pass? {
      var u := Triggered(updated.state, previous);
      ApplyAndRecordQuiet(w, u, n, c, spec, deleting, previous);
      var applied := ApplyClass(w, u, n, c, spec, deleting);
      QuietIsPaid(u, applied.state);
      PaidTrans(s, u, applied.state);
      var recorded := Statuses.RecordSwitch(w, applied.state, n, c, previous);
      QuietIsPaid(u, recorded.state);
      PaidTrans(s, u, recorded.state);
    }
  }

  lemma WithCurrentPaid(w: World, s: State, n: string, c: string, spec: seq<RawResource>, deleting: bool,
                        current: string)
    requires LabelIs(s, n, c) && (n in s.namespaces && current != c ==> CurrentOf(s, n) == current)
    ensures Paid(s, WithCurrent(w, s, n, c, spec, deleting, current).state)
  {
    if current != "" && current != c {
      SwitchClassPaid(w, s, n, c, spec, deleting, current);
    } else if current == "" {
      UpdateCurrentPaid(w, s, n, c);
      var updated := UpdateCurrent(w, s, n, c);
      ApplyClassQuiet(w, updated.state, n, c, spec, deleting);
      QuietIsPaid(updated.state, ApplyClass(w, updated.state, n, c, spec, deleting).state);
      PaidTrans(s, updated.state, ApplyClass(w, updated.state, n, c, spec, deleting).state);
    } else {
      ApplyClassQuiet(w, s, n, c, spec, deleting);
      QuietIsPaid(s, ApplyClass(w, s, n, c, spec, deleting).state);
    }
  }

  lemma WithClassPaid(w: World, s: State, n: string, c: string, spec: seq<RawResource>)
    requires LabelIs(s, n, c)
    ensures Paid(s, WithClass(w, s, n, c, spec).state)
  {
    var latest := GetNamespace(w, s, n);
    GetNamespaceQuiet(w, s, n);
    QuietIsPaid(s, latest.state);
    if latest.value.Ok? {
      var meta := latest.value.value;
      SetAnnotationsPaid(w, latest.state, n, c);
      var first := SetAnnotations(w, latest.state, n, c, c);
      WithCurrentPaid(w, first.state, n, c, spec, meta.deleting, c);
      var current := Lookup(meta.annotations, Current);
      WithCurrentPaid(w, latest.state, n, c, spec, meta.deleting, current);
      PaidTrans(s, latest.state, first.state);
      PaidTrans(s, first.state, WithCurrent(w, first.state, n, c, spec, meta.deleting, c).state);
      PaidTrans(s, latest.state, WithCurrent(w, latest.state, n, c, spec, meta.deleting, current).state);
    }
  }

  // ---------- Requests ----------

  lemma {:induction false} ReconcileEachPaid(w: World, s: State, c: string, spec: seq<RawResource>, items: seq<Item>)
    requires forall i | 0 <= i < |items| :: LabelIs(s, items[i].name, c)
    ensures Paid(s, ReconcileEach(w, s, c, spec, items))
    decreases |items|
  {
    if items == [] {
      QuietIsPaid(s, s);
    } else {
      WithClassPaid(w, s, items[0].name, c, spec);
      var r := WithClass(w, s, items[0].name, c, spec).state;
      ReconcileEachPaid(w, r, c, spec, items[1..]);
      PaidTrans(s, r, ReconcileEach(w, r, c, spec, items[1..]));
    }
  }

  lemma FinalizeNamespaceQuiet(w: World, s: State, c: string, item: Item, errs: seq<Error>)
    ensures Paid(s, Finalizer.FinalizeNamespace(w, s, c, item, errs).state)
  {
    if item.meta.deleting {
      QuietIsPaid(s, s);
    } else {
      var n := item.name;
      var found := Finalizer.Labelled(w, s, n, c);
      LabelledQuiet(w, s, n, c);
      DeleteFoundQuiet(w, found.state, n, found.value, errs);
      var deleted := Finalizer.DeleteFound(w, found.state, n, found.value, errs).state;
      QuietTrans(s, found.state, deleted);
      GetNamespaceQuiet(w, deleted, n);
      var ns := GetNamespace(w, deleted, n);
      QuietTrans(s, deleted, ns.state);
      QuietIsPaid(s, ns.state);
      if ns.value.Ok? {
        var meta := ns.value.value;
        var meta' := meta.(annotations := meta.annotations - {LastApplied});
        UpdateIsPaid(w, ns.state, n, meta');
        PaidTrans(s, ns.state, UpdateNamespace(w, ns.state, n, meta').state);
      }
    }
  }

  lemma {:induction false} FinalizeEachPaid(w: World, s: State, c: string, items: seq<Item>, errs: seq<Error>)
    ensures Paid(s, Finalizer.FinalizeEach(w, s, c, items, errs).state)
    decreases |items|
  {
    if items == [] {
      QuietIsPaid(s, s);
    } else {
      FinalizeNamespaceQuiet(w, s, c, items[0], errs);
      var r := Finalizer.FinalizeNamespace(w, s, c, items[0], errs);
      FinalizeEachPaid(w, r.state, c, items[1..], r.value);
      PaidTrans(s, r.state, Finalizer.FinalizeEach(w, r.state, c, items[1..], r.value).state);
    }
  }

  lemma HandleCleanupPaid(w: World, s: State, c: string, nc: Class)
    ensures Paid(s, Finalizer.HandleCleanup(w, s, c, nc).state)
  {
    var items := ListNamespaces(w, s, c);
    ListQuiet(w, s, c);
    QuietIsPaid(s, items.state);
    var cleaned := if items.value.Err? then Reply(items.state, [items.value.error])
                   else Finalizer.FinalizeEach(w, items.state, c, items.value.value, []);
    if items.value.Ok? {
      FinalizeEachPaid(w, items.state, c, items.value.value, []);
      PaidTrans(s, items.state, cleaned.state);
    }
    var nc' := nc.(finalizers := Finalizer.WithoutOurs(nc.finalizers));
    UpdateClassQuiet(w, cleaned.state, c, nc');
    QuietIsPaid(cleaned.state, UpdateClass(w, cleaned.state, c, nc').state);
    PaidTrans(s, cleaned.state, UpdateClass(w, cleaned.state, c, nc').state);
  }

  lemma ReconcileClassPaid(w: World, s: State, c: string, nc: Class)
    ensures Paid(s, ReconcileClass(w, s, c, nc).state)
  {
    var items := ListNamespaces(w, s, c);
    ListQuiet(w, s, c);
    QuietIsPaid(s, items.state);
    if items.value.Ok? {
      ListedAreLabelled(w, s, c);
      ReconcileEachPaid(w, items.state, c, nc.spec, items.value.value);
      var each := ReconcileEach(w, items.state, c, nc.spec, items.value.value);
      PaidTrans(s, items.state, each);
      HandleCleanupPaid(w, each, c, nc);
      var finalized := if nc.deleting then Finalizer.HandleCleanup(w, each, c, nc) else Reply(each, Pass);
      QuietIsPaid(each, each);
      PaidTrans(s, each, finalized.state);
      RefreshQuiet(w, finalized.state, c);
      QuietIsPaid(finalized.state, Statuses.Refresh(w, finalized.state, c).state);
      PaidTrans(s, finalized.state, Statuses.Refresh(w, finalized.state, c).state);
    }
  }

  lemma ListedAreLabelled(w: World, s: State, c: string)
    ensures var items := ListNamespaces(w, s, c);
            items.value.Ok? ==> forall i | 0 <= i < |items.value.value| ::
                                  LabelIs(items.state, items.value.value[i].name, c)
  {
    var t := Arrive(w, s);
    var names := Names.SortedNames(Labelled(t, c));
    assert forall i | 0 <= i < |names| :: names[i] in names && names[i] in Labelled(t, c);
  }

  lemma ReconcileNamespacePaid(w: World, s: State, n: string)
    ensures Paid(s, ReconcileNamespace(w, s, n).state)
  {
    var ns := GetNamespace(w, s, n);
    GetNamespaceQuiet(w, s, n);
    QuietIsPaid(s, ns.state);
    if ns.value.Ok? && !ns.value.value.deleting && ns.value.value.classLabel != "" {
      var c := ns.value.value.classLabel;
      var nc := GetClass(w, ns.state, c);
      GetClassQuiet(w, ns.state, c);
      QuietIsPaid(ns.state, nc.state);
      PaidTrans(s, ns.state, nc.state);
      if nc.value.Ok? {
        GovernedPaid(w, s, nc.state, n, c, nc.value.value.spec);
      }
    }
  }

  lemma GovernedPaid(w: World, s: State, t: State, n: string, c: string, spec: seq<RawResource>)
    requires Paid(s, t) && LabelIs(t, n, c)
    ensures Paid(s, WithClass(w, t, n, c, spec).state)
  {
    WithClassPaid(w, t, n, c, spec);
    PaidTrans(s, t, WithClass(w, t, n, c, spec).state);
  }

  /** Under any script of refusals, degraded discoveries and vanishing namespaces, a request
      leaves the queued requests plus the lagging namespaces no more than they were. */
  lemma RequestIsPaid(w: World, s: State, name: string)
    ensures Paid(s, Request(w, s, name).state)
  {
    var nc := GetClass(w, s, name);
    GetClassQuiet(w, s, name);
    QuietIsPaid(s, nc.state);
    if nc.value.Ok? {
      ReconcileClassPaid(w, nc.state, name, nc.value.value);
      PaidTrans(s, nc.state, ReconcileClass(w, nc.state, name, nc.value.value).state);
    } else {
      ReconcileNamespacePaid(w, nc.state, name);
      PaidTrans(s, nc.state, ReconcileNamespace(w, nc.state, name).state);
    }
  }

  /** Serving the backlog, whichever request comes next each time, ends: it takes at most
      as many runs as there were requests queued and namespaces lagging behind their label. */
  method Drain(api: Server.ApiServer) returns (runs: nat)
    modifies api
    ensures api.state.pending == []
    ensures runs <= |old(api.state.pending)| + |Mismatched(old(api.state))|
  {
    runs := 0;
    while api.state.pending != []
      invariant runs + Budget(api.state) <= Budget(old(api.state))
      decreases Budget(api.state)
    {
      var i :| 0 <= i < |api.state.pending|;
      var name := api.state.pending[i];
      ghost var before := api.state;
      api.state := api.state.(pending := api.state.pending[..i] + api.state.pending[i + 1..]);
      assert Mismatched(api.state) == Mismatched(before);
      RequestIsPaid(api.world, api.state, name);
      var outcome := Reconcile(api, name);
      runs := runs + 1;
    }
  }
}
