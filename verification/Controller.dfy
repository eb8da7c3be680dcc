/** namespaceclass_controller.go: the reconciler. Each operation is given first
    as a function on the server state and then as the method that performs it. */
module Controller {
  import opened Kube
  import opened Resources
  import Finalizer
  import Statuses
  import Server

  // ---------- Annotations ----------

  function SetBoth(a: Annotations, original: string, current: string): Annotations {
    a[LastApplied := original][Current := current]
  }

  /** The new annotations of a class change: the overwritten current class, if
      there is one and it differs, becomes the last applied one. */
  function Swap(a: Annotations, c: string): Annotations {
    var existing := Lookup(a, Current);
    (if existing != "" && existing != c then a[LastApplied := existing] else a)[Current := c]
  }

  function SetAnnotations(w: World, s: State, n: string, original: string, current: string): Reply<Outcome> {
    var latest := GetNamespace(w, s, n);
    if latest.value.Err? then Reply(latest.state, Fail(latest.value.error)) else
    var meta := latest.value.value;
    UpdateNamespace(w, latest.state, n, meta.(annotations := SetBoth(meta.annotations, original, current)))
  }

  function UpdateCurrent(w: World, s: State, n: string, c: string): Reply<Outcome> {
    var latest := GetNamespace(w, s, n);
    if latest.value.Err? then Reply(latest.state, Fail(latest.value.error)) else
    var meta := latest.value.value;
    UpdateNamespace(w, latest.state, n, meta.(annotations := Swap(meta.annotations, c)))
  }

  method SetClassAnnotations(api: Server.ApiServer, n: string, original: string, current: string) returns (o: Outcome)
    modifies api
    ensures Reply(api.state, o) == SetAnnotations(api.world, old(api.state), n, original, current)
  {
    var latest := api.GetNamespace(n);
    if latest.Err? {
      return Fail(latest.error);
    }
    var annotations := latest.value.annotations;
    annotations := annotations[LastApplied := original];
    annotations := annotations[Current := current];
    o := api.UpdateNamespace(n, latest.value.(annotations := annotations));
  }

  method UpdateCurrentClassAnnotation(api: Server.ApiServer, n: string, c: string) returns (o: Outcome)
    modifies api
    ensures Reply(api.state, o) == UpdateCurrent(api.world, old(api.state), n, c)
  {
    var latest := api.GetNamespace(n);
    if latest.Err? {
      return Fail(latest.error);
    }
    var annotations := latest.value.annotations;
    var existing := Lookup(annotations, Current);
    if existing != "" && existing != c {
      annotations := annotations[LastApplied := existing];
    }
    annotations := annotations[Current := c];
    o := api.UpdateNamespace(n, latest.value.(annotations := annotations));
  }

  // ---------- One namespace with its class ----------

  /** reconcileNamespaceClassResources; `deleting` is the caller's view of the namespace. */
  function ApplyClass(w: World, s: State, n: string, c: string, spec: seq<RawResource>,
                      deleting: bool): Reply<Outcome> {
    if deleting then Reply(s, Pass) else
    var ns := GetNamespace(w, s, n);
    if ns.value == Err(NotFound) then Reply(ns.state, Pass)
    else if ns.value.Err? then Reply(ns.state, Fail(ns.value.error))
    else if ns.value.value.deleting || spec == [] then Reply(ns.state, Pass)
    else
      var ids := Managed(w, ns.state, n, c);
      if ids.value.Err? then Reply(ids.state, Fail(ids.value.error))
      else ApplyFrom(w, ids.state, n, c, spec, 0)
  }

  function Triggered(s: State, c: string): State {
    s.(pending := s.pending + [c])
  }

  /** The end of a switch, after the annotation update: wake the old class, apply, record the switch. */
  function AfterUpdate(w: World, n: string, c: string, spec: seq<RawResource>, deleting: bool,
                       updated: Reply<Outcome>, previous: string): Reply<Outcome> {
    if updated.value.Fail? then updated else
    var applied := ApplyClass(w, Triggered(updated.state, previous), n, c, spec, deleting);
    if applied.value.Fail? then applied else
    Reply(Statuses.RecordSwitch(w, applied.state, n, c, previous).state, Pass)
  }

  /** What a switch does after its cleanup: record the new class, and go on. */
  function AfterCleanup(w: World, n: string, c: string, spec: seq<RawResource>, deleting: bool,
                        cleaned: Reply<Outcome>, previous: string): Reply<Outcome> {
    if cleaned.value.Fail? then cleaned else
    AfterUpdate(w, n, c, spec, deleting, UpdateCurrent(w, cleaned.state, n, c), previous)
  }

  /** A class switch. */
  function SwitchClass(w: World, s: State, n: string, c: string, spec: seq<RawResource>, deleting: bool,
                       previous: string): Reply<Outcome> {
    AfterCleanup(w, n, c, spec, deleting, CleanupPrevious(w, s, n, previous, c), previous)
  }

  function WithCurrent(w: World, s: State, n: string, c: string, spec: seq<RawResource>, deleting: bool,
                       current: string): Reply<Outcome> {
    if current != "" && current != c then SwitchClass(w, s, n, c, spec, deleting, current)
    else if current == "" then
      var updated := UpdateCurrent(w, s, n, c);
      if updated.value.Fail? then updated else ApplyClass(w, updated.state, n, c, spec, deleting)
    else ApplyClass(w, s, n, c, spec, deleting)
  }

  /** reconcileNamespaceWithClass */
  function WithClass(w: World, s: State, n: string, c: string, spec: seq<RawResource>): Reply<Outcome> {
    var latest := GetNamespace(w, s, n);
    if latest.value.Err? then Reply(latest.state, Fail(latest.value.error)) else
    var meta := latest.value.value;
    if Lookup(meta.annotations, LastApplied) == "" then
      var first := SetAnnotations(w, latest.state, n, c, c);
      if first.value.Fail? then first else WithCurrent(w, first.state, n, c, spec, meta.deleting, c)
    else WithCurrent(w, latest.state, n, c, spec, meta.deleting, Lookup(meta.annotations, Current))
  }

  method ReconcileNamespaceClassResources(api: Server.ApiServer, n: string, deleting: bool, c: string,
                                          spec: seq<RawResource>)
    returns (o: Outcome)
    modifies api
    ensures Reply(api.state, o) == ApplyClass(api.world, old(api.state), n, c, spec, deleting)
  {
    if deleting {
      return Pass;
    }
    var latest := api.GetNamespace(n);
    if latest.Err? {
      return if latest.error == NotFound then Pass else Fail(latest.error);
    }
    if latest.value.deleting {
      return Pass;
    }
    if |spec| == 0 {
      return Pass;
    }
    var currentResources := GetCurrentNamespaceClassResources(api, n, c);
    if currentResources.Err? {
      return Fail(currentResources.error);
    }
    ghost var whole := ApplyFrom(api.world, api.state, n, c, spec, 0);
    for i := 0 to |spec|
      invariant ApplyFrom(api.world, api.state, n, c, spec, i) == whole
    {
      latest := api.GetNamespace(n);
      if latest.Err? {
        return if latest.error == NotFound then Pass else Fail(latest.error);
      }
      if latest.value.deleting {
        return Pass;
      }
      var applied := ApplyResourceToNamespace(api, n, c, spec[i]);
      if applied.Fail? {
        return applied;
      }
    }
    o := Pass;
  }

  /** The request is queued; a background goroutine runs it later. */
  method TriggerReconcile(api: Server.ApiServer, c: string)
    modifies api
    ensures api.state == if c == "" then old(api.state) else Triggered(old(api.state), c)
  {
    if c == "" {
      return;
    }
    api.Trigger(c);
  }

  method ReconcileNamespaceWithClass(api: Server.ApiServer, n: string, c: string, spec: seq<RawResource>)
    returns (o: Outcome)
    modifies api
    ensures Reply(api.state, o) == WithClass(api.world, old(api.state), n, c, spec)
  {
    var latest := api.GetNamespace(n);
    if latest.Err? {
      return Fail(latest.error);
    }
    var originalClass := Lookup(latest.value.annotations, LastApplied);
    var currentClass := Lookup(latest.value.annotations, Current);
    if originalClass == "" {
      o := SetClassAnnotations(api, n, c, c);
      if o.Fail? {
        return;
      }
      currentClass := c;
    }
    var previousClass := currentClass;
    if currentClass != "" && currentClass != c {
      o := CleanupPreviousNamespaceClassResources(api, n, currentClass, c);
      if o.Fail? {
        return;
      }
      o := UpdateCurrentClassAnnotation(api, n, c);
      if o.Fail? {
        return;
      }
      TriggerReconcile(api, previousClass);
    } else if currentClass == "" {
      o := UpdateCurrentClassAnnotation(api, n, c);
      if o.Fail? {
        return;
      }
    }
    o := ReconcileNamespaceClassResources(api, n, latest.value.deleting, c, spec);
    if o.Fail? {
      return;
    }
    if previousClass != "" && previousClass != c {
      var recorded := Statuses.UpdateClassSwitchStatus(api, n, c, previousClass);
    }
    o := Pass;
  }

  // ---------- Requests ----------

  /** The loop over the namespaces of a class: failures are logged and dropped. */
  function ReconcileEach(w: World, s: State, c: string, spec: seq<RawResource>, items: seq<Item>): State
    decreases |items|
  {
    if items == [] then s
    else ReconcileEach(w, WithClass(w, s, items[0].name, c, spec).state, c, spec, items[1..])
  }

  function ReconcileClass(w: World, s: State, c: string, nc: Class): Reply<Outcome> {
    var items := ListNamespaces(w, s, c);
    if items.value.Err? then Reply(items.state, Fail(items.value.error)) else
    var each := ReconcileEach(w, items.state, c, nc.spec, items.value.value);
    var finalized := if nc.deleting then Finalizer.HandleCleanup(w, each, c, nc) else Reply(each, Pass);
    if finalized.value.Fail? then finalized else Statuses.Refresh(w, finalized.state, c)
  }

  function ReconcileNamespace(w: World, s: State, n: string): Reply<Outcome> {
    var ns := GetNamespace(w, s, n);
    if ns.value.Err? then Reply(ns.state, if ns.value.error == NotFound then Pass else Fail(ns.value.error))
    else if ns.value.value.deleting || ns.value.value.classLabel == "" then Reply(ns.state, Pass) else
    var c := ns.value.value.classLabel;
    var nc := GetClass(w, ns.state, c);
    if nc.value.Err? then Reply(nc.state, Fail(nc.value.error))
    else WithClass(w, nc.state, n, c, nc.value.value.spec)
  }

  /** Reconcile: a request is a name, and a class of that name comes first. */
  function Request(w: World, s: State, name: string): Reply<Outcome> {
    var nc := GetClass(w, s, name);
    match nc.value
    case Ok(nc') => ReconcileClass(w, nc.state, name, nc')
    case Err(e) => if e == NotFound then ReconcileNamespace(w, nc.state, name) else Reply(nc.state, Fail(e))
  }

  method Reconcile(api: Server.ApiServer, name: string) returns (o: Outcome)
    modifies api
    ensures Reply(api.state, o) == Request(api.world, old(api.state), name)
  {
    var nc := api.GetClass(name);
    if nc.Ok? {
      var items := api.ListNamespaces(name);
      if items.Err? {
        return Fail(items.error);
      }
      ghost var whole := ReconcileEach(api.world, api.state, name, nc.value.spec, items.value);
      for i := 0 to |items.value|
        invariant ReconcileEach(api.world, api.state, name, nc.value.spec, items.value[i..]) == whole
      {
        assert items.value[i..][1..] == items.value[i + 1..];
        var each := ReconcileNamespaceWithClass(api, items.value[i].name, name, nc.value.spec);
      }
      if nc.value.deleting {
        o := Finalizer.HandleFinalizerCleanup(api, name, nc.value);
        if o.Fail? {
          return;
        }
      }
      o := Statuses.UpdateNamespaceClassStatus(api, name);
      return;
    } else if nc.error != NotFound {
      return Fail(nc.error);
    }
    var ns := api.GetNamespace(name);
    if ns.Err? {
      return if ns.error == NotFound then Pass else Fail(ns.error);
    }
    if ns.value.deleting {
      return Pass;
    }
    if ns.value.classLabel == "" {
      return Pass;
    }
    var current := api.GetClass(ns.value.classLabel);
    if current.Err? {
      return Fail(current.error);
    }
    o := ReconcileNamespaceWithClass(api, name, ns.value.classLabel, current.value.spec);
  }

  // ---------- Events ----------

  /** The update predicate of the namespace watch, as written. */
  predicate UpdatePasses(before: Namespace, after: Namespace) {
    var newLabel, oldLabel := after.classLabel, before.classLabel;
    var newAnnotation, oldAnnotation := Lookup(after.annotations, Current), Lookup(before.annotations, Current);
    var hasLabelChange := (newLabel != oldLabel) || (newLabel != "" || oldLabel != "");
    var hasAnnotationChange := (newAnnotation != oldAnnotation) || (newAnnotation != "" || oldAnnotation != "");
    !after.deleting && (hasLabelChange || hasAnnotationChange)
  }

  /** The requests the mapper derives from a namespace. */
  function RequestsFor(n: string, ns: Namespace): seq<string> {
    var current, previous := ns.classLabel, Lookup(ns.annotations, Current);
    if ns.deleting || (current == "" && previous == "") then []
    else if previous == current then [n]
    else [n] + (if previous != "" then [previous] else []) + (if current != "" then [current] else [])
  }

  method EnqueueNamespaceWithClassFilter(n: string, ns: Namespace) returns (requests: seq<string>)
    ensures requests == RequestsFor(n, ns)
  {
    if ns.deleting {
      return [];
    }
    requests := [];
    var currentClassName := ns.classLabel;
    var previousClassName := Lookup(ns.annotations, Current);
    if currentClassName != "" || previousClassName != "" {
      requests := requests + [n];
    }
    if previousClassName != "" && currentClassName != previousClassName && previousClassName != currentClassName {
      if previousClassName != "" {
        requests := requests + [previousClassName];
      }
    }
    if currentClassName != "" && currentClassName != previousClassName {
      requests := requests + [currentClassName];
    }
  }

  /** An event that passes the predicate and leaves the namespace with a class, by
      label or annotation, requests the namespace; a namespace whose annotation lags
      its label also requests both classes. The predicate in fact passes every update
      of a live namespace that has, or had, a label or a current class. */
  lemma EventsReachTheNamespace(n: string, before: Namespace, after: Namespace)
    ensures UpdatePasses(before, after) <==>
            !after.deleting && (before.classLabel != "" || after.classLabel != ""
                                || Lookup(before.annotations, Current) != ""
                                   || Lookup(after.annotations, Current) != "")
    ensures UpdatePasses(before, after) && (after.classLabel != "" || Lookup(after.annotations, Current) != "")
            ==> n in RequestsFor(n, after)
    ensures UpdatePasses(before, after) && after.classLabel != Lookup(after.annotations, Current)
            ==> forall c | c in {after.classLabel, Lookup(after.annotations, Current)} && c != "" ::
                  c in RequestsFor(n, after)
  {}

  /** How often the mapper requests a name: the namespace once if it has a class, by label or
      annotation, and each of the two classes once if they differ and it is named; the namespace
      comes first, and a namespace that is going requests nothing. */
  lemma RequestsAreCounted(n: string, ns: Namespace, x: string)
    ensures var requests, target, current := RequestsFor(n, ns), ns.classLabel, Lookup(ns.annotations, Current);
            && multiset(requests)[x] == (if ns.deleting || target + current == "" then 0
                                        else (if x == n then 1 else 0)
                                             + (if x == current && current !in {"", target} then 1 else 0)
                                             + (if x == target && target !in {"", current} then 1 else 0))
            && (requests != [] ==> requests[0] == n)
  {
    var target, current := ns.classLabel, Lookup(ns.annotations, Current);
    assert target + current == "" <==> target == "" && current == "" by {
      assert |target + current| == |target| + |current|;
    }
    assert [n] + [current] + [target] == [n, current, target];
  }
}
