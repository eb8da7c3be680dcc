/** Runs: what users do to the cluster, interleaved with reconciles in any order. */
module Runs {
  import opened Names
  import opened Kube
  import opened Controller
  import opened Weather
  import opened Ideal
  import opened Requests
  import opened Termination
  import opened Ownership

  datatype Action =
    | CreateNamespace(name: string, classLabel: string)
    | Relabel(name: string, classLabel: string)
    | Annotate(name: string, key: string, value: string)
    | DeleteNamespace(name: string)
    | PurgeNamespace(name: string)
    | CreateClass(name: string, spec: seq<RawResource>, finalizers: seq<Kube.Finalizer>)
    | EditSpec(name: string, spec: seq<RawResource>)
    | DeleteClass(name: string)
    | PutObject(name: string, id: ObjectId, obj: Object)
    | RemoveObject(name: string, id: ObjectId)
    | Reconcile(name: string)

  function OwnerIn(objects: map<ObjectId, Stored>, id: ObjectId): string {
    if id in objects then OwnerOf(objects[id].obj) else ""
  }

  /** A user may do the action now: entities exist, names are valid, owner labels and the
      two class annotations are left alone. */
  predicate Allowed(s: State, a: Action) {
    match a
    case CreateNamespace(n, _) => n !in s.namespaces
    case Relabel(n, _) => n in s.namespaces
    case Annotate(n, _, _) => n in s.namespaces
    case DeleteNamespace(n) => n in s.namespaces
    case PurgeNamespace(n) => n in s.namespaces && s.namespaces[n].meta.deleting
    case CreateClass(c, _, _) => c != "" && c !in s.classes
    case EditSpec(c, _) => c in s.classes
    case DeleteClass(c) => c in s.classes
    case PutObject(n, id, obj) => n in s.namespaces && ValidName(id.name) && SlashFree(id.group) && SlashFree(id.kind)
                                  && OwnerOf(obj) == OwnerIn(s.namespaces[n].objects, id)
    case RemoveObject(n, _) => n in s.namespaces
    case Reconcile(_) => true
  }

  /** An action that is not allowed is refused and changes nothing. */
  function Perform(w: World, s: State, a: Action): State {
    if !Allowed(s, a) then s else
    match a
    case CreateNamespace(n, l) =>
      s.(namespaces := s.namespaces[n := Cell(Namespace(l, map[], false, s.clock + 1), map[])], clock := s.clock + 1)
    case Relabel(n, l) => Touch(s, n, s.namespaces[n].meta.(classLabel := l))
    case Annotate(n, key, value) =>
      Touch(s, n, s.namespaces[n].meta.(annotations := s.namespaces[n].meta.annotations[Foreign(key) := value]))
    case DeleteNamespace(n) => Touch(s, n, s.namespaces[n].meta.(deleting := true))
    case PurgeNamespace(n) => s.(namespaces := s.namespaces - {n})
    case CreateClass(c, spec, fs) => PutClass(s, c, Class(spec, fs, false, 1, Status(0, false, []), 0))
    case EditSpec(c, spec) => PutClass(s, c, s.classes[c].(spec := spec, generation := s.classes[c].generation + 1))
    case DeleteClass(c) =>
      if s.classes[c].finalizers == [] then s.(classes := s.classes - {c}, clock := s.clock + 1)
      else PutClass(s, c, s.classes[c].(deleting := true))
    case PutObject(n, id, obj) => PutObjects(s, n, s.namespaces[n].objects[id := Stored(obj, s.clock + 1)])
    case RemoveObject(n, id) => PutObjects(s, n, s.namespaces[n].objects - {id})
    case Reconcile(name) => Request(w, s, name).state
  }

  function Run(w: World, s: State, actions: seq<Action>): State
    decreases |actions|
  {
    if actions == [] then s else Run(w, Perform(w, s, actions[0]), actions[1..])
  }

  // ---------- The ownership invariant over whole runs ----------

  /** Only sound specs are ever installed. */
  ghost predicate Permitted(w: World, home: string -> string, a: Action) {
    match a
    case CreateClass(_, spec, _) => Sound(w, home, spec)
    case EditSpec(_, spec) => Sound(w, home, spec)
    case _ => true
  }

  ghost predicate NamespaceInv(w: World, home: string -> string, v: NsView) {
    ManagedAtHome(w, home, v) && (v.deleting || Owned(v))
  }

  /** In each live namespace the objects with an owner label belong to its current class,
      and there are none when no class is recorded as applied. */
  ghost predicate OwnershipInv(w: World, home: string -> string, v: View) {
    && (forall n <- v.namespaces :: NamespaceInv(w, home, v.namespaces[n]))
    && (forall c <- v.classes :: Sound(w, home, v.classes[c].spec))
  }

  lemma SettlePreserves(w: World, home: string -> string, v: NsView, c: string, spec: seq<RawResource>,
                        known: set<string>)
    requires c != "" && Sound(w, home, spec) && ValidIds(v) && NamespaceInv(w, home, v)
    ensures NamespaceInv(w, home, Settle(w, v, c, spec, known))
  {
    SettleStaysAtHome(w, home, v, c, spec, known);
    if !v.deleting {
      SettleKeepsOwnership(w, home, v, c, spec, known);
    }
  }

  lemma FinalizePreserves(w: World, home: string -> string, v: NsView, c: string)
    requires NamespaceInv(w, home, v) && Lookup(v.annotations, Current) == c
    ensures NamespaceInv(w, home, Finalized(w, v, c))
  {
    if !v.deleting {
      FinalizedOwnsNothing(w, home, v, c);
    }
  }

  lemma ViewIsValid(s: State)
    requires Wf(s)
    ensures forall n <- ViewOf(s).namespaces :: ValidIds(ViewOf(s).namespaces[n])
    ensures forall c <- ViewOf(s).classes :: c != ""
  {}

  lemma IdealRequestKeepsOwnership(w: World, home: string -> string, v: View, name: string)
    requires OwnershipInv(w, home, v)
    requires (forall n <- v.namespaces :: ValidIds(v.namespaces[n])) && forall c <- v.classes :: c != ""
    ensures OwnershipInv(w, home, IdealRequest(w, v, name))
  {
    var u := IdealRequest(w, v, name);
    forall n | n in u.namespaces ensures NamespaceInv(w, home, u.namespaces[n]) {
      var c := v.namespaces[n].classLabel;
      if Reached(v, name, n) {
        SettlePreserves(w, home, v.namespaces[n], c, v.classes[c].spec, v.classes.Keys);
      }
    }
  }

  lemma IdealTerminateKeepsOwnership(w: World, home: string -> string, v: View, c: string, status: map<string,
                                     StatusEntry>)
    requires OwnershipInv(w, home, v) && c in v.classes
    requires (forall n <- v.namespaces :: ValidIds(v.namespaces[n])) && forall c <- v.classes :: c != ""
    ensures OwnershipInv(w, home, IdealTerminate(w, v, c, status))
  {
    var u := IdealTerminate(w, v, c, status);
    forall n | n in u.namespaces ensures NamespaceInv(w, home, u.namespaces[n]) {
      if v.namespaces[n].classLabel == c {
        SettlePreserves(w, home, v.namespaces[n], c, v.classes[c].spec, v.classes.Keys);
        SettledIsSettled(v.namespaces[n], c);
        FinalizePreserves(w, home, Settle(w, v.namespaces[n], c, v.classes[c].spec, v.classes.Keys), c);
      }
    }
  }

  lemma RequestKeepsOwnership(w: World, home: string -> string, s: State, name: string)
    requires AlwaysCalm(w) && WorldOk(w) && Wf(s) && OwnershipInv(w, home, ViewOf(s))
    ensures var t := Request(w, s, name).state; Wf(t) && OwnershipInv(w, home, ViewOf(t))
  {
    ViewIsValid(s);
    if name in s.classes && s.classes[name].deleting {
      var status := TerminatingRequestIs(w, s, name);
      IdealTerminateKeepsOwnership(w, home, ViewOf(s), name, status);
    } else {
      RequestRefinesIdeal(w, s, name);
      IdealRequestKeepsOwnership(w, home, ViewOf(s), name);
    }
  }

  lemma NamespaceChangeKeepsOwnership(w: World, home: string -> string, s: State, t: State, n: string)
    requires OwnershipInv(w, home, ViewOf(s)) && t.classes == s.classes
    requires n in t.namespaces && forall m <- t.namespaces | m != n ::
                                    m in s.namespaces && t.namespaces[m] == s.namespaces[m]
    requires NamespaceInv(w, home, ViewNs(t.namespaces[n]))
    ensures OwnershipInv(w, home, ViewOf(t))
  {
    forall m | m in ViewOf(t).namespaces ensures NamespaceInv(w, home, ViewOf(t).namespaces[m]) {
      assert m != n ==> ViewOf(t).namespaces[m] == ViewOf(s).namespaces[m];
    }
    assert ViewOf(t).classes == ViewOf(s).classes;
  }

  lemma ClassChangeKeepsOwnership(w: World, home: string -> string, s: State, t: State, c: string)
    requires OwnershipInv(w, home, ViewOf(s)) && t.namespaces == s.namespaces
    requires forall d <- t.classes | d != c :: d in s.classes && t.classes[d] == s.classes[d]
    requires c in t.classes ==> Sound(w, home, t.classes[c].spec)
    ensures OwnershipInv(w, home, ViewOf(t))
  {
    forall d | d in ViewOf(t).classes ensures Sound(w, home, ViewOf(t).classes[d].spec) {
      assert d != c ==> ViewOf(t).classes[d] == ViewOf(s).classes[d];
    }
    assert ViewOf(t).namespaces == ViewOf(s).namespaces;
  }

  predicate OnClass(a: Action) {
    a.CreateClass? || a.EditSpec? || a.DeleteClass?
  }

  /** An action on a namespace changes that namespace at most. */
  lemma NamespaceActionFrame(w: World, s: State, a: Action)
    requires !OnClass(a) && !a.Reconcile? && Allowed(s, a)
    ensures var t := Perform(w, s, a);
            && s.clock <= t.clock && t.classes == s.classes
               && t.namespaces.Keys - {a.name} == s.namespaces.Keys - {a.name}
            && forall m <- t.namespaces | m != a.name :: t.namespaces[m] == s.namespaces[m]
  {}

  /** An action on a class changes that class at most. */
  lemma ClassActionFrame(w: World, s: State, a: Action)
    requires OnClass(a) && Allowed(s, a)
    ensures var t := Perform(w, s, a);
            && s.clock <= t.clock && t.namespaces == s.namespaces
               && t.classes.Keys - {a.name} == s.classes.Keys - {a.name}
            && forall d <- t.classes | d != a.name :: t.classes[d] == s.classes[d]
  {}

  /** What users do to a namespace leaves its two class annotations alone. */
  lemma ActionKeepsAnnotations(w: World, s: State, a: Action)
    requires !OnClass(a) && !a.Reconcile? && Allowed(s, a) && a.name in Perform(w, s, a).namespaces
    ensures var after := Perform(w, s, a).namespaces[a.name].meta.annotations;
            forall key <- [LastApplied, Current] ::
              Lookup(after, key) == if a.name in s.namespaces then Lookup(s.namespaces[a.name].meta.annotations, key)
                                    else ""
    ensures a.name !in s.namespaces ==> a.CreateNamespace?
  {}

  ghost predicate CellWf(s: State, n: string) {
    n in s.namespaces ==> s.namespaces[n].meta.version <= s.clock && forall id <- s.namespaces[n].objects :: ValidId(id)
  }

  lemma NamespaceActionCell(w: World, s: State, a: Action)
    requires !OnClass(a) && !a.Reconcile? && Allowed(s, a) && CellWf(s, a.name)
    ensures CellWf(Perform(w, s, a), a.name)
  {}

  lemma UserKeepsWf(w: World, s: State, a: Action)
    requires Wf(s) && !a.Reconcile?
    ensures Wf(Perform(w, s, a))
  {
    if Allowed(s, a) {
      var t := Perform(w, s, a);
      if OnClass(a) {
        ClassActionFrame(w, s, a);
        ClassChangeIsWf(s, t, a.name);
      } else {
        NamespaceActionFrame(w, s, a);
        NamespaceActionCell(w, s, a);
        NamespaceChangeIsWf(s, t, a.name);
      }
    }
  }

  lemma NamespaceChangeIsWf(s: State, t: State, n: string)
    requires Wf(s) && s.clock <= t.clock && t.classes == s.classes && CellWf(t, n)
    requires forall m <- t.namespaces | m != n :: m in s.namespaces && t.namespaces[m] == s.namespaces[m]
    ensures Wf(t)
  {
    forall m | m in t.namespaces ensures CellWf(t, m) {
      assert m != n ==> CellWf(s, m);
    }
  }

  lemma ClassChangeIsWf(s: State, t: State, c: string)
    requires Wf(s) && s.clock <= t.clock && t.namespaces == s.namespaces
    requires c in t.classes ==> c != "" && t.classes[c].version <= t.clock
    requires forall d <- t.classes | d != c :: d in s.classes && t.classes[d] == s.classes[d]
    ensures Wf(t)
  {}

  /** The view where only one class differs. */
  lemma ClassViewsDifferAt(s: State, t: State, c: string)
    requires t.namespaces == s.namespaces
    requires forall d <- t.classes | d != c :: d in s.classes && t.classes[d] == s.classes[d]
    ensures ViewOf(t).namespaces == ViewOf(s).namespaces
    ensures forall d <- ViewOf(t).classes | d != c ::
              d in ViewOf(s).classes && ViewOf(t).classes[d] == ViewOf(s).classes[d]
  {}

  /** The view where only one namespace differs. */
  lemma ViewsDifferAt(s: State, t: State, n: string)
    requires t.classes == s.classes
    requires forall m <- t.namespaces | m != n :: m in s.namespaces && t.namespaces[m] == s.namespaces[m]
    ensures ViewOf(t).classes == ViewOf(s).classes
    ensures forall m <- ViewOf(t).namespaces | m != n ::
              m in ViewOf(s).namespaces && ViewOf(t).namespaces[m] == ViewOf(s).namespaces[m]
  {}

  lemma ClassActionKeepsOwnership(w: World, home: string -> string, s: State, a: Action)
    requires OwnershipInv(w, home, ViewOf(s)) && Permitted(w, home, a) && OnClass(a) && Allowed(s, a)
    ensures OwnershipInv(w, home, ViewOf(Perform(w, s, a)))
  {
    if a.name in s.classes {
      assert ViewOf(s).classes[a.name].spec == s.classes[a.name].spec;
    }
    ClassChangeKeepsOwnership(w, home, s, Perform(w, s, a), a.name);
  }

  /** What a user does to one namespace, seen from its view. */
  /** u owns nothing that v does not own, and records the same classes. */
  ghost predicate NoNewOwner(v: NsView, u: NsView) {
    && Lookup(u.annotations, LastApplied) == Lookup(v.annotations, LastApplied)
    && Lookup(u.annotations, Current) == Lookup(v.annotations, Current)
    && (v.deleting ==> u.deleting)
    && forall id <- u.objects | OwnerOf(u.objects[id]) != "" ::
         id in v.objects && OwnerOf(v.objects[id]) == OwnerOf(u.objects[id])
  }

  lemma NoNewOwnerKeepsInv(w: World, home: string -> string, v: NsView, u: NsView)
    requires NamespaceInv(w, home, v) && NoNewOwner(v, u)
    ensures NamespaceInv(w, home, u)
  {}

  lemma ActionAddsNoOwner(w: World, s: State, a: Action)
    requires !OnClass(a) && !a.Reconcile? && !a.PurgeNamespace? && !a.CreateNamespace? && Allowed(s, a)
    ensures a.name in s.namespaces && a.name in Perform(w, s, a).namespaces
    ensures NoNewOwner(ViewNs(s.namespaces[a.name]), ViewNs(Perform(w, s, a).namespaces[a.name]))
  {}

  lemma NamespaceActionInv(w: World, home: string -> string, s: State, a: Action)
    requires !OnClass(a) && !a.Reconcile? && !a.PurgeNamespace? && Allowed(s, a)
    requires a.name in s.namespaces ==> NamespaceInv(w, home, ViewNs(s.namespaces[a.name]))
    ensures a.name in Perform(w, s, a).namespaces
    ensures NamespaceInv(w, home, ViewNs(Perform(w, s, a).namespaces[a.name]))
  {
    if !a.CreateNamespace? {
      ActionAddsNoOwner(w, s, a);
      NoNewOwnerKeepsInv(w, home, ViewNs(s.namespaces[a.name]), ViewNs(Perform(w, s, a).namespaces[a.name]));
    }
  }

  lemma NamespaceActionIs(w: World, home: string -> string, s: State, a: Action)
    requires !OnClass(a) && !a.Reconcile? && !a.PurgeNamespace? && Allowed(s, a)
    requires a.name in s.namespaces ==> NamespaceInv(w, home, ViewNs(s.namespaces[a.name]))
    ensures var t := Perform(w, s, a);
            && t.classes == s.classes && t.namespaces.Keys == s.namespaces.Keys + {a.name}
            && (forall m <- t.namespaces | m != a.name :: t.namespaces[m] == s.namespaces[m])
            && NamespaceInv(w, home, ViewNs(t.namespaces[a.name]))
  {
    NamespaceActionFrame(w, s, a);
    NamespaceActionInv(w, home, s, a);
    assert forall m :: m in Perform(w, s, a).namespaces.Keys - {a.name} <==> m in s.namespaces.Keys - {a.name};
  }

  lemma UserKeepsOwnership(w: World, home: string -> string, s: State, a: Action)
    requires OwnershipInv(w, home, ViewOf(s)) && Permitted(w, home, a) && !a.Reconcile?
    ensures OwnershipInv(w, home, ViewOf(Perform(w, s, a)))
  {
    if Allowed(s, a) {
      var t := Perform(w, s, a);
      if OnClass(a) {
        ClassActionKeepsOwnership(w, home, s, a);
      } else if a.PurgeNamespace? {
        assert ViewOf(t).classes == ViewOf(s).classes;
        assert forall m <- ViewOf(t).namespaces :: ViewOf(t).namespaces[m] == ViewOf(s).namespaces[m];
      } else {
        if a.name in s.namespaces {
          assert ViewOf(s).namespaces[a.name] == ViewNs(s.namespaces[a.name]);
        }
        NamespaceActionIs(w, home, s, a);
        NamespaceChangeKeepsOwnership(w, home, s, t, a.name);
      }
    }
  }

  /** The ownership invariant holds after every failure-free serialized run of users and
      reconciles, whatever the order, as long as only sound specs are installed. */
  lemma {:induction false} RunKeepsOwnership(w: World, home: string -> string, s: State, actions: seq<Action>)
    requires AlwaysCalm(w) && WorldOk(w) && Wf(s) && OwnershipInv(w, home, ViewOf(s))
    requires forall a <- actions :: Permitted(w, home, a)
    ensures var t := Run(w, s, actions); Wf(t) && OwnershipInv(w, home, ViewOf(t))
    decreases |actions|
  {
    if actions != [] {
      var a := actions[0];
      assert a in actions;
      if a.Reconcile? {
        RequestKeepsOwnership(w, home, s, a.name);
      } else {
        UserKeepsWf(w, s, a);
        UserKeepsOwnership(w, home, s, a);
      }
      RunKeepsOwnership(w, home, Perform(w, s, a), actions[1..]);
    }
  }

  /** In particular every run from an empty cluster. */
  lemma EmptyClusterOwnership(w: World, home: string -> string, actions: seq<Action>)
    requires AlwaysCalm(w) && WorldOk(w) && forall a <- actions :: Permitted(w, home, a)
    ensures OwnershipInv(w, home, ViewOf(Run(w, State(map[], map[], 0, 0, []), actions)))
  {
    RunKeepsOwnership(w, home, State(map[], map[], 0, 0, []), actions);
  }

  /** From a state with the invariant, one request on a terminating class leaves no owner
      label at all in its live namespaces, of whatever kind. */
  lemma TerminationLeavesNothing(w: World, home: string -> string, s: State, c: string)
    requires AlwaysCalm(w) && WorldOk(w) && Wf(s) && OwnershipInv(w, home, ViewOf(s))
    requires c in s.classes && s.classes[c].deleting
    ensures var v := ViewOf(Request(w, s, c).state);
            forall n <- v.namespaces | v.namespaces[n].classLabel == c && !v.namespaces[n].deleting ::
              forall id <- v.namespaces[n].objects :: OwnerOf(v.namespaces[n].objects[id]) == ""
  {
    ViewIsValid(s);
    var status := TerminatingRequestIs(w, s, c);
    IdealTerminateKeepsOwnership(w, home, ViewOf(s), c, status);
    var v := ViewOf(Request(w, s, c).state);
    forall n | n in v.namespaces && v.namespaces[n].classLabel == c && !v.namespaces[n].deleting
      ensures forall id <- v.namespaces[n].objects :: OwnerOf(v.namespaces[n].objects[id]) == "" {
      TerminatedIsReset(w, ViewOf(s), c, status, n);
      assert NamespaceInv(w, home, v.namespaces[n]);
    }
  }

  lemma TerminatedIsReset(w: World, v: View, c: string, status: map<string, StatusEntry>, n: string)
    requires c in v.classes && n in v.namespaces
    requires var u := IdealTerminate(w, v, c, status).namespaces[n]; u.classLabel == c && !u.deleting
    ensures Lookup(IdealTerminate(w, v, c, status).namespaces[n].annotations, LastApplied) == ""
  {}
}
