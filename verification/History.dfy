/** What the two annotations record: the last two classes applied since the last reset. */
module History {
  import opened Kube
  import opened Controller
  import opened Weather
  import opened Ideal
  import opened Requests
  import opened Termination
  import opened Runs

  // ---------- The history of a namespace, told without annotations ----------

  /** Something that happened to one namespace. */
  datatype Happening = Applied(c: string) | Reset

  /** A reconcile applies the label's class to every namespace it reaches; a terminating class
      then resets its live members; a created or purged namespace starts afresh. */
  ghost function Happenings(s: State, a: Action, n: string): seq<Happening> {
    match a
    case Reconcile(name) =>
      if !Reached(ViewOf(s), name, n) then [] else
      [Applied(s.namespaces[n].meta.classLabel)]
      + (if name in s.classes && s.classes[name].deleting && !s.namespaces[n].meta.deleting then [Reset] else [])
    case CreateNamespace(m, _) => if Allowed(s, a) && m == n then [Reset] else []
    case PurgeNamespace(m) => if Allowed(s, a) && m == n then [Reset] else []
    case _ => []
  }

  /** The stutter-free sequence of classes applied since the last reset. */
  function Extend(h: seq<string>, x: Happening): seq<string> {
    match x
    case Reset => []
    case Applied(c) => if h != [] && h[|h| - 1] == c then h else h + [c]
  }

  function ExtendAll(h: seq<string>, xs: seq<Happening>): seq<string>
    decreases |xs|
  {
    if xs == [] then h else ExtendAll(Extend(h, xs[0]), xs[1..])
  }

  ghost function HistoryOf(w: World, s: State, actions: seq<Action>, n: string, h: seq<string>): seq<string>
    decreases |actions|
  {
    if actions == [] then h
    else HistoryOf(w, Perform(w, s, actions[0]), actions[1..], n, ExtendAll(h, Happenings(s, actions[0], n)))
  }

  // ---------- The annotations tell the same ----------

  /** Current is the last class of the history and last-applied the one before it (the same
      one when there is only one); no history means no last-applied class. */
  ghost predicate Tells(a: Annotations, h: seq<string>) {
    if h == [] then Lookup(a, LastApplied) == "" else
    && Lookup(a, Current) == h[|h| - 1] != ""
    && Lookup(a, LastApplied) == (if |h| == 1 then h[0] else h[|h| - 2]) != ""
  }

  lemma SettledTells(v: NsView, c: string, h: seq<string>)
    requires c != "" && Tells(v.annotations, h)
    ensures Tells(SettledAnnotations(v, c), Extend(h, Applied(c)))
  {}

  ghost predicate Told(s: State, n: string, h: seq<string>) {
    if n in s.namespaces then Tells(s.namespaces[n].meta.annotations, h) else h == []
  }

  lemma ViewAt(s: State, n: string)
    requires n in s.namespaces
    ensures n in ViewOf(s).namespaces && ViewOf(s).namespaces[n] == ViewNs(s.namespaces[n])
  {}

  lemma RequestTells(w: World, s: State, name: string, n: string, h: seq<string>)
    requires AlwaysCalm(w) && WorldOk(w) && Wf(s) && Told(s, n, h)
    ensures var a := Reconcile(name);
            Wf(Perform(w, s, a)) && Told(Perform(w, s, a), n, ExtendAll(h, Happenings(s, a, n)))
  {
    var t := Request(w, s, name).state;
    if name in s.classes && s.classes[name].deleting {
      var status := TerminatingRequestIs(w, s, name);
      TerminatingTells(w, s, t, name, n, h, status);
    } else {
      RequestRefinesIdeal(w, s, name);
      OrdinaryTells(w, s, t, name, n, h);
    }
  }

  lemma OrdinaryTells(w: World, s: State, t: State, name: string, n: string, h: seq<string>)
    requires Wf(s) && Told(s, n, h) && (name in s.classes ==> !s.classes[name].deleting)
    requires ViewOf(t) == IdealRequest(w, ViewOf(s), name)
    ensures Told(t, n, ExtendAll(h, Happenings(s, Reconcile(name), n)))
  {
    assert ViewOf(t).namespaces.Keys == t.namespaces.Keys;
    if n in s.namespaces {
      ViewAt(s, n);
      ViewAt(t, n);
      OrdinaryAnnotations(w, ViewOf(s), name, n, h);
      OrdinaryHappenings(s, name, n);
    }
  }

  lemma OrdinaryHappenings(s: State, name: string, n: string)
    requires n in s.namespaces && (name in s.classes ==> !s.classes[name].deleting)
    ensures Happenings(s, Reconcile(name), n) ==
            if Reached(ViewOf(s), name, n) then [Applied(s.namespaces[n].meta.classLabel)] else []
  {}

  lemma OrdinaryAnnotations(w: World, v: View, name: string, n: string, h: seq<string>)
    requires n in v.namespaces && Tells(v.namespaces[n].annotations, h) && forall c <- v.classes :: c != ""
    ensures n in IdealRequest(w, v, name).namespaces
    ensures var after := IdealRequest(w, v, name).namespaces[n].annotations;
            Tells(after, ExtendAll(h, if Reached(v, name, n) then [Applied(v.namespaces[n].classLabel)] else []))
  {
    var ns := v.namespaces[n];
    if Reached(v, name, n) {
      SettledTells(ns, ns.classLabel, h);
      assert ExtendAll(h, [Applied(ns.classLabel)]) == Extend(h, Applied(ns.classLabel));
    }
  }

  lemma FinalizedTells(w: World, v: NsView, c: string, spec: seq<RawResource>, known: set<string>, h: seq<string>)
    requires c != "" && Tells(v.annotations, h)
    ensures Tells(Finalized(w, Settle(w, v, c, spec, known), c).annotations,
                  ExtendAll(h, [Applied(c)] + (if v.deleting then [] else [Reset])))
  {
    var x := Applied(c);
    SettledTells(v, c, h);
    assert ExtendAll(h, [x]) == Extend(h, x) && [x] + [] == [x];
    assert ([x] + [Reset])[1..] == [Reset];
    assert ExtendAll(Extend(h, x), [Reset]) == [];
  }

  lemma TerminatedAnnotations(w: World, v: View, name: string, n: string, h: seq<string>, status: map<string,
                              StatusEntry>)
    requires n in v.namespaces && Tells(v.namespaces[n].annotations, h) && name in v.classes && name != ""
    ensures n in IdealTerminate(w, v, name, status).namespaces
    ensures var ns, after := v.namespaces[n], IdealTerminate(w, v, name, status).namespaces[n].annotations;
            if ns.classLabel == name
              then Tells(after, ExtendAll(h, [Applied(name)] + (if ns.deleting then [] else [Reset])))
            else after == ns.annotations
  {
    if v.namespaces[n].classLabel == name {
      FinalizedTells(w, v.namespaces[n], name, v.classes[name].spec, v.classes.Keys, h);
    }
  }

  lemma TerminatingTells(w: World, s: State, t: State, name: string, n: string, h: seq<string>, status: map<string,
                         StatusEntry>)
    requires Wf(s) && Told(s, n, h) && name in s.classes && s.classes[name].deleting
    requires ViewOf(t) == IdealTerminate(w, ViewOf(s), name, status)
    ensures Told(t, n, ExtendAll(h, Happenings(s, Reconcile(name), n)))
  {
    assert ViewOf(t).namespaces.Keys == t.namespaces.Keys;
    if n in s.namespaces {
      ViewAt(s, n);
      ViewAt(t, n);
      TerminatedAnnotations(w, ViewOf(s), name, n, h, status);
      TerminatingHappenings(s, name, n);
    }
  }

  lemma TerminatingHappenings(s: State, name: string, n: string)
    requires n in s.namespaces && name in s.classes && s.classes[name].deleting
    ensures Happenings(s, Reconcile(name), n) ==
            if s.namespaces[n].meta.classLabel != name then []
            else [Applied(name)] + (if s.namespaces[n].meta.deleting then [] else [Reset])
  {
    ViewAt(s, n);
  }

  /** Users reset a history by creating or purging the namespace, and do not write it otherwise. */
  lemma UserHappenings(s: State, a: Action, n: string)
    requires !a.Reconcile?
    ensures Happenings(s, a, n) ==
            if Allowed(s, a) && (a.CreateNamespace? || a.PurgeNamespace?) && a.name == n then [Reset] else []
  {}

  lemma UserLeavesOthers(w: World, s: State, a: Action, n: string)
    requires !a.Reconcile? && (!Allowed(s, a) || OnClass(a) || a.name != n)
    ensures var t := Perform(w, s, a);
            (n in t.namespaces <==> n in s.namespaces) && (n in s.namespaces ==> t.namespaces[n] == s.namespaces[n])
  {
    if Allowed(s, a) {
      if OnClass(a) {
        ClassActionFrame(w, s, a);
      } else {
        var t := Perform(w, s, a);
        NamespaceActionFrame(w, s, a);
        assert n in t.namespaces.Keys - {a.name} <==> n in s.namespaces.Keys - {a.name};
      }
    }
  }

  lemma UserTells(w: World, s: State, a: Action, n: string, h: seq<string>)
    requires !a.Reconcile? && Told(s, n, h)
    ensures Told(Perform(w, s, a), n, ExtendAll(h, Happenings(s, a, n)))
  {
    assert ExtendAll(h, [Reset]) == [];
    UserHappenings(s, a, n);
    if !Allowed(s, a) || OnClass(a) || a.name != n {
      UserLeavesOthers(w, s, a, n);
    } else if n in Perform(w, s, a).namespaces {
      ActionKeepsAnnotations(w, s, a);
      assert LastApplied in [LastApplied, Current] && Current in [LastApplied, Current];
    }
  }

  /** In every failure-free serialized run the two annotations are the final two elements of
      the history, and so "last-applied set, current empty" is never reached. */
  lemma {:induction false} AnnotationsTellHistory(w: World, s: State, actions: seq<Action>, n: string, h: seq<string>)
    requires AlwaysCalm(w) && WorldOk(w) && Wf(s) && Told(s, n, h)
    ensures var t := Run(w, s, actions);
            && Told(t, n, HistoryOf(w, s, actions, n, h))
            && (n in t.namespaces && Lookup(t.namespaces[n].meta.annotations, LastApplied) != ""
                ==> Lookup(t.namespaces[n].meta.annotations, Current) != "")
    decreases |actions|
  {
    if actions != [] {
      var a := actions[0];
      if a.Reconcile? {
        RequestTells(w, s, a.name, n, h);
      } else {
        UserKeepsWf(w, s, a);
        UserTells(w, s, a, n, h);
      }
      AnnotationsTellHistory(w, Perform(w, s, a), actions[1..], n, ExtendAll(h, Happenings(s, a, n)));
    }
  }
}
