/** Status and annotations: what a class reports as the class a namespace came from. */
module Agreement {
  import opened Kube
  import opened Controller
  import opened Weather
  import opened Ideal
  import opened Requests
  import opened Runs
  import Statuses

  /** The runs considered: specs apply completely, classes have no finalizers, and a namespace
      is not created under a name some status still reports a previous class for. */
  ghost predicate Ordinary(w: World, s: State, a: Action) {
    match a
    case CreateClass(_, spec, fs) => Count(w, spec) == |spec| && fs == []
    case EditSpec(_, spec) => Count(w, spec) == |spec|
    case CreateNamespace(n, _) => forall c <- s.classes :: LastOf(ViewClass(s.classes[c]).status, n) == ""
    case _ => true
  }

  ghost predicate OrdinaryRun(w: World, s: State, actions: seq<Action>)
    decreases |actions|
  {
    actions != [] ==> Ordinary(w, s, actions[0]) && OrdinaryRun(w, Perform(w, s, actions[0]), actions[1..])
  }

  /** A last-applied class never stands alone. */
  predicate Paired(ns: NsView) {
    Lookup(ns.annotations, LastApplied) != "" ==> Lookup(ns.annotations, Current) != ""
  }

  /** A reported previous class means that one is recorded; the report of the current class is the record. */
  ghost predicate Agrees(ns: NsView, n: string, c: string, nc: ClassView) {
    var last, current := Lookup(ns.annotations, LastApplied), Lookup(ns.annotations, Current);
    LastOf(nc.status, n) != "" ==> last != "" && (current == c ==> LastOf(nc.status, n) == last)
  }

  ghost predicate AgreementInv(w: World, v: View) {
    && (forall c <- v.classes :: c != "" && Count(w, v.classes[c].spec) == |v.classes[c].spec|
                                 && !v.classes[c].deleting && v.classes[c].finalizers == [])
    && (forall n <- v.namespaces :: Paired(v.namespaces[n]))
    && (forall n <- v.namespaces, c <- v.classes :: Agrees(v.namespaces[n], n, c, v.classes[c]))
  }

  /** A settled namespace agrees with every class, if its own class reports what it recorded. */
  lemma SettledAgrees(w: World, v: View, n: string, d: string, status: Statuses.StatusMap)
    requires AgreementInv(w, v) && n in v.namespaces && v.namespaces[n].classLabel in v.classes && d in v.classes
    requires var ns, c := v.namespaces[n], v.namespaces[n].classLabel;
             LastOf(status, n) == if d == c && SwitchedFrom(ns, c) != "" then SwitchedFrom(ns, c)
                                  else LastOf(v.classes[d].status, n)
    ensures var ns, c := v.namespaces[n], v.namespaces[n].classLabel;
            Agrees(Settle(w, ns, c, v.classes[c].spec, v.classes.Keys), n, d, v.classes[d].(status := status))
  {
    var ns, c := v.namespaces[n], v.namespaces[n].classLabel;
    assert Paired(ns) && Agrees(ns, n, d, v.classes[d]);
    SettledIsSettled(ns, c);
  }

  lemma NamespaceRequestAgrees(w: World, v: View, n: string)
    requires AgreementInv(w, v)
    ensures AgreementInv(w, IdealNamespace(w, v, n))
  {
    if Governed(v, n) {
      var u := IdealNamespace(w, v, n);
      forall m, d | m in u.namespaces && d in u.classes ensures Agrees(u.namespaces[m], m, d, u.classes[d]) {
        assert Agrees(v.namespaces[m], m, d, v.classes[d]);
        if m == n {
          SettledAgrees(w, v, n, d, u.classes[d].status);
        }
      }
      SettledIsSettled(v.namespaces[n], v.namespaces[n].classLabel);
    }
  }

  lemma ClassRequestAgrees(w: World, v: View, c: string)
    requires AgreementInv(w, v) && c in v.classes
    ensures AgreementInv(w, IdealClass(w, v, c))
  {
    var u := IdealClass(w, v, c);
    forall m | m in u.namespaces ensures Paired(u.namespaces[m]) {
      assert Paired(v.namespaces[m]);
      SettledIsSettled(v.namespaces[m], c);
    }
    forall m, d | m in u.namespaces && d in u.classes ensures Agrees(u.namespaces[m], m, d, u.classes[d]) {
      assert Agrees(v.namespaces[m], m, d, v.classes[d]);
      if v.namespaces[m].classLabel == c {
        assert m in Members(v, c);
        SettledAgrees(w, v, m, d, u.classes[d].status);
      }
    }
  }

  lemma ClassChangeAgrees(w: World, v: View, u: View, c: string)
    requires AgreementInv(w, v) && u.namespaces == v.namespaces
    requires forall d <- u.classes | d != c :: d in v.classes && u.classes[d] == v.classes[d]
    requires c in u.classes ==>
               && c != "" && Count(w, u.classes[c].spec) == |u.classes[c].spec|
               && !u.classes[c].deleting && u.classes[c].finalizers == []
               && u.classes[c].status == if c in v.classes then v.classes[c].status else map[]
    ensures AgreementInv(w, u)
  {
    forall n, d | n in u.namespaces && d in u.classes ensures Agrees(u.namespaces[n], n, d, u.classes[d]) {
      assert d in v.classes ==> Agrees(v.namespaces[n], n, d, v.classes[d]);
    }
  }

  lemma ClassActionIsOrdinary(w: World, s: State, a: Action)
    requires Ordinary(w, s, a) && OnClass(a) && Allowed(s, a) && a.name in Perform(w, s, a).classes
    requires a.name in s.classes ==>
               && a.name != "" && Count(w, s.classes[a.name].spec) == |s.classes[a.name].spec|
               && !s.classes[a.name].deleting && s.classes[a.name].finalizers == []
    ensures var nc := ViewClass(Perform(w, s, a).classes[a.name]);
            && a.name != "" && Count(w, nc.spec) == |nc.spec| && !nc.deleting && nc.finalizers == []
            && nc.status == if a.name in s.classes then ViewClass(s.classes[a.name]).status else map[]
  {}

  lemma ClassActionAgrees(w: World, s: State, a: Action)
    requires AgreementInv(w, ViewOf(s)) && Ordinary(w, s, a) && OnClass(a) && Allowed(s, a)
    ensures AgreementInv(w, ViewOf(Perform(w, s, a)))
  {
    var t, c := Perform(w, s, a), a.name;
    var v, u := ViewOf(s), ViewOf(t);
    ClassActionFrame(w, s, a);
    ClassViewsDifferAt(s, t, c);
    assert c in s.classes ==> v.classes[c] == ViewClass(s.classes[c]);
    assert c in t.classes ==> u.classes[c] == ViewClass(t.classes[c]);
    if c in t.classes { ClassActionIsOrdinary(w, s, a); }
    ClassChangeAgrees(w, v, u, c);
  }

  lemma NamespaceChangeAgrees(w: World, v: View, u: View, n: string)
    requires AgreementInv(w, v) && u.classes == v.classes
    requires forall m <- u.namespaces | m != n :: m in v.namespaces && u.namespaces[m] == v.namespaces[m]
    requires n in u.namespaces ==> forall key <- [LastApplied, Current] ::
               Lookup(u.namespaces[n].annotations, key) == if n in v.namespaces
                                                           then Lookup(v.namespaces[n].annotations, key) else ""
    requires n in u.namespaces && n !in v.namespaces ==> forall c <- v.classes :: LastOf(v.classes[c].status, n) == ""
    ensures AgreementInv(w, u)
  {
    if n in u.namespaces {
      var after := u.namespaces[n].annotations;
      var before := if n in v.namespaces then v.namespaces[n].annotations else map[];
      assert LastApplied in [LastApplied, Current] && Current in [LastApplied, Current];
      assert Lookup(after, LastApplied) == Lookup(before, LastApplied)
             && Lookup(after, Current) == Lookup(before, Current);
      assert n in v.namespaces ==> Paired(v.namespaces[n]);
      forall d | d in u.classes ensures Agrees(u.namespaces[n], n, d, u.classes[d]) {
        assert n in v.namespaces ==> Agrees(v.namespaces[n], n, d, v.classes[d]);
      }
    }
  }

  lemma NamespaceActionAgrees(w: World, s: State, a: Action)
    requires AgreementInv(w, ViewOf(s)) && Ordinary(w, s, a) && !OnClass(a) && !a.Reconcile? && Allowed(s, a)
    ensures AgreementInv(w, ViewOf(Perform(w, s, a)))
  {
    var t, n := Perform(w, s, a), a.name;
    NamespaceActionFrame(w, s, a);
    ViewsDifferAt(s, t, n);
    assert n in s.namespaces ==> ViewOf(s).namespaces[n] == ViewNs(s.namespaces[n]);
    assert n in t.namespaces ==> ViewOf(t).namespaces[n] == ViewNs(t.namespaces[n]);
    if n in t.namespaces {
      ActionKeepsAnnotations(w, s, a);
      if n !in s.namespaces { NewNamespaceIsUnreported(w, s, a); }
    }
    NamespaceChangeAgrees(w, ViewOf(s), ViewOf(t), n);
  }

  lemma NewNamespaceIsUnreported(w: World, s: State, a: Action)
    requires Ordinary(w, s, a) && a.CreateNamespace?
    ensures forall c <- ViewOf(s).classes :: LastOf(ViewOf(s).classes[c].status, a.name) == ""
  {
    forall c | c in s.classes ensures LastOf(ViewOf(s).classes[c].status, a.name) == "" {
      assert ViewOf(s).classes[c] == ViewClass(s.classes[c]);
    }
  }

  lemma RequestAgrees(w: World, s: State, name: string)
    requires AlwaysCalm(w) && WorldOk(w) && Wf(s) && AgreementInv(w, ViewOf(s))
    ensures var t := Request(w, s, name).state; Wf(t) && AgreementInv(w, ViewOf(t))
  {
    if name in s.classes { assert ViewOf(s).classes[name] == ViewClass(s.classes[name]); }
    RequestRefinesIdeal(w, s, name);
    if name in s.classes {
      ClassRequestAgrees(w, ViewOf(s), name);
    } else {
      NamespaceRequestAgrees(w, ViewOf(s), name);
    }
  }

  /** What the current class of a namespace reports for it, if anything, is its last applied class. */
  predicate ReportsRecord(v: View, n: string)
    requires n in v.namespaces
  {
    var a := v.namespaces[n].annotations;
    var c := Lookup(a, Current);
    c in v.classes ==> LastOf(v.classes[c].status, n) in {"", Lookup(a, LastApplied)}
  }

  ghost predicate Reports(v: View) {
    forall n <- v.namespaces :: ReportsRecord(v, n)
  }

  lemma ReportsAgree(w: World, v: View)
    requires AgreementInv(w, v)
    ensures Reports(v)
  {
    forall n | n in v.namespaces ensures ReportsRecord(v, n) {
      var c := Lookup(v.namespaces[n].annotations, Current);
      assert c in v.classes ==> Agrees(v.namespaces[n], n, c, v.classes[c]);
    }
  }

  lemma UserActionAgrees(w: World, s: State, a: Action)
    requires Wf(s) && AgreementInv(w, ViewOf(s)) && Ordinary(w, s, a) && !a.Reconcile?
    ensures Wf(Perform(w, s, a)) && AgreementInv(w, ViewOf(Perform(w, s, a)))
  {
    UserKeepsWf(w, s, a);
    if Allowed(s, a) {
      if OnClass(a) { ClassActionAgrees(w, s, a); } else { NamespaceActionAgrees(w, s, a); }
    }
  }

  /** In failure-free serialized runs, across switches, switch-backs and refreshes, what the
      current class reports as a namespace's previous class is what the namespace records. */
  lemma {:induction false} StatusAgreesWithAnnotations(w: World, s: State, actions: seq<Action>)
    requires AlwaysCalm(w) && WorldOk(w) && Wf(s) && AgreementInv(w, ViewOf(s)) && OrdinaryRun(w, s, actions)
    ensures AgreementInv(w, ViewOf(Run(w, s, actions))) && Reports(ViewOf(Run(w, s, actions)))
    decreases |actions|
  {
    if actions == [] {
      ReportsAgree(w, ViewOf(s));
    } else {
      var a := actions[0];
      if a.Reconcile? {
        RequestAgrees(w, s, a.name);
      } else {
        UserActionAgrees(w, s, a);
      }
      StatusAgreesWithAnnotations(w, Perform(w, s, a), actions[1..]);
    }
  }
}
