/** Retry convergence: a request cut off after any of its calls, and then repeated,
    ends where an uninterrupted request ends. */
module Retry {
  import opened Kube
  import opened Controller
  import opened Weather
  import opened Ideal
  import opened Requests
  import Names

  /** Two scripts over one cluster. */
  ghost predicate SameCatalog(w: World, w': World) {
    w'.discovery == w.discovery && w'.served == w.served && w'.listable == w.listable
  }

  lemma {:induction false} CountByCatalog(w: World, w': World, spec: seq<RawResource>, i: nat)
    requires SameCatalog(w, w') && i <= |spec|
    ensures CountFrom(w', spec, i) == CountFrom(w, spec, i)
    decreases |spec| - i
  {
    if i < |spec| {
      CountByCatalog(w, w', spec, i + 1);
    }
  }

  lemma ListedByCatalog(w: World, w': World, sel: Selector, group: string, kind: string)
    requires SameCatalog(w, w')
    ensures Listed(w', sel, w'.discovery, group, kind) <==> Listed(w, sel, w.discovery, group, kind)
  {
    forall l | l in w.discovery ensures ListedBy(w', sel, l, group, kind) <==> ListedBy(w, sel, l, group, kind) {
      var p := Names.ParseGroupVersion(l.groupVersion);
      assert p.Good? ==> forall r <- l.resources :: Selects(w', sel, p.gv, r) <==> Selects(w, sel, p.gv, r);
    }
  }

  lemma SettleByCatalog(w: World, w': World, v: NsView, c: string, spec: seq<RawResource>, known: set<string>)
    requires SameCatalog(w, w')
    ensures Count(w', spec) == Count(w, spec)
    ensures Settle(w', v, c, spec, known) == Settle(w, v, c, spec, known)
  {
    CountByCatalog(w, w', spec, 0);
    forall sel, group, kind { ListedByCatalog(w, w', sel, group, kind); }
    assert Kept(w', v, c, spec, known) == Kept(w, v, c, spec, known);
  }

  /** What one namespace of a non-terminating request ends as. */
  ghost function Target(w: World, v: View, name: string, n: string): NsView
    requires n in v.namespaces
  {
    IdealRequest(w, v, name).namespaces[n]
  }

  lemma TargetIs(w: World, v: View, name: string, n: string)
    requires n in v.namespaces
    ensures n in IdealRequest(w, v, name).namespaces
    ensures var ns := v.namespaces[n];
            IdealRequest(w, v, name).namespaces[n] ==
            if Reached(v, name, n) then Settle(w, ns, ns.classLabel, v.classes[ns.classLabel].spec, v.classes.Keys)
              else ns
  {}

  /** `x` is what the request, refused from some call on, leaves; `w'` is fair weather. */
  lemma RetryConverges(w: World, w': World, s: State, name: string)
    requires Steady(w) && AlwaysCalm(w') && SameCatalog(w, w') && WorldOk(w)
    requires Wf(s) && (name in s.classes ==> !s.classes[name].deleting)
    ensures var x := Request(w, s, name).state;
            var retried, uninterrupted := Request(w', x, name).state, Request(w', s, name).state;
            && retried.namespaces.Keys == uninterrupted.namespaces.Keys == s.namespaces.Keys
            && forall n <- s.namespaces :: ViewNs(retried.namespaces[n]) == ViewNs(uninterrupted.namespaces[n])
  {
    var x := Request(w, s, name).state;
    if name in s.classes { ClassRequestIs(w, s, name); } else { NamespaceRequestIs(w, s, name); }
    assert WorldOk(w');
    RequestRefinesIdeal(w', s, name);
    RequestRefinesIdeal(w', x, name);
    RetryEnds(w, w', s, x, name, Request(w', x, name).state, Request(w', s, name).state);
  }

  lemma RetryEnds(w: World, w': World, s: State, x: State, name: string, retried: State, uninterrupted: State)
    requires SameCatalog(w, w') && Wf(s) && PartlyReconciled(w, s, x, name)
    requires ViewOf(retried) == IdealRequest(w', ViewOf(x), name)
    requires ViewOf(uninterrupted) == IdealRequest(w', ViewOf(s), name)
    ensures retried.namespaces.Keys == uninterrupted.namespaces.Keys == s.namespaces.Keys
    ensures forall n <- s.namespaces :: ViewNs(retried.namespaces[n]) == ViewNs(uninterrupted.namespaces[n])
  {
    IdealRequestKeys(w', ViewOf(s), name);
    IdealRequestKeys(w', ViewOf(x), name);
    PartialKeys(w, s, x, name);
    forall n | n in s.namespaces ensures Target(w', ViewOf(x), name, n) == Target(w', ViewOf(s), name, n) {
      PartialAt(w, s, x, name, n);
      RetryAt(w, w', ViewOf(s), ViewOf(x), name, n);
    }
    SameNamespaces(retried, uninterrupted, s.namespaces.Keys);
  }

  /** The class of one name, as a request sees it. */
  ghost predicate SameSpecs(v: View, u: View) {
    u.classes.Keys == v.classes.Keys && forall c <- v.classes :: u.classes[c].spec == v.classes[c].spec
  }

  lemma PartialKeys(w: World, s: State, x: State, name: string)
    requires PartlyReconciled(w, s, x, name)
    ensures ViewOf(x).namespaces.Keys == ViewOf(s).namespaces.Keys == s.namespaces.Keys
    ensures SameSpecs(ViewOf(s), ViewOf(x))
  {}

  lemma PartialAt(w: World, s: State, x: State, name: string, n: string)
    requires PartlyReconciled(w, s, x, name) && n in s.namespaces
    ensures n in ViewOf(s).namespaces && n in ViewOf(x).namespaces
    ensures var v, a, b := ViewOf(s), ViewOf(s).namespaces[n], ViewOf(x).namespaces[n];
            || b == a
            || (Reached(v, name, n) && Interrupted(w, a, b, a.classLabel, v.classes[a.classLabel].spec, v.classes.Keys))
  {
    assert ViewOf(s).classes.Keys == s.classes.Keys;
  }

  lemma IdealRequestKeys(w: World, v: View, name: string)
    ensures IdealRequest(w, v, name).namespaces.Keys == v.namespaces.Keys
  {}

  lemma SameNamespaces(a: State, b: State, names: set<string>)
    requires ViewOf(a).namespaces.Keys == ViewOf(b).namespaces.Keys == names
    requires forall n <- names :: ViewOf(a).namespaces[n] == ViewOf(b).namespaces[n]
    ensures a.namespaces.Keys == b.namespaces.Keys == names
    ensures forall n <- names :: ViewNs(a.namespaces[n]) == ViewNs(b.namespaces[n])
  {
    forall n | n in names ensures ViewNs(a.namespaces[n]) == ViewNs(b.namespaces[n]) {
      assert ViewOf(a).namespaces[n] == ViewNs(a.namespaces[n]);
      assert ViewOf(b).namespaces[n] == ViewNs(b.namespaces[n]);
    }
  }

  lemma RetryAt(w: World, w': World, v: View, u: View, name: string, n: string)
    requires SameCatalog(w, w') && SameSpecs(v, u) && n in v.namespaces && n in u.namespaces
             && forall c <- v.classes :: c != ""
    requires var a, b := v.namespaces[n], u.namespaces[n];
             || b == a
             || (Reached(v, name, n)
                && Interrupted(w, a, b, a.classLabel, v.classes[a.classLabel].spec, v.classes.Keys))
    ensures Target(w', u, name, n) == Target(w', v, name, n)
  {
    TargetIs(w', v, name, n);
    TargetIs(w', u, name, n);
    var a, b := v.namespaces[n], u.namespaces[n];
    if b != a {
      var c, spec := a.classLabel, v.classes[a.classLabel].spec;
      RetryCompletes(w, a, b, c, spec, v.classes.Keys);
      SettleByCatalog(w, w', a, c, spec, v.classes.Keys);
      SettleByCatalog(w, w', b, c, spec, v.classes.Keys);
    }
  }
}
