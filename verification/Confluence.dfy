/** Confluence: the order in which a worklist of requests is served does not matter. */
module Confluence {
  import opened Kube
  import opened Controller
  import opened Weather
  import opened Ideal
  import opened Requests
  import Statuses

  ghost predicate Named(v: View) {
    forall c <- v.classes :: c != ""
  }

  // ---------- One request, point by point ----------

  lemma NamespaceAfter(w: World, v: View, x: string, n: string)
    requires n in v.namespaces && Named(v)
    ensures IdealRequest(w, v, x).namespaces.Keys == v.namespaces.Keys
    ensures var ns := v.namespaces[n];
            IdealRequest(w, v, x).namespaces[n] ==
            if Reached(v, x, n) then Settle(w, ns, ns.classLabel, v.classes[ns.classLabel].spec, v.classes.Keys) else ns
  {}

  ghost function StatusAfter(w: World, v: View, x: string, d: string): Statuses.StatusMap
    requires d in v.classes
  {
    var status, spec := v.classes[d].status, v.classes[d].spec;
    if x == d then map n | n in Members(v, d) :: MemberEntry(w, v.namespaces[n], n, d, spec, status)
    else if x !in v.classes && Governed(v, x) && v.namespaces[x].classLabel == d
    then RecordedStatus(w, v.namespaces[x], x, d, spec, status)
    else status
  }

  lemma ClassAfter(w: World, v: View, x: string, d: string)
    requires d in v.classes
    ensures IdealRequest(w, v, x).classes.Keys == v.classes.Keys
    ensures IdealRequest(w, v, x).classes[d] == v.classes[d].(status := StatusAfter(w, v, x, d))
  {}

  /** Labels, deletion marks, class names and specs do not move, so neither does the reach of a request. */
  lemma ReachStays(w: World, v: View, x: string)
    requires Named(v)
    ensures var u := IdealRequest(w, v, x);
            && Named(u) && u.classes.Keys == v.classes.Keys && u.namespaces.Keys == v.namespaces.Keys
            && (forall n <- v.namespaces :: u.namespaces[n].classLabel == v.namespaces[n].classLabel
                                            && u.namespaces[n].deleting == v.namespaces[n].deleting)
            && (forall d <- v.classes :: u.classes[d] == v.classes[d].(status := u.classes[d].status))
            && (forall d :: Members(u, d) == Members(v, d))
            && (forall y, n :: Reached(u, y, n) <==> Reached(v, y, n))
            && (forall n :: Governed(u, n) <==> Governed(v, n))
  {
    var u := IdealRequest(w, v, x);
    forall n | n in v.namespaces
      ensures u.namespaces[n].classLabel == v.namespaces[n].classLabel
              && u.namespaces[n].deleting == v.namespaces[n].deleting {
      NamespaceAfter(w, v, x, n);
    }
    forall d | d in v.classes ensures u.classes[d] == v.classes[d].(status := u.classes[d].status) {
      ClassAfter(w, v, x, d);
    }
  }

  // ---------- Two requests commute ----------

  lemma NamespacesCommute(w: World, v: View, x: string, y: string, n: string)
    requires Named(v) && n in v.namespaces
    ensures var a, b := IdealRequest(w, IdealRequest(w, v, x), y), IdealRequest(w, IdealRequest(w, v, y), x);
            n in a.namespaces && n in b.namespaces && a.namespaces[n] == b.namespaces[n]
  {
    var vx, vy := IdealRequest(w, v, x), IdealRequest(w, v, y);
    ReachStays(w, v, x);
    ReachStays(w, v, y);
    NamespaceAfter(w, v, x, n);
    NamespaceAfter(w, v, y, n);
    NamespaceAfter(w, vx, y, n);
    NamespaceAfter(w, vy, x, n);
  }

  /** A member that some request has settled records nothing any more. */
  lemma SettledRecordsNothing(w: World, v: NsView, c: string, spec: seq<RawResource>, known: set<string>)
    requires c != ""
    ensures !Recorded(w, Settle(w, v, c, spec, known), c, spec)
  {
    SettledIsSettled(v, c);
  }

  /** A class request lists what it would have listed had one member been settled before. */
  lemma ClassAfterNamespace(w: World, v: View, n: string, d: string)
    requires Named(v) && d in v.classes && n !in v.classes && Governed(v, n) && v.namespaces[n].classLabel == d
    ensures d in IdealRequest(w, v, n).classes
    ensures StatusAfter(w, IdealRequest(w, v, n), d, d) == StatusAfter(w, v, d, d)
  {
    var vn := IdealRequest(w, v, n);
    ReachStays(w, v, n);
    ClassAfter(w, v, n, d);
    SettledRecordsNothing(w, v.namespaces[n], d, v.classes[d].spec, v.classes.Keys);
    forall m | m in Members(v, d)
      ensures StatusAfter(w, vn, d, d)[m] == StatusAfter(w, v, d, d)[m] {
      NamespaceAfter(w, v, n, m);
    }
    assert StatusAfter(w, vn, d, d) == StatusAfter(w, v, d, d);
  }

  /** The class request and the namespace request, in either order, record what the class
      request records alone. */
  lemma ClassAbsorbsNamespace(w: World, v: View, n: string, d: string)
    requires Named(v) && d in v.classes && n !in v.classes && Governed(v, n) && v.namespaces[n].classLabel == d
    ensures d in IdealRequest(w, v, n).classes && d in IdealRequest(w, v, d).classes
    ensures StatusAfter(w, IdealRequest(w, v, n), d, d) == StatusAfter(w, v, d, d)
    ensures StatusAfter(w, IdealRequest(w, v, d), n, d) == StatusAfter(w, v, d, d)
  {
    ClassAfterNamespace(w, v, n, d);
    ReachStays(w, v, d);
    ClassAfter(w, v, d, d);
    NamespaceAfter(w, v, d, n);
    SettledRecordsNothing(w, v.namespaces[n], d, v.classes[d].spec, v.classes.Keys);
  }

  /** A request that does not concern d writes nothing into its status, whatever came before. */
  lemma StatusKept(w: World, v: View, x: string, y: string, d: string)
    requires Named(v) && d in v.classes && x != d
    requires x in v.classes || !Governed(v, x) || v.namespaces[x].classLabel != d
    ensures d in IdealRequest(w, v, y).classes
    ensures StatusAfter(w, IdealRequest(w, v, y), x, d) == StatusAfter(w, v, y, d)
  {
    ReachStays(w, v, y);
    ClassAfter(w, v, y, d);
  }

  /** And leaves what another request does to d alone. */
  lemma StatusUndisturbed(w: World, v: View, x: string, y: string, d: string)
    requires Named(v) && d in v.classes && x != d
    requires x in v.classes || !Governed(v, x) || v.namespaces[x].classLabel != d
    ensures d in IdealRequest(w, v, x).classes
    ensures StatusAfter(w, IdealRequest(w, v, x), y, d) == StatusAfter(w, v, y, d)
  {
    var vx := IdealRequest(w, v, x);
    ReachStays(w, v, x);
    ClassAfter(w, v, x, d);
    forall m | m in Members(v, d) ensures vx.namespaces[m] == v.namespaces[m] {
      NamespaceAfter(w, v, x, m);
    }
    if y == d {
      assert StatusAfter(w, vx, y, d) == StatusAfter(w, v, y, d);
    } else if y !in v.classes && Governed(v, y) && v.namespaces[y].classLabel == d {
      assert y in Members(v, d);
    }
  }

  lemma StatusIndependent(w: World, v: View, x: string, y: string, d: string)
    requires Named(v) && d in v.classes && x != d
    requires x in v.classes || !Governed(v, x) || v.namespaces[x].classLabel != d
    ensures d in IdealRequest(w, v, x).classes && d in IdealRequest(w, v, y).classes
    ensures StatusAfter(w, IdealRequest(w, v, x), y, d) == StatusAfter(w, v, y, d)
    ensures StatusAfter(w, IdealRequest(w, v, y), x, d) == StatusAfter(w, v, y, d)
  {
    StatusUndisturbed(w, v, x, y, d);
    StatusKept(w, v, x, y, d);
  }

  /** Another member of d: its request changes the status of d, but not what x's adds to it. */
  lemma OtherMember(w: World, v: View, x: string, y: string, d: string)
    requires Named(v) && d in v.classes && x != y
    requires x !in v.classes && Governed(v, x) && v.namespaces[x].classLabel == d
    requires y !in v.classes && Governed(v, y) && v.namespaces[y].classLabel == d
    ensures var vx, spec := IdealRequest(w, v, x), v.classes[d].spec;
            && d in vx.classes
            && StatusAfter(w, vx, y, d)
               == RecordedStatus(w, v.namespaces[y], y, d, spec,
                 RecordedStatus(w, v.namespaces[x], x, d, spec, v.classes[d].status))
  {
    ReachStays(w, v, x);
    ClassAfter(w, v, x, d);
    NamespaceAfter(w, v, x, y);
  }

  lemma TwoNamespaces(w: World, v: View, x: string, y: string, d: string)
    requires Named(v) && d in v.classes && x != y
    requires x !in v.classes && Governed(v, x) && v.namespaces[x].classLabel == d
    requires y !in v.classes && Governed(v, y) && v.namespaces[y].classLabel == d
    ensures d in IdealRequest(w, v, x).classes && d in IdealRequest(w, v, y).classes
    ensures StatusAfter(w, IdealRequest(w, v, x), y, d) == StatusAfter(w, IdealRequest(w, v, y), x, d)
  {
    OtherMember(w, v, x, y, d);
    OtherMember(w, v, y, x, d);
    RecordsCommute(w, v.namespaces[x], x, v.namespaces[y], y, d, v.classes[d].spec, v.classes[d].status);
  }

  lemma RecordsCommute(w: World, a: NsView, x: string, b: NsView, y: string, d: string, spec: seq<RawResource>,
                       status: Statuses.StatusMap)
    requires x != y
    ensures RecordedStatus(w, b, y, d, spec, RecordedStatus(w, a, x, d, spec, status))
         == RecordedStatus(w, a, x, d, spec, RecordedStatus(w, b, y, d, spec, status))
  {}

  lemma StatusesCommute(w: World, v: View, x: string, y: string, d: string)
    requires Named(v) && d in v.classes
    ensures StatusAfter(w, IdealRequest(w, v, x), y, d) == StatusAfter(w, IdealRequest(w, v, y), x, d)
  {
    var xs := x == d || (x !in v.classes && Governed(v, x) && v.namespaces[x].classLabel == d);
    var ys := y == d || (y !in v.classes && Governed(v, y) && v.namespaces[y].classLabel == d);
    if x == y {
    } else if !xs {
      StatusIndependent(w, v, x, y, d);
    } else if !ys {
      StatusIndependent(w, v, y, x, d);
    } else if x == d {
      ClassAbsorbsNamespace(w, v, y, d);
    } else if y == d {
      ClassAbsorbsNamespace(w, v, x, d);
    } else {
      TwoNamespaces(w, v, x, y, d);
    }
  }

  lemma ClassesCommute(w: World, v: View, x: string, y: string, d: string)
    requires Named(v) && d in v.classes
    ensures var a, b := IdealRequest(w, IdealRequest(w, v, x), y), IdealRequest(w, IdealRequest(w, v, y), x);
            d in a.classes && d in b.classes && a.classes[d] == b.classes[d]
  {
    var vx, vy := IdealRequest(w, v, x), IdealRequest(w, v, y);
    ClassAfter(w, v, x, d);
    ClassAfter(w, v, y, d);
    ClassAfter(w, vx, y, d);
    ClassAfter(w, vy, x, d);
    StatusesCommute(w, v, x, y, d);
  }

  lemma SameView(a: View, b: View, v: View)
    requires a.namespaces.Keys == b.namespaces.Keys == v.namespaces.Keys
             && a.classes.Keys == b.classes.Keys == v.classes.Keys
    requires forall n <- v.namespaces :: a.namespaces[n] == b.namespaces[n]
    requires forall d <- v.classes :: a.classes[d] == b.classes[d]
    ensures a == b
  {
    assert a.namespaces == b.namespaces && a.classes == b.classes;
  }

  lemma KeysStay(w: World, v: View, x: string, y: string)
    requires Named(v)
    ensures var a := IdealRequest(w, IdealRequest(w, v, x), y);
            a.namespaces.Keys == v.namespaces.Keys && a.classes.Keys == v.classes.Keys
  {
    ReachStays(w, v, x);
    ReachStays(w, IdealRequest(w, v, x), y);
  }

  lemma RequestsCommute(w: World, v: View, x: string, y: string)
    requires Named(v)
    ensures IdealRequest(w, IdealRequest(w, v, x), y) == IdealRequest(w, IdealRequest(w, v, y), x)
  {
    var a, b := IdealRequest(w, IdealRequest(w, v, x), y), IdealRequest(w, IdealRequest(w, v, y), x);
    KeysStay(w, v, x, y);
    KeysStay(w, v, y, x);
    forall n | n in v.namespaces ensures a.namespaces[n] == b.namespaces[n] {
      NamespacesCommute(w, v, x, y, n);
    }
    forall d | d in v.classes ensures a.classes[d] == b.classes[d] {
      ClassesCommute(w, v, x, y, d);
    }
    SameView(a, b, v);
  }

  // ---------- Whole worklists ----------

  ghost function ServeIdeal(w: World, v: View, worklist: seq<string>): View
    decreases |worklist|
  {
    if worklist == [] then v else ServeIdeal(w, IdealRequest(w, v, worklist[0]), worklist[1..])
  }

  function Serve(w: World, s: State, worklist: seq<string>): State
    decreases |worklist|
  {
    if worklist == [] then s else Serve(w, Request(w, s, worklist[0]).state, worklist[1..])
  }

  lemma {:induction false} BringForward(w: World, v: View, worklist: seq<string>, i: nat)
    requires Named(v) && i < |worklist|
    ensures ServeIdeal(w, v, worklist)
            == ServeIdeal(w, IdealRequest(w, v, worklist[i]), worklist[..i] + worklist[i + 1..])
    decreases i
  {
    if i == 0 {
      assert worklist[..0] + worklist[1..] == worklist[1..];
    } else {
      var x, rest := worklist[0], worklist[1..];
      var vx, vi := IdealRequest(w, v, x), IdealRequest(w, v, worklist[i]);
      ReachStays(w, v, x);
      BringForward(w, vx, rest, i - 1);
      RequestsCommute(w, v, x, worklist[i]);
      var others := worklist[..i] + worklist[i + 1..];
      assert others[0] == x && others[1..] == rest[..i - 1] + rest[i..];
    }
  }

  lemma WithoutOne(xs: seq<string>, i: nat)
    requires i < |xs|
    ensures multiset(xs[..i] + xs[i + 1..]) == multiset(xs) - multiset{xs[i]}
  {
    assert xs == xs[..i] + [xs[i]] + xs[i + 1..];
  }

  lemma TailsPermute(xs: seq<string>, ys: seq<string>) returns (i: nat)
    requires xs != [] && multiset(xs) == multiset(ys)
    ensures i < |ys| && ys[i] == xs[0] && multiset(xs[1..]) == multiset(ys[..i] + ys[i + 1..])
  {
    assert xs[0] in multiset(ys);
    i :| i < |ys| && ys[i] == xs[0];
    WithoutOne(ys, i);
    assert xs == [xs[0]] + xs[1..];
    assert multiset(xs[1..]) == multiset(xs) - multiset{xs[0]};
  }

  lemma {:induction false} PermutationsAgree(w: World, v: View, xs: seq<string>, ys: seq<string>)
    requires Named(v) && multiset(xs) == multiset(ys)
    ensures ServeIdeal(w, v, xs) == ServeIdeal(w, v, ys)
    decreases |xs|
  {
    if xs == [] {
      assert |multiset(ys)| == |ys|;
    } else {
      var i := TailsPermute(xs, ys);
      BringForward(w, v, ys, i);
      ReachStays(w, v, xs[0]);
      PermutationsAgree(w, IdealRequest(w, v, xs[0]), xs[1..], ys[..i] + ys[i + 1..]);
    }
  }

  /** No request of the worklist names a terminating class. */
  ghost predicate NoneTerminating(s: State, worklist: seq<string>) {
    forall c <- worklist | c in s.classes :: !s.classes[c].deleting
  }

  lemma {:induction false} ServeRefinesIdeal(w: World, s: State, worklist: seq<string>)
    requires AlwaysCalm(w) && WorldOk(w) && Wf(s) && NoneTerminating(s, worklist)
    ensures ViewOf(Serve(w, s, worklist)) == ServeIdeal(w, ViewOf(s), worklist)
    decreases |worklist|
  {
    if worklist != [] {
      var t := Request(w, s, worklist[0]).state;
      assert worklist[0] in worklist;
      RequestRefinesIdeal(w, s, worklist[0]);
      StaysLive(w, s, t, worklist[0], worklist);
      ServeRefinesIdeal(w, t, worklist[1..]);
    }
  }

  lemma StaysLive(w: World, s: State, t: State, x: string, worklist: seq<string>)
    requires Wf(s) && NoneTerminating(s, worklist) && ViewOf(t) == IdealRequest(w, ViewOf(s), x)
    ensures NoneTerminating(t, worklist)
  {
    ReachStays(w, ViewOf(s), x);
    forall c | c in worklist && c in t.classes ensures !t.classes[c].deleting {
      assert ViewOf(t).classes[c] == ViewClass(t.classes[c]);
      assert c in ViewOf(s).classes && ViewOf(s).classes[c] == ViewClass(s.classes[c]);
    }
  }

  /** Any two orders of one worklist, of any length, give the same annotations, objects and
      statuses of every namespace and class, even where a namespace and a class share a name. */
  lemma WorklistConfluence(w: World, s: State, xs: seq<string>, ys: seq<string>)
    requires AlwaysCalm(w) && WorldOk(w) && Wf(s) && NoneTerminating(s, xs)
    requires multiset(xs) == multiset(ys)
    ensures ViewOf(Serve(w, s, xs)) == ViewOf(Serve(w, s, ys))
  {
    assert forall y :: y in ys <==> y in multiset(ys);
    assert forall x :: x in xs <==> x in multiset(xs);
    ServeRefinesIdeal(w, s, xs);
    ServeRefinesIdeal(w, s, ys);
    PermutationsAgree(w, ViewOf(s), xs, ys);
  }

  // ---------- A relabel ----------

  /** A namespace ends settled by its class as soon as one request of the worklist reaches it. */
  lemma {:induction false} ServedNamespace(w: World, v: View, worklist: seq<string>, n: string)
    requires Named(v) && n in v.namespaces
    ensures var ns, u := v.namespaces[n], ServeIdeal(w, v, worklist);
            n in u.namespaces && u.namespaces[n] ==
            if exists x <- worklist :: Reached(v, x, n)
            then Settle(w, ns, ns.classLabel, v.classes[ns.classLabel].spec, v.classes.Keys) else ns
    decreases |worklist|
  {
    if worklist != [] {
      var x := worklist[0];
      assert worklist == [x] + worklist[1..];
      ReachStays(w, v, x);
      NamespaceAfter(w, v, x, n);
      ServedNamespace(w, IdealRequest(w, v, x), worklist[1..], n);
      if Reached(v, x, n) {
        var ns := v.namespaces[n];
        SettleIdempotent(w, ns, ns.classLabel, v.classes[ns.classLabel].spec, v.classes.Keys);
      }
    }
  }

  /** A live namespace moved to an existing class: the requests the mapper emits, none of them
      for a terminating class, served in any order, settle it with the new class and agree on
      everything, even when its name is also the name of a class. */
  lemma RelabelConfluence(w: World, s: State, n: string, order: seq<string>)
    requires AlwaysCalm(w) && WorldOk(w) && Wf(s) && NoneTerminating(s, order)
    requires n in s.namespaces && !s.namespaces[n].meta.deleting && s.namespaces[n].meta.classLabel in s.classes
    requires Lookup(s.namespaces[n].meta.annotations, Current) != s.namespaces[n].meta.classLabel
    requires multiset(order) == multiset(RequestsFor(n, s.namespaces[n].meta))
    ensures var c, t := s.namespaces[n].meta.classLabel, ViewOf(Serve(w, s, order));
            && t == ViewOf(Serve(w, s, RequestsFor(n, s.namespaces[n].meta)))
            && n in t.namespaces
            && t.namespaces[n] == Settle(w, ViewNs(s.namespaces[n]), c, s.classes[c].spec, s.classes.Keys)
  {
    WorklistConfluence(w, s, order, RequestsFor(n, s.namespaces[n].meta));
    ServeRefinesIdeal(w, s, order);
    RelabelReaches(w, s, n, order);
    ServedNamespace(w, ViewOf(s), order, n);
    assert ViewOf(s).classes.Keys == s.classes.Keys;
  }

  lemma RelabelReaches(w: World, s: State, n: string, order: seq<string>)
    requires n in s.namespaces && !s.namespaces[n].meta.deleting && s.namespaces[n].meta.classLabel in s.classes
             && Wf(s)
    requires Lookup(s.namespaces[n].meta.annotations, Current) != s.namespaces[n].meta.classLabel
    requires multiset(order) == multiset(RequestsFor(n, s.namespaces[n].meta))
    ensures exists x <- order :: Reached(ViewOf(s), x, n)
  {
    var c := s.namespaces[n].meta.classLabel;
    assert c in RequestsFor(n, s.namespaces[n].meta);
    assert c in multiset(order);
    assert Reached(ViewOf(s), c, n);
  }
}
