/** The requests that serving a worklist triggers in turn: how many there are for each class,
    that the order of service does not matter to them, and that draining them ends in one view. */
module Queues {
  import opened Names
  import opened Kube
  import opened Controller
  import opened Weather
  import opened Ideal
  import opened Refinement
  import opened Requests
  import opened Confluence
  import Cascade

  // ---------- What one request triggers ----------

  /** The namespace would switch away from class p. */
  predicate Leaves(ns: NsView, p: string) {
    SwitchedFrom(ns, ns.classLabel) == p != ""
  }

  /** The namespaces that the request reaches and that leave class p. */
  function Sources(v: View, x: string, p: string): set<string> {
    set n | n in v.namespaces && Reached(v, x, n) && Leaves(v.namespaces[n], p)
  }

  ghost function LeavingAmong(s: State, c: string, names: seq<string>, p: string): set<string>
    requires forall n <- names :: n in s.namespaces
  {
    set n | n in names && SwitchedFrom(ViewNs(s.namespaces[n]), c) == p != ""
  }

  lemma CountAppended(a: seq<string>, b: seq<string>, p: string)
    ensures multiset(a + b)[p] == multiset(a)[p] + multiset(b)[p]
  {}

  lemma BacklogCount(v: NsView, c: string, p: string)
    ensures multiset(Backlog(v, c))[p] == if SwitchedFrom(v, c) == p != "" then 1 else 0
  {}

  lemma LeavingSplit(s: State, c: string, names: seq<string>, p: string)
    requires names != [] && Distinct(names) && forall n <- names :: n in s.namespaces
    ensures |LeavingAmong(s, c, names, p)|
         == (if SwitchedFrom(ViewNs(s.namespaces[names[0]]), c) == p != "" then 1
             else 0) + |LeavingAmong(s, c, names[1..], p)|
  {
    var n, rest := names[0], names[1..];
    assert names == [n] + rest;
    var here := if SwitchedFrom(ViewNs(s.namespaces[n]), c) == p != "" then {n} else {};
    assert LeavingAmong(s, c, names, p) == here + LeavingAmong(s, c, rest, p);
    assert n !in rest;
  }

  lemma {:induction false} BacklogsCount(s: State, c: string, names: seq<string>, p: string)
    requires Distinct(names) && forall n <- names :: n in s.namespaces
    ensures multiset(Backlogs(s, c, names))[p] == |LeavingAmong(s, c, names, p)|
    decreases |names|
  {
    if names == [] {
      assert LeavingAmong(s, c, names, p) == {};
    } else {
      var v := ViewNs(s.namespaces[names[0]]);
      BacklogsCount(s, c, names[1..], p);
      BacklogCount(v, c, p);
      LeavingSplit(s, c, names, p);
      CountAppended(Backlog(v, c), Backlogs(s, c, names[1..]), p);
    }
  }

  lemma ClassSources(s: State, c: string, p: string)
    requires c in s.classes
    ensures LeavingAmong(s, c, SortedNames(Labelled(s, c)), p) == Sources(ViewOf(s), c, p)
  {
    var v := ViewOf(s);
    assert c in v.classes;
    forall n ensures n in LeavingAmong(s, c, SortedNames(Labelled(s, c)), p) <==> n in Sources(v, c, p) {
      assert n in s.namespaces ==> v.namespaces[n] == ViewNs(s.namespaces[n]);
    }
  }

  lemma NamespaceSources(s: State, n: string, p: string)
    requires n !in s.classes
    ensures Sources(ViewOf(s), n, p) ==
            if Governed(ViewOf(s), n) && Leaves(ViewOf(s).namespaces[n], p) then {n} else {}
  {}

  lemma ClassTriggers(w: World, s: State, c: string, p: string)
    requires AlwaysCalm(w) && WorldOk(w) && Wf(s) && c in s.classes && !s.classes[c].deleting
    ensures multiset(Request(w, s, c).state.pending)[p] == multiset(s.pending)[p] + |Sources(ViewOf(s), c, p)|
  {
    var names := SortedNames(Labelled(s, c));
    ClassRequestIs(w, s, c);
    BacklogsCount(s, c, names, p);
    ClassSources(s, c, p);
    CountAppended(s.pending, Backlogs(s, c, names), p);
  }

  lemma NamespaceTriggers(w: World, s: State, n: string, p: string)
    requires AlwaysCalm(w) && WorldOk(w) && Wf(s) && n !in s.classes
    ensures multiset(Request(w, s, n).state.pending)[p] == multiset(s.pending)[p] + |Sources(ViewOf(s), n, p)|
  {
    NamespaceRequestIs(w, s, n);
    NamespaceCount(s, Request(w, s, n).state, n, p);
  }

  lemma NamespaceCount(s: State, t: State, n: string, p: string)
    requires n !in s.classes
    requires t.pending == s.pending + if Governed(ViewOf(s), n)
                                      then Backlog(ViewNs(s.namespaces[n]), s.namespaces[n].meta.classLabel) else []
    ensures multiset(t.pending)[p] == multiset(s.pending)[p] + |Sources(ViewOf(s), n, p)|
  {
    NamespaceSources(s, n, p);
    if Governed(ViewOf(s), n) {
      var v := ViewNs(s.namespaces[n]);
      assert ViewOf(s).namespaces[n] == v;
      BacklogCount(v, v.classLabel, p);
      CountAppended(s.pending, Backlog(v, v.classLabel), p);
    } else {
      assert s.pending + [] == s.pending;
    }
  }

  /** A request adds one trigger for class p for each namespace it reaches that leaves p. */
  lemma RequestTriggers(w: World, s: State, x: string, p: string)
    requires AlwaysCalm(w) && WorldOk(w) && Wf(s) && (x in s.classes ==> !s.classes[x].deleting)
    ensures multiset(Request(w, s, x).state.pending)[p] == multiset(s.pending)[p] + |Sources(ViewOf(s), x, p)|
  {
    if x in s.classes {
      ClassTriggers(w, s, x, p);
    } else {
      NamespaceTriggers(w, s, x, p);
    }
  }

  // ---------- What a worklist triggers ----------

  predicate ReachedBySome(v: View, xs: seq<string>, n: string) {
    exists x <- xs :: Reached(v, x, n)
  }

  /** The namespaces that some request of the worklist reaches and that leave class p. */
  function AllSources(v: View, xs: seq<string>, p: string): set<string> {
    set n | n in v.namespaces && ReachedBySome(v, xs, n) && Leaves(v.namespaces[n], p)
  }

  /** A namespace that has been reached leaves nothing any more; the others are as they were. */
  lemma SourcesAfter(w: World, v: View, x: string, rest: seq<string>, p: string, n: string)
    requires Named(v) && n in v.namespaces
    ensures var u := IdealRequest(w, v, x);
            n in AllSources(u, rest, p) <==> n in AllSources(v, rest, p) && !Reached(v, x, n)
  {
    var u, ns := IdealRequest(w, v, x), v.namespaces[n];
    ReachStays(w, v, x);
    NamespaceAfter(w, v, x, n);
    assert ReachedBySome(u, rest, n) <==> ReachedBySome(v, rest, n);
    if Reached(v, x, n) {
      SettleIdempotent(w, ns, ns.classLabel, v.classes[ns.classLabel].spec, v.classes.Keys);
    }
  }

  lemma SourcesSplit(w: World, v: View, xs: seq<string>, p: string)
    requires Named(v) && xs != []
    ensures var u := IdealRequest(w, v, xs[0]);
            |AllSources(v, xs, p)| == |Sources(v, xs[0], p)| + |AllSources(u, xs[1..], p)|
  {
    var x, rest := xs[0], xs[1..];
    var u := IdealRequest(w, v, x);
    assert xs == [x] + rest;
    ReachStays(w, v, x);
    forall n | n in v.namespaces
      ensures n in AllSources(v, xs, p) <==> n in Sources(v, x, p) || n in AllSources(u, rest, p)
      ensures !(n in Sources(v, x, p) && n in AllSources(u, rest, p)) {
      SourcesAfter(w, v, x, rest, p, n);
      assert ReachedBySome(v, xs, n) <==> Reached(v, x, n) || ReachedBySome(v, rest, n);
    }
    assert AllSources(v, xs, p) == Sources(v, x, p) + AllSources(u, rest, p);
    assert Sources(v, x, p) !! AllSources(u, rest, p);
  }

  /** Serving a worklist adds one trigger for class p for each namespace that some request of it
      reaches and that leaves p, however often it is reached. */
  lemma {:induction false} ServeTriggers(w: World, s: State, xs: seq<string>, p: string)
    requires AlwaysCalm(w) && WorldOk(w) && Wf(s) && NoneTerminating(s, xs)
    ensures multiset(Serve(w, s, xs).pending)[p] == multiset(s.pending)[p] + |AllSources(ViewOf(s), xs, p)|
    decreases |xs|
  {
    if xs == [] {
      assert AllSources(ViewOf(s), xs, p) == {};
    } else {
      var t := Request(w, s, xs[0]).state;
      assert xs[0] in xs;
      RequestTriggers(w, s, xs[0], p);
      RequestRefinesIdeal(w, s, xs[0]);
      StaysLive(w, s, t, xs[0], xs);
      ServeTriggers(w, t, xs[1..], p);
      SourcesSplit(w, ViewOf(s), xs, p);
    }
  }

  // ---------- The order does not matter ----------

  lemma SameSources(v: View, xs: seq<string>, ys: seq<string>, p: string)
    requires multiset(xs) == multiset(ys)
    ensures AllSources(v, xs, p) == AllSources(v, ys, p)
  {
    forall x ensures x in xs <==> x in ys {
      assert x in xs <==> x in multiset(xs);
      assert x in ys <==> x in multiset(ys);
    }
    assert forall n :: ReachedBySome(v, xs, n) <==> ReachedBySome(v, ys, n);
  }

  /** Two states with one view and the same requests queued, counted with repetitions, stay so
      when they serve one worklist in two orders. */
  lemma ServeAlike(w: World, a: State, b: State, xs: seq<string>, ys: seq<string>)
    requires AlwaysCalm(w) && WorldOk(w) && Wf(a) && Wf(b) && NoneTerminating(a, xs) && NoneTerminating(b, ys)
    requires ViewOf(a) == ViewOf(b) && multiset(a.pending) == multiset(b.pending) && multiset(xs) == multiset(ys)
    ensures ViewOf(Serve(w, a, xs)) == ViewOf(Serve(w, b, ys))
    ensures multiset(Serve(w, a, xs).pending) == multiset(Serve(w, b, ys).pending)
  {
    ServeRefinesIdeal(w, a, xs);
    ServeRefinesIdeal(w, b, ys);
    NamedView(a);
    PermutationsAgree(w, ViewOf(a), xs, ys);
    forall p ensures multiset(Serve(w, a, xs).pending)[p] == multiset(Serve(w, b, ys).pending)[p] {
      ServeTriggers(w, a, xs, p);
      ServeTriggers(w, b, ys, p);
      SameSources(ViewOf(a), xs, ys, p);
    }
  }

  lemma NamedView(s: State)
    requires Wf(s)
    ensures Named(ViewOf(s))
  {}

  // ---------- Draining ----------

  /** Serve everything that is queued; what this triggers stays queued. */
  function Round(w: World, s: State): State {
    Serve(w, s.(pending := []), s.pending)
  }

  function Rounds(w: World, s: State, k: nat): State
    decreases k
  {
    if k == 0 then s else Rounds(w, Round(w, s), k - 1)
  }

  /** No class is terminating. */
  ghost predicate Living(s: State) {
    forall c <- s.classes :: !s.classes[c].deleting
  }

  lemma {:induction false} ServeStaysLiving(w: World, s: State, xs: seq<string>)
    requires AlwaysCalm(w) && WorldOk(w) && Wf(s) && Living(s)
    ensures Wf(Serve(w, s, xs)) && Living(Serve(w, s, xs))
    decreases |xs|
  {
    if xs != [] {
      var t := Request(w, s, xs[0]).state;
      RequestRefinesIdeal(w, s, xs[0]);
      LivingAfter(w, s, t, xs[0]);
      ServeStaysLiving(w, t, xs[1..]);
    }
  }

  lemma LivingAfter(w: World, s: State, t: State, x: string)
    requires Wf(s) && Living(s) && ViewOf(t) == IdealRequest(w, ViewOf(s), x)
    ensures Living(t)
  {
    ReachStays(w, ViewOf(s), x);
    forall c | c in t.classes ensures !t.classes[c].deleting {
      assert ViewOf(t).classes[c] == ViewClass(t.classes[c]);
      assert c in ViewOf(s).classes && ViewOf(s).classes[c] == ViewClass(s.classes[c]);
    }
  }

  lemma EmptyQueue(s: State)
    requires Wf(s) && Living(s)
    ensures var t := s.(pending := []); Wf(t) && Living(t) && ViewOf(t) == ViewOf(s)
  {}

  /** Two states that differ in the order of their queues, and in what no view shows, stay so
      over any number of rounds of draining. */
  lemma {:induction false} RoundsAlike(w: World, a: State, b: State, k: nat)
    requires AlwaysCalm(w) && WorldOk(w) && Wf(a) && Wf(b) && Living(a) && Living(b)
    requires ViewOf(a) == ViewOf(b) && multiset(a.pending) == multiset(b.pending)
    ensures ViewOf(Rounds(w, a, k)) == ViewOf(Rounds(w, b, k))
    ensures multiset(Rounds(w, a, k).pending) == multiset(Rounds(w, b, k).pending)
    decreases k
  {
    if k > 0 {
      var a0, b0 := a.(pending := []), b.(pending := []);
      EmptyQueue(a);
      EmptyQueue(b);
      ServeAlike(w, a0, b0, a.pending, b.pending);
      ServeStaysLiving(w, a0, a.pending);
      ServeStaysLiving(w, b0, b.pending);
      RoundsAlike(w, Round(w, a), Round(w, b), k - 1);
    }
  }

  lemma {:induction false} ServeIsPaid(w: World, s: State, xs: seq<string>)
    ensures Cascade.Budget(Serve(w, s, xs)) <= Cascade.Budget(s)
    decreases |xs|
  {
    if xs != [] {
      Cascade.RequestIsPaid(w, s, xs[0]);
      ServeIsPaid(w, Request(w, s, xs[0]).state, xs[1..]);
    }
  }

  /** Draining ends, in any weather, after as many rounds as the budget allows. */
  lemma {:induction false} RoundsEnd(w: World, s: State, k: nat)
    requires Cascade.Budget(s) <= k
    ensures Rounds(w, s, k).pending == []
    decreases k
  {
    if k > 0 {
      var s0 := s.(pending := []);
      assert Cascade.Mismatched(s0) == Cascade.Mismatched(s);
      ServeIsPaid(w, s0, s.pending);
      if s.pending == [] {
        NothingToDrain(w, s, k);
      } else {
        RoundsEnd(w, Round(w, s), k - 1);
      }
    }
  }

  lemma {:induction false} NothingToDrain(w: World, s: State, k: nat)
    requires s.pending == []
    ensures Rounds(w, s, k) == s
    decreases k
  {
    if k > 0 {
      assert Round(w, s) == s;
      NothingToDrain(w, s, k - 1);
    }
  }

  /** A worklist, in two orders: the requests it triggers are the same, counted with repetitions;
      draining them ends; and whatever the orders, the view at the end is the same. */
  lemma DrainConfluence(w: World, s: State, xs: seq<string>, ys: seq<string>, k: nat)
    requires AlwaysCalm(w) && WorldOk(w) && Wf(s) && Living(s) && multiset(xs) == multiset(ys)
    ensures multiset(Serve(w, s, xs).pending) == multiset(Serve(w, s, ys).pending)
    ensures var a, b := Rounds(w, Serve(w, s, xs), k), Rounds(w, Serve(w, s, ys), k);
            ViewOf(a) == ViewOf(b) && (Cascade.Budget(s) <= k ==> a.pending == b.pending == [])
  {
    ServeAlike(w, s, s, xs, ys);
    ServeStaysLiving(w, s, xs);
    ServeStaysLiving(w, s, ys);
    RoundsAlike(w, Serve(w, s, xs), Serve(w, s, ys), k);
    ServeIsPaid(w, s, xs);
    ServeIsPaid(w, s, ys);
    if Cascade.Budget(s) <= k {
      RoundsEnd(w, Serve(w, s, xs), k);
      RoundsEnd(w, Serve(w, s, ys), k);
    }
  }
}
