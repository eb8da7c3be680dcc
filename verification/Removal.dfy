/** The promise that a namespace removed from a class is cleaned up, and exactly when it is kept. */
module Removal {
  import opened Kube
  import opened Controller
  import opened Weather
  import opened Ideal
  import opened Ownership
  import opened Confluence
  import Example

  ghost predicate OwnsNothing(v: NsView, c: string) {
    forall id <- v.objects :: OwnerOf(v.objects[id]) != c
  }

  /** Settling with another class leaves the class nothing. */
  lemma SettlingCleans(w: World, home: string -> string, v: NsView, previous: string, c: string,
                       spec: seq<RawResource>, known: set<string>)
    requires c != "" && Sound(w, home, spec) && ValidIds(v) && ManagedAtHome(w, home, v) && !v.deleting && Owned(v)
    requires previous == Lookup(v.annotations, Current) && previous !in {"", c}
    ensures OwnsNothing(Settle(w, v, c, spec, known), previous)
  {
    SettledIsSettled(v, c);
    SettleKeepsOwnership(w, home, v, c, spec, known);
  }

  /** A live namespace whose label has left its current class, after the requests the mapper
      emits, in any order: it holds nothing the old class owns if and only if the label names
      an existing class or it held nothing to begin with. Taking the label off, or mistyping
      it, cleans nothing. */
  lemma RemovalCleansIff(w: World, home: string -> string, s: State, n: string, order: seq<string>)
    requires AlwaysCalm(w) && WorldOk(w) && Wf(s) && NoneTerminating(s, order)
    requires n in s.namespaces && !s.namespaces[n].meta.deleting
    requires var v := ViewNs(s.namespaces[n]);
             && ManagedAtHome(w, home, v) && Owned(v)
             && Lookup(v.annotations, Current) !in {"", v.classLabel}
             && (v.classLabel in s.classes ==> Sound(w, home, s.classes[v.classLabel].spec))
    requires multiset(order) == multiset(RequestsFor(n, s.namespaces[n].meta))
    ensures var v, t := ViewNs(s.namespaces[n]), ViewOf(Serve(w, s, order));
            var previous := Lookup(v.annotations, Current);
            n in t.namespaces
            && (OwnsNothing(t.namespaces[n], previous) <==> v.classLabel in s.classes || OwnsNothing(v, previous))
  {
    var v := ViewNs(s.namespaces[n]);
    var c, previous := v.classLabel, Lookup(v.annotations, Current);
    assert ViewOf(s).namespaces[n] == v && ViewOf(s).classes.Keys == s.classes.Keys;
    if c in s.classes {
      RelabelConfluence(w, s, n, order);
      SettlingCleans(w, home, v, previous, c, s.classes[c].spec, s.classes.Keys);
    } else {
      ServeRefinesIdeal(w, s, order);
      ServedNamespace(w, ViewOf(s), order, n);
    }
  }

  /** The namespace of the example, its label taken off; there are no classes. */
  function Unlabelled(): State {
    State(map["n" := Example.Holder("")], map[], 0, 0, [])
  }

  /** The promise fails there: after all the requests the mapper emits the namespace still
      holds the ConfigMap of the class it was removed from. */
  lemma RemovalCanFail(order: seq<string>)
    requires multiset(order) == multiset(RequestsFor("n", Unlabelled().namespaces["n"].meta))
    ensures var t := ViewOf(Serve(Example.AllCalm(), Unlabelled(), order));
            "n" in t.namespaces && !OwnsNothing(t.namespaces["n"], "a")
  {
    var w, home := Example.AllCalm(), (kind: string) => "";
    Example.ConfigMapsAreListed(w.script);
    HolderIsOwned(w, home);
    RemovalCleansIff(w, home, Unlabelled(), "n", order);
  }

  lemma HolderIsOwned(w: World, home: string -> string)
    requires AtHome(w, home, "", "ConfigMap")
    ensures Wf(Unlabelled())
    ensures var v := ViewNs(Unlabelled().namespaces["n"]);
            ManagedAtHome(w, home, v) && Owned(v) && !OwnsNothing(v, "a")
  {
    var v, id := ViewNs(Unlabelled().namespaces["n"]), Example.TheId();
    Example.TheIdIsValid();
    assert v.objects == map[id := Object(map[Owner := "a"], "")];
    OneObjectIsOwned(w, home, v, id, "a");
  }

  lemma OneObjectIsOwned(w: World, home: string -> string, v: NsView, id: ObjectId, c: string)
    requires v.objects.Keys == {id} && OwnerOf(v.objects[id]) == c != "" && AtHome(w, home, id.group, id.kind)
    requires Lookup(v.annotations, LastApplied) == Lookup(v.annotations, Current) == c
    ensures ManagedAtHome(w, home, v) && Owned(v) && !OwnsNothing(v, c)
  {}
}
