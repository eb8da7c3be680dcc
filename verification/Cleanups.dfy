/** The two cleanup algorithms compared: the diff by identifiers and the sweep by label. */
module Cleanups {
  import opened Names
  import opened Kube
  import opened Resources
  import opened Weather
  import opened Ideal
  import opened Refinement
  import opened Termination
  import Finalizer

  /** Both listings see the same of what the class owns in the namespace. */
  ghost predicate SeenAlike(w: World, s: State, n: string, owner: string)
    requires n in s.namespaces
  {
    forall id <- s.namespaces[n].objects | OwnerOf(s.namespaces[n].objects[id].obj) == owner ::
      Listed(w, ByList, w.discovery, id.group, id.kind) <==> Listed(w, ByWatch, w.discovery, id.group, id.kind)
  }

  /** What the sweep by label leaves. */
  ghost function Swept(w: World, objects: Objects, owner: string): Objects {
    map id | id in objects && !Wiped(w, owner, id, objects[id]) :: objects[id]
  }

  lemma SweepIs(w: World, s: State, n: string, owner: string)
    requires AlwaysCalm(w) && WorldOk(w) && Wf(s) && n in s.namespaces
    ensures var t := Finalizer.CleanupAll(w, s, n, owner);
            OnlyObjects(s, t, n) && Contents(t.namespaces[n].objects)
              == Swept(w, Contents(s.namespaces[n].objects), owner)
  {
    WipeIs(w, s, n, owner, []);
  }

  lemma DiffIs(w: World, s: State, n: string, previous: string, c: string)
    requires AlwaysCalm(w) && WorldOk(w) && Wf(s) && n in s.namespaces && c in s.classes
    ensures var t := CleanupPrevious(w, s, n, previous, c).state;
            && OnlyObjects(s, t, n)
            && Contents(t.namespaces[n].objects)
               == Trim(w, Contents(s.namespaces[n].objects), previous, s.classes.Keys, s.classes[c].spec)
  {
    CleanupTrims(w, s, n, previous, c);
  }

  lemma EmptySpecKeepsNothing(spec: seq<RawResource>)
    requires forall r <- spec :: r.Unreadable?
    ensures KeepKeys(spec) == {}
  {}

  /** Against a target without a readable entry, while the previous class exists, the diff
      cleanup leaves what the sweep leaves if and only if both listings see the same of the
      previous class's objects; neither touches anything but objects of the namespace. */
  lemma CleanupsAgreeIff(w: World, s: State, n: string, previous: string, c: string)
    requires AlwaysCalm(w) && WorldOk(w) && Wf(s) && n in s.namespaces && previous in s.classes && c in s.classes
    requires forall r <- s.classes[c].spec :: r.Unreadable?
    ensures OnlyObjects(s, CleanupPrevious(w, s, n, previous, c).state, n)
            && OnlyObjects(s, Finalizer.CleanupAll(w, s, n, previous), n)
    ensures Contents(CleanupPrevious(w, s, n, previous, c).state.namespaces[n].objects)
            == Contents(Finalizer.CleanupAll(w, s, n, previous).namespaces[n].objects)
            <==> SeenAlike(w, s, n, previous)
  {
    EmptySpecKeepsNothing(s.classes[c].spec);
    DiffIs(w, s, n, previous, c);
    SweepIs(w, s, n, previous);
    var before := Contents(s.namespaces[n].objects);
    TrimVersusWipe(w, before, previous, s.classes.Keys, s.classes[c].spec);
    assert SeenAlike(w, s, n, previous) <==> AlikeIn(w, before, previous);
  }

  ghost predicate AlikeIn(w: World, objects: Objects, owner: string) {
    forall id <- objects | OwnerOf(objects[id]) == owner ::
      Listed(w, ByList, w.discovery, id.group, id.kind) <==> Listed(w, ByWatch, w.discovery, id.group, id.kind)
  }

  lemma TrimVersusWipe(w: World, before: Objects, previous: string, known: set<string>, spec: seq<RawResource>)
    requires previous in known && KeepKeys(spec) == {}
    ensures Trim(w, before, previous, known, spec) == Swept(w, before, previous)
            <==> AlikeIn(w, before, previous)
  {
    var wiped := Swept(w, before, previous);
    forall id | id in before && OwnerOf(before[id]) == previous
      ensures (id in Trim(w, before, previous, known, spec) <==> id in wiped)
              <==> (Listed(w, ByList, w.discovery, id.group, id.kind)
                <==> Listed(w, ByWatch, w.discovery, id.group, id.kind)) {}
    forall id | id in before && OwnerOf(before[id]) != previous
      ensures id in Trim(w, before, previous, known, spec) && id in wiped {}
  }

  /** Every namespaced type is listable exactly when it is watchable, and none is a subresource. */
  ghost predicate Uniform(lists: seq<ResourceList>) {
    forall l <- lists, r <- l.resources | r.namespaced ::
      ("list" in r.verbs <==> "watch" in r.verbs) && SlashFree(r.name)
  }

  lemma UniformListsAlike(w: World, lists: seq<ResourceList>, group: string, kind: string)
    requires Uniform(lists) && forall l <- lists :: AllServed(w, l)
    ensures Listed(w, ByList, lists, group, kind) <==> Listed(w, ByWatch, lists, group, kind)
  {
    forall l | l in lists ensures ListedBy(w, ByList, l, group, kind) <==> ListedBy(w, ByWatch, l, group, kind) {
      var p := ParseGroupVersion(l.groupVersion);
      if p.Good? {
        forall r | r in l.resources ensures Selects(w, ByList, p.gv, r) <==> Selects(w, ByWatch, p.gv, r) {
          assert AllServed(w, l);
        }
      }
    }
  }

  /** With such a discovery answer the two cleanups have the same effect. */
  lemma CleanupsAgree(w: World, s: State, n: string, previous: string, c: string)
    requires AlwaysCalm(w) && WorldOk(w) && Wf(s) && n in s.namespaces && previous in s.classes && c in s.classes
    requires Uniform(w.discovery) && forall r <- s.classes[c].spec :: r.Unreadable?
    ensures OnlyObjects(s, CleanupPrevious(w, s, n, previous, c).state, n)
            && OnlyObjects(s, Finalizer.CleanupAll(w, s, n, previous), n)
    ensures Contents(CleanupPrevious(w, s, n, previous, c).state.namespaces[n].objects)
            == Contents(Finalizer.CleanupAll(w, s, n, previous).namespaces[n].objects)
  {
    CleanupsAgreeIff(w, s, n, previous, c);
    forall id | id in s.namespaces[n].objects && OwnerOf(s.namespaces[n].objects[id].obj) == previous
      ensures Listed(w, ByList, w.discovery, id.group, id.kind)
              <==> Listed(w, ByWatch, w.discovery, id.group, id.kind) {
      UniformListsAlike(w, w.discovery, id.group, id.kind);
    }
  }
}
