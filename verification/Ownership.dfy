/** Who owns the objects of a namespace: what a reconcile keeps, when a switch equals
    wiping and reapplying, and exactly when it fails to. */
module Ownership {
  import opened Names
  import opened Kube
  import opened Resources
  import opened Weather
  import opened Ideal
  import opened Termination

  /** With a last-applied class there is a current one and it owns everything owned;
      without one nothing is owned. */
  ghost predicate Owned(v: NsView) {
    if Lookup(v.annotations, LastApplied) != "" then
      && Lookup(v.annotations, Current) != ""
      && forall id <- v.objects :: OwnerOf(v.objects[id]) in {"", Lookup(v.annotations, Current)}
    else forall id <- v.objects :: OwnerOf(v.objects[id]) == ""
  }

  /** Both listings see the group and kind. */
  ghost predicate Discoverable(w: World, group: string, kind: string) {
    Listed(w, ByList, w.discovery, group, kind) && Listed(w, ByWatch, w.discovery, group, kind)
  }

  /** Managed kinds: discoverable, each in its one home group. */
  ghost predicate AtHome(w: World, home: string -> string, group: string, kind: string) {
    home(kind) == group && Discoverable(w, group, kind)
  }

  ghost predicate ManagedAtHome(w: World, home: string -> string, v: NsView) {
    forall id <- v.objects | OwnerOf(v.objects[id]) != "" :: AtHome(w, home, id.group, id.kind)
  }

  /** A spec all of whose entries apply, of kinds at home. */
  ghost predicate Sound(w: World, home: string -> string, spec: seq<RawResource>) {
    forall r <- spec :: Applicable(w, r) && AtHome(w, home, r.gvk.group, r.gvk.kind)
  }

  lemma SoundCounts(w: World, home: string -> string, spec: seq<RawResource>)
    requires Sound(w, home, spec)
    ensures Count(w, spec) == |spec|
  {
    assert forall i | 0 <= i < |spec| :: Applicable(w, spec[i]);
  }

  lemma KeptKeyIsWritten(w: World, home: string -> string, spec: seq<RawResource>, id: ObjectId)
    requires Sound(w, home, spec) && ValidId(id) && AtHome(w, home, id.group, id.kind)
    requires KindName(id.kind, id.name) in KeepKeys(spec)
    ensures LastWriter(spec, |spec|, id) >= 0
  {
    var r :| r in spec && r.Manifest? && KindName(r.gvk.kind, r.name) == KindName(id.kind, id.name);
    KindNameDecides(id.kind, id.name, r.gvk.kind, r.name);
    assert Writes(r, id);
    var j :| 0 <= j < |spec| && spec[j] == r;
  }

  ghost predicate ValidIds(v: NsView) {
    forall id <- v.objects :: ValidId(id)
  }

  /** A reconcile with a sound spec keeps the ownership invariant. */
  lemma SettleKeepsOwnership(w: World, home: string -> string, v: NsView, c: string, spec: seq<RawResource>,
                             known: set<string>)
    requires c != "" && Sound(w, home, spec) && ValidIds(v) && ManagedAtHome(w, home, v) && !v.deleting && Owned(v)
    ensures Owned(Settle(w, v, c, spec, known))
  {
    SoundCounts(w, home, spec);
    SettledIsSettled(v, c);
    var kept := Kept(w, v, c, spec, known);
    var after := Settle(w, v, c, spec, known).objects;
    forall id | id in after ensures OwnerOf(after[id]) in {"", c} {
      ApplyAt(kept, c, spec, |spec|, id);
      if LastWriter(spec, |spec|, id) < 0 && OwnerOf(after[id]) != "" && KindName(id.kind, id.name) in KeepKeys(spec) {
        KeptKeyIsWritten(w, home, spec, id);
      }
    }
  }

  lemma SettleStaysAtHome(w: World, home: string -> string, v: NsView, c: string, spec: seq<RawResource>,
                          known: set<string>)
    requires Sound(w, home, spec) && ManagedAtHome(w, home, v)
    ensures ManagedAtHome(w, home, Settle(w, v, c, spec, known))
  {
    SoundCounts(w, home, spec);
    var kept := Kept(w, v, c, spec, known);
    var after := Settle(w, v, c, spec, known).objects;
    forall id | id in after && OwnerOf(after[id]) != "" ensures AtHome(w, home, id.group, id.kind) {
      ApplyAt(kept, c, spec, |spec|, id);
      var j := LastWriter(spec, |spec|, id);
      if j >= 0 { assert spec[j] in spec; }
    }
  }

  /** Finalizing what was just settled leaves nothing owned and no last-applied class. */
  lemma FinalizedOwnsNothing(w: World, home: string -> string, v: NsView, c: string)
    requires !v.deleting && Owned(v) && ManagedAtHome(w, home, v) && Lookup(v.annotations, Current) == c
    ensures Owned(Finalized(w, v, c))
  {}

  // ---------- Incremental switch versus wipe and reapply ----------

  function Unowned(objects: Objects): Objects {
    map id | id in objects && OwnerOf(objects[id]) == "" :: objects[id]
  }

  function OwnedPart(objects: Objects): Objects {
    map id | id in objects && OwnerOf(objects[id]) != "" :: objects[id]
  }

  lemma ApplyEqual(a: Objects, b: Objects, c: string, spec: seq<RawResource>)
    requires forall id | LastWriter(spec, |spec|, id) < 0 :: (id in a <==> id in b) && (id in a ==> a[id] == b[id])
    ensures Apply(a, c, spec, |spec|) == Apply(b, c, spec, |spec|)
  {
    forall id ensures id in Apply(a, c, spec, |spec|) <==> id in Apply(b, c, spec, |spec|)
              ensures id in Apply(a, c, spec, |spec|)
                      ==> Apply(a, c, spec, |spec|)[id] == Apply(b, c, spec, |spec|)[id] {
      ApplyAt(a, c, spec, |spec|, id);
      ApplyAt(b, c, spec, |spec|, id);
    }
  }

  /** Reconciling a live namespace gives what deleting everything owned and applying the spec
      would give, exactly when it switches classes or when each object the class owns is
      still written by its spec: a spec that shrinks is not pruned, a switch is. */
  lemma IncrementalIsWipeAndReapply(w: World, home: string -> string, v: NsView, c: string, spec: seq<RawResource>,
                                    known: set<string>)
    requires c != "" && Sound(w, home, spec) && ValidIds(v) && ManagedAtHome(w, home, v) && !v.deleting && Owned(v)
    ensures Settle(w, v, c, spec, known).objects == Apply(Unowned(v.objects), c, spec, |spec|) <==>
            SwitchedFrom(v, c) != "" || forall id <- OwnedPart(v.objects) :: LastWriter(spec, |spec|, id) >= 0
  {
    SoundCounts(w, home, spec);
    var kept, bare := Kept(w, v, c, spec, known), Unowned(v.objects);
    if SwitchedFrom(v, c) != "" || forall id <- OwnedPart(v.objects) :: LastWriter(spec, |spec|, id) >= 0 {
      forall id | LastWriter(spec, |spec|, id) < 0
        ensures (id in kept <==> id in bare) && (id in kept ==> kept[id] == bare[id]) {
        if SwitchedFrom(v, c) != "" && id in v.objects && OwnerOf(v.objects[id]) != ""
          && KindName(id.kind, id.name) in KeepKeys(spec) {
          KeptKeyIsWritten(w, home, spec, id);
        }
      }
      ApplyEqual(kept, bare, c, spec);
    } else {
      var id :| id in OwnedPart(v.objects) && LastWriter(spec, |spec|, id) < 0;
      ApplyAt(kept, c, spec, |spec|, id);
      ApplyAt(bare, c, spec, |spec|, id);
    }
  }

  /** Applying a spec where nothing is owned, seen at one key. */
  lemma OwnedAfterApply(bare: Objects, c: string, spec: seq<RawResource>, id: ObjectId)
    requires c != "" && forall x <- bare :: OwnerOf(bare[x]) == ""
    ensures var after, clean := Apply(bare, c, spec, |spec|), Apply(map[], c, spec, |spec|);
            && (id in OwnedPart(after) <==> id in clean)
            && (id in clean ==> after[id] == clean[id])
            && (id in clean <==> LastWriter(spec, |spec|, id) >= 0)
  {
    ApplyAt(bare, c, spec, |spec|, id);
    ApplyAt(map[], c, spec, |spec|, id);
  }

  lemma WriterIsListed(spec: seq<RawResource>, id: ObjectId)
    ensures LastWriter(spec, |spec|, id) >= 0 <==> exists r <- spec :: Writes(r, id)
  {
    var j := LastWriter(spec, |spec|, id);
    if j >= 0 { assert spec[j] in spec; }
  }

  /** After a switch the owned objects are those, and with that content, that applying the
      target to a clean namespace creates: the owned keys are the keys of the target spec. */
  lemma SwitchOwnsTheTarget(w: World, home: string -> string, v: NsView, c: string, spec: seq<RawResource>,
                            known: set<string>)
    requires c != "" && Sound(w, home, spec) && ValidIds(v) && ManagedAtHome(w, home, v) && !v.deleting && Owned(v)
    requires SwitchedFrom(v, c) != ""
    ensures OwnedPart(Settle(w, v, c, spec, known).objects) == Apply(map[], c, spec, |spec|)
    ensures forall id :: id in OwnedPart(Settle(w, v, c, spec, known).objects) <==> exists r <- spec :: Writes(r, id)
  {
    IncrementalIsWipeAndReapply(w, home, v, c, spec, known);
    var bare := Unowned(v.objects);
    var after, clean := Apply(bare, c, spec, |spec|), Apply(map[], c, spec, |spec|);
    forall id ensures id in OwnedPart(after) <==> id in clean
              ensures id in clean ==> OwnedPart(after)[id] == clean[id]
              ensures id in OwnedPart(after) <==> exists r <- spec :: Writes(r, id) {
      OwnedAfterApply(bare, c, spec, id);
      WriterIsListed(spec, id);
    }
    assert OwnedPart(after) == clean;
  }

  // ---------- Exactly when a switch keeps the invariant ----------

  /** For any spec and any discovery answer, bad entries, clashing groups and kinds that no
      listing sees included: a switch keeps the ownership invariant if and only if every
      previous object that its cleanup spares is written by an entry that gets applied. */
  lemma SwitchKeepsOwnershipIff(w: World, v: NsView, c: string, spec: seq<RawResource>, known: set<string>)
    requires c != "" && !v.deleting && Owned(v) && SwitchedFrom(v, c) != ""
    ensures var previous := SwitchedFrom(v, c);
            Owned(Settle(w, v, c, spec, known)) <==>
            forall id <- v.objects | OwnerOf(v.objects[id]) == previous
              && !Stale(w, previous, known, spec, id, v.objects[id]) ::
              LastWriter(spec, Count(w, spec), id) >= 0
  {
    SettledIsSettled(v, c);
    var previous, k := SwitchedFrom(v, c), Count(w, spec);
    var kept := Kept(w, v, c, spec, known);
    var after := Settle(w, v, c, spec, known).objects;
    forall id ensures var j := LastWriter(spec, k, id);
                      if j >= 0 then id in after && OwnerOf(after[id]) == c
                      else (id in after <==> id in kept) && (id in after ==> after[id] == kept[id]) {
      ApplyAt(kept, c, spec, k, id);
    }
    if id :| id in v.objects && OwnerOf(v.objects[id]) == previous
             && !Stale(w, previous, known, spec, id, v.objects[id]) && LastWriter(spec, k, id) < 0 {
      assert id in after && OwnerOf(after[id]) == previous;
    }
  }

  /** The listing that the cleanup of this switch uses sees everything the previous class owns. */
  ghost predicate CleanupSees(w: World, v: NsView, previous: string, known: set<string>) {
    forall id <- v.objects | OwnerOf(v.objects[id]) == previous ::
      Listed(w, if previous in known then ByList else ByWatch, w.discovery, id.group, id.kind)
  }

  /** When the listing sees everything, only the overlap matters: the kinds and names that the
      target mentions, while the previous class exists. */
  lemma SeeingSwitchKeepsOwnershipIff(w: World, v: NsView, c: string, spec: seq<RawResource>, known: set<string>)
    requires c != "" && !v.deleting && Owned(v) && SwitchedFrom(v, c) != ""
             && CleanupSees(w, v, SwitchedFrom(v, c), known)
    ensures var previous := SwitchedFrom(v, c);
            Owned(Settle(w, v, c, spec, known)) <==>
            (previous in known ==>
              forall id <- v.objects | OwnerOf(v.objects[id]) == previous
                && KindName(id.kind, id.name) in KeepKeys(spec) ::
                LastWriter(spec, Count(w, spec), id) >= 0)
  {
    SwitchKeepsOwnershipIff(w, v, c, spec, known);
    var previous := SwitchedFrom(v, c);
    forall id | id in v.objects && OwnerOf(v.objects[id]) == previous
      ensures !Stale(w, previous, known, spec, id, v.objects[id])
              <==> previous in known && KindName(id.kind, id.name) in KeepKeys(spec) {
      assert Listed(w, if previous in known then ByList else ByWatch, w.discovery, id.group, id.kind);
    }
  }

  /** An unreadable entry before the manifest of an object both classes own, and a manifest
      of the same kind and name in another group, each break the invariant. */
  lemma SwitchCanBreakOwnership(w: World)
    ensures var id, obj := ObjectId("", "ConfigMap", "x"), Object(map[Owner := "a"], "");
            var v := NsView("b", map[LastApplied := "a", Current := "a"], false, map[id := obj]);
            var bad := [Unreadable, Manifest(Gvk("", "v1", "ConfigMap"), "x", map[], "")];
            var clash := [Manifest(Gvk("g", "v1", "ConfigMap"), "x", map[], "")];
            && Owned(v)
            && !Owned(Settle(w, v, "b", bad, {"a", "b"}))
            && !Owned(Settle(w, v, "b", clash, {"a", "b"}))
  {
    var id, obj := ObjectId("", "ConfigMap", "x"), Object(map[Owner := "a"], "");
    var v := NsView("b", map[LastApplied := "a", Current := "a"], false, map[id := obj]);
    var bad := [Unreadable, Manifest(Gvk("", "v1", "ConfigMap"), "x", map[], "")];
    var clash := [Manifest(Gvk("g", "v1", "ConfigMap"), "x", map[], "")];
    assert bad[1] in bad && clash[0] in clash;
    SpareBreaks(w, v, "b", bad, {"a", "b"}, id);
    SpareBreaks(w, v, "b", clash, {"a", "b"}, id);
  }

  lemma SpareBreaks(w: World, v: NsView, c: string, spec: seq<RawResource>, known: set<string>, id: ObjectId)
    requires c != "" && !v.deleting && SwitchedFrom(v, c) != "" && SwitchedFrom(v, c) in known
    requires id in v.objects && OwnerOf(v.objects[id]) == SwitchedFrom(v, c)
    requires KindName(id.kind, id.name) in KeepKeys(spec) && LastWriter(spec, Count(w, spec), id) < 0
    ensures !Owned(Settle(w, v, c, spec, known))
  {
    SettledIsSettled(v, c);
    ApplyAt(Kept(w, v, c, spec, known), c, spec, Count(w, spec), id);
  }

  /** An object of another owner that the spec does not write, such as one whose deletion
      was refused and skipped, outlives every later reconcile with the same class. */
  lemma OrphanIsPermanent(w: World, v: NsView, c: string, spec: seq<RawResource>, known: set<string>, id: ObjectId)
    requires c != "" && Lookup(v.annotations, LastApplied) != "" && Lookup(v.annotations, Current) == c
    requires id in v.objects && LastWriter(spec, Count(w, spec), id) < 0
    ensures var after := Settle(w, v, c, spec, known);
            && after.annotations == v.annotations
            && id in after.objects && after.objects[id] == v.objects[id]
  {
    ApplyAt(Kept(w, v, c, spec, known), c, spec, Count(w, spec), id);
  }
}
