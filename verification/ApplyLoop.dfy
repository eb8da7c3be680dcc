/** The apply loop in any weather: calls may be refused, and namespaces may start to go away
    or vanish, before every single call. */
module ApplyLoop {
  import opened Kube
  import opened Resources
  import opened Ideal

  /** Namespaces may have gone or begun to go; apart from namespace n, objects are as they were. */
  ghost predicate Survives(s: State, t: State, n: string) {
    && t.classes == s.classes && t.pending == s.pending
    && (forall m <- t.namespaces ::
          && m in s.namespaces && (s.namespaces[m].meta.deleting ==> t.namespaces[m].meta.deleting)
          && t.namespaces[m].meta.classLabel == s.namespaces[m].meta.classLabel
          && t.namespaces[m].meta.annotations == s.namespaces[m].meta.annotations
          && (m != n ==> t.namespaces[m].objects == s.namespaces[m].objects))
  }

  /** The same, and namespace n, if it is still there, holds these objects. */
  ghost predicate Holds(s: State, t: State, n: string, objects: Objects) {
    Survives(s, t, n) && (n in t.namespaces ==> Contents(t.namespaces[n].objects) == objects)
  }

  function ObjectsIn(s: State, n: string): Objects {
    if n in s.namespaces then Contents(s.namespaces[n].objects) else map[]
  }

  lemma ArriveHolds(w: World, s: State, n: string)
    ensures Holds(s, Arrive(w, s), n, ObjectsIn(s, n))
  {}

  lemma PutHolds(s: State, t: State, n: string, id: ObjectId, obj: Object)
    requires Holds(s, t, n, ObjectsIn(s, n)) && n in t.namespaces
    ensures Holds(s, PutObjects(t, n, t.namespaces[n].objects[id := Stored(obj, t.clock + 1)]), n,
            ObjectsIn(s, n)[id := obj])
  {}

  lemma ArriveHoldsStill(w: World, s: State, t: State, n: string)
    requires Holds(s, t, n, ObjectsIn(s, n))
    ensures Holds(s, Arrive(w, t), n, ObjectsIn(s, n))
  {
    ArriveHolds(w, t, n);
  }

  /** A call whose only effect, if any, is to store obj at id. */
  ghost predicate StoresAtMost(s: State, o: Reply<Outcome>, n: string, id: ObjectId, obj: Object) {
    Holds(s, o.state, n, if o.value.Pass? then ObjectsIn(s, n)[id := obj] else ObjectsIn(s, n))
  }

  lemma CallStoresAtMost(s: State, t: State, o: Reply<Outcome>, n: string, id: ObjectId, obj: Object)
    requires Holds(s, t, n, ObjectsIn(s, n))
    requires if o.value.Fail? then o.state == t
             else && n in t.namespaces
                  && o.state == PutObjects(t, n, t.namespaces[n].objects[id := Stored(obj, t.clock + 1)])
    ensures StoresAtMost(s, o, n, id, obj)
  {
    if o.value.Pass? {
      PutHolds(s, t, n, id, obj);
    }
  }

  lemma CreateIsAtomic(w: World, s: State, t: State, n: string, gvk: Gvk, name: string, obj: Object)
    requires Holds(s, t, n, ObjectsIn(s, n))
    ensures StoresAtMost(s, CreateObject(w, t, n, gvk, name, obj), n, IdOf(gvk, name), obj)
  {
    ArriveHoldsStill(w, s, t, n);
    CallStoresAtMost(s, Arrive(w, t), CreateObject(w, t, n, gvk, name, obj), n, IdOf(gvk, name), obj);
  }

  lemma UpdateIsAtomic(w: World, s: State, t: State, n: string, gvk: Gvk, name: string, obj: Object, version: nat)
    requires Holds(s, t, n, ObjectsIn(s, n))
    ensures StoresAtMost(s, UpdateObject(w, t, n, gvk, name, obj, version), n, IdOf(gvk, name), obj)
  {
    ArriveHoldsStill(w, s, t, n);
    CallStoresAtMost(s, Arrive(w, t), UpdateObject(w, t, n, gvk, name, obj, version), n, IdOf(gvk, name), obj);
  }

  /** One entry is applied completely or not at all. */
  lemma ApplyOneIsAtomic(w: World, s: State, n: string, c: string, r: RawResource)
    ensures var o := ApplyOne(w, s, n, c, r);
            if r.Manifest? then StoresAtMost(s, o, n, IdOf(r.gvk, r.name), Prepared(r, c))
              else o == Reply(s, Fail(Malformed))
  {
    ArriveHolds(w, s, n);
    if r.Manifest? {
      var existing := GetObject(w, s, n, r.gvk, r.name);
      match existing.value
      case Ok(stored) => UpdateIsAtomic(w, s, existing.state, n, r.gvk, r.name, Prepared(r, c), stored.version);
      case Err(_) => CreateIsAtomic(w, s, existing.state, n, r.gvk, r.name, Prepared(r, c));
    }
  }

  /** The loop, at entry k in state u, goes no further: it is done, it cannot look at the
      namespace, the namespace is going away, or the entry fails. */
  ghost predicate StopsAt(w: World, u: State, n: string, c: string, spec: seq<RawResource>, k: nat, r: Reply<Outcome>) {
    && k <= |spec|
    && if k == |spec| then r == Reply(u, Pass) else
       var ns := GetNamespace(w, u, n);
       match ns.value
       case Err(e) => r == Reply(ns.state, if e == NotFound then Pass else Fail(e))
       case Ok(meta) =>
         if meta.deleting then r == Reply(ns.state, Pass)
         else r == ApplyOne(w, ns.state, n, c, spec[k]) && r.value.Fail?
  }

  /** The loop from entry i on, begun in s, went up to entry k and state u and ended with r; at
      both points the namespace, if it is there, holds what the first k entries make. */
  ghost predicate Prefix(w: World, s: State, u: State, r: Reply<Outcome>, n: string, c: string,
                         spec: seq<RawResource>, i: nat, k: nat, objects: Objects) {
    && i <= k && StopsAt(w, u, n, c, spec, k, r)
    && Holds(s, u, n, Apply(objects, c, spec, k)) && Holds(s, r.state, n, Apply(objects, c, spec, k))
  }

  lemma StopsHere(w: World, s: State, r: Reply<Outcome>, n: string, c: string,
                  spec: seq<RawResource>, i: nat, objects: Objects)
    requires i <= |spec|
    requires n in s.namespaces ==> Contents(s.namespaces[n].objects) == Apply(objects, c, spec, i)
    requires StopsAt(w, s, n, c, spec, i, r) && Holds(s, r.state, n, ObjectsIn(s, n))
    ensures Prefix(w, s, s, r, n, c, spec, i, i, objects)
  {}

  lemma GoesOn(w: World, s: State, t: State, o: State, u: State, r: Reply<Outcome>, n: string, c: string,
               spec: seq<RawResource>, i: nat, k: nat, objects: Objects)
    requires Survives(s, t, n) && Survives(t, o, n) && Prefix(w, o, u, r, n, c, spec, i + 1, k, objects)
    ensures Prefix(w, s, u, r, n, c, spec, i, k, objects)
  {}

  /** However the loop ends, the namespace, if it is still there, holds the objects that the
      first k manifests make, last writer first, where k is the entry at which it stopped: the
      one that failed, or the one before which the namespace was gone, going, or out of reach. */
  lemma {:induction false} AppliesAPrefix(w: World, s: State, n: string, c: string,
                                          spec: seq<RawResource>, i: nat, objects: Objects)
    returns (k: nat, u: State)
    requires i <= |spec|
    requires n in s.namespaces ==> Contents(s.namespaces[n].objects) == Apply(objects, c, spec, i)
    ensures Prefix(w, s, u, ApplyFrom(w, s, n, c, spec, i), n, c, spec, i, k, objects)
    decreases |spec| - i
  {
    k, u := i, s;
    var r := ApplyFrom(w, s, n, c, spec, i);
    ArriveHolds(w, s, n);
    var ns := GetNamespace(w, s, n);
    if i < |spec| && ns.value.Ok? && !ns.value.value.deleting {
      ApplyOneIsAtomic(w, ns.state, n, c, spec[i]);
      var o := ApplyOne(w, ns.state, n, c, spec[i]);
      HoldsTrans(s, ns.state, o.state, n);
      if o.value.Pass? {
        EntryApplied(s, ns.state, o.state, n, c, spec, i, objects);
        k, u := AppliesAPrefix(w, o.state, n, c, spec, i + 1, objects);
        GoesOn(w, s, ns.state, o.state, u, r, n, c, spec, i, k, objects);
      } else {
        StopsHere(w, s, r, n, c, spec, i, objects);
      }
    } else {
      StopsHere(w, s, r, n, c, spec, i, objects);
    }
  }

  lemma HoldsTrans(s: State, t: State, u: State, n: string)
    requires Holds(s, t, n, ObjectsIn(s, n))
    ensures Holds(t, u, n, ObjectsIn(t, n)) ==> Holds(s, u, n, ObjectsIn(s, n))
  {}

  lemma EntryApplied(s: State, t: State, o: State, n: string, c: string, spec: seq<RawResource>, i: nat,
                     objects: Objects)
    requires i < |spec| && spec[i].Manifest? && Holds(s, t, n, ObjectsIn(s, n))
    requires n in s.namespaces ==> Contents(s.namespaces[n].objects) == Apply(objects, c, spec, i)
    requires Holds(t, o, n, ObjectsIn(t, n)[IdOf(spec[i].gvk, spec[i].name) := Prepared(spec[i], c)])
    ensures n in o.namespaces ==> Contents(o.namespaces[n].objects) == Apply(objects, c, spec, i + 1)
  {}
}
