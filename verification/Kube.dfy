/** The API server as the controller meets it: stored entities with resource
    versions, and one pure function per call. Every call first lets the world
    act (`Arrive`) and may then be refused. */
module Kube {
  import opened Names

  datatype Option<+T> = None | Some(value: T)
  datatype Error = NotFound | Conflict | NoMatch | Rejected | Unavailable | Malformed | Joined(errors: seq<Error>)
  datatype Result<+T> = Ok(value: T) | Err(error: Error)
  datatype Outcome = Pass | Fail(error: Error)

  // ---------- Stored entities ----------

  /** The two annotations the controller writes, and everybody else's. */
  datatype AnnotationKey = LastApplied | Current | Foreign(key: string)
  type Annotations = map<AnnotationKey, string>

  /** The owner label, and all other labels of a managed object. */
  datatype LabelKey = Owner | Plain(key: string)

  datatype Object = Object(labels: map<LabelKey, string>, body: string)
  datatype Stored = Stored(obj: Object, version: nat)
  datatype ObjectId = ObjectId(group: string, kind: string, name: string)
  datatype Gvk = Gvk(group: string, version: string, kind: string)

  /** An entry of a class spec: a manifest, or bytes that do not convert to one. */
  datatype RawResource = Manifest(gvk: Gvk, name: string, labels: map<LabelKey, string>, body: string) | Unreadable

  /** The metadata of a namespace; classLabel "" stands for an absent label. */
  datatype Namespace = Namespace(classLabel: string, annotations: Annotations, deleting: bool, version: nat)

  /** A namespace with the namespaced objects that live in it. */
  datatype Cell = Cell(meta: Namespace, objects: map<ObjectId, Stored>)

  datatype StatusEntry = StatusEntry(name: string, currentClass: string, lastAppliedClass: string,
    resourceStatus: string)
  datatype Status = Status(observedGeneration: nat, ready: bool, namespaces: seq<StatusEntry>)
  datatype Finalizer = Ours | Theirs(key: string)
  datatype Class = Class(spec: seq<RawResource>, finalizers: seq<Finalizer>, deleting: bool,
                         generation: nat, status: Status, version: nat)

  datatype ApiResource = ApiResource(name: string, kind: string, namespaced: bool, verbs: seq<string>)
  datatype ResourceList = ResourceList(groupVersion: string, resources: seq<ApiResource>)

  /** What may happen just before a call takes effect. `Degraded` is a discovery
      answer that comes with failed groups. */
  datatype Event =
    | Calm
    | Refuse
    | Degraded(lists: seq<ResourceList>)
    | MarkDeleting(name: string)
    | Remove(name: string)

  /** The script of events, the discovery answer, the types the server knows, and those it lists. */
  datatype World = World(script: nat -> Event, discovery: seq<ResourceList>, served: set<Gvk>, listable: set<Gvk>)

  /** `pending` holds the class names whose reconciliation has been triggered in the background. */
  datatype State = State(namespaces: map<string, Cell>, classes: map<string, Class>,
                         clock: nat, calls: nat, pending: seq<string>)

  datatype Reply<+T> = Reply(state: State, value: T)

  /** Reading a Go map: an absent key reads as "". */
  function Lookup<K(==)>(m: map<K, string>, key: K): string {
    if key in m then m[key] else ""
  }

  function OwnerOf(obj: Object): string {
    Lookup(obj.labels, Owner)
  }

  function IdOf(gvk: Gvk, name: string): ObjectId {
    ObjectId(gvk.group, gvk.kind, name)
  }

  /** Object names the server accepts: path segments. */
  predicate ValidName(name: string) {
    name != "" && SlashFree(name)
  }

  // ---------- Calls ----------

  function Touch(s: State, n: string, meta: Namespace): State
    requires n in s.namespaces
  {
    s.(namespaces := s.namespaces[n := s.namespaces[n].(meta := meta.(version := s.clock + 1))], clock := s.clock + 1)
  }

  function PutObjects(s: State, n: string, objects: map<ObjectId, Stored>): State
    requires n in s.namespaces
  {
    s.(namespaces := s.namespaces[n := s.namespaces[n].(objects := objects)], clock := s.clock + 1)
  }

  function PutClass(s: State, c: string, nc: Class): State {
    s.(classes := s.classes[c := nc.(version := s.clock + 1)], clock := s.clock + 1)
  }

  function Arrive(w: World, s: State): State {
    var t := s.(calls := s.calls + 1);
    match w.script(s.calls)
    case MarkDeleting(n) => if n in t.namespaces then Touch(t, n, t.namespaces[n].meta.(deleting := true)) else t
    case Remove(n) => t.(namespaces := t.namespaces - {n})
    case _ => t
  }

  predicate Refused(w: World, s: State) {
    w.script(s.calls).Refuse?
  }

  function GetNamespace(w: World, s: State, n: string): Reply<Result<Namespace>> {
    var t := Arrive(w, s);
    Reply(t, if Refused(w, s) then Err(Unavailable)
             else if n !in t.namespaces then Err(NotFound)
             else Ok(t.namespaces[n].meta))
  }

  /** A full update guarded by the resource version of the copy it was made from. */
  function UpdateNamespace(w: World, s: State, n: string, meta: Namespace): Reply<Outcome> {
    var t := Arrive(w, s);
    if Refused(w, s) then Reply(t, Fail(Unavailable))
    else if n !in t.namespaces then Reply(t, Fail(NotFound))
    else if t.namespaces[n].meta.version != meta.version then Reply(t, Fail(Conflict))
    else Reply(Touch(t, n, meta), Pass)
  }

  datatype Item = Item(name: string, meta: Namespace)

  function Labelled(s: State, c: string): set<string> {
    set n | n in s.namespaces && s.namespaces[n].meta.classLabel == c
  }

  function ItemsOf(s: State, names: seq<string>): (items: seq<Item>)
    requires forall n <- names :: n in s.namespaces
    ensures |items| == |names|
    ensures forall i | 0 <= i < |names| :: items[i] == Item(names[i], s.namespaces[names[i]].meta)
  {
    if names == [] then [] else [Item(names[0], s.namespaces[names[0]].meta)] + ItemsOf(s, names[1..])
  }

  function ListNamespaces(w: World, s: State, c: string): Reply<Result<seq<Item>>> {
    var t := Arrive(w, s);
    Reply(t, if Refused(w, s) then Err(Unavailable) else Ok(ItemsOf(t, SortedNames(Labelled(t, c)))))
  }

  function GetObject(w: World, s: State, n: string, gvk: Gvk, name: string): Reply<Result<Stored>> {
    var t := Arrive(w, s);
    Reply(t, if Refused(w, s) then Err(Unavailable)
             else if gvk !in w.served then Err(NoMatch)
             else if n !in t.namespaces || IdOf(gvk, name) !in t.namespaces[n].objects then Err(NotFound)
             else Ok(t.namespaces[n].objects[IdOf(gvk, name)]))
  }

  function CreateObject(w: World, s: State, n: string, gvk: Gvk, name: string, obj: Object): Reply<Outcome> {
    var t := Arrive(w, s);
    if Refused(w, s) then Reply(t, Fail(Unavailable))
    else if gvk !in w.served then Reply(t, Fail(NoMatch))
    else if n !in t.namespaces then Reply(t, Fail(NotFound))
    else if t.namespaces[n].meta.deleting || !ValidName(name) then Reply(t, Fail(Rejected))
    else if IdOf(gvk, name) in t.namespaces[n].objects then Reply(t, Fail(Conflict))
    else Reply(PutObjects(t, n, t.namespaces[n].objects[IdOf(gvk, name) := Stored(obj, t.clock + 1)]), Pass)
  }

  function UpdateObject(w: World, s: State, n: string, gvk: Gvk, name: string, obj: Object,
                        version: nat): Reply<Outcome> {
    var t := Arrive(w, s);
    if Refused(w, s) then Reply(t, Fail(Unavailable))
    else if gvk !in w.served then Reply(t, Fail(NoMatch))
    else if n !in t.namespaces || IdOf(gvk, name) !in t.namespaces[n].objects then Reply(t, Fail(NotFound))
    else if t.namespaces[n].objects[IdOf(gvk, name)].version != version then Reply(t, Fail(Conflict))
    else Reply(PutObjects(t, n, t.namespaces[n].objects[IdOf(gvk, name) := Stored(obj, t.clock + 1)]), Pass)
  }

  function DeleteObject(w: World, s: State, n: string, gvk: Gvk, name: string): Reply<Outcome> {
    var t := Arrive(w, s);
    if Refused(w, s) then Reply(t, Fail(Unavailable))
    else if gvk !in w.served then Reply(t, Fail(NoMatch))
    else if n !in t.namespaces || IdOf(gvk, name) !in t.namespaces[n].objects then Reply(t, Fail(NotFound))
    else Reply(PutObjects(t, n, t.namespaces[n].objects - {IdOf(gvk, name)}), Pass)
  }

  /** The names of the objects of one group and kind in one namespace with one owner label. */
  function OwnedNames(s: State, n: string, gvk: Gvk, owner: string): set<string> {
    if n !in s.namespaces then {} else
      set id | id in s.namespaces[n].objects && id.group == gvk.group && id.kind == gvk.kind
               && OwnerOf(s.namespaces[n].objects[id].obj) == owner :: id.name
  }

  function ListObjects(w: World, s: State, n: string, gvk: Gvk, owner: string): Reply<Result<seq<string>>> {
    var t := Arrive(w, s);
    Reply(t, if Refused(w, s) then Err(Unavailable)
             else if gvk !in w.served then Err(NoMatch)
             else if gvk !in w.listable then Err(Rejected)
             else Ok(SortedNames(OwnedNames(t, n, gvk, owner))))
  }

  function Discover(w: World, s: State): Reply<Result<seq<ResourceList>>> {
    var t := Arrive(w, s);
    match w.script(s.calls)
    case Refuse => Reply(t, Err(Unavailable))
    case Degraded(lists) => Reply(t, if lists == [] then Err(Unavailable) else Ok(lists))
    case _ => Reply(t, Ok(w.discovery))
  }

  function GetClass(w: World, s: State, c: string): Reply<Result<Class>> {
    var t := Arrive(w, s);
    Reply(t, if Refused(w, s) then Err(Unavailable)
             else if c !in t.classes then Err(NotFound)
             else Ok(t.classes[c]))
  }

  /** A version-guarded update of everything but the status; a terminating class
      that is left without finalizers is gone. */
  function UpdateClass(w: World, s: State, c: string, nc: Class): Reply<Outcome> {
    var t := Arrive(w, s);
    if Refused(w, s) then Reply(t, Fail(Unavailable))
    else if c !in t.classes then Reply(t, Fail(NotFound))
    else if t.classes[c].version != nc.version then Reply(t, Fail(Conflict))
    else if nc.deleting && nc.finalizers == [] then Reply(t.(classes := t.classes - {c}, clock := t.clock + 1), Pass)
    else Reply(PutClass(t, c, nc.(status := t.classes[c].status)), Pass)
  }

  /** A merge patch of the status: no version guard. */
  function PatchStatus(w: World, s: State, c: string, status: Status): Reply<Outcome> {
    var t := Arrive(w, s);
    if Refused(w, s) then Reply(t, Fail(Unavailable))
    else if c !in t.classes then Reply(t, Fail(NotFound))
    else Reply(PutClass(t, c, t.classes[c].(status := status)), Pass)
  }
}

/** The live server: one mutable store, and a method per call. */
module Server {
  import opened Kube

  class ApiServer {
    const world: World
    var state: State

    constructor (world: World, state: State)
      ensures this.world == world && this.state == state
    {
      this.world := world;
      this.state := state;
    }

    method GetNamespace(n: string) returns (r: Result<Namespace>)
      modifies this
      ensures Reply(state, r) == Kube.GetNamespace(world, old(state), n)
    {
      var reply := Kube.GetNamespace(world, state, n);
      state, r := reply.state, reply.value;
    }

    method UpdateNamespace(n: string, meta: Namespace) returns (r: Outcome)
      modifies this
      ensures Reply(state, r) == Kube.UpdateNamespace(world, old(state), n, meta)
    {
      var reply := Kube.UpdateNamespace(world, state, n, meta);
      state, r := reply.state, reply.value;
    }

    method ListNamespaces(c: string) returns (r: Result<seq<Item>>)
      modifies this
      ensures Reply(state, r) == Kube.ListNamespaces(world, old(state), c)
    {
      var reply := Kube.ListNamespaces(world, state, c);
      state, r := reply.state, reply.value;
    }

    method GetObject(n: string, gvk: Gvk, name: string) returns (r: Result<Stored>)
      modifies this
      ensures Reply(state, r) == Kube.GetObject(world, old(state), n, gvk, name)
    {
      var reply := Kube.GetObject(world, state, n, gvk, name);
      state, r := reply.state, reply.value;
    }

    method CreateObject(n: string, gvk: Gvk, name: string, obj: Object) returns (r: Outcome)
      modifies this
      ensures Reply(state, r) == Kube.CreateObject(world, old(state), n, gvk, name, obj)
    {
      var reply := Kube.CreateObject(world, state, n, gvk, name, obj);
      state, r := reply.state, reply.value;
    }

    method UpdateObject(n: string, gvk: Gvk, name: string, obj: Object, version: nat) returns (r: Outcome)
      modifies this
      ensures Reply(state, r) == Kube.UpdateObject(world, old(state), n, gvk, name, obj, version)
    {
      var reply := Kube.UpdateObject(world, state, n, gvk, name, obj, version);
      state, r := reply.state, reply.value;
    }

    method DeleteObject(n: string, gvk: Gvk, name: string) returns (r: Outcome)
      modifies this
      ensures Reply(state, r) == Kube.DeleteObject(world, old(state), n, gvk, name)
    {
      var reply := Kube.DeleteObject(world, state, n, gvk, name);
      state, r := reply.state, reply.value;
    }

    method ListObjects(n: string, gvk: Gvk, owner: string) returns (r: Result<seq<string>>)
      modifies this
      ensures Reply(state, r) == Kube.ListObjects(world, old(state), n, gvk, owner)
    {
      var reply := Kube.ListObjects(world, state, n, gvk, owner);
      state, r := reply.state, reply.value;
    }

    method Discover() returns (r: Result<seq<ResourceList>>)
      modifies this
      ensures Reply(state, r) == Kube.Discover(world, old(state))
    {
      var reply := Kube.Discover(world, state);
      state, r := reply.state, reply.value;
    }

    method GetClass(c: string) returns (r: Result<Class>)
      modifies this
      ensures Reply(state, r) == Kube.GetClass(world, old(state), c)
    {
      var reply := Kube.GetClass(world, state, c);
      state, r := reply.state, reply.value;
    }

    method UpdateClass(c: string, nc: Class) returns (r: Outcome)
      modifies this
      ensures Reply(state, r) == Kube.UpdateClass(world, old(state), c, nc)
    {
      var reply := Kube.UpdateClass(world, state, c, nc);
      state, r := reply.state, reply.value;
    }

    method PatchStatus(c: string, status: Status) returns (r: Outcome)
      modifies this
      ensures Reply(state, r) == Kube.PatchStatus(world, old(state), c, status)
    {
      var reply := Kube.PatchStatus(world, state, c, status);
      state, r := reply.state, reply.value;
    }

    /** Hands a class name to a background goroutine. */
    method Trigger(c: string)
      modifies this
      ensures state == old(state).(pending := old(state).pending + [c])
    {
      state := state.(pending := state.pending + [c]);
    }
  }
}
