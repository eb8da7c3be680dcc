/** The calls that rewrite a namespace's class annotations, interleaved: each is split into
    lock, read, guarded write and unlock, reads may be out of date, and everybody else
    writes namespaces at any time under no lock. */
module AnnotationSwap {
  import opened Kube
  import opened Controller

  // ---------- The state machine ----------

  /** A call of setClassAnnotations, of updateCurrentClassAnnotation, or of the part of the
      finalizer cleanup that forgets the last applied class (which takes no lock). */
  datatype Job =
    | Initialise(name: string, original: string, current: string)
    | Switch(name: string, c: string)
    | Forget(name: string)

  datatype Phase = Waiting | Locked | Holding(copy: Namespace) | Leaving
  datatype Worker = Worker(job: Job, phase: Phase)

  /** What others do to a namespace. */
  datatype Write =
    | SetAnnotation(key: AnnotationKey, value: string)
    | DropAnnotation(key: AnnotationKey)
    | SetLabel(classLabel: string)
    | StartDeleting

  /** A change of the store, in the order the server accepted it. */
  datatype Deed =
    | Rewrote(job: Job)
    | Wrote(name: string, write: Write)
    | Created(name: string, classLabel: string)
    | Purged(name: string)

  /** `past` holds every version of every namespace that was ever stored; a lock belongs to a worker. */
  datatype Cluster = Cluster(namespaces: map<string, Namespace>, past: set<(string, Namespace)>, clock: nat,
                             locks: map<string, nat>, workers: map<nat, Worker>, log: seq<Deed>)

  datatype Step =
    | Start(id: nat, job: Job)
    | Lock(id: nat)
    | Read(id: nat, copy: Namespace)
    | Commit(id: nat)
    | Abort(id: nat)
    | Unlock(id: nat)
    | Outside(name: string, write: Write)
    | Create(name: string, classLabel: string)
    | Purge(name: string)

  function Rewritten(a: Annotations, job: Job): Annotations {
    match job
    case Initialise(_, original, current) => SetBoth(a, original, current)
    case Switch(_, c) => Swap(a, c)
    case Forget(_) => a - {LastApplied}
  }

  function Written(ns: Namespace, write: Write): Namespace {
    match write
    case SetAnnotation(key, value) => ns.(annotations := ns.annotations[key := value])
    case DropAnnotation(key) => ns.(annotations := ns.annotations - {key})
    case SetLabel(l) => ns.(classLabel := l)
    case StartDeleting => ns.(deleting := true)
  }

  /** Ready to read: with the lock, unless the job takes none. */
  predicate Ready(worker: Worker) {
    if worker.job.Forget? then worker.phase.Waiting? else worker.phase.Locked?
  }

  predicate Enabled(c: Cluster, step: Step) {
    match step
    case Start(id, _) => id !in c.workers
    case Lock(id) => id in c.workers && c.workers[id].phase.Waiting? && !c.workers[id].job.Forget?
      && c.workers[id].job.name !in c.locks
    case Read(id, copy) => id in c.workers && Ready(c.workers[id]) && (c.workers[id].job.name, copy) in c.past
    case Commit(id) => id in c.workers && c.workers[id].phase.Holding?
    case Abort(id) => id in c.workers && (Ready(c.workers[id]) || c.workers[id].phase.Holding?)
    case Unlock(id) => id in c.workers && c.workers[id].phase.Leaving?
    case Outside(n, _) => n in c.namespaces
    case Create(n, _) => n !in c.namespaces
    case Purge(n) => n in c.namespaces
  }

  function Put(c: Cluster, n: string, ns: Namespace, deed: Deed): Cluster {
    var stored := ns.(version := c.clock + 1);
    c.(namespaces := c.namespaces[n := stored], past := c.past + {(n, stored)}, clock := c.clock + 1,
      log := c.log + [deed])
  }

  function Advance(c: Cluster, id: nat, phase: Phase): Cluster
    requires id in c.workers
  {
    c.(workers := c.workers[id := c.workers[id].(phase := phase)])
  }

  /** The server accepts the write: the copy has the stored resource version. */
  predicate Accepted(c: Cluster, id: nat)
    requires Enabled(c, Commit(id))
  {
    var n := c.workers[id].job.name;
    n in c.namespaces && c.namespaces[n].version == c.workers[id].phase.copy.version
  }

  function Next(c: Cluster, step: Step): Cluster {
    if !Enabled(c, step) then c else
    match step
    case Start(id, job) => c.(workers := c.workers[id := Worker(job, Waiting)])
    case Lock(id) => Advance(c, id, Locked).(locks := c.locks[c.workers[id].job.name := id])
    case Read(id, copy) => Advance(c, id, Holding(copy))
    case Commit(id) =>
      var job, copy := c.workers[id].job, c.workers[id].phase.copy;
      var left := Advance(c, id, Leaving);
      if Accepted(c, id) then Put(left, job.name, copy.(annotations := Rewritten(copy.annotations, job)),
        Rewrote(job)) else left
    case Abort(id) => Advance(c, id, Leaving)
    case Unlock(id) =>
      c.(workers := c.workers - {id}, locks := if c.workers[id].job.Forget? then c.locks
                                               else c.locks - {c.workers[id].job.name})
    case Outside(n, write) => Put(c, n, Written(c.namespaces[n], write), Wrote(n, write))
    case Create(n, l) => Put(c, n, Namespace(l, map[], false, 0), Created(n, l))
    case Purge(n) => c.(namespaces := c.namespaces - {n}, log := c.log + [Purged(n)])
  }

  function Run(c: Cluster, steps: seq<Step>): Cluster
    decreases |steps|
  {
    if steps == [] then c else Run(Next(c, steps[0]), steps[1..])
  }

  // ---------- Invariants ----------

  predicate InSection(worker: Worker) {
    !worker.job.Forget? && !worker.phase.Waiting?
  }

  /** Locks and critical sections correspond. */
  ghost predicate Guarded(c: Cluster) {
    && (forall id <- c.workers :: !(c.workers[id].job.Forget? && c.workers[id].phase.Locked?))
    && (forall id <- c.workers | InSection(c.workers[id]) ::
          c.workers[id].job.name in c.locks && c.locks[c.workers[id].job.name] == id)
    && (forall n <- c.locks ::
          c.locks[n] in c.workers && InSection(c.workers[c.locks[n]]) && c.workers[c.locks[n]].job.name == n)
  }

  /** A resource version stands for one content of one namespace, for ever. */
  ghost predicate Versioned(c: Cluster) {
    && (forall n <- c.namespaces :: (n, c.namespaces[n]) in c.past)
    && (forall p <- c.past :: p.1.version <= c.clock)
    && (forall p <- c.past, q <- c.past | p.0 == q.0 && p.1.version == q.1.version :: p == q)
    && (forall id <- c.workers | c.workers[id].phase.Holding? ::
          (c.workers[id].job.name, c.workers[id].phase.copy) in c.past)
  }

  lemma StepKeepsGuarded(c: Cluster, step: Step)
    requires Guarded(c)
    ensures Guarded(Next(c, step))
  {}

  lemma PutKeepsVersioned(c: Cluster, n: string, ns: Namespace, deed: Deed)
    requires Versioned(c)
    ensures Versioned(Put(c, n, ns, deed))
  {}

  lemma CommitKeepsVersioned(c: Cluster, id: nat)
    requires Versioned(c) && Enabled(c, Commit(id))
    ensures Versioned(Next(c, Commit(id)))
  {
    var job, copy := c.workers[id].job, c.workers[id].phase.copy;
    var left := Advance(c, id, Leaving);
    assert Versioned(left);
    PutKeepsVersioned(left, job.name, copy.(annotations := Rewritten(copy.annotations, job)), Rewrote(job));
  }

  lemma StepKeepsVersioned(c: Cluster, step: Step)
    requires Versioned(c)
    ensures Versioned(Next(c, step))
  {
    if Enabled(c, step) {
      match step
      case Commit(id) => CommitKeepsVersioned(c, id);
      case Outside(n, write) => PutKeepsVersioned(c, n, Written(c.namespaces[n], write), Wrote(n, write));
      case Create(n, l) => PutKeepsVersioned(c, n, Namespace(l, map[], false, 0), Created(n, l));
      case _ =>
    }
  }

  lemma {:induction false} RunKeepsInvariants(c: Cluster, steps: seq<Step>)
    requires Guarded(c) && Versioned(c)
    ensures Guarded(Run(c, steps)) && Versioned(Run(c, steps))
    decreases |steps|
  {
    if steps != [] {
      StepKeepsGuarded(c, steps[0]);
      StepKeepsVersioned(c, steps[0]);
      RunKeepsInvariants(Next(c, steps[0]), steps[1..]);
    }
  }

  /** At most one worker per namespace is in the critical section, after any interleaving. */
  lemma MutualExclusion(c: Cluster, steps: seq<Step>, id: nat, other: nat)
    requires Guarded(c) && Versioned(c)
    requires var t := Run(c, steps);
             id in t.workers && other in t.workers && InSection(t.workers[id]) && InSection(t.workers[other])
    ensures id != other ==> Run(c, steps).workers[id].job.name != Run(c, steps).workers[other].job.name
  {
    RunKeepsInvariants(c, steps);
  }

  /** The worker that takes the step. */
  function Mover(step: Step): Option<nat> {
    match step
    case Lock(id) => Some(id)
    case Read(id, _) => Some(id)
    case Commit(id) => Some(id)
    case Abort(id) => Some(id)
    case Unlock(id) => Some(id)
    case _ => None
  }

  /** No deadlock: every worker can move, or waits for one that can. */
  lemma NobodyIsStuck(c: Cluster, steps: seq<Step>, id: nat)
    requires Guarded(c) && Versioned(c) && id in Run(c, steps).workers
    ensures var t := Run(c, steps);
            exists step :: Enabled(t, step) && (Mover(step) == Some(id)
                           || (t.workers[id].job.name in t.locks
                              && Mover(step) == Some(t.locks[t.workers[id].job.name])))
  {
    RunKeepsInvariants(c, steps);
    var t := Run(c, steps);
    var worker := t.workers[id];
    var i := if worker.phase.Waiting? && worker.job.name in t.locks then t.locks[worker.job.name] else id;
    var step := if t.workers[i].phase.Leaving? then Unlock(i)
                else if t.workers[i].phase.Waiting? && !t.workers[i].job.Forget? then Lock(i) else Abort(i);
    assert Enabled(t, step) && Mover(step) == Some(i);
  }

  // ---------- Every run is a sequence of atomic deeds ----------

  /** The store without versions. */
  function Facts(namespaces: map<string, Namespace>): map<string, Namespace> {
    map n | n in namespaces :: namespaces[n].(version := 0)
  }

  /** A deed done at one instant, on what is stored at that instant. */
  function Do(facts: map<string, Namespace>, deed: Deed): map<string, Namespace> {
    match deed
    case Rewrote(job) =>
      if job.name !in facts then facts else
      facts[job.name := facts[job.name].(annotations := Rewritten(facts[job.name].annotations, job))]
    case Wrote(n, write) => if n !in facts then facts else facts[n := Written(facts[n], write)]
    case Created(n, l) => facts[n := Namespace(l, map[], false, 0)]
    case Purged(n) => facts - {n}
  }

  function Replay(facts: map<string, Namespace>, log: seq<Deed>): map<string, Namespace> {
    if log == [] then facts else Do(Replay(facts, log[..|log| - 1]), log[|log| - 1])
  }

  /** The copy an accepted write was made from is what the store holds. */
  lemma AcceptedCopyIsStored(c: Cluster, id: nat)
    requires Versioned(c) && Enabled(c, Commit(id))
    ensures Accepted(c, id) <==>
            c.workers[id].job.name in c.namespaces && c.namespaces[c.workers[id].job.name] == c.workers[id].phase.copy
  {
    var n := c.workers[id].job.name;
    if Accepted(c, id) {
      var p, q := (n, c.namespaces[n]), (n, c.workers[id].phase.copy);
      assert p in c.past && q in c.past && p == q;
    }
  }

  ghost predicate Changes(c: Cluster, t: Cluster, deed: Deed) {
    t.log == c.log + [deed] && Facts(t.namespaces) == Do(Facts(c.namespaces), deed)
  }

  lemma PutIs(c: Cluster, n: string, ns: Namespace, deed: Deed)
    ensures Facts(Put(c, n, ns, deed).namespaces) == Facts(c.namespaces)[n := ns.(version := 0)]
  {}

  lemma CommitIsAtomic(c: Cluster, id: nat)
    requires Versioned(c) && Enabled(c, Commit(id)) && Accepted(c, id)
    ensures Changes(c, Next(c, Commit(id)), Rewrote(c.workers[id].job))
  {
    AcceptedCopyIsStored(c, id);
    var job, copy := c.workers[id].job, c.workers[id].phase.copy;
    PutIs(Advance(c, id, Leaving), job.name, copy.(annotations := Rewritten(copy.annotations, job)), Rewrote(job));
  }

  lemma OutsideIsAtomic(c: Cluster, n: string, write: Write)
    requires n in c.namespaces
    ensures Changes(c, Next(c, Outside(n, write)), Wrote(n, write))
  {
    PutIs(c, n, Written(c.namespaces[n], write), Wrote(n, write));
  }

  lemma CreateIsAtomic(c: Cluster, n: string, l: string)
    requires n !in c.namespaces
    ensures Changes(c, Next(c, Create(n, l)), Created(n, l))
  {
    PutIs(c, n, Namespace(l, map[], false, 0), Created(n, l));
  }

  lemma PurgeIsAtomic(c: Cluster, n: string)
    requires n in c.namespaces
    ensures Changes(c, Next(c, Purge(n)), Purged(n))
  {
    assert Facts(c.namespaces - {n}) == Facts(c.namespaces) - {n};
  }

  /** A step changes the store by the deed it logs, if it logs one. */
  lemma StepIsAtomic(c: Cluster, step: Step)
    requires Versioned(c)
    ensures var t := Next(c, step);
            || (t.log == c.log && t.namespaces == c.namespaces)
            || exists deed :: Changes(c, t, deed)
  {
    if Enabled(c, step) {
      match step
      case Commit(id) => if Accepted(c, id) { CommitIsAtomic(c, id); }
      case Outside(n, write) => OutsideIsAtomic(c, n, write);
      case Create(n, l) => CreateIsAtomic(c, n, l);
      case Purge(n) => PurgeIsAtomic(c, n);
      case _ =>
    }
  }

  /** Serializability: whatever the interleaving, and however old the reads, the store is what
      doing the logged deeds one after the other gives. */
  lemma {:induction false} RunsAreSerializable(start: map<string, Namespace>, c: Cluster, steps: seq<Step>)
    requires Guarded(c) && Versioned(c) && Facts(c.namespaces) == Replay(start, c.log)
    ensures var t := Run(c, steps); Facts(t.namespaces) == Replay(start, t.log)
    decreases |steps|
  {
    if steps != [] {
      StepKeepsGuarded(c, steps[0]);
      StepKeepsVersioned(c, steps[0]);
      StepIsAtomic(c, steps[0]);
      var t := Next(c, steps[0]);
      if deed :| Changes(c, t, deed) {
        assert t.log[..|t.log| - 1] == c.log && t.log[|t.log| - 1] == deed;
      }
      RunsAreSerializable(start, Next(c, steps[0]), steps[1..]);
    }
  }

  // ---------- What an accepted switch does ----------

  /** In every run a switch that the server accepts makes its class the current one, records
      as last applied exactly the class it overwrote, if there was another one, and changes
      nothing else of the namespace as it was stored at that instant. */
  lemma SwitchRecordsWhatItOverwrites(c: Cluster, steps: seq<Step>, id: nat)
    requires Guarded(c) && Versioned(c)
    requires Enabled(Run(c, steps), Commit(id)) && Accepted(Run(c, steps), id) && Run(c, steps).workers[id].job.Switch?
    ensures var t := Run(c, steps);
            var n, target := t.workers[id].job.name, t.workers[id].job.c;
            var before, after := t.namespaces[n], Next(t, Commit(id)).namespaces[n];
            var overwritten := Lookup(before.annotations, Current);
            && Lookup(after.annotations, Current) == target
            && (overwritten !in {"", target} ==> Lookup(after.annotations, LastApplied) == overwritten)
            && (overwritten in {"", target}
               ==> Lookup(after.annotations, LastApplied) == Lookup(before.annotations, LastApplied))
            && after.annotations - {LastApplied, Current} == before.annotations - {LastApplied, Current}
            && after.classLabel == before.classLabel && after.deleting == before.deleting
  {
    RunKeepsInvariants(c, steps);
    var t := Run(c, steps);
    AcceptedCopyIsStored(t, id);
    var n := t.workers[id].job.name;
    SwapIs(t.namespaces[n].annotations, t.workers[id].job.c);
    assert Next(t, Commit(id)).namespaces[n]
        == t.namespaces[n].(annotations := Swap(t.namespaces[n].annotations, t.workers[id].job.c),
          version := t.clock + 1);
  }

  /** Setting both annotations sets each to its own value, a switch records what it overwrites,
      forgetting takes the last applied class away; nothing else changes. */
  ghost predicate Rewrites(before: Annotations, after: Annotations, job: Job) {
    match job
    case Initialise(_, original, current) =>
      && LastApplied in after && after[LastApplied] == original && Current in after && after[Current] == current
      && after - {LastApplied, Current} == before - {LastApplied, Current}
    case Switch(_, target) =>
      var overwritten := Lookup(before, Current);
      && Lookup(after, Current) == target
      && Lookup(after, LastApplied) == (if overwritten in {"", target} then Lookup(before, LastApplied)
                                        else overwritten)
      && after - {LastApplied, Current} == before - {LastApplied, Current}
    case Forget(_) => LastApplied !in after && after - {LastApplied} == before - {LastApplied}
  }

  lemma RewrittenIs(a: Annotations, job: Job)
    ensures Rewrites(a, Rewritten(a, job), job)
  {}

  lemma CommitIs(c: Cluster, id: nat)
    requires Versioned(c) && Enabled(c, Commit(id)) && Accepted(c, id)
    ensures var n := c.workers[id].job.name;
            Next(c, Commit(id)).namespaces[n]
            == c.namespaces[n].(annotations := Rewritten(c.namespaces[n].annotations, c.workers[id].job),
                                version := c.clock + 1)
  {
    AcceptedCopyIsStored(c, id);
  }

  /** In every run each of the three rewrites, once accepted, does this to the annotations stored at
      that instant, and leaves label and deletion mark alone. */
  lemma RewritesAreExact(c: Cluster, steps: seq<Step>, id: nat)
    requires Guarded(c) && Versioned(c)
    requires Enabled(Run(c, steps), Commit(id)) && Accepted(Run(c, steps), id)
    ensures var t := Run(c, steps);
            var job := t.workers[id].job;
            var before, after := t.namespaces[job.name], Next(t, Commit(id)).namespaces[job.name];
            && Rewrites(before.annotations, after.annotations, job)
            && after.classLabel == before.classLabel && after.deleting == before.deleting
  {
    RunKeepsInvariants(c, steps);
    var t := Run(c, steps);
    CommitIs(t, id);
    RewrittenIs(t.namespaces[t.workers[id].job.name].annotations, t.workers[id].job);
  }

  lemma SwapIs(a: Annotations, target: string)
    ensures var after, overwritten := Swap(a, target), Lookup(a, Current);
            && Lookup(after, Current) == target
            && (overwritten !in {"", target} ==> Lookup(after, LastApplied) == overwritten)
            && (overwritten in {"", target} ==> Lookup(after, LastApplied) == Lookup(a, LastApplied))
            && after - {LastApplied, Current} == a - {LastApplied, Current}
  {}

  // ---------- Nobody else's write is lost ----------

  /** A part of a namespace the controller does not write. */
  datatype Part = TheirAnnotation(key: string) | ClassLabel | DeletionMark

  function PartOf(ns: Namespace, part: Part): string {
    match part
    case TheirAnnotation(key) => if Foreign(key) in ns.annotations then "=" + ns.annotations[Foreign(key)] else ""
    case ClassLabel => ns.classLabel
    case DeletionMark => if ns.deleting then "deleting" else ""
  }

  predicate Disturbs(step: Step, n: string, part: Part) {
    match step
    case Outside(m, write) =>
      m == n && (match write
                 case SetAnnotation(key, _) => part.TheirAnnotation? && key == Foreign(part.key)
                 case DropAnnotation(key) => part.TheirAnnotation? && key == Foreign(part.key)
                 case SetLabel(_) => part.ClassLabel?
                 case StartDeleting => part.DeletionMark?)
    case Purge(m) => m == n
    case _ => false
  }

  lemma RewriteKeepsPart(ns: Namespace, job: Job, version: nat, part: Part)
    ensures PartOf(ns.(annotations := Rewritten(ns.annotations, job), version := version), part) == PartOf(ns, part)
  {}

  lemma WriteKeepsPart(ns: Namespace, n: string, write: Write, version: nat, part: Part)
    requires !Disturbs(Outside(n, write), n, part)
    ensures PartOf(Written(ns, write).(version := version), part) == PartOf(ns, part)
  {}

  lemma CommitKeepsPart(c: Cluster, id: nat, n: string, part: Part)
    requires Versioned(c) && n in c.namespaces && Enabled(c, Commit(id))
    ensures var t := Next(c, Commit(id));
            n in t.namespaces && PartOf(t.namespaces[n], part) == PartOf(c.namespaces[n], part)
  {
    AcceptedCopyIsStored(c, id);
    RewriteKeepsPart(c.workers[id].phase.copy, c.workers[id].job, c.clock + 1, part);
  }

  lemma StepKeepsPart(c: Cluster, step: Step, n: string, part: Part)
    requires Versioned(c) && n in c.namespaces && !Disturbs(step, n, part)
    ensures n in Next(c, step).namespaces && PartOf(Next(c, step).namespaces[n], part) == PartOf(c.namespaces[n], part)
  {
    if Enabled(c, step) {
      match step
      case Commit(id) => CommitKeepsPart(c, id, n, part);
      case Outside(m, write) => if m == n { WriteKeepsPart(c.namespaces[n], n, write, c.clock + 1, part); }
      case _ =>
    }
  }

  /** What somebody wrote stays until somebody writes it again, whatever the controller's
      workers do in between and however old the copies they write back. */
  lemma {:induction false} NoForeignWriteIsLost(c: Cluster, steps: seq<Step>, n: string, part: Part)
    requires Guarded(c) && Versioned(c) && n in c.namespaces
    requires forall step <- steps :: !Disturbs(step, n, part)
    ensures n in Run(c, steps).namespaces && PartOf(Run(c, steps).namespaces[n], part) == PartOf(c.namespaces[n], part)
    decreases |steps|
  {
    if steps != [] {
      var step := steps[0];
      assert step in steps;
      StepKeepsGuarded(c, step);
      StepKeepsVersioned(c, step);
      StepKeepsPart(c, step, n, part);
      NoForeignWriteIsLost(Next(c, step), steps[1..], n, part);
    }
  }
}
