/** What a class's status says after it has been written: generation, readiness and the entry of
    each namespace, field by field and in any weather. */
module Reports {
  import opened Names
  import opened Kube
  import opened Statuses

  /** The last entry of that name, or -1. */
  function LastEntry(list: seq<StatusEntry>, name: string): (j: int)
    ensures -1 <= j < |list|
    ensures j >= 0 ==> list[j].name == name
    ensures forall i | j < i < |list| :: list[i].name != name
  {
    if list == [] then -1
    else if list[|list| - 1].name == name then |list| - 1
    else LastEntry(list[..|list| - 1], name)
  }

  /** Of several entries with one name the lookup map knows the last. */
  lemma {:induction false} LookupIsLast(list: seq<StatusEntry>, name: string)
    ensures var j := LastEntry(list, name);
            (name in LookupMap(list) <==> j >= 0) && (j >= 0 ==> LookupMap(list)[name] == list[j])
  {
    if list != [] {
      LookupIsLast(list[..|list| - 1], name);
    }
  }

  /** The status has seen the class as it is. */
  predicate UpToDate(s: State, c: string) {
    c in s.classes && s.classes[c].status.observedGeneration == s.classes[c].generation && s.classes[c].status.ready
  }

  /** Of the stored classes nothing has changed but the status of c, and its version. */
  ghost predicate StatusWritten(s: State, t: State, c: string) {
    && c in s.classes && t.classes.Keys == s.classes.Keys
    && (forall d <- s.classes | d != c :: t.classes[d] == s.classes[d])
    && t.classes[c] == s.classes[c].(status := t.classes[c].status, version := t.classes[c].version)
  }

  /** The entry of a member: it carries over what the last entry of its name had as last applied. */
  predicate MemberLine(e: StatusEntry, before: seq<StatusEntry>, name: string, c: string) {
    var j := LastEntry(before, name);
    e == StatusEntry(name, c, if j >= 0 then before[j].lastAppliedClass else "", "Applied")
  }

  lemma PatchWrites(w: World, s: State, u: State, c: string, status: Status)
    requires u.classes == s.classes && PatchStatus(w, u, c, status).value.Pass?
    ensures var t := PatchStatus(w, u, c, status).state;
            StatusWritten(s, t, c) && t.classes[c].status == status
  {}

  lemma ItemsAre(s: State, c: string, names: seq<string>)
    requires names == SortedNames(Labelled(s, c))
    ensures var items := ItemsOf(s, names);
            forall i | 0 <= i < |names| :: items[i].name == names[i] && items[i].meta.classLabel == c
  {
    forall i | 0 <= i < |names| ensures names[i] in Labelled(s, c) {}
  }

  lemma EntriesReport(c: string, items: seq<Item>, names: seq<string>, before: seq<StatusEntry>)
    requires |items| == |names|
    requires forall i | 0 <= i < |names| :: items[i].name == names[i] && items[i].meta.classLabel == c
    ensures var entries := BuildEntries(c, items, LookupMap(before));
            |entries| == |names| && forall i | 0 <= i < |names| :: MemberLine(entries[i], before, names[i], c)
  {
    BuildKeepsOrder(c, items, LookupMap(before));
    forall i | 0 <= i < |names|
      ensures MemberLine(BuildEntries(c, items, LookupMap(before))[i], before, names[i], c) {
      LookupIsLast(before, names[i]);
    }
  }

  lemma ArriveKeepsClasses(w: World, s: State)
    ensures Arrive(w, s).classes == s.classes
  {}

  /** The calls of a refresh that passes. */
  lemma RefreshCalls(w: World, s: State, c: string)
    requires Refresh(w, s, c).value.Pass?
    ensures c in s.classes
    ensures var s1 := Arrive(w, s);
            var s2 := Arrive(w, s1);
            Refresh(w, s, c) == ApplyStatus(w, s2, c, s.classes[c],
              BuildEntries(c, ItemsOf(s2, SortedNames(Labelled(s2, c))), LookupMap(s.classes[c].status.namespaces)))
  {
    ArriveKeepsClasses(w, s);
  }

  /** A refresh that passes writes the status of this class alone: it has seen the stored
      generation, is ready, and reports the namespaces listed with the label, in order of name. */
  lemma RefreshReports(w: World, s: State, c: string)
    requires Refresh(w, s, c).value.Pass?
    ensures var t, names := Refresh(w, s, c).state, SortedNames(Labelled(Arrive(w, Arrive(w, s)), c));
            && StatusWritten(s, t, c) && UpToDate(t, c)
            && |t.classes[c].status.namespaces| == |names|
            && forall i | 0 <= i < |names| ::
                 MemberLine(t.classes[c].status.namespaces[i], s.classes[c].status.namespaces, names[i], c)
  {
    var u := Arrive(w, Arrive(w, s));
    var names := SortedNames(Labelled(u, c));
    ArriveKeepsClasses(w, s);
    ArriveKeepsClasses(w, Arrive(w, s));
    RefreshCalls(w, s, c);
    RefreshWrites(w, s, u, c, ItemsOf(u, names), names);
  }

  lemma RefreshWrites(w: World, s: State, u: State, c: string, items: seq<Item>, names: seq<string>)
    requires u.classes == s.classes && c in s.classes
    requires names == SortedNames(Labelled(u, c)) && items == ItemsOf(u, names)
    requires ApplyStatus(w, u, c, s.classes[c],
               BuildEntries(c, items, LookupMap(s.classes[c].status.namespaces))).value.Pass?
    ensures var before := s.classes[c].status.namespaces;
            var t := ApplyStatus(w, u, c, s.classes[c], BuildEntries(c, items, LookupMap(before))).state;
            && StatusWritten(s, t, c) && UpToDate(t, c)
            && |t.classes[c].status.namespaces| == |names|
            && forall i | 0 <= i < |names| :: MemberLine(t.classes[c].status.namespaces[i], before, names[i], c)
  {
    var before := s.classes[c].status.namespaces;
    ItemsAre(u, c, names);
    EntriesReport(c, items, names, before);
    PatchWrites(w, s, u, c, Status(s.classes[c].generation, true, BuildEntries(c, items, LookupMap(before))));
  }

  /** A switch gives every entry of the namespace, or a new one at the end, the class it left. */
  predicate SwitchLines(list: seq<StatusEntry>, before: seq<StatusEntry>, n: string, c: string, previous: string) {
    var j := LastEntry(before, n);
    if j < 0 then list == before + [StatusEntry(n, c, previous, "Applied")]
    else |list| == |before| && forall i | 0 <= i < |before| ::
           list[i] == if before[i].name == n then before[j].(lastAppliedClass := previous) else before[i]
  }

  lemma EntriesSwitch(before: seq<StatusEntry>, n: string, c: string, previous: string)
    ensures SwitchLines(SwitchEntries(before, LookupMap(before), n, c, previous), before, n, c, previous)
  {
    LookupIsLast(before, n);
    if n in LookupMap(before) {
      ReplacedAt(before, n, SwitchedEntry(n, c, previous, LookupMap(before)));
    }
  }

  lemma SwitchCalls(w: World, s: State, n: string, c: string, previous: string)
    requires previous !in {"", c} && RecordSwitch(w, s, n, c, previous).value.Pass?
    ensures c in s.classes
    ensures var before := s.classes[c].status.namespaces;
            RecordSwitch(w, s, n, c, previous)
            == PatchStatus(w, Arrive(w, s), c,
                 Status(s.classes[c].generation, true, SwitchEntries(before, LookupMap(before), n, c, previous)))
  {
    ArriveKeepsClasses(w, s);
  }

  /** Recording a switch: without a class that was left there is no call; otherwise, if it passes,
      it writes the status of this class alone, up to date and ready as after a refresh. */
  lemma SwitchReports(w: World, s: State, n: string, c: string, previous: string)
    ensures previous in {"", c} ==> RecordSwitch(w, s, n, c, previous) == Reply(s, Pass)
    ensures previous !in {"", c} && RecordSwitch(w, s, n, c, previous).value.Pass? ==>
              var t := RecordSwitch(w, s, n, c, previous).state;
              && StatusWritten(s, t, c) && UpToDate(t, c)
              && SwitchLines(t.classes[c].status.namespaces, s.classes[c].status.namespaces, n, c, previous)
  {
    if previous !in {"", c} && RecordSwitch(w, s, n, c, previous).value.Pass? {
      SwitchCalls(w, s, n, c, previous);
      ArriveKeepsClasses(w, s);
      var before := s.classes[c].status.namespaces;
      EntriesSwitch(before, n, c, previous);
      PatchWrites(w, s, Arrive(w, s), c,
        Status(s.classes[c].generation, true, SwitchEntries(before, LookupMap(before), n, c, previous)));
    }
  }
}
