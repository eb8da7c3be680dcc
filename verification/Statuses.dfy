/** namespaceclass_status.go: the status list of a class, and the map it stands for. */
module Statuses {
  import opened Kube
  import Server

  type StatusMap = map<string, StatusEntry>

  // ---------- The list operations ----------

  /** makeStatusLookupMap: of two entries with one name the later wins. */
  function LookupMap(list: seq<StatusEntry>): StatusMap {
    if list == [] then map[]
    else LookupMap(list[..|list| - 1])[list[|list| - 1].name := list[|list| - 1]]
  }

  /** createNamespaceStatusEntry */
  function NewEntry(n: string, c: string, existing: StatusMap): StatusEntry {
    StatusEntry(n, c, if n in existing then existing[n].lastAppliedClass else "", "Applied")
  }

  /** buildStatusEntries: one entry for each listed namespace that carries the class label. */
  function BuildEntries(c: string, items: seq<Item>, existing: StatusMap): seq<StatusEntry> {
    if items == [] then []
    else BuildEntries(c, items[..|items| - 1], existing)
         + (var item := items[|items| - 1];
            if item.meta.classLabel == c then [NewEntry(item.name, c, existing)] else [])
  }

  /** The list with every entry named n replaced. */
  function Replaced(list: seq<StatusEntry>, n: string, entry: StatusEntry): seq<StatusEntry> {
    if list == [] then []
    else Replaced(list[..|list| - 1], n, entry) + [if list[|list| - 1].name == n then entry else list[|list| - 1]]
  }

  function SwitchedEntry(n: string, c: string, previous: string, existing: StatusMap): StatusEntry {
    if n in existing then existing[n].(lastAppliedClass := previous)
    else StatusEntry(n, c, previous, "Applied")
  }

  /** updateStatusForClassSwitch */
  function SwitchEntries(list: seq<StatusEntry>, existing: StatusMap, n: string, c: string,
                         previous: string): seq<StatusEntry> {
    if n in existing then Replaced(list, n, SwitchedEntry(n, c, previous, existing))
    else list + [SwitchedEntry(n, c, previous, existing)]
  }

  // ---------- What they mean ----------

  lemma {:induction false} LookupMapMembers(list: seq<StatusEntry>)
    ensures forall n :: n in LookupMap(list) <==> exists e :: e in list && e.name == n
    ensures forall n <- LookupMap(list) :: LookupMap(list)[n] in list && LookupMap(list)[n].name == n
  {
    if list != [] {
      LookupMapMembers(list[..|list| - 1]);
      assert list == list[..|list| - 1] + [list[|list| - 1]];
    }
  }

  lemma LookupMapSnoc(list: seq<StatusEntry>, entry: StatusEntry)
    ensures LookupMap(list + [entry]) == LookupMap(list)[entry.name := entry]
  {
    assert (list + [entry])[..|list|] == list;
  }

  lemma {:induction false} ReplacedAt(list: seq<StatusEntry>, n: string, entry: StatusEntry)
    ensures |Replaced(list, n, entry)| == |list|
    ensures forall i | 0 <= i < |list| :: Replaced(list, n, entry)[i] == if list[i].name == n then entry else list[i]
  {
    if list != [] {
      ReplacedAt(list[..|list| - 1], n, entry);
    }
  }

  lemma {:induction false} ReplacedLookup(list: seq<StatusEntry>, n: string, entry: StatusEntry, m: string)
    requires entry.name == n
    ensures m in LookupMap(Replaced(list, n, entry)) <==> m in LookupMap(list)
    ensures m in LookupMap(list)
            ==> LookupMap(Replaced(list, n, entry))[m] == if m == n then entry else LookupMap(list)[m]
  {
    if list != [] {
      var front := list[..|list| - 1];
      var last := if list[|front|].name == n then entry else list[|front|];
      ReplacedLookup(front, n, entry, m);
      assert Replaced(list, n, entry) == Replaced(front, n, entry) + [last];
      LookupMapSnoc(Replaced(front, n, entry), last);
    }
  }

  lemma ReplacedIsUpdate(list: seq<StatusEntry>, n: string, entry: StatusEntry)
    requires entry.name == n
    ensures LookupMap(Replaced(list, n, entry))
         == if n in LookupMap(list) then LookupMap(list)[n := entry] else LookupMap(list)
    ensures |Replaced(list, n, entry)| == |list|
    ensures forall i | 0 <= i < |list| :: Replaced(list, n, entry)[i] == if list[i].name == n then entry else list[i]
  {
    ReplacedAt(list, n, entry);
    forall m ensures m in LookupMap(Replaced(list, n, entry)) <==> m in LookupMap(list)
             ensures m in LookupMap(list)
                     ==> LookupMap(Replaced(list, n, entry))[m] == if m == n then entry else LookupMap(list)[m] {
      ReplacedLookup(list, n, entry, m);
    }
  }

  /** A class switch updates the lookup map at one name and nowhere else. */
  lemma SwitchRefinesMap(list: seq<StatusEntry>, n: string, c: string, previous: string)
    ensures LookupMap(SwitchEntries(list, LookupMap(list), n, c, previous))
         == LookupMap(list)[n := SwitchedEntry(n, c, previous, LookupMap(list))]
  {
    var existing := LookupMap(list);
    var entry := SwitchedEntry(n, c, previous, existing);
    LookupMapMembers(list);
    if n in existing {
      ReplacedIsUpdate(list, n, entry);
    } else {
      assert (list + [entry])[..|list|] == list;
    }
  }

  ghost predicate Unique(list: seq<StatusEntry>) {
    forall i, j | 0 <= i < j < |list| :: list[i].name != list[j].name
  }

  ghost predicate OwnedBy(list: seq<StatusEntry>, c: string) {
    forall e <- list :: e.currentClass == c
  }

  /** A switch keeps the order of the list, the uniqueness of its names and the
      owning class of every entry; a new name goes last. */
  lemma SwitchKeepsShape(list: seq<StatusEntry>, n: string, c: string, previous: string)
    requires Unique(list) && OwnedBy(list, c)
    ensures var list' := SwitchEntries(list, LookupMap(list), n, c, previous);
            && Unique(list') && OwnedBy(list', c)
            && |list| <= |list'| <= |list| + 1
            && (forall i | 0 <= i < |list| :: list'[i].name == list[i].name)
            && (|list'| == |list| + 1 <==> n !in LookupMap(list))
            && (|list'| == |list| + 1 ==> list'[|list|].name == n)
  {
    LookupMapMembers(list);
    if n in LookupMap(list) {
      ReplacedIsUpdate(list, n, SwitchedEntry(n, c, previous, LookupMap(list)));
    }
  }

  /** The last item of the listing adds its entry, if it carries the label. */
  lemma BuildSnoc(c: string, items: seq<Item>, existing: StatusMap)
    requires items != []
    ensures var front, item := items[..|items| - 1], items[|items| - 1];
            && (item.meta.classLabel == c ==>
                  && BuildEntries(c, items, existing)
                     == BuildEntries(c, front, existing) + [NewEntry(item.name, c, existing)]
                  && LookupMap(BuildEntries(c, items, existing))
                     == LookupMap(BuildEntries(c, front, existing))[item.name := NewEntry(item.name, c, existing)])
            && (item.meta.classLabel != c ==> BuildEntries(c, items, existing) == BuildEntries(c, front, existing))
  {
    var front, item := items[..|items| - 1], items[|items| - 1];
    if item.meta.classLabel == c {
      LookupMapSnoc(BuildEntries(c, front, existing), NewEntry(item.name, c, existing));
    }
  }

  ghost predicate Carries(c: string, items: seq<Item>, n: string) {
    exists i <- items :: i.meta.classLabel == c && i.name == n
  }

  lemma {:induction false} BuiltLookup(c: string, items: seq<Item>, existing: StatusMap, n: string)
    ensures n in LookupMap(BuildEntries(c, items, existing)) <==> Carries(c, items, n)
    ensures n in LookupMap(BuildEntries(c, items, existing)) ==>
              LookupMap(BuildEntries(c, items, existing))[n] == NewEntry(n, c, existing)
  {
    if items != [] {
      var front, item := items[..|items| - 1], items[|items| - 1];
      assert items == front + [item];
      BuildSnoc(c, items, existing);
      BuiltLookup(c, front, existing, n);
      assert Carries(c, items, n) <==> Carries(c, front, n) || (item.meta.classLabel == c && item.name == n);
    }
  }

  lemma {:induction false} BuiltIsOwned(c: string, items: seq<Item>, existing: StatusMap)
    ensures OwnedBy(BuildEntries(c, items, existing), c)
  {
    if items != [] {
      BuiltIsOwned(c, items[..|items| - 1], existing);
    }
  }

  /** A rebuilt list holds, for the labelled namespaces and no others, what was recorded
      for them before; it is a function of the lookup map alone. */
  lemma BuildRefinesMap(c: string, items: seq<Item>, existing: StatusMap)
    ensures LookupMap(BuildEntries(c, items, existing)).Keys == set i <- items | i.meta.classLabel == c :: i.name
    ensures forall n <- LookupMap(BuildEntries(c, items, existing)) ::
              LookupMap(BuildEntries(c, items, existing))[n] == NewEntry(n, c, existing)
    ensures OwnedBy(BuildEntries(c, items, existing), c)
  {
    BuiltIsOwned(c, items, existing);
    forall n ensures n in LookupMap(BuildEntries(c, items, existing)) <==> Carries(c, items, n) {
      BuiltLookup(c, items, existing, n);
    }
    forall n | n in LookupMap(BuildEntries(c, items, existing))
      ensures LookupMap(BuildEntries(c, items, existing))[n] == NewEntry(n, c, existing) {
      BuiltLookup(c, items, existing, n);
    }
  }

  lemma {:induction false} BuiltEntryAt(c: string, items: seq<Item>, existing: StatusMap)
    requires forall i <- items :: i.meta.classLabel == c
    ensures |BuildEntries(c, items, existing)| == |items|
    ensures forall i | 0 <= i < |items| :: BuildEntries(c, items, existing)[i] == NewEntry(items[i].name, c, existing)
  {
    if items != [] {
      var front, last := items[..|items| - 1], items[|items| - 1];
      assert last in items;
      BuiltEntryAt(c, front, existing);
      assert BuildEntries(c, items, existing) == BuildEntries(c, front, existing) + [NewEntry(last.name, c, existing)];
    }
  }

  /** The names of a rebuilt list are the labelled names in list order, each once if listed once. */
  lemma BuildKeepsOrder(c: string, items: seq<Item>, existing: StatusMap)
    requires forall i <- items :: i.meta.classLabel == c
    ensures |BuildEntries(c, items, existing)| == |items|
    ensures (forall i, j | 0 <= i < j < |items| :: items[i].name != items[j].name)
            ==> Unique(BuildEntries(c, items, existing))
    ensures forall i | 0 <= i < |items| :: BuildEntries(c, items, existing)[i] == NewEntry(items[i].name, c, existing)
  {
    BuiltEntryAt(c, items, existing);
  }

  /** Rebuilding what was just rebuilt changes nothing. */
  lemma {:induction false} BuildIdempotent(c: string, items: seq<Item>, existing: StatusMap)
    ensures var list := BuildEntries(c, items, existing);
            BuildEntries(c, items, LookupMap(list)) == list
  {
    BuildRefinesMap(c, items, existing);
    BuildDependsOn(c, items, existing, LookupMap(BuildEntries(c, items, existing)));
  }

  lemma {:induction false} BuildDependsOn(c: string, items: seq<Item>, a: StatusMap, b: StatusMap)
    requires forall i <- items | i.meta.classLabel == c :: NewEntry(i.name, c, a) == NewEntry(i.name, c, b)
    ensures BuildEntries(c, items, a) == BuildEntries(c, items, b)
  {
    if items != [] {
      assert items[|items| - 1] in items;
      BuildDependsOn(c, items[..|items| - 1], a, b);
    }
  }

  // ---------- The calls ----------

  function ApplyStatus(w: World, s: State, c: string, latest: Class, entries: seq<StatusEntry>): Reply<Outcome> {
    PatchStatus(w, s, c, Status(latest.generation, true, entries))
  }

  /** updateNamespaceClassStatus */
  function Refresh(w: World, s: State, c: string): Reply<Outcome> {
    var latest := GetClass(w, s, c);
    if latest.value.Err? then Reply(latest.state, Fail(latest.value.error)) else
    var items := ListNamespaces(w, latest.state, c);
    if items.value.Err? then Reply(items.state, Fail(items.value.error)) else
    var nc := latest.value.value;
    ApplyStatus(w, items.state, c, nc, BuildEntries(c, items.value.value, LookupMap(nc.status.namespaces)))
  }

  /** updateClassSwitchStatus */
  function RecordSwitch(w: World, s: State, n: string, c: string, previous: string): Reply<Outcome> {
    if previous == "" || previous == c then Reply(s, Pass) else
    var latest := GetClass(w, s, c);
    if latest.value.Err? then Reply(latest.state, Fail(latest.value.error)) else
    var list := latest.value.value.status.namespaces;
    ApplyStatus(w, latest.state, c, latest.value.value, SwitchEntries(list, LookupMap(list), n, c, previous))
  }

  method MakeStatusLookupMap(statuses: seq<StatusEntry>) returns (result: StatusMap)
    ensures result == LookupMap(statuses)
  {
    result := map[];
    for i := 0 to |statuses|
      invariant result == LookupMap(statuses[..i])
    {
      assert statuses[..i + 1][..i] == statuses[..i];
      result := result[statuses[i].name := statuses[i]];
    }
    assert statuses[..|statuses|] == statuses;
  }

  method CreateNamespaceStatusEntry(n: string, c: string, existing: StatusMap) returns (entry: StatusEntry)
    ensures entry == NewEntry(n, c, existing)
  {
    entry := StatusEntry(n, c, "", "Applied");
    if n in existing && existing[n].lastAppliedClass != "" {
      entry := entry.(lastAppliedClass := existing[n].lastAppliedClass);
    }
  }

  method BuildStatusEntries(c: string, nc: Class, items: seq<Item>) returns (result: seq<StatusEntry>)
    ensures result == BuildEntries(c, items, LookupMap(nc.status.namespaces))
  {
    var existing := MakeStatusLookupMap(nc.status.namespaces);
    result := [];
    for i := 0 to |items|
      invariant result == BuildEntries(c, items[..i], existing)
    {
      assert items[..i + 1][..i] == items[..i];
      if items[i].meta.classLabel != c {
        continue;
      }
      var entry := CreateNamespaceStatusEntry(items[i].name, c, existing);
      result := result + [entry];
    }
    assert items[..|items|] == items;
  }

  method UpdateStatusForClassSwitch(current: seq<StatusEntry>, statusMap: StatusMap, n: string, c: string,
                                    previous: string)
    returns (result: seq<StatusEntry>)
    requires statusMap == LookupMap(current)
    ensures result == SwitchEntries(current, statusMap, n, c, previous)
    ensures LookupMap(result) == LookupMap(current)[n := SwitchedEntry(n, c, previous, LookupMap(current))]
  {
    SwitchRefinesMap(current, n, c, previous);
    if n in statusMap {
      var existing := statusMap[n].(lastAppliedClass := previous);
      result := [];
      for i := 0 to |current|
        invariant result == Replaced(current[..i], n, existing)
      {
        assert current[..i + 1][..i] == current[..i];
        if current[i].name == n {
          result := result + [existing];
        } else {
          result := result + [current[i]];
        }
      }
      assert current[..|current|] == current;
    } else {
      result := current + [StatusEntry(n, c, previous, "Applied")];
    }
  }

  method ApplyStatusUpdate(api: Server.ApiServer, c: string, latest: Class, entries: seq<StatusEntry>)
    returns (r: Outcome)
    modifies api
    ensures Reply(api.state, r) == ApplyStatus(api.world, old(api.state), c, latest, entries)
    ensures r.Pass? ==> c in api.state.classes
                        && api.state.classes[c].status.observedGeneration == latest.generation
                        && api.state.classes[c].status.ready && api.state.classes[c].status.namespaces == entries
  {
    var status := latest.status;
    status := status.(observedGeneration := latest.generation);
    status := status.(ready := true);
    status := status.(namespaces := entries);
    r := api.PatchStatus(c, status);
  }

  method UpdateNamespaceClassStatus(api: Server.ApiServer, c: string) returns (r: Outcome)
    modifies api
    ensures Reply(api.state, r) == Refresh(api.world, old(api.state), c)
  {
    var latest := api.GetClass(c);
    if latest.Err? {
      return Fail(latest.error);
    }
    var items := api.ListNamespaces(c);
    if items.Err? {
      return Fail(items.error);
    }
    var entries := BuildStatusEntries(c, latest.value, items.value);
    r := ApplyStatusUpdate(api, c, latest.value, entries);
  }

  method UpdateClassSwitchStatus(api: Server.ApiServer, n: string, c: string, previous: string) returns (r: Outcome)
    modifies api
    ensures Reply(api.state, r) == RecordSwitch(api.world, old(api.state), n, c, previous)
  {
    if previous == "" || previous == c {
      return Pass;
    }
    var latest := api.GetClass(c);
    if latest.Err? {
      return Fail(latest.error);
    }
    var existing := MakeStatusLookupMap(latest.value.status.namespaces);
    var entries := UpdateStatusForClassSwitch(latest.value.status.namespaces, existing, n, c, previous);
    r := ApplyStatusUpdate(api, c, latest.value, entries);
  }
}
