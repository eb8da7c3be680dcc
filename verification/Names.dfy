/** Strings as the controller uses them: the key order in which the API server
    enumerates names, and the "/"-separated identifiers that the controller
    builds and splits again. */
module Names {

  // ---------- The order of a listing ----------

  /** Lexicographic "at or before". */
  predicate AtOrBefore(a: string, b: string) {
    a == "" || (b != "" && (a[0] < b[0] || (a[0] == b[0] && AtOrBefore(a[1..], b[1..]))))
  }

  lemma OrderTotal(a: string, b: string)
    ensures AtOrBefore(a, b) || AtOrBefore(b, a)
  {}

  lemma {:induction false} OrderAntisymmetric(a: string, b: string)
    requires AtOrBefore(a, b) && AtOrBefore(b, a)
    ensures a == b
  {
    if a != "" {
      OrderAntisymmetric(a[1..], b[1..]);
      assert a == [a[0]] + a[1..] && b == [b[0]] + b[1..];
    }
  }

  lemma {:induction false} OrderTransitive(a: string, b: string, c: string)
    requires AtOrBefore(a, b) && AtOrBefore(b, c)
    ensures AtOrBefore(a, c)
  {
    if a != "" && a[0] == b[0] && b[0] == c[0] {
      OrderTransitive(a[1..], b[1..], c[1..]);
    }
  }

  ghost predicate IsLeast(least: string, names: set<string>) {
    least in names && forall x <- names :: AtOrBefore(least, x)
  }

  lemma {:induction false} HasLeast(names: set<string>)
    requires names != {}
    ensures exists least :: IsLeast(least, names)
    decreases |names|
  {
    var n :| n in names;
    var rest := names - {n};
    if rest == {} {
      OrderTotal(n, n);
      assert names == {n};
      assert IsLeast(n, names);
    } else {
      HasLeast(rest);
      var m :| IsLeast(m, rest);
      OrderTotal(n, m);
      OrderTotal(n, n);
      if AtOrBefore(n, m) {
        forall x | x in names ensures AtOrBefore(n, x) {
          if x != n { OrderTransitive(n, m, x); }
        }
        assert IsLeast(n, names);
      } else {
        assert IsLeast(m, names);
      }
    }
  }

  /** The names in key order, each once. */
  function SortedNames(names: set<string>): (r: seq<string>)
    ensures forall x :: x in r <==> x in names
    ensures forall i, j | 0 <= i < j < |r| :: r[i] != r[j]
  {
    if names == {} then [] else
      HasLeast(names);
      assert forall a, b | a in names && b in names && AtOrBefore(a, b) && AtOrBefore(b, a) :: a == b by {
        forall a, b | a in names && b in names && AtOrBefore(a, b) && AtOrBefore(b, a) ensures a == b {
          OrderAntisymmetric(a, b);
        }
      }
      assert exists l :: l in names && forall x <- names :: AtOrBefore(l, x) by {
        var l :| IsLeast(l, names);
        assert l in names;
      }
      var least :| least in names && forall x <- names :: AtOrBefore(least, x);
      [least] + SortedNames(names - {least})
  }

  // ---------- Identifiers ----------

  predicate SlashFree(s: string) {
    '/' !in s
  }

  function FirstSlash(s: string): (i: nat)
    requires !SlashFree(s)
    ensures i < |s| && s[i] == '/' && SlashFree(s[..i])
  {
    if s[0] == '/' then 0 else
      assert s == [s[0]] + s[1..];
      var i := FirstSlash(s[1..]);
      assert s[..i + 1] == [s[0]] + s[1..][..i];
      i + 1
  }

  /** strings.Split(s, "/") */
  function Split(s: string): (parts: seq<string>)
    ensures |parts| >= 1
    decreases |s|
  {
    if SlashFree(s) then [s] else
      var i := FirstSlash(s);
      [s[..i]] + Split(s[i + 1..])
  }

  function KindName(kind: string, name: string): string {
    kind + "/" + name
  }

  function Identifier(group: string, kind: string, name: string): string {
    group + "/" + kind + "/" + name
  }

  lemma {:induction false} FirstSlashIs(head: string, tail: string)
    requires SlashFree(head)
    ensures !SlashFree(head + "/" + tail) && FirstSlash(head + "/" + tail) == |head|
  {
    var s := head + "/" + tail;
    assert s[|head|] == '/';
    if head != "" {
      assert s[0] == head[0];
      assert s[1..] == head[1..] + "/" + tail;
      FirstSlashIs(head[1..], tail);
    }
  }

  lemma SplitHead(head: string, tail: string)
    requires SlashFree(head)
    ensures Split(head + "/" + tail) == [head] + Split(tail)
  {
    FirstSlashIs(head, tail);
    var s := head + "/" + tail;
    assert s[..|head|] == head && s[|head| + 1..] == tail;
  }

  /** Splitting a listed identifier recovers group (possibly empty), kind and name. */
  lemma IdentifierRoundTrip(group: string, kind: string, name: string)
    requires SlashFree(group) && SlashFree(kind) && SlashFree(name)
    ensures Split(Identifier(group, kind, name)) == [group, kind, name]
  {
    var rest := kind + "/" + name;
    assert Identifier(group, kind, name) == group + "/" + rest;
    SplitHead(group, rest);
    SplitHead(kind, name);
    assert Split(name) == [name];
  }

  /** A "kind/name" key of a slash-free pair is met only by that pair, whatever
      strings the other side holds: the lookup decides the pair. */
  lemma KindNameDecides(kind: string, name: string, kind': string, name': string)
    requires SlashFree(kind) && SlashFree(name)
    ensures KindName(kind, name) == KindName(kind', name') <==> kind == kind' && name == name'
  {
    if KindName(kind, name) == KindName(kind', name') {
      var s := KindName(kind, name);
      assert forall i | 0 <= i < |s| && i != |kind| :: s[i] != '/' by {
        forall i | 0 <= i < |s| && i != |kind| ensures s[i] != '/' {
          if i < |kind| { assert s[i] == kind[i]; } else { assert s[i] == name[i - |kind| - 1]; }
        }
      }
      assert s == kind' + "/" + name';
      assert s[|kind'|] == '/';
      assert |kind'| == |kind|;
      assert kind == s[..|kind|] == kind';
      assert name == s[|kind| + 1..] == name';
    }
  }

  datatype GroupVersion = GroupVersion(group: string, version: string)
  datatype Parsed = Bad | Good(gv: GroupVersion)

  /** schema.ParseGroupVersion */
  function ParseGroupVersion(s: string): Parsed {
    if s == "" || s == "/" then Good(GroupVersion("", "")) else
      var parts := Split(s);
      if |parts| == 1 then Good(GroupVersion("", s))
      else if |parts| == 2 then Good(GroupVersion(parts[0], parts[1]))
      else Bad
  }

  lemma TwoParts(group: string, version: string)
    requires SlashFree(group) && SlashFree(version)
    ensures ParseGroupVersion(group + "/" + version) == Good(GroupVersion(group, version))
  {
    var s := group + "/" + version;
    SplitHead(group, version);
    assert Split(version) == [version];
    if s == "/" {
      assert |group| + 1 + |version| == |s| == 1;
      assert group == "" && version == "";
    } else {
      assert |s| > 0;
      assert Split(s) == [group, version];
    }
  }

  lemma MoreParts(group: string, version: string, rest: string)
    requires SlashFree(group) && SlashFree(version)
    ensures ParseGroupVersion(group + "/" + version + "/" + rest) == Bad
  {
    var s := group + "/" + version + "/" + rest;
    assert s == group + "/" + (version + "/" + rest);
    SplitHead(version, rest);
    SplitHead(group, version + "/" + rest);
    assert |Split(s)| >= 3;
    assert |s| >= 2;
  }

  /** A group version without a slash is a version of the core group, one with a single slash is
      split there, and one with more of them is refused. */
  lemma GroupVersionParts(group: string, version: string, rest: string)
    requires SlashFree(group) && SlashFree(version)
    ensures ParseGroupVersion(version) == Good(GroupVersion("", version))
    ensures ParseGroupVersion(group + "/" + version) == Good(GroupVersion(group, version))
    ensures ParseGroupVersion(group + "/" + version + "/" + rest) == Bad
  {
    TwoParts(group, version);
    MoreParts(group, version, rest);
  }
}
