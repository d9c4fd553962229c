/** Text order, sorted listings of names, and POSIX paths as pathlib takes them apart. */
module Names {
  /** Code point order. */
  predicate Before(a: string, b: string) {
    b != "" && (a == "" || a[0] < b[0] || (a[0] == b[0] && Before(a[1..], b[1..])))
  }

  predicate Ascending(names: seq<string>) {
    forall i, j :: 0 <= i < j < |names| ==> Before(names[i], names[j])
  }

  lemma BeforeTotal(a: string, b: string)
    ensures a == b || Before(a, b) || Before(b, a)
  {
  }

  lemma BeforeIrreflexive(a: string)
    ensures !Before(a, a)
  {
  }

  lemma {:induction false} BeforeTransitive(a: string, b: string, c: string)
    requires Before(a, b) && Before(b, c)
    ensures Before(a, c)
  {
    if a != "" && a[0] == b[0] && b[0] == c[0] {
      BeforeTransitive(a[1..], b[1..], c[1..]);
    }
  }

  lemma {:induction false} AscendingFromNeighbours(names: seq<string>)
    requires forall i :: 0 < i < |names| ==> Before(names[i - 1], names[i])
    ensures Ascending(names)
  {
    if |names| > 1 {
      var front := names[..|names| - 1];
      AscendingFromNeighbours(front);
      forall i, j | 0 <= i < j < |names| ensures Before(names[i], names[j]) {
        if j == |names| - 1 {
          if i < j - 1 {
            assert Before(front[i], front[j - 1]);
            BeforeTransitive(names[i], names[j - 1], names[j]);
          }
        } else {
          assert Before(front[i], front[j]);
        }
      }
    }
  }

  /** Puts one name into a sorted list, behind its equals. */
  function Insert(names: seq<string>, name: string): (r: seq<string>)
    ensures forall x :: x in r <==> x == name || x in names
    ensures |r| == |names| + 1
  {
    if names == [] then [name]
    else if Before(name, names[0]) then [name] + names
    else [names[0]] + Insert(names[1..], name)
  }

  function Sorted(names: seq<string>): (r: seq<string>)
    ensures |r| == |names| && forall x :: x in r <==> x in names
  {
    if names == [] then []
    else
      assert names == names[..|names| - 1] + [names[|names| - 1]];
      Insert(Sorted(names[..|names| - 1]), names[|names| - 1])
  }

  lemma {:induction false} InsertAscending(names: seq<string>, name: string)
    requires Ascending(names) && name !in names
    ensures Ascending(Insert(names, name))
  {
    if names != [] {
      if Before(name, names[0]) {
        forall j | 0 <= j < |names| ensures Before(name, names[j]) {
          if j > 0 { BeforeTransitive(name, names[0], names[j]); }
        }
      } else {
        BeforeTotal(name, names[0]);
        InsertAscending(names[1..], name);
        var rest := Insert(names[1..], name);
        forall j | 0 <= j < |rest| ensures Before(names[0], rest[j]) {
          assert rest[j] in rest;
        }
      }
    }
  }

  ghost predicate NonDescending(names: seq<string>) {
    forall i, j :: 0 <= i < j < |names| ==> !Before(names[j], names[i])
  }

  lemma {:induction false} InsertExact(names: seq<string>, name: string)
    requires NonDescending(names)
    ensures NonDescending(Insert(names, name))
    ensures multiset(Insert(names, name)) == multiset(names) + multiset{name}
  {
    if names != [] {
      assert names == [names[0]] + names[1..];
      if Before(name, names[0]) {
        forall j | 0 <= j < |names| ensures !Before(names[j], name) {
          if Before(names[j], name) { BeforeTransitive(names[j], name, names[0]); }
          BeforeIrreflexive(names[0]);
        }
      } else {
        InsertExact(names[1..], name);
        var rest := Insert(names[1..], name);
        forall j | 0 <= j < |rest| ensures !Before(rest[j], names[0]) {
          assert rest[j] in rest;
        }
      }
    }
  }

  /** sorted(): the same names as often, none before an earlier one. */
  lemma {:induction false} SortedExact(names: seq<string>)
    ensures NonDescending(Sorted(names)) && multiset(Sorted(names)) == multiset(names)
  {
    if names != [] {
      var n := |names| - 1;
      SortedExact(names[..n]);
      InsertExact(Sorted(names[..n]), names[n]);
      assert names == names[..n] + [names[n]];
    }
  }

  /** A set of names has one sorted listing. */
  lemma {:induction false} OneListing(a: seq<string>, b: seq<string>)
    requires Ascending(a) && Ascending(b)
    requires forall x :: x in a <==> x in b
    ensures a == b
  {
    assert a != [] ==> a[0] in a;
    assert b != [] ==> b[0] in b;
    if a != [] {
      FirstIsLeast(a);
      FirstIsLeast(b);
      if Before(a[0], b[0]) && Before(b[0], a[0]) {
        BeforeTransitive(a[0], b[0], a[0]);
      }
      BeforeIrreflexive(a[0]);
      assert a[0] == b[0];
      TailElements(a);
      TailElements(b);
      OneListing(a[1..], b[1..]);
      assert a == [a[0]] + a[1..] && b == [b[0]] + b[1..];
    }
  }

  lemma FirstIsLeast(names: seq<string>)
    requires Ascending(names) && names != []
    ensures forall x :: x in names ==> x == names[0] || Before(names[0], x)
  {
  }

  lemma TailElements(names: seq<string>)
    requires Ascending(names) && names != []
    ensures forall x :: x in names[1..] <==> x in names && x != names[0]
  {
    BeforeIrreflexive(names[0]);
    forall x | x in names && x != names[0] ensures x in names[1..] {
      var i :| 0 <= i < |names| && names[i] == x;
      assert names[1..][i - 1] == x;
    }
  }

  ghost function Listing(s: set<string>): (r: seq<string>)
    ensures Ascending(r) && forall x :: x in r <==> x in s
  {
    if s == {} then []
    else
      var name :| name in s;
      var rest := Listing(s - {name});
      InsertAscending(rest, name);
      Insert(rest, name)
  }

  /** sorted() on a set of names. */
  method SortedNames(s: set<string>) returns (r: seq<string>)
    ensures r == Listing(s)
  {
    r := [];
    var rest := s;
    while rest != {}
      invariant rest <= s && Ascending(r)
      invariant forall x :: x in r <==> x in s && x !in rest
    {
      var name :| name in rest;
      InsertAscending(r, name);
      r := Insert(r, name);
      rest := rest - {name};
    }
    OneListing(r, Listing(s));
  }

  // ---- paths ----

  /** What lies between the slashes. */
  function Components(path: string): (cs: seq<string>)
    ensures cs != []
  {
    if path == "" then [""]
    else
      var rest := Components(path[1..]);
      if path[0] == '/' then [""] + rest else [[path[0]] + rest[0]] + rest[1..]
  }

  function Join(cs: seq<string>): string {
    if cs == [] then "" else if |cs| == 1 then cs[0] else cs[0] + ("/" + Join(cs[1..]))
  }

  /** A name a POSIX directory can hold. */
  predicate ProperComponent(c: string) {
    c != "" && c != "." && c != ".." && '/' !in c
  }

  predicate ProperPath(cs: seq<string>) {
    cs != [] && forall i :: 0 <= i < |cs| ==> ProperComponent(cs[i])
  }

  lemma {:induction false} ComponentsSplit(c: string, rest: string)
    requires '/' !in c
    ensures Components(c) == [c]
    ensures Components(c + ("/" + rest)) == [c] + Components(rest)
  {
    if c == "" {
      assert ("/" + rest)[1..] == rest;
      assert "" + ("/" + rest) == "/" + rest;
    } else {
      ComponentsSplit(c[1..], rest);
      assert c == [c[0]] + c[1..];
      assert (c + ("/" + rest))[1..] == c[1..] + ("/" + rest);
      assert ([c[1..]] + Components(rest))[1..] == Components(rest);
    }
  }

  /** A path built from components is taken apart into exactly those components. */
  lemma {:induction false} ComponentsOfJoin(cs: seq<string>)
    requires ProperPath(cs)
    ensures Components(Join(cs)) == cs
  {
    ComponentsSplit(cs[0], Join(cs[1..]));
    if |cs| > 1 {
      ComponentsOfJoin(cs[1..]);
    }
    assert cs == [cs[0]] + cs[1..];
  }

  predicate EndsWithSlash(path: string) {
    path != "" && path[|path| - 1] == '/'
  }

  /** Path(p).is_absolute() or ".." in Path(p).parts */
  predicate UnsafePath(path: string) {
    (path != "" && path[0] == '/') || ".." in Components(path)
  }

  lemma {:induction false} JoinEnds(cs: seq<string>)
    requires ProperPath(cs)
    ensures Join(cs) != "" && Join(cs)[0] != '/' && !EndsWithSlash(Join(cs))
  {
    assert cs[0][0] in cs[0] && cs[0][|cs[0]| - 1] in cs[0];
    if |cs| > 1 { JoinEnds(cs[1..]); }
  }

  lemma ProperPathIsSafe(cs: seq<string>)
    requires ProperPath(cs)
    ensures Join(cs) != "" && !UnsafePath(Join(cs)) && !EndsWithSlash(Join(cs))
  {
    ComponentsOfJoin(cs);
    JoinEnds(cs);
  }

  /** Where the last dot is, or -1. */
  function LastDot(s: string): (i: int)
    ensures -1 <= i < |s|
    ensures i >= 0 ==> s[i] == '.'
    ensures forall j :: i < j < |s| ==> s[j] != '.'
  {
    if s == "" then -1
    else if s[|s| - 1] == '.' then |s| - 1
    else LastDot(s[..|s| - 1])
  }

  /** Path(name).suffix */
  function Suffix(name: string): string {
    var i := LastDot(name);
    if 0 < i < |name| - 1 then name[i..] else ""
  }
}
