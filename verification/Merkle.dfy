/** Merkle roots and proof paths, built level by level with the last node of an odd level doubled. */
module Merkle {
  import Text

  /** The JSON text of a dictionary. */
  type ObjectText = t: string | t != "" && t[0] == '{' witness "{}"

  /** SHA-256 of distinct things as distinct terms: hashing is injective by construction. */
  datatype Digest =
    | EmptyTree
    | LockLeaf(eventId: string, amountSats: int, recipient: string, chainId: int)
    | Header(text: ObjectText)
    | Pair(left: Digest, right: Digest)

  /** The node beside an even position; the last node of an odd level stands beside itself. */
  function RightOf(level: seq<Digest>, i: nat): Digest
    requires i < |level|
  {
    if i + 1 < |level| then level[i + 1] else level[i]
  }

  function Above(level: seq<Digest>): (next: seq<Digest>)
    ensures |next| == (|level| + 1) / 2
    ensures forall j :: 0 <= j < |next| ==> next[j] == Pair(level[2 * j], RightOf(level, 2 * j))
  {
    seq((|level| + 1) / 2, j requires 0 <= j < (|level| + 1) / 2 => Pair(level[2 * j], RightOf(level, 2 * j)))
  }

  function Root(leaves: seq<Digest>): Digest
    decreases |leaves|
  {
    if leaves == [] then EmptyTree
    else if |leaves| == 1 then leaves[0]
    else Root(Above(leaves))
  }

  /** Every level of the tree, leaves first. */
  function Levels(level: seq<Digest>): seq<seq<Digest>>
    decreases |level|
  {
    if |level| <= 1 then [level] else [level] + Levels(Above(level))
  }

  function Mate(level: seq<Digest>, i: nat): Digest
    requires i < |level|
  {
    if i % 2 == 0 then RightOf(level, i) else level[i - 1]
  }

  function Path(leaves: seq<Digest>, i: nat): seq<Digest>
    requires i < |leaves|
    decreases |leaves|
  {
    if |leaves| == 1 then [] else [Mate(leaves, i)] + Path(Above(leaves), i / 2)
  }

  /** The source answers an index outside the list with an empty path. */
  function PathAt(leaves: seq<Digest>, i: int): seq<Digest> {
    if 0 <= i < |leaves| then Path(leaves, i) else []
  }

  function Height(n: nat): nat {
    if n <= 1 then 0 else 1 + Height((n + 1) / 2)
  }

  /** Climbs a path, placing the running hash left or right by the parity of the index. */
  function Fold(h: Digest, i: nat, path: seq<Digest>): Digest
    decreases |path|
  {
    if path == [] then h else Fold(Join(h, i, path[0]), i / 2, path[1..])
  }

  function Join(h: Digest, i: nat, mate: Digest): Digest {
    if i % 2 == 0 then Pair(h, mate) else Pair(mate, h)
  }

  /** Climbs a path with the running hash always on the left. */
  function LeftFold(h: Digest, path: seq<Digest>): Digest
    decreases |path|
  {
    if path == [] then h else LeftFold(Pair(h, path[0]), path[1..])
  }

  method ComputeMerkleRoot(leaves: seq<Digest>) returns (root: Digest, tree: seq<seq<Digest>>)
    ensures root == Root(leaves)
    ensures tree == if leaves == [] then [] else Levels(leaves)
  {
    if leaves == [] {
      return EmptyTree, [];
    }
    var level := leaves;
    tree := [level];
    while |level| > 1
      invariant level != [] && tree != []
      invariant Root(level) == Root(leaves)
      invariant tree[|tree| - 1] == level
      invariant tree[..|tree| - 1] + Levels(level) == Levels(leaves)
      decreases |level|
    {
      var next := NextLevel(level);
      LastOf(tree, Levels(next));
      level := next;
      tree := tree + [level];
    }
    root := level[0];
  }

  method NextLevel(level: seq<Digest>) returns (next: seq<Digest>)
    ensures next == Above(level)
  {
    next := [];
    var i := 0;
    while i < |level|
      invariant i % 2 == 0 && i <= |level| + 1
      invariant next == Above(level)[..(if i <= |level| then i / 2 else |Above(level)|)]
    {
      var left := level[i];
      var right := if i + 1 < |level| then level[i + 1] else left;
      next := next + [Pair(left, right)];
      i := i + 2;
    }
  }

  lemma LastOf<T>(s: seq<T>, rest: seq<T>)
    requires s != []
    ensures s[..|s| - 1] + ([s[|s| - 1]] + rest) == s + rest
  {
  }

  /** One pass over a level: the level above, and the mate of idx if idx lies in the level. */
  method ClimbLevel(level: seq<Digest>, idx: int) returns (next: seq<Digest>, found: seq<Digest>)
    requires idx < |level|
    ensures next == Above(level)
    ensures found == if idx < 0 then [] else [Mate(level, idx)]
  {
    next, found := [], [];
    var i := 0;
    while i < |level|
      invariant i % 2 == 0 && i <= |level| + 1
      invariant |next| == if i <= |level| then i / 2 else |Above(level)|
      invariant forall j :: 0 <= j < |next| ==> next[j] == Above(level)[j]
      invariant found == if 0 <= idx < i then [Mate(level, idx)] else []
    {
      var left := level[i];
      var right := if i + 1 < |level| then level[i + 1] else left;
      assert Above(level)[i / 2] == Pair(left, right);
      next := next + [Pair(left, right)];
      if idx == i {
        found := found + [right];
      } else if idx == i + 1 {
        found := found + [left];
      }
      i := i + 2;
    }
  }

  method ComputeProofPath(leaves: seq<Digest>, index: int) returns (proof: seq<Digest>)
    ensures proof == PathAt(leaves, index)
  {
    if leaves == [] || index >= |leaves| {
      return [];
    }
    proof := [];
    var level := leaves;
    var idx := index;
    while |level| > 1
      invariant level != [] && idx < |level|
      invariant index < 0 <==> idx < 0
      invariant idx < 0 ==> proof == []
      invariant idx >= 0 ==> proof + Path(level, idx) == Path(leaves, index)
      decreases |level|
    {
      var next, found := ClimbLevel(level, idx);
      if idx >= 0 {
        Text.Assoc(proof, found, Path(next, idx / 2));
      }
      proof := proof + found;
      level := next;
      idx := idx / 2;
    }
  }

  lemma ClimbStep(level: seq<Digest>, i: nat)
    requires i < |level|
    ensures i / 2 < |Above(level)|
    ensures Above(level)[i / 2] == Join(level[i], i, Mate(level, i))
  {
  }

  /** Folding a generated path by index gives exactly the root, for every list and position. */
  lemma {:induction false} Inclusion(leaves: seq<Digest>, i: nat)
    requires i < |leaves|
    ensures Fold(leaves[i], i, Path(leaves, i)) == Root(leaves)
    ensures |Path(leaves, i)| == Height(|leaves|)
    decreases |leaves|
  {
    if |leaves| > 1 {
      ClimbStep(leaves, i);
      Inclusion(Above(leaves), i / 2);
      var path := Path(leaves, i);
      assert path[0] == Mate(leaves, i) && path[1..] == Path(Above(leaves), i / 2);
    }
  }

  lemma AboveInjective(xs: seq<Digest>, ys: seq<Digest>)
    requires |xs| == |ys| && Above(xs) == Above(ys)
    ensures xs == ys
  {
    forall i | 0 <= i < |xs| ensures xs[i] == ys[i] {
      ClimbStep(xs, i);
      ClimbStep(ys, i);
    }
  }

  /** Lists with the same root are the same exactly when they have the same length. */
  lemma {:induction false} RootBinds(xs: seq<Digest>, ys: seq<Digest>)
    requires Root(xs) == Root(ys)
    ensures xs == ys <==> |xs| == |ys|
    decreases |xs|
  {
    if |xs| == |ys| {
      if |xs| > 1 {
        RootBinds(Above(xs), Above(ys));
        AboveInjective(xs, ys);
      } else {
        assert xs == ys;
      }
    }
  }

  /** Doubling the last leaf of an odd list is invisible in the root. */
  lemma RootHidesDoubledLeaf(xs: seq<Digest>)
    requires |xs| % 2 == 1 && |xs| > 1
    ensures Root(xs + [xs[|xs| - 1]]) == Root(xs)
  {
    AboveHidesDoubledLeaf(xs);
  }

  lemma AboveHidesDoubledLeaf(xs: seq<Digest>)
    requires |xs| % 2 == 1
    ensures Above(xs + [xs[|xs| - 1]]) == Above(xs)
  {
  }

  /** A path of the tree's height that folds to the root starts at the stored leaf and is its path. */
  lemma {:induction false} PathBinds(leaves: seq<Digest>, i: nat, h: Digest, path: seq<Digest>)
    requires i < |leaves| && |path| == Height(|leaves|)
    requires Fold(h, i, path) == Root(leaves)
    ensures h == leaves[i] && path == Path(leaves, i)
    decreases |leaves|
  {
    if |leaves| > 1 {
      var up := Join(h, i, path[0]);
      ClimbStep(leaves, i);
      PathBinds(Above(leaves), i / 2, up, path[1..]);
      assert path == [path[0]] + path[1..];
    }
  }

  /** At every level the climb from i is on the left, or the two children are the same node. */
  ghost predicate LeftSpine(leaves: seq<Digest>, i: nat)
    requires i < |leaves|
    decreases |leaves|
  {
    |leaves| > 1 ==>
      (i % 2 == 0 || leaves[i] == leaves[i - 1]) && LeftSpine(Above(leaves), i / 2)
  }

  lemma {:induction false} WrongStaysWrong(g: Digest, h: Digest, i: nat, path: seq<Digest>)
    requires g != h
    ensures LeftFold(g, path) != Fold(h, i, path)
    decreases |path|
  {
    if path != [] {
      var up := Join(h, i, path[0]);
      WrongStaysWrong(Pair(g, path[0]), up, i / 2, path[1..]);
    }
  }

  /** When folding a generated path always on the left reaches the root. */
  lemma {:induction false} LeftFoldReachesRoot(leaves: seq<Digest>, i: nat)
    requires i < |leaves|
    ensures LeftFold(leaves[i], Path(leaves, i)) == Root(leaves) <==> LeftSpine(leaves, i)
    decreases |leaves|
  {
    if |leaves| > 1 {
      var path, above := Path(leaves, i), Above(leaves);
      assert path[1..] == Path(above, i / 2);
      ClimbStep(leaves, i);
      LeftFoldReachesRoot(above, i / 2);
      if Pair(leaves[i], path[0]) != above[i / 2] {
        WrongStaysWrong(Pair(leaves[i], path[0]), above[i / 2], i / 2, path[1..]);
        Inclusion(above, i / 2);
      }
    }
  }

  ghost predicate Distinct(leaves: seq<Digest>) {
    forall i, j :: 0 <= i < j < |leaves| ==> leaves[i] != leaves[j]
  }

  lemma AboveDistinct(leaves: seq<Digest>)
    requires Distinct(leaves)
    ensures Distinct(Above(leaves))
  {
  }

  /** Among distinct leaves the always-left fold works for the first leaf and for no other. */
  lemma {:induction false} LeftFoldOnlyFirst(leaves: seq<Digest>, i: nat)
    requires i < |leaves| && Distinct(leaves)
    ensures LeftSpine(leaves, i) <==> i == 0
    decreases |leaves|
  {
    if |leaves| > 1 {
      AboveDistinct(leaves);
      LeftFoldOnlyFirst(Above(leaves), i / 2);
    }
  }

  // ---- everything the always-left fold accepts ----

  /** h is the first node of level k, and path the mates above it. */
  ghost predicate SpineAt(leaves: seq<Digest>, h: Digest, path: seq<Digest>, k: nat) {
    k < |Levels(leaves)| && Levels(leaves)[k] != [] && h == Levels(leaves)[k][0] && path == Path(Levels(leaves)[k], 0)
  }

  ghost predicate OnSpine(leaves: seq<Digest>, h: Digest, path: seq<Digest>) {
    exists k :: SpineAt(leaves, h, path, k)
  }

  /** The path first climbs to the first leaf from inside it, then up the tree. */
  ghost predicate FromInside(leaves: seq<Digest>, h: Digest, path: seq<Digest>, m: nat)
    requires leaves != []
  {
    0 < m <= |path| && LeftFold(h, path[..m]) == leaves[0] && path[m..] == Path(leaves, 0)
  }

  lemma {:induction false} LeftFoldLast(h: Digest, path: seq<Digest>)
    requires path != []
    ensures LeftFold(h, path) == Pair(LeftFold(h, path[..|path| - 1]), path[|path| - 1])
    decreases |path|
  {
    if |path| > 1 {
      LeftFoldLast(Pair(h, path[0]), path[1..]);
      assert path[1..][..|path| - 2] == path[..|path| - 1][1..];
    }
  }

  /** The always-left fold of h and path is the root exactly when they lie on the left spine, or start inside the first leaf. */
  lemma {:induction false} LeftFoldSolutions(leaves: seq<Digest>, h: Digest, path: seq<Digest>)
    requires leaves != []
    ensures LeftFold(h, path) == Root(leaves) <==> OnSpine(leaves, h, path) || exists m :: FromInside(leaves, h, path, m)
    decreases |leaves|
  {
    if |leaves| == 1 {
      assert Levels(leaves) == [leaves] && Path(leaves, 0) == [];
      if path == [] { assert h == leaves[0] ==> SpineAt(leaves, h, path, 0); }
      assert path[..|path|] == path && path[|path|..] == [];
      assert LeftFold(h, path) == leaves[0] && path != [] ==> FromInside(leaves, h, path, |path|);
      if m :| FromInside(leaves, h, path, m) { assert m == |path|; }
    } else {
      var above := Above(leaves);
      LeftFoldSolutions(above, h, path);
      SpineUp(leaves, h, path);
      if m :| FromInside(above, h, path, m) { InsideDown(leaves, h, path, m); }
      if m :| FromInside(leaves, h, path, m) { InsideUp(leaves, h, path, m); }
      if SpineAt(leaves, h, path, 0) { StartUp(leaves, path); }
    }
  }

  lemma SpineUp(leaves: seq<Digest>, h: Digest, path: seq<Digest>)
    requires |leaves| > 1
    ensures OnSpine(leaves, h, path) <==> SpineAt(leaves, h, path, 0) || OnSpine(Above(leaves), h, path)
  {
    var levels, above := Levels(leaves), Levels(Above(leaves));
    assert levels == [leaves] + above;
    if k: nat :| SpineAt(Above(leaves), h, path, k) { assert SpineAt(leaves, h, path, k + 1); }
    if k: nat :| SpineAt(leaves, h, path, k) && k > 0 { assert SpineAt(Above(leaves), h, path, k - 1); }
  }

  lemma PathOfFirst(leaves: seq<Digest>)
    requires |leaves| > 1
    ensures Path(leaves, 0) == [RightOf(leaves, 0)] + Path(Above(leaves), 0)
    ensures Above(leaves)[0] == Pair(leaves[0], RightOf(leaves, 0))
  {
  }

  lemma InsideDown(leaves: seq<Digest>, h: Digest, path: seq<Digest>, m: nat)
    requires |leaves| > 1 && FromInside(Above(leaves), h, path, m)
    ensures SpineAt(leaves, h, path, 0) || FromInside(leaves, h, path, m - 1)
  {
    PathOfFirst(leaves);
    LeftFoldLast(h, path[..m]);
    assert path[..m][..m - 1] == path[..m - 1];
    assert path[m - 1..] == [path[m - 1]] + path[m..];
    if m == 1 { assert path[0..] == path; }
  }

  lemma InsideUp(leaves: seq<Digest>, h: Digest, path: seq<Digest>, m: nat)
    requires |leaves| > 1 && FromInside(leaves, h, path, m)
    ensures FromInside(Above(leaves), h, path, m + 1)
  {
    PathOfFirst(leaves);
    assert path[m..] != [] && path[m..][0] == path[m];
    assert path[m..][1..] == path[m + 1..];
    LeftFoldLast(h, path[..m + 1]);
    assert path[..m + 1][..m] == path[..m];
  }

  lemma StartUp(leaves: seq<Digest>, path: seq<Digest>)
    requires |leaves| > 1 && path == Path(leaves, 0)
    ensures FromInside(Above(leaves), leaves[0], path, 1)
  {
    PathOfFirst(leaves);
    assert path[..1] == [path[0]] && [path[0]][1..] == [];
    assert path[1..] == Path(Above(leaves), 0);
    assert LeftFold(Pair(leaves[0], path[0]), []) == Pair(leaves[0], path[0]);
  }
}
