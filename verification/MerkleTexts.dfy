/** Digests as the hex texts the program passes around, and the always-left fold over any texts. */
module MerkleTexts {
  import opened Merkle
  import Text

  predicate AllHex(s: string) {
    forall i :: 0 <= i < |s| ==> '0' <= s[i] <= '9' || 'a' <= s[i] <= 'f'
  }

  /** What hexdigest() returns. */
  type HexDigest = s: string | |s| == 64 && AllHex(s) witness seq(64, _ => '0')

  /** SHA-256 of an encoded text as hex, and the JSON text a lock's leaf is the digest of. */
  datatype Hasher = Hasher(sha: string -> HexDigest, lockText: (string, int, string, int) -> string)

  /** The text that was hashed. */
  function Preimage(h: Hasher, d: Digest): string
    decreases d, 0
  {
    match d
    case EmptyTree => "empty"
    case LockLeaf(eventId, amountSats, recipient, chainId) => h.lockText(eventId, amountSats, recipient, chainId)
    case Header(text) => text
    case Pair(left, right) => Hex(h, left) + Hex(h, right)
  }

  function Hex(h: Hasher, d: Digest): HexDigest
    decreases d, 1
  {
    h.sha(Preimage(h, d))
  }

  function Hexes(h: Hasher, ds: seq<Digest>): (ts: seq<string>)
    ensures |ts| == |ds| && forall i :: 0 <= i < |ts| ==> ts[i] == Hex(h, ds[i])
  {
    seq(|ds|, i requires 0 <= i < |ds| => Hex(h, ds[i]))
  }

  /** The loop of verify_proof: the running text first, then the sibling, whatever their lengths. */
  function TextFold(h: Hasher, current: string, path: seq<string>): string
    decreases |path|
  {
    if path == [] then current else TextFold(h, h.sha(current + path[0]), path[1..])
  }

  /** On digests it is the digest of the always-left fold. */
  lemma {:induction false} TextFoldOfHexes(h: Hasher, d: Digest, path: seq<Digest>)
    ensures TextFold(h, Hex(h, d), Hexes(h, path)) == Hex(h, LeftFold(d, path))
    decreases |path|
  {
    if path != [] {
      assert Hexes(h, path)[1..] == Hexes(h, path[1..]);
      TextFoldOfHexes(h, Pair(d, path[0]), path[1..]);
    }
  }

  lemma {:induction false} TextFoldLast(h: Hasher, leaf: string, path: seq<string>)
    requires path != []
    ensures TextFold(h, leaf, path) == h.sha(TextFold(h, leaf, path[..|path| - 1]) + path[|path| - 1])
    decreases |path|
  {
    if |path| > 1 {
      TextFoldLast(h, h.sha(leaf + path[0]), path[1..]);
      assert path[1..][..|path| - 2] == path[..|path| - 1][1..];
    }
  }

  // ---- everything the fold over texts accepts ----

  ghost predicate AllHeaders(hs: seq<Digest>) {
    hs != [] && forall i :: 0 <= i < |hs| ==> hs[i].Header?
  }

  ghost predicate IsLevel(hs: seq<Digest>, k: nat) {
    k < |Levels(hs)| && Levels(hs)[k] != []
  }

  /** The text s hashes to no left-spine node but by being what that node is the digest of. */
  ghost predicate NoCollision(h: Hasher, hs: seq<Digest>, s: string) {
    forall k: nat :: IsLevel(hs, k) && h.sha(s) == Hex(h, Levels(hs)[k][0]) ==> s == Preimage(h, Levels(hs)[k][0])
  }

  /** The text verify_proof hashes in its round i. */
  function Hashed(h: Hasher, leaf: string, path: seq<string>, i: nat): string
    requires i < |path|
  {
    TextFold(h, leaf, path[..i]) + path[i]
  }

  ghost predicate NoneCollides(h: Hasher, hs: seq<Digest>, leaf: string, path: seq<string>) {
    forall i :: 0 <= i < |path| ==> NoCollision(h, hs, Hashed(h, leaf, path, i))
  }

  /** The first text hashed is what node k of the left spine is the digest of, however it is cut in two; then comes that node's path. */
  ghost predicate StartsAt(h: Hasher, hs: seq<Digest>, leaf: string, path: seq<string>, k: nat) {
    && IsLevel(hs, k) && path != []
    && leaf + path[0] == Preimage(h, Levels(hs)[k][0])
    && path[1..] == Hexes(h, Path(Levels(hs)[k], 0))
  }

  /** The leaf is the root itself, or the path starts at some node of the left spine. */
  ghost predicate Climbs(h: Hasher, hs: seq<Digest>, leaf: string, path: seq<string>) {
    if path == [] then leaf == Hex(h, Root(hs)) else exists k :: StartsAt(h, hs, leaf, path, k)
  }

  lemma {:induction false} LevelFacts(hs: seq<Digest>, k: nat)
    requires hs != [] && k < |Levels(hs)|
    ensures Levels(hs)[k] != [] && Root(Levels(hs)[k]) == Root(hs)
    ensures k + 1 < |Levels(hs)| ==> |Levels(hs)[k]| > 1 && Levels(hs)[k + 1] == Above(Levels(hs)[k])
    ensures k + 1 == |Levels(hs)| ==> Levels(hs)[k] == [Root(hs)]
    ensures k == 0 ==> Levels(hs)[k] == hs
    decreases k
  {
    if |hs| > 1 {
      assert Levels(hs) == [hs] + Levels(Above(hs));
      if k > 0 {
        LevelFacts(Above(hs), k - 1);
      } else {
        assert Levels(Above(hs))[0] == Above(hs);
      }
    }
  }

  lemma FirstPath(level: seq<Digest>)
    requires |level| > 1
    ensures Above(level)[0] == Pair(level[0], RightOf(level, 0))
    ensures Path(level, 0) == [RightOf(level, 0)] + Path(Above(level), 0)
  {
  }

  lemma {:induction false} FirstClimbs(level: seq<Digest>)
    requires level != []
    ensures LeftFold(level[0], Path(level, 0)) == Root(level)
    decreases |level|
  {
    if |level| > 1 {
      FirstPath(level);
      FirstClimbs(Above(level));
      assert ([RightOf(level, 0)] + Path(Above(level), 0))[1..] == Path(Above(level), 0);
    }
  }

  /** From a node of the left spine the fold goes up to the root. */
  lemma SpineFolds(h: Hasher, hs: seq<Digest>, k: nat)
    requires hs != [] && IsLevel(hs, k)
    ensures TextFold(h, Hex(h, Levels(hs)[k][0]), Hexes(h, Path(Levels(hs)[k], 0))) == Hex(h, Root(hs))
  {
    LevelFacts(hs, k);
    FirstClimbs(Levels(hs)[k]);
    TextFoldOfHexes(h, Levels(hs)[k][0], Path(Levels(hs)[k], 0));
  }

  /** Two digests put together can be cut apart in one place only, if the first part is a digest. */
  lemma PairCut(h: Hasher, t: string, p: string, left: Digest, right: Digest)
    requires |t| == 64 && t + p == Preimage(h, Pair(left, right))
    ensures t == Hex(h, left) && p == Hex(h, right)
  {
    Text.Split(t, p, Hex(h, left), Hex(h, right));
  }

  /** A text that starts with a hex digit is no header's text, which starts with a brace. */
  lemma NoHexHeader(h: Hasher, t: string, p: string, d: Digest)
    requires d.Header? && t != "" && AllHex(t)
    ensures t + p != Preimage(h, d)
  {
    assert (t + p)[0] == t[0];
  }

  /** Once the running text is node k and the rest is its path, the beginning started at some node at or below it. */
  lemma {:induction false} Descend(h: Hasher, hs: seq<Digest>, leaf: string, path: seq<string>, m: nat, k: nat)
    requires AllHeaders(hs) && NoneCollides(h, hs, leaf, path) && 1 <= m <= |path| && IsLevel(hs, k)
    requires TextFold(h, leaf, path[..m]) == Hex(h, Levels(hs)[k][0])
    requires path[m..] == Hexes(h, Path(Levels(hs)[k], 0))
    ensures exists j :: StartsAt(h, hs, leaf, path, j)
    decreases m
  {
    hide NoneCollides, AllHeaders, Hex, Preimage, Hexes, Levels;
    Round(h, hs, leaf, path, m, k);
    if m == 1 {
      assert StartsAt(h, hs, leaf, path, k);
    } else {
      var t := Down(h, hs, leaf, path, m, k);
      Descend(h, hs, leaf, path, m - 1, t);
    }
  }

  /** What round m - 1 hashed. */
  lemma Round(h: Hasher, hs: seq<Digest>, leaf: string, path: seq<string>, m: nat, k: nat)
    requires NoneCollides(h, hs, leaf, path) && 1 <= m <= |path| && IsLevel(hs, k)
    requires TextFold(h, leaf, path[..m]) == Hex(h, Levels(hs)[k][0])
    ensures TextFold(h, leaf, path[..m - 1]) + path[m - 1] == Preimage(h, Levels(hs)[k][0])
    ensures m > 1 ==> |TextFold(h, leaf, path[..m - 1])| == 64 && AllHex(TextFold(h, leaf, path[..m - 1]))
    ensures m == 1 ==> leaf + path[0] == Preimage(h, Levels(hs)[k][0])
  {
    TextFoldLast(h, leaf, path[..m]);
    assert path[..m][..m - 1] == path[..m - 1];
    assert NoCollision(h, hs, Hashed(h, leaf, path, m - 1));
    if m > 1 { TextFoldLast(h, leaf, path[..m - 1]); }
  }

  lemma Down(h: Hasher, hs: seq<Digest>, leaf: string, path: seq<string>, m: nat, k: nat) returns (j: nat)
    requires AllHeaders(hs) && 1 < m <= |path| && IsLevel(hs, k)
    requires var t := TextFold(h, leaf, path[..m - 1]);
             |t| == 64 && AllHex(t) && t + path[m - 1] == Preimage(h, Levels(hs)[k][0])
    requires path[m..] == Hexes(h, Path(Levels(hs)[k], 0))
    ensures j + 1 == k && IsLevel(hs, j)
    ensures TextFold(h, leaf, path[..m - 1]) == Hex(h, Levels(hs)[j][0])
    ensures path[m - 1..] == Hexes(h, Path(Levels(hs)[j], 0))
  {
    hide Preimage, Hex, Levels, AllHex, Path, Root;
    var t := TextFold(h, leaf, path[..m - 1]);
    if k == 0 {
      LevelFacts(hs, 0);
      NoHexHeader(h, t, path[m - 1], hs[0]);
      assert false;
    }
    j := k - 1;
    LevelFacts(hs, j);
    FirstPath(Levels(hs)[j]);
    PairCut(h, t, path[m - 1], Levels(hs)[j][0], RightOf(Levels(hs)[j], 0));
    assert path[m - 1..] == [path[m - 1]] + path[m..];
  }

  /** Over any texts: without collisions the fold reaches the root exactly if leaf and path climb the left spine. */
  lemma TextFoldSolutions(h: Hasher, hs: seq<Digest>, leaf: string, path: seq<string>)
    requires AllHeaders(hs) && NoneCollides(h, hs, leaf, path)
    ensures TextFold(h, leaf, path) == Hex(h, Root(hs)) <==> Climbs(h, hs, leaf, path)
  {
    hide Hex, Preimage, NoneCollides, Root, Levels;
    if path != [] {
      if k: nat :| StartsAt(h, hs, leaf, path, k) { StartFolds(h, hs, leaf, path, k); }
      if TextFold(h, leaf, path) == Hex(h, Root(hs)) {
        var top := TopLevel(hs);
        assert path[..|path|] == path && path[|path|..] == [];
        Descend(h, hs, leaf, path, |path|, top);
      }
    }
  }

  lemma StartFolds(h: Hasher, hs: seq<Digest>, leaf: string, path: seq<string>, k: nat)
    requires hs != [] && StartsAt(h, hs, leaf, path, k)
    ensures TextFold(h, leaf, path) == Hex(h, Root(hs))
  {
    SpineFolds(h, hs, k);
  }

  lemma TopLevel(hs: seq<Digest>) returns (k: nat)
    requires hs != []
    ensures IsLevel(hs, k) && Levels(hs)[k] == [Root(hs)] && Path(Levels(hs)[k], 0) == []
  {
    k := |Levels(hs)| - 1;
    LevelFacts(hs, k);
  }

  /** leaf and path are the texts of a node of the left spine and its path. */
  ghost predicate SpineTexts(h: Hasher, hs: seq<Digest>, leaf: string, path: seq<string>, k: nat) {
    IsLevel(hs, k) && leaf == Hex(h, Levels(hs)[k][0]) && path == Hexes(h, Path(Levels(hs)[k], 0))
  }

  /** For a leaf that has the form of a digest, only the texts of the left spine are left. */
  lemma DigestLeafSolutions(h: Hasher, hs: seq<Digest>, leaf: string, path: seq<string>)
    requires AllHeaders(hs) && NoneCollides(h, hs, leaf, path) && |leaf| == 64 && AllHex(leaf)
    ensures TextFold(h, leaf, path) == Hex(h, Root(hs)) <==> exists k :: SpineTexts(h, hs, leaf, path, k)
  {
    hide Hex, Preimage, NoneCollides, Root, Levels, AllHex;
    TextFoldSolutions(h, hs, leaf, path);
    if Climbs(h, hs, leaf, path) {
      if path == [] {
        var top := TopLevel(hs);
        assert SpineTexts(h, hs, leaf, path, top);
      } else {
        var k: nat :| StartsAt(h, hs, leaf, path, k);
        var j := StartBelow(h, hs, leaf, path, k);
        assert SpineTexts(h, hs, leaf, path, j);
      }
    }
    if k: nat :| SpineTexts(h, hs, leaf, path, k) { SpineFolds(h, hs, k); }
  }

  lemma StartBelow(h: Hasher, hs: seq<Digest>, leaf: string, path: seq<string>, k: nat) returns (j: nat)
    requires AllHeaders(hs) && |leaf| == 64 && AllHex(leaf) && StartsAt(h, hs, leaf, path, k)
    ensures SpineTexts(h, hs, leaf, path, j)
  {
    hide Preimage, Hex, Levels, AllHex, Path, Root;
    if k == 0 {
      LevelFacts(hs, 0);
      NoHexHeader(h, leaf, path[0], hs[0]);
      assert false;
    }
    j := k - 1;
    LevelFacts(hs, j);
    FirstPath(Levels(hs)[j]);
    PairCut(h, leaf, path[0], Levels(hs)[j][0], RightOf(Levels(hs)[j], 0));
    assert path == [path[0]] + path[1..];
  }

  lemma {:induction false} SpineLength(hs: seq<Digest>, k: nat)
    requires hs != [] && k < |Levels(hs)|
    ensures Levels(hs)[k] != [] && |Path(Levels(hs)[k], 0)| + k == Height(|hs|)
    decreases k
  {
    LevelFacts(hs, k);
    if k == 0 {
      Inclusion(hs, 0);
    } else {
      assert Levels(hs) == [hs] + Levels(Above(hs));
      SpineLength(Above(hs), k - 1);
    }
  }

  lemma {:induction false} UpperNodesArePairs(hs: seq<Digest>, k: nat)
    requires hs != [] && 0 < k < |Levels(hs)|
    ensures Levels(hs)[k] != [] && Levels(hs)[k][0].Pair?
  {
    LevelFacts(hs, k - 1);
    LevelFacts(hs, k);
  }
}
