/** Which proofs the anchors accept, over every run. */
module AnchorProofs {
  import opened Merkle
  import opened MerkleTexts
  import opened Anchoring

  /** Stored points have different ids, and each the root of its own header hashes. */
  ghost predicate Sound(anchors: seq<AnchorPoint>) {
    && (forall k :: 0 <= k < |anchors| ==> SoundPoint(anchors[k]))
    && forall k, l :: 0 <= k < l < |anchors| ==> anchors[k].anchorId != anchors[l].anchorId
  }

  ghost predicate SoundPoint(p: AnchorPoint) {
    AllHeaders(p.headers) && p.merkleRoot == Root(p.headers)
  }

  lemma {:induction false} PutSound(anchors: seq<AnchorPoint>, p: AnchorPoint)
    requires Sound(anchors) && SoundPoint(p)
    ensures Sound(Put(anchors, p))
    ensures forall q :: q in Put(anchors, p) ==> q == p || q in anchors
  {
    hide SoundPoint;
    if anchors != [] && anchors[0].anchorId != p.anchorId {
      var rest := anchors[1..];
      PutSound(rest, p);
      var put := Put(rest, p);
      forall l | 0 <= l < |put| ensures anchors[0].anchorId != put[l].anchorId {
        assert put[l] in put;
        if put[l] in rest { var k :| 0 <= k < |rest| && rest[k] == put[l]; }
      }
    }
  }

  lemma {:induction false} PutAllSound(s: State, chains: seq<int>, now: real)
    requires |s.heights| > 0 && Sound(s.anchors) && AllHeaders(s.pending)
    ensures Sound(PutAll(s, chains, now))
  {
    hide Sound, Root, AnchorId;
    if chains != [] {
      PutAllSound(s, chains[..|chains| - 1], now);
      PutSound(PutAll(s, chains[..|chains| - 1], now), PointFor(s, chains[|chains| - 1], now));
    }
  }

  lemma {:induction false} RunSound(interval: int, chains: seq<int>, ops: seq<Op>)
    ensures Sound(Run(interval, chains, ops).anchors)
    ensures Run(interval, chains, ops).pending == [] || AllHeaders(Run(interval, chains, ops).pending)
  {
    hide Sound, PutAll;
    if ops == [] {
      NothingSound();
    } else {
      var front, op := ops[..|ops| - 1], ops[|ops| - 1];
      RunSound(interval, chains, front);
      var s := Run(interval, chains, front);
      var t := Poised(s, op);
      if t.pending != [] { PutAllSound(t, chains, op.now); }
    }
  }

  lemma NothingSound()
    ensures Sound([])
  {
  }

  lemma {:induction false} RootOfPoint(anchors: seq<AnchorPoint>, id: string, root: Digest)
    requires Sound(anchors)
    ensures RootOf(anchors, id) == [root] <==>
            exists k :: 0 <= k < |anchors| && anchors[k].anchorId == id && anchors[k].merkleRoot == root
  {
    hide SoundPoint;
    if anchors != [] {
      var rest := anchors[1..];
      RootOfPoint(rest, id, root);
      if k :| 0 <= k < |rest| && rest[k].anchorId == id && rest[k].merkleRoot == root {
        assert anchors[k + 1].anchorId == id && anchors[k + 1].merkleRoot == root;
      }
      if k :| 0 <= k < |anchors| && anchors[k].anchorId == id && anchors[k].merkleRoot == root {
        assert k > 0 ==> rest[k - 1].anchorId == id && rest[k - 1].merkleRoot == root;
      }
    }
  }

  // ---- the verdict over runs ----

  lemma {:induction false} StoredRoot(anchors: seq<AnchorPoint>, id: string)
    requires Sound(anchors)
    ensures RootOf(anchors, id) != [] ==> exists k :: 0 <= k < |anchors| && anchors[k].anchorId == id && RootOf(anchors, id) == [anchors[k].merkleRoot]
    ensures forall k :: 0 <= k < |anchors| && anchors[k].anchorId == id ==> RootOf(anchors, id) == [anchors[k].merkleRoot]
  {
    hide SoundPoint;
    if RootOf(anchors, id) != [] { RootOfPoint(anchors, id, RootOf(anchors, id)[0]); RootIsSingle(anchors, id); }
    forall k | 0 <= k < |anchors| && anchors[k].anchorId == id ensures RootOf(anchors, id) == [anchors[k].merkleRoot] {
      RootOfPoint(anchors, id, anchors[k].merkleRoot);
    }
  }

  lemma {:induction false} RootIsSingle(anchors: seq<AnchorPoint>, id: string)
    ensures |RootOf(anchors, id)| <= 1
  {
    if anchors != [] { RootIsSingle(anchors[1..], id); }
  }

  /** The proof names the point and its root, and no text that verify_proof hashes for it collides with the point's left spine. */
  ghost predicate Names(h: Hasher, p: AnchorPoint, proof: MerkleProof) {
    p.anchorId == proof.anchorId && Hex(h, p.merkleRoot) == proof.merkleRoot
  }

  ghost predicate NoAccident(h: Hasher, anchors: seq<AnchorPoint>, proof: MerkleProof) {
    forall k :: 0 <= k < |anchors| && Names(h, anchors[k], proof) ==> NoneCollides(h, anchors[k].headers, proof.leafHash, proof.path)
  }

  /** Over every run, and for texts of any length: accepted are exactly the proofs that name a stored point and its root and
      climb its left spine, from the root itself or from a text cut in two that a spine node is the digest of. */
  lemma AcceptedExactly(h: Hasher, interval: int, chains: seq<int>, ops: seq<Op>, proof: MerkleProof)
    requires NoAccident(h, Run(interval, chains, ops).anchors, proof)
    ensures var anchors := Run(interval, chains, ops).anchors;
            Accepts(h, anchors, proof) <==>
            exists k :: 0 <= k < |anchors| && Names(h, anchors[k], proof) && Climbs(h, anchors[k].headers, proof.leafHash, proof.path)
  {
    hide Run, Root, Climbs, AllHeaders, NoneCollides, Hex;
    var anchors := Run(interval, chains, ops).anchors;
    RunSound(interval, chains, ops);
    StoredRoot(anchors, proof.anchorId);
    forall k | 0 <= k < |anchors| && Names(h, anchors[k], proof)
      ensures TextFold(h, proof.leafHash, proof.path) == Hex(h, anchors[k].merkleRoot) <==> Climbs(h, anchors[k].headers, proof.leafHash, proof.path)
    {
      assert SoundPoint(anchors[k]);
      TextFoldSolutions(h, anchors[k].headers, proof.leafHash, proof.path);
    }
  }

  /** Where the leaf has the form of a digest, accepted are exactly the texts of left-spine nodes with their paths. */
  lemma DigestLeafAccepted(h: Hasher, interval: int, chains: seq<int>, ops: seq<Op>, proof: MerkleProof)
    requires NoAccident(h, Run(interval, chains, ops).anchors, proof) && |proof.leafHash| == 64 && AllHex(proof.leafHash)
    ensures var anchors := Run(interval, chains, ops).anchors;
            Accepts(h, anchors, proof) <==>
            exists k, j :: 0 <= k < |anchors| && Names(h, anchors[k], proof) && SpineTexts(h, anchors[k].headers, proof.leafHash, proof.path, j)
  {
    hide Run, Root, AllHeaders, NoneCollides, Hex, Climbs, SpineTexts;
    var anchors := Run(interval, chains, ops).anchors;
    RunSound(interval, chains, ops);
    AcceptedExactly(h, interval, chains, ops, proof);
    forall k | 0 <= k < |anchors| && Names(h, anchors[k], proof)
      ensures Climbs(h, anchors[k].headers, proof.leafHash, proof.path) <==> exists j :: SpineTexts(h, anchors[k].headers, proof.leafHash, proof.path, j)
    {
      assert SoundPoint(anchors[k]);
      TextFoldSolutions(h, anchors[k].headers, proof.leafHash, proof.path);
      DigestLeafSolutions(h, anchors[k].headers, proof.leafHash, proof.path);
    }
  }

  /** Such a leaf is a header's digest, and then the first header's, if and only if the path is as long as the tree is high. */
  lemma DigestLeafIsHeader(h: Hasher, p: AnchorPoint, leaf: string, path: seq<string>, j: nat)
    requires SoundPoint(p) && SpineTexts(h, p.headers, leaf, path, j)
    requires forall i :: 0 <= i < |p.headers| ==> NoCollision(h, p.headers, Preimage(h, p.headers[i]))
    ensures |path| <= Height(|p.headers|)
    ensures leaf in Hexes(h, p.headers) <==> |path| == Height(|p.headers|)
    ensures |path| == Height(|p.headers|) ==> leaf == Hex(h, p.headers[0])
  {
    hide Root, Levels;
    var hs := p.headers;
    SpineLength(hs, j);
    if j == 0 {
      LevelFacts(hs, 0);
      assert leaf == Hexes(h, hs)[0];
    } else {
      UpperNodesArePairs(hs, j);
      var node := Levels(hs)[j][0];
      forall i | 0 <= i < |hs| ensures Hex(h, hs[i]) != leaf {
        NoHexHeader(h, Hex(h, node.left), Hex(h, node.right), hs[i]);
        assert NoCollision(h, hs, Preimage(h, hs[i]));
      }
    }
  }

  // ---- accepted proofs of no header ----

  /** What a node of the left spine is the digest of may be cut in two anywhere: the first part is accepted as a leaf. */
  lemma CutLeafAccepted(h: Hasher, interval: int, chains: seq<int>, ops: seq<Op>, k: nat, j: nat, cut: nat)
    requires k < |Run(interval, chains, ops).anchors|
    requires var hs := Run(interval, chains, ops).anchors[k].headers;
             IsLevel(hs, j) && cut <= |Preimage(h, Levels(hs)[j][0])|
    ensures var anchors := Run(interval, chains, ops).anchors;
            var p := anchors[k];
            var level := Levels(p.headers)[j];
            var text := Preimage(h, level[0]);
            Accepts(h, anchors, MerkleProof(text[..cut], [text[cut..]] + Hexes(h, Path(level, 0)), p.anchorId, Hex(h, p.merkleRoot)))
  {
    hide Run, Root, Preimage, Hex, Levels;
    var anchors := Run(interval, chains, ops).anchors;
    var p := anchors[k];
    RunSound(interval, chains, ops);
    StoredRoot(anchors, p.anchorId);
    assert SoundPoint(p);
    var level := Levels(p.headers)[j];
    var text := Preimage(h, level[0]);
    var path := [text[cut..]] + Hexes(h, Path(level, 0));
    assert text[..cut] + text[cut..] == text;
    assert path[1..] == Hexes(h, Path(level, 0));
    StartFolds(h, p.headers, text[..cut], path, j);
  }

  /** Two headers, an empty leaf and a path as long as the tree is high: accepted, though no header hashes to the leaf. */
  lemma EmptyLeafAccepted(h: Hasher, a: ObjectText, b: ObjectText)
    ensures var anchors := Run(2, [7], [Add(1, a, 0.0), Add(2, b, 0.0)]).anchors;
            && |anchors| == 1 && anchors[0].headers == [Header(a), Header(b)]
            && Accepts(h, anchors, MerkleProof("", [Hex(h, Header(a)) + Hex(h, Header(b))], anchors[0].anchorId, Hex(h, anchors[0].merkleRoot)))
            && Height(2) == 1 && "" !in Hexes(h, anchors[0].headers)
  {
    var ops := [Add(1, a, 0.0), Add(2, b, 0.0)];
    TwoHeaders(a, b);
    hide Hex, Run;
    var hs := [Header(a), Header(b)];
    assert Levels(hs) == [hs] + Levels(Above(hs)) && Above(hs) == [Pair(Header(a), Header(b))];
    CutLeafAccepted(h, 2, [7], ops, 0, 1, 0);
    var text := Hex(h, Header(a)) + Hex(h, Header(b));
    assert text[..0] == "" && text[0..] == text;
    assert [text] + Hexes(h, []) == [text];
    assert Height(1) == 0;
  }

  lemma TwoHeaders(a: ObjectText, b: ObjectText)
    ensures var anchors := Run(2, [7], [Add(1, a, 0.0), Add(2, b, 0.0)]).anchors;
            |anchors| == 1 && anchors[0].headers == [Header(a), Header(b)]
  {
    hide AnchorId, Root;
    var x, y := Add(1, a, 0.0), Add(2, b, 0.0);
    assert [x][..0] == [] && [x, y][..1] == [x] && [7][..0] == [];
    assert [] + [Header(a)] == [Header(a)] && [] + [1] == [1] && [1] + [2] == [1, 2] && [Header(a)] + [Header(b)] == [Header(a), Header(b)];
    assert Run(2, [7], []) == INITIAL;
    assert Run(2, [7], [x]) == State([], [Header(a)], [1], 1, 0);
    var t := State([], [Header(a), Header(b)], [1, 2], 2, 0);
    assert Run(2, [7], [x, y]) == AnchorStep([7], t, 0.0).0;
    assert PutAll(t, [], 0.0) == [];
    assert PutAll(t, [7], 0.0) == [PointFor(t, 7, 0.0)];
  }

  /** Every stored root is accepted as a leaf of its own batch, with an empty path. */
  lemma RootProvesItself(h: Hasher, interval: int, chains: seq<int>, ops: seq<Op>, k: nat)
    requires k < |Run(interval, chains, ops).anchors|
    ensures var p := Run(interval, chains, ops).anchors[k];
            && Accepts(h, Run(interval, chains, ops).anchors, MerkleProof(Hex(h, p.merkleRoot), [], p.anchorId, Hex(h, p.merkleRoot)))
            && (|p.headers| > 1 ==> p.merkleRoot !in p.headers)
  {
    hide Run, Hex;
    var anchors := Run(interval, chains, ops).anchors;
    RunSound(interval, chains, ops);
    StoredRoot(anchors, anchors[k].anchorId);
    var hs := anchors[k].headers;
    assert SoundPoint(anchors[k]);
    if |hs| > 1 { RootIsPair(hs); }
  }

  lemma {:induction false} RootIsPair(leaves: seq<Digest>)
    requires |leaves| > 1
    ensures Root(leaves).Pair?
    decreases |leaves|
  {
    if |leaves| > 2 { RootIsPair(Above(leaves)); }
  }
}
