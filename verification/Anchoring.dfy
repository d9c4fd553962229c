/** Batches block headers under Merkle roots, one anchor point a batch and external chain. */
module Anchoring {
  import opened Text
  import opened Merkle
  import opened MerkleTexts

  datatype AnchorPoint = AnchorPoint(
    anchorId: string,
    baitHeight: int,
    merkleRoot: Digest,
    headers: seq<Digest>,
    timestamp: real,
    chainId: int,
    txHash: AnchorTx)

  /** The digest that stands in for the external transaction. */
  datatype AnchorTx = AnchorTx(anchorId: string, now: real)

  /** The anchors are a dictionary in insertion order: a sequence keyed by anchorId. */
  datatype State = State(
    anchors: seq<AnchorPoint>,
    pending: seq<Digest>,
    heights: seq<int>,
    currentHeight: int,
    totalAnchored: int)

  datatype AnchorResult =
    | NoPendingHeaders
    | StillPending(count: nat, nextAnchorAt: int)
    | Anchored(root: Digest, count: nat, first: int, last: int, ids: seq<string>)

  const INITIAL := State([], [], [], 0, 0)

  function AnchorId(chainId: int, first: int, last: int): string {
    "anchor_" + (DecimalInt(chainId) + ("_" + (DecimalInt(first) + ("_" + DecimalInt(last)))))
  }

  ghost predicate Uses(anchors: seq<AnchorPoint>, id: string) {
    exists k :: 0 <= k < |anchors| && anchors[k].anchorId == id
  }

  /** Dictionary assignment: replaces in place, or appends. */
  function Put(anchors: seq<AnchorPoint>, p: AnchorPoint): seq<AnchorPoint> {
    if anchors == [] then [p]
    else if anchors[0].anchorId == p.anchorId then [p] + anchors[1..]
    else [anchors[0]] + Put(anchors[1..], p)
  }

  function PointFor(s: State, chainId: int, now: real): AnchorPoint
    requires |s.heights| > 0
  {
    var last := s.heights[|s.heights| - 1];
    var id := AnchorId(chainId, s.heights[0], last);
    AnchorPoint(id, last, Root(s.pending), s.pending, now, chainId, AnchorTx(id, now))
  }

  /** The anchors once the pending batch has been recorded for each chain in turn. */
  function PutAll(s: State, chains: seq<int>, now: real): seq<AnchorPoint>
    requires |s.heights| > 0
  {
    if chains == [] then s.anchors
    else Put(PutAll(s, chains[..|chains| - 1], now), PointFor(s, chains[|chains| - 1], now))
  }

  function Points(s: State, chains: seq<int>, now: real): (ps: seq<AnchorPoint>)
    requires |s.heights| > 0
    ensures |ps| == |chains|
  {
    if chains == [] then []
    else Points(s, chains[..|chains| - 1], now) + [PointFor(s, chains[|chains| - 1], now)]
  }

  function Ids(s: State, chains: seq<int>): seq<string>
    requires |s.heights| > 0
  {
    if chains == [] then []
    else Ids(s, chains[..|chains| - 1])
         + [AnchorId(chains[|chains| - 1], s.heights[0], s.heights[|s.heights| - 1])]
  }

  function AnchorStep(chains: seq<int>, s: State, now: real): (State, AnchorResult)
    requires |s.heights| == |s.pending|
  {
    if s.pending == [] then (s, NoPendingHeaders)
    else
      (State(PutAll(s, chains, now), [], [], s.currentHeight, s.totalAnchored + |s.pending|),
       Anchored(Root(s.pending), |s.pending|, s.heights[0], s.heights[|s.heights| - 1], Ids(s, chains)))
  }

  function AddStep(interval: int, chains: seq<int>, s: State, height: int, header: ObjectText, now: real): (State, AnchorResult)
    requires |s.heights| == |s.pending|
  {
    var t := s.(pending := s.pending + [Header(header)], heights := s.heights + [height], currentHeight := height);
    if |t.pending| >= interval then AnchorStep(chains, t, now)
    else (t, StillPending(|t.pending|, height + (interval - |t.pending|)))
  }

  /** A proof as a caller hands it in: texts of any length. */
  datatype MerkleProof = MerkleProof(leafHash: string, path: seq<string>, anchorId: string, merkleRoot: string)
  datatype Verdict = Verdict(valid: bool, proofValid: bool, anchorValid: bool, computedRoot: string, expectedRoot: string)

  class AnchorProtocol {
    const hasher: Hasher
    const anchorInterval: int
    const chainIds: seq<int>
    var anchors: seq<AnchorPoint>
    var pendingHeaders: seq<Digest>
    var headerHeights: seq<int>
    var currentHeight: int
    var totalAnchored: int

    ghost function Snapshot(): State
      reads this
    {
      State(anchors, pendingHeaders, headerHeights, currentHeight, totalAnchored)
    }

    ghost predicate Valid()
      reads this
    {
      |headerHeights| == |pendingHeaders|
    }

    constructor (hasher: Hasher, interval: int, chains: seq<int>)
      ensures Valid() && Snapshot() == INITIAL && anchorInterval == interval && this.hasher == hasher
      ensures chainIds == if chains == [] then [1, 1399811149] else chains
    {
      this.hasher := hasher;
      anchorInterval := interval;
      chainIds := if chains == [] then [1, 1399811149] else chains;
      anchors, pendingHeaders, headerHeights, currentHeight, totalAnchored := [], [], [], 0, 0;
    }

    method AddBlockHeader(height: int, header: ObjectText, now: real) returns (r: AnchorResult)
      requires Valid()
      modifies this
      ensures Valid()
      ensures (Snapshot(), r) == AddStep(anchorInterval, chainIds, old(Snapshot()), height, header, now)
    {
      pendingHeaders := pendingHeaders + [Header(header)];
      headerHeights := headerHeights + [height];
      currentHeight := height;
      if |pendingHeaders| >= anchorInterval {
        r := Anchor(now);
      } else {
        r := StillPending(|pendingHeaders|, currentHeight + (anchorInterval - |pendingHeaders|));
      }
    }

    method Anchor(now: real) returns (r: AnchorResult)
      requires Valid()
      modifies this
      ensures Valid()
      ensures (Snapshot(), r) == AnchorStep(chainIds, old(Snapshot()), now)
    {
      hide AnchorId, Put, Root, Levels;
      if pendingHeaders == [] {
        return NoPendingHeaders;
      }
      ghost var s := Snapshot();
      var root, _ := ComputeMerkleRoot(pendingHeaders);
      var first, last := headerHeights[0], headerHeights[|headerHeights| - 1];
      var ids := [];
      for i := 0 to |chainIds|
        invariant Snapshot() == s.(anchors := PutAll(s, chainIds[..i], now))
        invariant ids == Ids(s, chainIds[..i])
      {
        var id := AnchorId(chainIds[i], first, last);
        assert chainIds[..i + 1][..i] == chainIds[..i];
        anchors := Put(anchors, AnchorPoint(id, last, root, pendingHeaders, now, chainIds[i], AnchorTx(id, now)));
        ids := ids + [id];
      }
      assert chainIds[..|chainIds|] == chainIds;
      totalAnchored := totalAnchored + |pendingHeaders|;
      r := Anchored(root, |pendingHeaders|, first, last, ids);
      pendingHeaders, headerHeights := [], [];
    }

    method VerifyProof(proof: MerkleProof) returns (v: Verdict)
      ensures v.computedRoot == TextFold(hasher, proof.leafHash, proof.path)
      ensures v.proofValid <==> v.computedRoot == proof.merkleRoot
      ensures v.anchorValid <==> IsRootOf(hasher, anchors, proof.anchorId, proof.merkleRoot)
      ensures v.valid <==> v.proofValid && v.anchorValid
      ensures v.expectedRoot == proof.merkleRoot
    {
      var current := proof.leafHash;
      for i := 0 to |proof.path|
        invariant TextFold(hasher, current, proof.path[i..]) == TextFold(hasher, proof.leafHash, proof.path)
      {
        current := hasher.sha(current + proof.path[i]);
      }
      var valid := current == proof.merkleRoot;
      var known := RootOf(anchors, proof.anchorId);
      var anchorValid := known != [] && Hex(hasher, known[0]) == proof.merkleRoot;
      v := Verdict(valid && anchorValid, valid, anchorValid, current, proof.merkleRoot);
    }
  }

  /** The root stored under an id: none, or one. */
  function RootOf(anchors: seq<AnchorPoint>, id: string): seq<Digest> {
    if anchors == [] then []
    else if anchors[0].anchorId == id then [anchors[0].merkleRoot]
    else RootOf(anchors[1..], id)
  }

  predicate IsRootOf(h: Hasher, anchors: seq<AnchorPoint>, id: string, root: string) {
    RootOf(anchors, id) != [] && Hex(h, RootOf(anchors, id)[0]) == root
  }

  /** verify_proof, stated for any anchors. */
  ghost predicate Accepts(h: Hasher, anchors: seq<AnchorPoint>, proof: MerkleProof) {
    TextFold(h, proof.leafHash, proof.path) == proof.merkleRoot && IsRootOf(h, anchors, proof.anchorId, proof.merkleRoot)
  }

  // ---- what anchoring keeps ----

  datatype Batch = Batch(height: int, root: Digest, headers: seq<Digest>)

  /** The batches one chain's anchors hold, in order. */
  function Batches(anchors: seq<AnchorPoint>, chainId: int): seq<Batch> {
    if anchors == [] then []
    else BatchOf(anchors[0], chainId) + Batches(anchors[1..], chainId)
  }

  function BatchOf(p: AnchorPoint, chainId: int): seq<Batch> {
    if p.chainId == chainId then [Batch(p.baitHeight, p.merkleRoot, p.headers)] else []
  }

  function Joined(bs: seq<Batch>): seq<Digest> {
    if bs == [] then [] else Joined(bs[..|bs| - 1]) + bs[|bs| - 1].headers
  }

  lemma AnchorIdInjective(c: int, first: int, last: int, c': int, first': int, last': int)
    requires AnchorId(c, first, last) == AnchorId(c', first', last')
    ensures c == c' && first == first' && last == last'
  {
    var t, t' := DecimalInt(first) + ("_" + DecimalInt(last)), DecimalInt(first') + ("_" + DecimalInt(last'));
    Split("anchor_", DecimalInt(c) + ("_" + t), "anchor_", DecimalInt(c') + ("_" + t'));
    DecimalIntPrefix(c, "_" + t, c', "_" + t');
    Split("_", t, "_", t');
    DecimalIntPrefix(first, "_" + DecimalInt(last), first', "_" + DecimalInt(last'));
    Split("_", DecimalInt(last), "_", DecimalInt(last'));
    assert DecimalInt(last) + "" == DecimalInt(last') + "";
    DecimalIntPrefix(last, "", last', "");
  }

  lemma {:induction false} PutNew(anchors: seq<AnchorPoint>, p: AnchorPoint)
    requires !Uses(anchors, p.anchorId)
    ensures Put(anchors, p) == anchors + [p]
  {
    if anchors != [] {
      forall k | 0 <= k < |anchors[1..]| ensures anchors[1..][k].anchorId != p.anchorId {
        assert anchors[1..][k] == anchors[k + 1];
      }
      PutNew(anchors[1..], p);
    }
  }

  lemma {:induction false} BatchesAppend(anchors: seq<AnchorPoint>, p: AnchorPoint, c: int)
    ensures Batches(anchors + [p], c) == Batches(anchors, c) + BatchOf(p, c)
  {
    if anchors == [] {
      assert [p][1..] == [];
      assert Batches([p], c) == BatchOf(p, c) + Batches([], c);
    } else {
      assert (anchors + [p])[1..] == anchors[1..] + [p];
      BatchesAppend(anchors[1..], p, c);
    }
  }

  lemma {:induction false} JoinedAppend(bs: seq<Batch>, b: Batch)
    ensures Joined(bs + [b]) == Joined(bs) + b.headers
  {
  }

  ghost predicate DistinctInts(xs: seq<int>) {
    forall i, j :: 0 <= i < j < |xs| ==> xs[i] != xs[j]
  }

  ghost predicate NewIds(s: State, chains: seq<int>)
    requires |s.heights| > 0
  {
    forall c :: c in chains ==> !Uses(s.anchors, AnchorId(c, s.heights[0], s.heights[|s.heights| - 1]))
  }

  lemma {:induction false} PointsAt(s: State, chains: seq<int>, now: real, k: nat)
    requires |s.heights| > 0 && k < |chains|
    ensures Points(s, chains, now)[k] == PointFor(s, chains[k], now)
  {
    if k < |chains| - 1 { PointsAt(s, chains[..|chains| - 1], now, k); }
  }

  /** Recording a batch under unused ids appends one point for each chain. */
  lemma {:induction false} PutAllNew(s: State, chains: seq<int>, now: real)
    requires |s.heights| > 0 && DistinctInts(chains) && NewIds(s, chains)
    ensures PutAll(s, chains, now) == s.anchors + Points(s, chains, now)
  {
    hide AnchorId, Root;
    if chains != [] {
      var n := |chains| - 1;
      var front, p := chains[..n], PointFor(s, chains[n], now);
      assert forall c :: c in front ==> c in chains;
      PutAllNew(s, front, now);
      NextIdUnused(s, chains, now);
      PutNew(PutAll(s, front, now), p);
    }
  }

  lemma NextIdUnused(s: State, chains: seq<int>, now: real)
    requires |s.heights| > 0 && chains != [] && DistinctInts(chains) && NewIds(s, chains)
    ensures !Uses(s.anchors + Points(s, chains[..|chains| - 1], now), PointFor(s, chains[|chains| - 1], now).anchorId)
  {
    hide AnchorId;
    var n := |chains| - 1;
    var front, last := chains[..n], s.heights[|s.heights| - 1];
    var got := s.anchors + Points(s, front, now);
    var id := AnchorId(chains[n], s.heights[0], last);
    assert chains[n] in chains && !Uses(s.anchors, id);
    forall k | 0 <= k < |got| ensures got[k].anchorId != id {
      if k >= |s.anchors| {
        var j := k - |s.anchors|;
        PointsAt(s, front, now, j);
        assert chains[j] != chains[n];
        if AnchorId(front[j], s.heights[0], last) == id {
          AnchorIdInjective(front[j], s.heights[0], last, chains[n], s.heights[0], last);
        }
      }
    }
  }

  /** ... so every listed chain gains exactly that batch, and every other chain nothing. */
  lemma {:induction false} BatchesAfterPoints(s: State, chains: seq<int>, now: real, c: int)
    requires |s.heights| > 0 && DistinctInts(chains)
    ensures Batches(s.anchors + Points(s, chains, now), c) ==
            Batches(s.anchors, c) +
            if c in chains then [Batch(s.heights[|s.heights| - 1], Root(s.pending), s.pending)] else []
  {
    hide AnchorId, Root, Batches;
    if chains == [] {
      assert s.anchors + [] == s.anchors;
    } else {
      var n := |chains| - 1;
      var front, p := chains[..n], PointFor(s, chains[n], now);
      BatchesAfterPoints(s, front, now, c);
      assert s.anchors + Points(s, chains, now) == s.anchors + Points(s, front, now) + [p];
      BatchesAppend(s.anchors + Points(s, front, now), p, c);
      assert c in chains <==> c in front || c == chains[n];
    }
  }

  // ---- runs ----

  datatype Op = Add(height: int, header: ObjectText, now: real) | AnchorNow(now: real)

  function Run(interval: int, chains: seq<int>, ops: seq<Op>): (s: State)
    ensures |s.heights| == |s.pending|
  {
    if ops == [] then INITIAL
    else Apply(interval, chains, Run(interval, chains, ops[..|ops| - 1]), ops[|ops| - 1])
  }

  function Apply(interval: int, chains: seq<int>, s: State, op: Op): (t: State)
    requires |s.heights| == |s.pending|
    ensures |t.heights| == |t.pending|
  {
    match op
    case Add(height, header, now) => AddStep(interval, chains, s, height, header, now).0
    case AnchorNow(now) => AnchorStep(chains, s, now).0
  }

  /** The state in which an operation may anchor. */
  function Poised(s: State, op: Op): (t: State)
    requires |s.heights| == |s.pending|
    ensures |t.heights| == |t.pending|
  {
    if op.Add? then s.(pending := s.pending + [Header(op.header)], heights := s.heights + [op.height], currentHeight := op.height)
    else s
  }

  /** The header hashes handed in, in order. */
  function Added(ops: seq<Op>): seq<Digest> {
    if ops == [] then []
    else Added(ops[..|ops| - 1]) + (if ops[|ops| - 1].Add? then [Header(ops[|ops| - 1].header)] else [])
  }

  /** Each added height exceeds every height added before it. */
  ghost predicate Rising(ops: seq<Op>) {
    forall i, j :: 0 <= i < j < |ops| && ops[i].Add? && ops[j].Add? ==> ops[i].height < ops[j].height
  }

  ghost predicate AllBelow(s: State, h: int) {
    (forall k :: 0 <= k < |s.anchors| ==> s.anchors[k].baitHeight < h)
    && (forall k :: 0 <= k < |s.heights| ==> s.heights[k] < h)
  }

  ghost predicate Named(p: AnchorPoint) {
    exists first :: p.anchorId == AnchorId(p.chainId, first, p.baitHeight)
  }

  ghost predicate Good(chains: seq<int>, s: State) {
    |s.heights| == |s.pending|
    && (forall k :: 0 <= k < |s.anchors| ==> Named(s.anchors[k]))
    && (forall k, l :: 0 <= k < |s.anchors| && 0 <= l < |s.heights| ==> s.anchors[k].baitHeight < s.heights[l])
    && (forall b, c :: b in chains && c in chains ==> Batches(s.anchors, b) == Batches(s.anchors, c))
    && (forall k :: 0 <= k < |s.anchors| ==> s.anchors[k].merkleRoot == Root(s.anchors[k].headers))
  }

  lemma GoodGivesNewIds(chains: seq<int>, s: State)
    requires Good(chains, s) && s.heights != []
    ensures NewIds(s, chains)
  {
    forall c | c in chains ensures !Uses(s.anchors, AnchorId(c, s.heights[0], s.heights[|s.heights| - 1])) {
      var id := AnchorId(c, s.heights[0], s.heights[|s.heights| - 1]);
      if k :| 0 <= k < |s.anchors| && s.anchors[k].anchorId == id {
        var p := s.anchors[k];
        assert Named(p);
        var first :| p.anchorId == AnchorId(p.chainId, first, p.baitHeight);
        AnchorIdInjective(p.chainId, first, p.baitHeight, c, s.heights[0], s.heights[|s.heights| - 1]);
      }
    }
  }

  lemma AnchorKeepsGood(chains: seq<int>, s: State, now: real)
    requires Good(chains, s) && DistinctInts(chains)
    ensures Good(chains, AnchorStep(chains, s, now).0)
    ensures forall c :: c in chains ==>
              Joined(Batches(AnchorStep(chains, s, now).0.anchors, c)) + AnchorStep(chains, s, now).0.pending
              == Joined(Batches(s.anchors, c)) + s.pending
    ensures forall h :: AllBelow(s, h) ==> AllBelow(AnchorStep(chains, s, now).0, h)
  {
    hide AnchorId, Root, PutAll, Joined, Batches;
    if s.pending != [] {
      GoodGivesNewIds(chains, s);
      PutAllNew(s, chains, now);
      var t := AnchorStep(chains, s, now).0;
      var b := Batch(s.heights[|s.heights| - 1], Root(s.pending), s.pending);
      forall c | c in chains
        ensures Batches(t.anchors, c) == Batches(s.anchors, c) + [b]
        ensures Joined(Batches(t.anchors, c)) + t.pending == Joined(Batches(s.anchors, c)) + s.pending
      {
        BatchesAfterPoints(s, chains, now, c);
        JoinedAppend(Batches(s.anchors, c), b);
      }
      forall k | 0 <= k < |t.anchors|
        ensures Named(t.anchors[k]) && t.anchors[k].merkleRoot == Root(t.anchors[k].headers)
      {
        if k >= |s.anchors| {
          var p := t.anchors[k];
          PointsAt(s, chains, now, k - |s.anchors|);
          assert p.anchorId == AnchorId(p.chainId, s.heights[0], p.baitHeight);
        }
      }
      forall h | AllBelow(s, h) ensures AllBelow(t, h) {
        forall k | 0 <= k < |t.anchors| ensures t.anchors[k].baitHeight < h {
          if k >= |s.anchors| { PointsAt(s, chains, now, k - |s.anchors|); }
        }
      }
    }
  }

  lemma AddKeepsGood(interval: int, chains: seq<int>, s: State, op: Op)
    requires op.Add? && Good(chains, s) && AllBelow(s, op.height) && DistinctInts(chains)
    ensures var t := Apply(interval, chains, s, op);
      && Good(chains, t)
      && (forall c :: c in chains ==> Joined(Batches(t.anchors, c)) + t.pending
                                      == (Joined(Batches(s.anchors, c)) + s.pending) + [Header(op.header)])
      && forall h :: AllBelow(s, h) && op.height < h ==> AllBelow(t, h)
  {
    hide AnchorId, Root, PutAll, Joined, Batches, Points;
    var mid := Poised(s, op);
    forall c | c in chains
      ensures Joined(Batches(mid.anchors, c)) + mid.pending == (Joined(Batches(s.anchors, c)) + s.pending) + [Header(op.header)]
    {
      assert Joined(Batches(s.anchors, c)) + (s.pending + [Header(op.header)])
          == (Joined(Batches(s.anchors, c)) + s.pending) + [Header(op.header)];
    }
    assert Good(chains, mid);
    AnchorKeepsGood(chains, mid, op.now);
  }

  /** Over every run with rising heights, no header hash is lost, repeated or reordered on any chain. */
  lemma {:induction false} NothingLost(interval: int, chains: seq<int>, ops: seq<Op>)
    requires DistinctInts(chains) && Rising(ops)
    ensures Good(chains, Run(interval, chains, ops))
    ensures forall c :: c in chains ==>
              Joined(Batches(Run(interval, chains, ops).anchors, c)) + Run(interval, chains, ops).pending == Added(ops)
    ensures forall h :: (forall i :: 0 <= i < |ops| && ops[i].Add? ==> ops[i].height < h) ==> AllBelow(Run(interval, chains, ops), h)
  {
    if ops != [] {
      var n := |ops| - 1;
      var front, op := ops[..n], ops[n];
      NothingLost(interval, chains, front);
      var s := Run(interval, chains, front);
      assert forall i :: 0 <= i < n ==> front[i] == ops[i];
      if op.Add? {
        AddKeepsGood(interval, chains, s, op);
      } else {
        AnchorKeepsGood(chains, s, op.now);
      }
      hide Good, Joined, Batches, AllBelow, Apply, Rising;
      forall h | forall i :: 0 <= i < |ops| && ops[i].Add? ==> ops[i].height < h
        ensures AllBelow(Run(interval, chains, ops), h)
      {
        assert forall i :: 0 <= i < n && front[i].Add? ==> front[i].height < h;
        assert AllBelow(s, h) && (op.Add? ==> op.height < h);
      }
    }
  }

  /** After every add fewer than the interval wait, and the counter accounts for the rest. */
  lemma {:induction false} PendingBounded(interval: int, chains: seq<int>, ops: seq<Op>)
    ensures var s := Run(interval, chains, ops);
            (s.pending == [] || |s.pending| < interval) && s.totalAnchored + |s.pending| == |Added(ops)|
  {
    if ops != [] {
      PendingBounded(interval, chains, ops[..|ops| - 1]);
    }
  }

  // ---- exactly when anchoring keeps a batch ----

  ghost predicate WellNamed(anchors: seq<AnchorPoint>) {
    forall k :: 0 <= k < |anchors| ==> Named(anchors[k]) && anchors[k].headers != []
  }

  lemma NamedAlike(p: AnchorPoint, q: AnchorPoint)
    requires Named(p) && Named(q) && p.anchorId == q.anchorId
    ensures p.chainId == q.chainId
  {
    var f :| p.anchorId == AnchorId(p.chainId, f, p.baitHeight);
    var g :| q.anchorId == AnchorId(q.chainId, g, q.baitHeight);
    AnchorIdInjective(p.chainId, f, p.baitHeight, q.chainId, g, q.baitHeight);
  }

  lemma {:induction false} JoinedConcat(a: seq<Batch>, b: seq<Batch>)
    ensures Joined(a + b) == Joined(a) + Joined(b)
  {
    if b == [] {
      assert a + b == a;
    } else {
      var n := |b| - 1;
      JoinedConcat(a, b[..n]);
      LastApart(a, b);
      JoinedAppend(a + b[..n], b[n]);
      Assoc(Joined(a), Joined(b[..n]), b[n].headers);
    }
  }

  lemma LastApart(a: seq<Batch>, b: seq<Batch>)
    requires b != []
    ensures a + b == (a + b[..|b| - 1]) + [b[|b| - 1]]
  {
  }

  lemma JoinedFirst(p: AnchorPoint, rest: seq<AnchorPoint>, c: int)
    ensures |Joined(Batches([p] + rest, c))| == (if p.chainId == c then |p.headers| else 0) + |Joined(Batches(rest, c))|
  {
    assert ([p] + rest)[1..] == rest;
    JoinedConcat(BatchOf(p, c), Batches(rest, c));
    JoinedAppend([], Batch(p.baitHeight, p.merkleRoot, p.headers));
    assert [] + [Batch(p.baitHeight, p.merkleRoot, p.headers)] == [Batch(p.baitHeight, p.merkleRoot, p.headers)];
  }

  /** Assigning one point leaves other chains alone and gains its whole batch only under a new id. */
  lemma {:induction false} PutEffect(anchors: seq<AnchorPoint>, p: AnchorPoint, c: int)
    requires WellNamed(anchors) && Named(p) && p.headers != []
    ensures WellNamed(Put(anchors, p))
    ensures c != p.chainId ==> Batches(Put(anchors, p), c) == Batches(anchors, c)
    ensures c == p.chainId && Uses(anchors, p.anchorId) ==>
              |Joined(Batches(Put(anchors, p), c))| < |Joined(Batches(anchors, c))| + |p.headers|
    ensures forall id :: id != p.anchorId ==> (Uses(Put(anchors, p), id) <==> Uses(anchors, id))
  {
    hide AnchorId, Joined;
    if anchors == [] {
    } else if anchors[0].anchorId == p.anchorId {
      NamedAlike(anchors[0], p);
      assert anchors == [anchors[0]] + anchors[1..];
      JoinedFirst(anchors[0], anchors[1..], c);
      JoinedFirst(p, anchors[1..], c);
      assert forall k :: 1 <= k < |anchors| ==> Put(anchors, p)[k] == anchors[k];
    } else {
      var rest := anchors[1..];
      assert anchors == [anchors[0]] + rest;
      PutEffect(rest, p, c);
      JoinedFirst(anchors[0], rest, c);
      JoinedFirst(anchors[0], Put(rest, p), c);
      UsesFirst(anchors[0], rest);
      UsesFirst(anchors[0], Put(rest, p));
    }
  }

  lemma UsesFirst(p: AnchorPoint, rest: seq<AnchorPoint>)
    ensures forall id :: Uses([p] + rest, id) <==> p.anchorId == id || Uses(rest, id)
  {
    var all := [p] + rest;
    forall id | p.anchorId == id || Uses(rest, id) ensures Uses(all, id) {
      if p.anchorId == id {
        assert all[0].anchorId == id;
      } else {
        var k :| 0 <= k < |rest| && rest[k].anchorId == id;
        assert all[k + 1].anchorId == id;
      }
    }
    forall id | Uses(all, id) ensures p.anchorId == id || Uses(rest, id) {
      var k :| 0 <= k < |all| && all[k].anchorId == id;
      if k > 0 { assert rest[k - 1].anchorId == id; }
    }
  }

  lemma {:induction false} PutAllEffect(s: State, chains: seq<int>, now: real, c: int)
    requires |s.heights| == |s.pending| > 0 && DistinctInts(chains) && WellNamed(s.anchors)
    ensures WellNamed(PutAll(s, chains, now))
    ensures c !in chains ==> Batches(PutAll(s, chains, now), c) == Batches(s.anchors, c)
    ensures c !in chains ==> (Uses(PutAll(s, chains, now), PointFor(s, c, now).anchorId) <==>
                              Uses(s.anchors, PointFor(s, c, now).anchorId))
    ensures c in chains && Uses(s.anchors, PointFor(s, c, now).anchorId) ==>
              |Joined(Batches(PutAll(s, chains, now), c))| < |Joined(Batches(s.anchors, c))| + |s.pending|
    ensures c in chains && !Uses(s.anchors, PointFor(s, c, now).anchorId) ==>
              Joined(Batches(PutAll(s, chains, now), c)) == Joined(Batches(s.anchors, c)) + s.pending
  {
    hide AnchorId, Joined, Root, Batches;
    if chains != [] {
      var n := |chains| - 1;
      var front, p := chains[..n], PointFor(s, chains[n], now);
      assert Named(p) by {
        assert p.anchorId == AnchorId(p.chainId, s.heights[0], p.baitHeight);
      }
      PutAllEffect(s, front, now, c);
      var got := PutAll(s, front, now);
      PutEffect(got, p, c);
      assert chains == front + [chains[n]];
      if c == chains[n] {
        if !Uses(got, p.anchorId) {
          PutNew(got, p);
          BatchesAppend(got, p, c);
          JoinedAppend(Batches(got, c), Batch(p.baitHeight, p.merkleRoot, p.headers));
          assert BatchOf(p, c) == [Batch(p.baitHeight, p.merkleRoot, p.headers)];
        }
      } else {
        var q := PointFor(s, c, now);
        if q.anchorId == p.anchorId {
          AnchorIdInjective(c, s.heights[0], q.baitHeight, chains[n], s.heights[0], p.baitHeight);
        }
      }
    }
  }

  /** A chain keeps everything, the new batch included, exactly when its anchor id is unused. */
  lemma AnchorKeepsAllIff(chains: seq<int>, s: State, now: real, c: int)
    requires |s.heights| == |s.pending| > 0 && DistinctInts(chains) && WellNamed(s.anchors) && c in chains
    ensures Joined(Batches(AnchorStep(chains, s, now).0.anchors, c)) == Joined(Batches(s.anchors, c)) + s.pending
            <==> !Uses(s.anchors, AnchorId(c, s.heights[0], s.heights[|s.heights| - 1]))
  {
    PutAllEffect(s, chains, now, c);
  }

  /** Every reachable state meets the condition of that lemma, whatever the heights. */
  lemma {:induction false} RunWellNamed(interval: int, chains: seq<int>, ops: seq<Op>)
    requires DistinctInts(chains)
    ensures WellNamed(Run(interval, chains, ops).anchors)
  {
    if ops != [] {
      var s := Run(interval, chains, ops[..|ops| - 1]);
      RunWellNamed(interval, chains, ops[..|ops| - 1]);
      var t := Poised(s, ops[|ops| - 1]);
      if t.pending != [] { PutAllEffect(t, chains, ops[|ops| - 1].now, 0); }
    }
  }

  predicate Fires(interval: int, s: State, op: Op)
    requires |s.heights| == |s.pending|
  {
    Poised(s, op).pending != [] && (op.AnchorNow? || |Poised(s, op).pending| >= interval)
  }

  /** No anchoring of the run met its own id for chain c already in use. */
  ghost predicate OnlyNewIds(interval: int, chains: seq<int>, ops: seq<Op>, c: int) {
    ops == [] ||
    var front, op := ops[..|ops| - 1], ops[|ops| - 1];
    var s := Run(interval, chains, front);
    && OnlyNewIds(interval, chains, front, c)
    && (Fires(interval, s, op) ==>
          var t := Poised(s, op); !Uses(t.anchors, AnchorId(c, t.heights[0], t.heights[|t.heights| - 1])))
  }

  /** One operation adds its header to what chain c holds, except that anchoring under a used id makes that fall short. */
  lemma ApplyEffect(interval: int, chains: seq<int>, s: State, op: Op, c: int)
    requires |s.heights| == |s.pending| && DistinctInts(chains) && WellNamed(s.anchors) && c in chains
    ensures var t, u := Apply(interval, chains, s, op), Poised(s, op);
            var held, now := Joined(Batches(s.anchors, c)) + s.pending, Joined(Batches(t.anchors, c)) + t.pending;
            var extra := if op.Add? then [Header(op.header)] else [];
            && |now| <= |held| + |extra|
            && (Fires(interval, s, op) && Uses(u.anchors, AnchorId(c, u.heights[0], u.heights[|u.heights| - 1])) ==>
                  |now| < |held| + |extra|)
            && (Fires(interval, s, op) && !Uses(u.anchors, AnchorId(c, u.heights[0], u.heights[|u.heights| - 1])) ==>
                  now == held + extra)
            && (!Fires(interval, s, op) ==> now == held + extra)
  {
    hide AnchorId, Joined, Batches, Uses, WellNamed, Root, PutAll;
    var u := Poised(s, op);
    Assoc(Joined(Batches(s.anchors, c)), s.pending, u.pending[|s.pending|..]);
    assert u.pending == s.pending + u.pending[|s.pending|..];
    if Fires(interval, s, op) { PutAllEffect(u, chains, op.now, c); }
  }

  /** Over every run chain c holds exactly the headers added, in order, if and only if no anchoring reused an id of it. */
  lemma {:induction false} NothingLostIff(interval: int, chains: seq<int>, ops: seq<Op>, c: int)
    requires DistinctInts(chains) && c in chains
    ensures var s := Run(interval, chains, ops);
            && (Joined(Batches(s.anchors, c)) + s.pending == Added(ops) <==> OnlyNewIds(interval, chains, ops, c))
            && (!OnlyNewIds(interval, chains, ops, c) ==> |Joined(Batches(s.anchors, c)) + s.pending| < |Added(ops)|)
  {
    hide Joined, Batches, Apply, Fires, Poised, AnchorId, Uses, WellNamed;
    if ops == [] {
      NothingHeld(c);
    } else {
      var front, op := ops[..|ops| - 1], ops[|ops| - 1];
      NothingLostIff(interval, chains, front, c);
      RunWellNamed(interval, chains, front);
      ApplyEffect(interval, chains, Run(interval, chains, front), op, c);
    }
  }

  lemma NothingHeld(c: int)
    ensures Joined(Batches([], c)) == []
  {
  }

  /** Two batches over the same heights: the second replaces the first. */
  lemma SameHeightLosesHeader()
    ensures var s := Run(1, [7], [Add(5, "{1}", 0.0), Add(5, "{2}", 0.0)]);
            Joined(Batches(s.anchors, 7)) + s.pending == [Header("{2}")]
  {
    hide AnchorId;
    var p := AnchorPoint(AnchorId(7, 5, 5), 5, Header("{1}"), [Header("{1}")], 0.0, 7, AnchorTx(AnchorId(7, 5, 5), 0.0));
    var q := AnchorPoint(AnchorId(7, 5, 5), 5, Header("{2}"), [Header("{2}")], 0.0, 7, AnchorTx(AnchorId(7, 5, 5), 0.0));
    var a, b := Add(5, "{1}", 0.0), Add(5, "{2}", 0.0);
    assert [7][..0] == [] && [a][..0] == [] && [a, b][..1] == [a];
    OneHeader(INITIAL, "{1}");
    assert Run(1, [7], [a]) == Apply(1, [7], INITIAL, a) == State([p], [], [], 5, 1);
    OneHeader(State([p], [], [], 5, 1), "{2}");
    assert Run(1, [7], [a, b]) == State([q], [], [], 5, 2);
    assert Batches([q], 7) == [Batch(5, Header("{2}"), [Header("{2}")])];
    assert Joined([Batch(5, Header("{2}"), [Header("{2}")])]) == [] + [Header("{2}")];
  }

  lemma OneHeader(s: State, text: ObjectText)
    requires s.pending == [] && s.heights == []
    ensures AddStep(1, [7], s, 5, text, 0.0).0 ==
            State(Put(s.anchors, AnchorPoint(AnchorId(7, 5, 5), 5, Header(text), [Header(text)], 0.0, 7, AnchorTx(AnchorId(7, 5, 5), 0.0))), [], [], 5, s.totalAnchored + 1)
  {
    hide AnchorId;
    assert [] + [Header(text)] == [Header(text)];
    assert [] + [5] == [5];
    assert [7][..0] == [];
    var t := s.(pending := [Header(text)], heights := [5], currentHeight := 5);
    assert PutAll(t, [], 0.0) == s.anchors;
    assert PutAll(t, [7], 0.0) == Put(s.anchors, PointFor(t, 7, 0.0));
  }

  function LastHeight(ops: seq<Op>): int {
    if ops == [] then 0
    else if ops[|ops| - 1].Add? then ops[|ops| - 1].height
    else LastHeight(ops[..|ops| - 1])
  }

  /** The current height is that of the last header added, whatever was anchored since. */
  lemma {:induction false} RunCurrentHeight(interval: int, chains: seq<int>, ops: seq<Op>)
    ensures Run(interval, chains, ops).currentHeight == LastHeight(ops)
  {
    hide PutAll, Ids, Root;
    if ops != [] { RunCurrentHeight(interval, chains, ops[..|ops| - 1]); }
  }

  // ---- what anchoring answers ----

  lemma {:induction false} PutStores(anchors: seq<AnchorPoint>, p: AnchorPoint, q: AnchorPoint)
    ensures p in Put(anchors, p)
    ensures q in anchors && q.anchorId != p.anchorId ==> q in Put(anchors, p)
  {
    if anchors == [] {
    } else if anchors[0].anchorId == p.anchorId {
      assert Put(anchors, p)[0] == p;
      assert anchors == [anchors[0]] + anchors[1..];
    } else {
      PutStores(anchors[1..], p, q);
      assert anchors == [anchors[0]] + anchors[1..];
    }
  }

  lemma {:induction false} PutAllStores(s: State, chains: seq<int>, now: real, c: int)
    requires |s.heights| > 0 && c in chains
    ensures PointFor(s, c, now) in PutAll(s, chains, now)
  {
    hide Put, Root, AnchorId;
    var n := |chains| - 1;
    var p, q := PointFor(s, chains[n], now), PointFor(s, c, now);
    PutStores(PutAll(s, chains[..n], now), p, q);
    if c != chains[n] {
      assert chains == chains[..n] + [chains[n]];
      PutAllStores(s, chains[..n], now, c);
      if p.anchorId == q.anchorId {
        AnchorIdInjective(chains[n], s.heights[0], p.baitHeight, c, s.heights[0], q.baitHeight);
      }
    }
  }

  lemma {:induction false} IdsAt(s: State, chains: seq<int>, i: nat)
    requires |s.heights| > 0 && i < |chains|
    ensures |Ids(s, chains)| == |chains| && Ids(s, chains)[i] == AnchorId(chains[i], s.heights[0], s.heights[|s.heights| - 1])
  {
    hide AnchorId;
    var n := |chains| - 1;
    if i < n { IdsAt(s, chains[..n], i); } else if n > 0 { IdsAt(s, chains[..n], 0); }
  }

  /** Anchoring answers the root, count, heights and ids of points it has stored, one for each chain, over the pending headers. */
  lemma AnchorAnswersStored(chains: seq<int>, s: State, now: real, i: nat)
    requires |s.heights| == |s.pending| > 0 && i < |chains|
    ensures var (t, r) := AnchorStep(chains, s, now);
      && r.Anchored? && |r.ids| == |chains| && t.pending == [] && t.heights == []
      && r.count == |s.pending| && r.first == s.heights[0] && r.last == s.heights[|s.heights| - 1]
      && t.totalAnchored == s.totalAnchored + r.count && t.currentHeight == s.currentHeight
      && exists p :: p in t.anchors && p.anchorId == r.ids[i] && p.chainId == chains[i] && p.merkleRoot == r.root
                     && p.headers == s.pending && p.baitHeight == r.last && p.timestamp == now && p.txHash == AnchorTx(p.anchorId, now)
  {
    hide PutAll, Ids, Root, AnchorId;
    IdsAt(s, chains, i);
    PutAllStores(s, chains, now, chains[i]);
    var p := PointFor(s, chains[i], now);
    assert p in AnchorStep(chains, s, now).0.anchors && p.anchorId == Ids(s, chains)[i];
  }

  /** The answers to adding these headers at consecutive heights. */
  function Answers(interval: int, chains: seq<int>, s: State, height: int, headers: seq<ObjectText>, now: real): seq<AnchorResult>
    requires |s.heights| == |s.pending|
    decreases |headers|
  {
    if headers == [] then []
    else
      var (t, r) := AddStep(interval, chains, s, height, headers[0], now);
      [r] + Answers(interval, chains, t, height + 1, headers[1..], now)
  }

  /** The height answered as the next anchoring is the one at which consecutive adds anchor, and not before. */
  lemma {:induction false} AnchorsAtNext(interval: int, chains: seq<int>, s: State, height: int, headers: seq<ObjectText>, now: real, next: int)
    requires |s.heights| == |s.pending| && headers != []
    requires AddStep(interval, chains, s, height, headers[0], now).1 == StillPending(|s.pending| + 1, next)
    requires |headers| == next - height + 1
    ensures var answers := Answers(interval, chains, s, height, headers, now);
      && |answers| == |headers| && answers[|answers| - 1].Anchored?
      && forall j :: 0 <= j < |answers| - 1 ==> answers[j] == StillPending(|s.pending| + 1 + j, next)
    decreases |headers|
  {
    hide AnchorId, PutAll, Root, Ids;
    var t := AddStep(interval, chains, s, height, headers[0], now).0;
    var rest := Answers(interval, chains, t, height + 1, headers[1..], now);
    if |headers| > 2 {
      AnchorsAtNext(interval, chains, t, height + 1, headers[1..], now, next);
    } else {
      assert headers[1..][1..] == [];
    }
  }

  // ---- verification of generated proofs ----

  /** The digest texts of the two differ if they do. */
  ghost predicate ToldApart(h: Hasher, d: Digest, e: Digest) { Hex(h, d) == Hex(h, e) ==> d == e }

  /** verify_proof accepts a generated proof under its own anchor exactly on a left spine. */
  lemma GeneratedProofVerdict(h: Hasher, anchors: seq<AnchorPoint>, p: AnchorPoint, i: nat)
    requires i < |p.headers| && p.merkleRoot == Root(p.headers) && RootOf(anchors, p.anchorId) == [p.merkleRoot]
    requires ToldApart(h, LeftFold(p.headers[i], Path(p.headers, i)), p.merkleRoot)
    ensures var proof := MerkleProof(Hex(h, p.headers[i]), Hexes(h, Path(p.headers, i)), p.anchorId, Hex(h, p.merkleRoot));
            && (Accepts(h, anchors, proof) <==> LeftSpine(p.headers, i))
            && (Distinct(p.headers) ==> (Accepts(h, anchors, proof) <==> i == 0))
  {
    hide Hex, Path;
    TextFoldOfHexes(h, p.headers[i], Path(p.headers, i));
    LeftFoldReachesRoot(p.headers, i);
    if Distinct(p.headers) { LeftFoldOnlyFirst(p.headers, i); }
  }
}
