/** The explorer's transaction and block entries, told from the operations over whole runs. */
module ExplorerEntries {
  import opened Wrappers
  import opened Text
  import opened Explorer
  import opened ExplorerLedger
  import opened ExplorerRuns

  /** Where an item stands last in a list. */
  function LastAt<T(==)>(xs: seq<T>, x: T): (r: Option<nat>)
    ensures r.Some? ==> r.value < |xs| && xs[r.value] == x && forall k :: r.value < k < |xs| ==> xs[k] != x
    ensures r.None? ==> x !in xs
  {
    if xs == [] then None
    else if xs[|xs| - 1] == x then Some(|xs| - 1)
    else LastAt(xs[..|xs| - 1], x)
  }

  lemma LastAtSnoc<T>(xs: seq<T>, y: T, x: T)
    ensures LastAt(xs + [y], x) == if y == x then Some(|xs|) else LastAt(xs, x)
  {
    assert (xs + [y])[..|xs|] == xs;
  }

  // ---- block entries ----

  function HashList(blocks: seq<Block>): (r: seq<string>)
    ensures |r| == |blocks|
  {
    seq(|blocks|, i requires 0 <= i < |blocks| => blocks[i].hash)
  }

  function IndexList(blocks: seq<Block>): (r: seq<int>)
    ensures |r| == |blocks|
  {
    seq(|blocks|, i requires 0 <= i < |blocks| => blocks[i].index)
  }

  function AllOutputs(txs: seq<Tx>): seq<TxOutput> {
    if txs == [] then [] else AllOutputs(txs[..|txs| - 1]) + txs[|txs| - 1].outputs
  }

  /** The outputs that pay another address. */
  function Others(outputs: seq<TxOutput>, addr: string): seq<TxOutput> {
    if outputs == [] then []
    else
      var o := outputs[|outputs| - 1];
      Others(outputs[..|outputs| - 1], addr) + if o.address == addr then [] else [o]
  }

  lemma {:induction false} TotalConcat(a: seq<TxOutput>, b: seq<TxOutput>)
    ensures OutputTotal(a + b) == OutputTotal(a) + OutputTotal(b)
  {
    if b == [] {
      assert a + b == a;
    } else {
      assert (a + b)[..|a + b| - 1] == a + b[..|b| - 1];
      TotalConcat(a, b[..|b| - 1]);
    }
  }

  /** A total is what one address is paid and the total of the rest. */
  lemma {:induction false} TotalSplits(outputs: seq<TxOutput>, addr: string)
    ensures OutputTotal(outputs) == Paid(outputs, addr) + OutputTotal(Others(outputs, addr))
  {
    if outputs != [] {
      var n := |outputs| - 1;
      TotalSplits(outputs[..n], addr);
      assert Others(outputs[..n], addr) + [] == Others(outputs[..n], addr);
      if outputs[n].address != addr {
        var others := Others(outputs[..n], addr) + [outputs[n]];
        assert others[..|others| - 1] == Others(outputs[..n], addr);
      }
    }
  }

  /** Seconds since the block named as previous, as last listed; nothing for the first block, for one whose hash was listed
      before, or where the previous one is not listed. */
  ghost predicate IntervalIs(r: real, earlier: seq<Block>, b: Block) {
    var p := LastAt(HashList(earlier), b.header.prevHash);
    r == if b.index > 0 && b.hash !in HashList(earlier) && p.Some? then b.header.timestamp - earlier[p.value].header.timestamp else 0.0
  }

  /** The reward is what the last coinbase of the block pays. */
  ghost predicate RewardIs(r: int, txs: seq<Tx>) {
    if exists p :: 0 <= p < |txs| && txs[p].isCoinbase then
      exists p :: 0 <= p < |txs| && txs[p].isCoinbase && (forall q :: p < q < |txs| ==> !txs[q].isCoinbase) && r == OutputTotal(txs[p].outputs)
    else r == 0
  }

  ghost predicate EntryOf(info: BlockInfo, earlier: seq<Block>, b: Block) {
    && info.index == b.index && info.hash == b.hash && info.header == b.header && info.sizeBytes == b.sizeBytes
    && |info.txIds| == |b.transactions| && (forall i :: 0 <= i < |b.transactions| ==> info.txIds[i] == b.transactions[i].txId)
    && info.totalOutput == OutputTotal(AllOutputs(b.transactions))
    && RewardIs(info.reward, b.transactions)
    && IntervalIs(info.interval, earlier, b)
  }

  /** The entry under a hash is that of the last block started with it. */
  ghost predicate HashTold(s: Index, blocks: seq<Block>, hash: string) {
    match LastAt(HashList(blocks), hash)
    case None => hash !in s.blockByHash
    case Some(p) => hash in s.blockByHash && EntryOf(s.blockByHash[hash], blocks[..p], blocks[p])
  }

  /** The entry under a height is that of the last block started there. */
  ghost predicate HeightTold(s: Index, blocks: seq<Block>, k: int) {
    match LastAt(IndexList(blocks), k)
    case None => k !in s.blockByHeight
    case Some(p) => k in s.blockByHeight && EntryOf(s.blockByHeight[k], blocks[..p], blocks[p])
  }

  lemma {:induction false} BlockSums(txs: seq<Tx>)
    ensures BlockOutput(txs) == OutputTotal(AllOutputs(txs))
    ensures RewardIs(Reward(txs), txs)
  {
    if txs != [] {
      var n := |txs| - 1;
      BlockSums(txs[..n]);
      TotalConcat(AllOutputs(txs[..n]), txs[n].outputs);
      hide OutputTotal, BlockOutput, AllOutputs;
      if !txs[n].isCoinbase && (exists p :: 0 <= p < |txs| && txs[p].isCoinbase) {
        var p :| 0 <= p < |txs| && txs[p].isCoinbase;
        assert txs[..n][p].isCoinbase;
        var q :| 0 <= q < n && txs[..n][q].isCoinbase && (forall r :: q < r < n ==> !txs[..n][r].isCoinbase)
                 && Reward(txs[..n]) == OutputTotal(txs[..n][q].outputs);
        assert txs[q].isCoinbase;
        forall r | q < r < |txs| ensures !txs[r].isCoinbase { if r < n { assert txs[..n][r] == txs[r]; } }
      } else if txs[n].isCoinbase {
        assert txs[n].isCoinbase;
      }
    }
  }

  function EntryFor(s: Index, b: Block): BlockInfo {
    BlockInfo(b.index, b.hash, b.header, b.sizeBytes, Ids(b.transactions), BlockOutput(b.transactions),
              Reward(b.transactions), Interval(s, b))
  }

  lemma EntryIs(s: Index, blocks: seq<Block>, b: Block)
    requires HashTold(s, blocks, b.hash) && HashTold(s, blocks, b.header.prevHash)
    ensures EntryOf(EntryFor(s, b), blocks, b)
  {
    BlockSums(b.transactions);
    hide BlockOutput, Reward, RewardIs, AllOutputs, OutputTotal;
  }

  lemma {:induction false} TxsKeepBlocks(s: Index, b: Block, c: int, txs: seq<Tx>)
    ensures IndexTxs(s, b, c, txs).blockByHash == s.blockByHash && IndexTxs(s, b, c, txs).blockByHeight == s.blockByHeight
  {
    hide AllIndexable, MoveOutputs, Settle, InfoOf;
    if txs != [] { TxsKeepBlocks(s, b, c, txs[..|txs| - 1]); }
  }

  lemma BlockListed(s: Index, b: Block, height: int)
    ensures var t := IndexBlock(s, b, height);
            && t.blockByHash == s.blockByHash[b.hash := EntryFor(s, b)]
            && t.blockByHeight == s.blockByHeight[b.index := EntryFor(s, b)]
  {
    hide IndexTxs, Interval, BlockOutput, Reward;
    TxsKeepBlocks(AddBlock(s, b), b, height - b.index + 1, b.transactions);
  }

  lemma ListsSnoc(blocks: seq<Block>, b: Block)
    ensures HashList(blocks + [b]) == HashList(blocks) + [b.hash] && IndexList(blocks + [b]) == IndexList(blocks) + [b.index]
  {
  }

  lemma BlockTells(s: Index, blocks: seq<Block>, b: Block, height: int, hash: string, k: int)
    requires HashTold(s, blocks, b.hash) && HashTold(s, blocks, b.header.prevHash)
    requires HashTold(s, blocks, hash) && HeightTold(s, blocks, k)
    ensures HashTold(IndexBlock(s, b, height), blocks + [b], hash)
    ensures HeightTold(IndexBlock(s, b, height), blocks + [b], k)
  {
    EntryIs(s, blocks, b);
    BlockListed(s, b, height);
    ListsSnoc(blocks, b);
    LastAtSnoc(HashList(blocks), b.hash, hash);
    LastAtSnoc(IndexList(blocks), b.index, k);
    hide IndexBlock, EntryFor, EntryOf, HashList, IndexList;
    assert (blocks + [b])[..|blocks|] == blocks;
    var p, q := LastAt(HashList(blocks), hash), LastAt(IndexList(blocks), k);
    if p.Some? { assert (blocks + [b])[..p.value] == blocks[..p.value]; }
    if q.Some? { assert (blocks + [b])[..q.value] == blocks[..q.value]; }
  }

  lemma {:induction false} ChainTells(s: Index, chain: seq<Block>, height: int, hash: string, k: int)
    requires s.blockByHash == map[] && s.blockByHeight == map[]
    ensures var t := IndexBlocks(s, chain, height); HashTold(t, ReachedBlocks(chain), hash) && HeightTold(t, ReachedBlocks(chain), k)
    decreases |chain|
  {
    hide IndexBlock, HashTold, HeightTold, BlocksIndexable;
    if chain == [] {
      NothingTold(s, hash, k);
    } else {
      var n := |chain| - 1;
      var front := chain[..n];
      ChainTells(s, front, height, hash, k);
      if BlocksIndexable(front) {
        ChainTells(s, front, height, chain[n].hash, k);
        ChainTells(s, front, height, chain[n].header.prevHash, k);
        AllBlocksReached(front);
        BlockTells(IndexBlocks(s, front, height), front, chain[n], height, hash, k);
        assert front + [chain[n]] == chain;
      }
    }
  }

  lemma NothingTold(s: Index, hash: string, k: int)
    requires s.blockByHash == map[] && s.blockByHeight == map[]
    ensures HashTold(s, [], hash) && HeightTold(s, [], k)
  {
  }

  /** Over every run the block tables list, under each hash and each height, the last block started there, and nothing else. */
  lemma {:induction false} RunListsBlocks(ops: seq<IndexOp>, hash: string, k: int)
    ensures HashTold(Run(ops), Started(ops), hash) && HeightTold(Run(ops), Started(ops), k)
  {
    hide IndexBlocks, IndexBlock, HashTold, HeightTold, Hashes, ReachedBlocks, AllIndexable, BlocksIndexable;
    if ops == [] {
      NothingTold(EMPTY, hash, k);
    } else {
      var front, op := ops[..|ops| - 1], ops[|ops| - 1];
      RunListsBlocks(front, hash, k);
      var s := Run(front);
      match op
      case RebuildOp(chain, height, now) =>
        var cleared := EMPTY.(lastHeight := s.lastHeight, indexedAt := s.indexedAt);
        ChainTells(cleared, chain, height, hash, k);
        SameLists(IndexBlocks(cleared, chain, height), Run(ops), ReachedBlocks(chain), hash, k);
      case NewBlockOp(b, height, now) =>
        RunFollowsHistory(front);
        if b.hash !in Hashes(Started(front)) {
          RunListsBlocks(front, b.hash, k);
          RunListsBlocks(front, b.header.prevHash, k);
          BlockTells(s, Started(front), b, height, hash, k);
          SameLists(IndexBlock(s, b, height), Run(ops), Started(front) + [b], hash, k);
        }
      case ConfirmOp(height) => SameLists(s, Run(ops), Started(front), hash, k);
    }
  }

  lemma SameLists(s: Index, t: Index, blocks: seq<Block>, hash: string, k: int)
    requires s.blockByHash == t.blockByHash && s.blockByHeight == t.blockByHeight
    requires HashTold(s, blocks, hash) && HeightTold(s, blocks, k)
    ensures HashTold(t, blocks, hash) && HeightTold(t, blocks, k)
  {
    hide EntryOf;
  }

  // ---- transaction entries ----

  /** A block started, with the height its transactions' confirmations were last counted from. */
  datatype Dated = Dated(block: Block, height: int)

  function DateAll(blocks: seq<Block>, height: int): (r: seq<Dated>)
    ensures |r| == |blocks|
  {
    seq(|blocks|, i requires 0 <= i < |blocks| => Dated(blocks[i], height))
  }

  function Redate(dated: seq<Dated>, height: int): (r: seq<Dated>)
    ensures |r| == |dated|
  {
    seq(|dated|, i requires 0 <= i < |dated| => if dated[i].block.index >= 0 then dated[i].(height := height) else dated[i])
  }

  /** The blocks started since the last rebuild, dated by the operations: a confirmation update reaches heights from 0 on. */
  function DatedBlocks(ops: seq<IndexOp>): seq<Dated> {
    if ops == [] then []
    else
      var front := ops[..|ops| - 1];
      var before := DatedBlocks(front);
      match ops[|ops| - 1]
      case RebuildOp(chain, height, _) => DateAll(ReachedBlocks(chain), height)
      case NewBlockOp(b, height, _) => if b.hash in Hashes(Started(front)) then before else before + [Dated(b, height)]
      case ConfirmOp(height) => Redate(before, height)
  }

  lemma {:induction false} DatedAreStarted(ops: seq<IndexOp>)
    ensures |DatedBlocks(ops)| == |Started(ops)|
    ensures forall i :: 0 <= i < |Started(ops)| ==> DatedBlocks(ops)[i].block == Started(ops)[i]
  {
    hide Hashes, ReachedBlocks;
    if ops != [] { DatedAreStarted(ops[..|ops| - 1]); }
  }

  /** The last of the transactions with this id that does not raise. */
  function LastTx(txs: seq<Tx>, id: string): Option<Tx> {
    if txs == [] then None
    else
      var tx := txs[|txs| - 1];
      if tx.txId == id && Indexable(tx) then Some(tx) else LastTx(txs[..|txs| - 1], id)
  }

  /** The last of the transactions reached with this id that does not raise, with its block. */
  function LastPlace(dated: seq<Dated>, id: string): Option<(Tx, Dated)> {
    if dated == [] then None
    else
      var d := dated[|dated| - 1];
      var found := LastTx(Reached(d.block.transactions), id);
      if found.Some? then Some((found.value, d)) else LastPlace(dated[..|dated| - 1], id)
  }

  function AsOutputs(inputs: seq<TxInput>): (r: seq<TxOutput>)
    ensures |r| == |inputs|
  {
    seq(|inputs|, i requires 0 <= i < |inputs| => TxOutput("", if inputs[i].amountSats.Some? then inputs[i].amountSats.value else 0))
  }

  /** What the entry of a transaction says: its own fields, its block, its sums, the fee left over, and its confirmations. */
  ghost predicate Describes(info: TxInfo, tx: Tx, d: Dated) {
    && info.txId == tx.txId && info.meta == tx.meta && info.isCoinbase == tx.isCoinbase && info.agentId == tx.agentId
    && info.timestamp == tx.timestamp
    && info.blockHeight == d.block.index && info.blockHash == d.block.hash
    && info.confirmations == d.height - d.block.index + 1
    && |info.inputLabels| == |tx.inputs| && |info.outputAddresses| == |tx.outputs|
    && (forall i :: 0 <= i < |tx.inputs| ==>
          exists cut :: cut <= tx.inputs[i].prevTxId && (|cut| == 16 || (|cut| < 16 && cut == tx.inputs[i].prevTxId))
                        && info.inputLabels[i] == cut + ":" + DecimalInt(tx.inputs[i].prevIndex))
    && (forall i :: 0 <= i < |tx.outputs| ==> info.outputAddresses[i] == tx.outputs[i].address)
    && info.totalInput == OutputTotal(AsOutputs(tx.inputs)) && info.totalOutput == OutputTotal(tx.outputs)
    && info.fee >= 0 && (tx.isCoinbase || info.totalInput <= info.totalOutput ==> info.fee == 0)
    && (!tx.isCoinbase && info.totalInput >= info.totalOutput ==> info.totalInput == info.totalOutput + info.fee)
  }

  ghost predicate TxTold(s: Index, dated: seq<Dated>, id: string) {
    match LastPlace(dated, id)
    case None => id !in s.txByHash
    case Some(p) => id in s.txByHash && Describes(s.txByHash[id], p.0, p.1)
  }

  /** A transaction does not raise exactly when each of its inputs has an amount. */
  lemma {:induction false} InputTotalIff(inputs: seq<TxInput>)
    ensures InputTotal(inputs).Some? <==> forall i :: 0 <= i < |inputs| ==> inputs[i].amountSats.Some?
    ensures InputTotal(inputs).Some? ==> InputTotal(inputs).value == OutputTotal(AsOutputs(inputs))
  {
    if inputs != [] {
      var n := |inputs| - 1;
      InputTotalIff(inputs[..n]);
      assert AsOutputs(inputs)[..n] == AsOutputs(inputs[..n]);
    }
  }

  lemma InfoDescribes(tx: Tx, b: Block, height: int)
    requires Indexable(tx)
    ensures Describes(InfoOf(tx, b, height - b.index + 1, InputTotal(tx.inputs).value), tx, Dated(b, height))
  {
    InputTotalIff(tx.inputs);
    hide InputTotal, OutputTotal;
    forall i | 0 <= i < |tx.inputs|
      ensures exists cut :: cut <= tx.inputs[i].prevTxId && (|cut| == 16 || (|cut| < 16 && cut == tx.inputs[i].prevTxId))
                            && Labels(tx.inputs)[i] == cut + ":" + DecimalInt(tx.inputs[i].prevIndex)
    {
      var id := tx.inputs[i].prevTxId;
      var cut := if |id| <= 16 then id else id[..16];
      assert cut <= id && Labels(tx.inputs)[i] == cut + ":" + DecimalInt(tx.inputs[i].prevIndex);
    }
  }

  lemma {:induction false} TxsEntries(s: Index, b: Block, height: int, txs: seq<Tx>, id: string)
    ensures var t, found := IndexTxs(s, b, height - b.index + 1, txs), LastTx(Reached(txs), id);
            if found.Some? then id in t.txByHash && Describes(t.txByHash[id], found.value, Dated(b, height))
            else id in t.txByHash <==> id in s.txByHash
    ensures var t, found := IndexTxs(s, b, height - b.index + 1, txs), LastTx(Reached(txs), id);
            found.None? && id in s.txByHash ==> t.txByHash[id] == s.txByHash[id]
  {
    hide AllIndexable, Settle, MoveOutputs, InfoOf, Describes;
    if txs != [] {
      var front, tx := txs[..|txs| - 1], txs[|txs| - 1];
      TxsEntries(s, b, height, front, id);
      if AllIndexable(front) {
        ReachedWhole(front);
        if Indexable(tx) { InfoDescribes(tx, b, height); }
      }
    }
  }

  lemma BlockTellsTx(s: Index, dated: seq<Dated>, b: Block, height: int, id: string)
    requires TxTold(s, dated, id)
    ensures TxTold(IndexBlock(s, b, height), dated + [Dated(b, height)], id)
  {
    TxsEntries(AddBlock(s, b), b, height, b.transactions, id);
    hide IndexTxs, Describes, LastTx, Reached, BlockOutput, Reward, Interval;
    assert (dated + [Dated(b, height)])[..|dated|] == dated;
  }

  lemma {:induction false} ChainTellsTx(s: Index, chain: seq<Block>, height: int, id: string)
    requires s.txByHash == map[]
    ensures TxTold(IndexBlocks(s, chain, height), DateAll(ReachedBlocks(chain), height), id)
  {
    hide IndexBlock, TxTold, BlocksIndexable;
    if chain == [] {
      NoTxTold(s, id);
      assert DateAll([], height) == [];
    } else {
      var n := |chain| - 1;
      var front := chain[..n];
      ChainTellsTx(s, front, height, id);
      if BlocksIndexable(front) {
        AllBlocksReached(front);
        BlockTellsTx(IndexBlocks(s, front, height), DateAll(front, height), chain[n], height, id);
        assert DateAll(front, height) + [Dated(chain[n], height)] == DateAll(chain, height);
      }
    }
  }

  lemma NoTxTold(s: Index, id: string)
    requires s.txByHash == map[]
    ensures TxTold(s, [], id)
  {
  }

  lemma {:induction false} RedatedPlace(dated: seq<Dated>, height: int, id: string)
    ensures var p, q := LastPlace(dated, id), LastPlace(Redate(dated, height), id);
            && (p.None? <==> q.None?)
            && (p.Some? ==> q.value == (p.value.0, if p.value.1.block.index >= 0 then p.value.1.(height := height) else p.value.1))
  {
    hide LastTx, Reached;
    if dated != [] {
      var n := |dated| - 1;
      RedatedPlace(dated[..n], height, id);
      assert Redate(dated, height)[..n] == Redate(dated[..n], height);
    }
  }

  lemma ConfirmTells(s: Index, dated: seq<Dated>, height: int, id: string)
    requires TxTold(s, dated, id)
    ensures TxTold(UpdateConfirmations(s, height), Redate(dated, height), id)
  {
    RedatedPlace(dated, height, id);
    hide LastPlace, Redate, OutputTotal, AsOutputs;
  }

  /** Over every run the transaction table holds, under each id, the last transaction of the history with that id that did not raise,
      with its block and dated by the last operation to count its confirmations, and nothing else. */
  lemma {:induction false} RunListsTxs(ops: seq<IndexOp>, id: string)
    ensures TxTold(Run(ops), DatedBlocks(ops), id)
  {
    hide IndexBlocks, IndexBlock, TxTold, Hashes, ReachedBlocks, AllIndexable, BlocksIndexable, UpdateConfirmations, Redate, DateAll;
    if ops == [] {
      NoTxTold(EMPTY, id);
    } else {
      var front, op := ops[..|ops| - 1], ops[|ops| - 1];
      RunListsTxs(front, id);
      var s := Run(front);
      match op
      case RebuildOp(chain, height, now) =>
        var cleared := EMPTY.(lastHeight := s.lastHeight, indexedAt := s.indexedAt);
        ChainTellsTx(cleared, chain, height, id);
        SameTxs(IndexBlocks(cleared, chain, height), Run(ops), DatedBlocks(ops), id);
      case NewBlockOp(b, height, now) =>
        RunFollowsHistory(front);
        if b.hash !in Hashes(Started(front)) {
          BlockTellsTx(s, DatedBlocks(front), b, height, id);
          SameTxs(IndexBlock(s, b, height), Run(ops), DatedBlocks(ops), id);
        }
      case ConfirmOp(height) => ConfirmTells(s, DatedBlocks(front), height, id);
    }
  }

  lemma SameTxs(s: Index, t: Index, dated: seq<Dated>, id: string)
    requires s.txByHash == t.txByHash && TxTold(s, dated, id)
    ensures TxTold(t, dated, id)
  {
    hide Describes;
  }

  // ---- the counters ----

  /** The transactions that did not raise. */
  function Settled(txs: seq<Tx>): seq<Tx> {
    if txs == [] then []
    else Settled(txs[..|txs| - 1]) + if Indexable(txs[|txs| - 1]) then [txs[|txs| - 1]] else []
  }

  lemma {:induction false} SettledConcat(a: seq<Tx>, b: seq<Tx>)
    ensures Settled(a + b) == Settled(a) + Settled(b)
  {
    hide Indexable;
    if b == [] {
      assert a + b == a;
    } else {
      assert (a + b)[..|a + b| - 1] == a + b[..|b| - 1];
      SettledConcat(a, b[..|b| - 1]);
    }
  }

  lemma {:induction false} TxsCounted(s: Index, b: Block, c: int, txs: seq<Tx>)
    ensures IndexTxs(s, b, c, txs).totalTxs == s.totalTxs + |Settled(Reached(txs))|
  {
    hide AllIndexable, Settle, MoveOutputs, InfoOf;
    if txs != [] {
      var front := txs[..|txs| - 1];
      TxsCounted(s, b, c, front);
      if AllIndexable(front) { ReachedWhole(front); }
    }
  }

  lemma BlockCounted(s: Index, b: Block, h: int)
    ensures IndexBlock(s, b, h).totalTxs == s.totalTxs + |Settled(Reached(b.transactions))|
    ensures IndexBlock(s, b, h).totalBlocks == s.totalBlocks + 1
  {
    hide IndexTxs, Settled;
    TxsCounted(AddBlock(s, b), b, h - b.index + 1, b.transactions);
    TxsFrame(AddBlock(s, b), b, h - b.index + 1, b.transactions, 0, 0.0);
  }

  lemma {:induction false} ChainCounted(s: Index, chain: seq<Block>, h: int)
    ensures IndexBlocks(s, chain, h).totalTxs == s.totalTxs + |Settled(Moved(ReachedBlocks(chain)))|
  {
    hide IndexBlock, AllIndexable, Reached, BlocksIndexable;
    if chain != [] {
      var n := |chain| - 1;
      ChainCounted(s, chain[..n], h);
      if BlocksIndexable(chain[..n]) {
        AllBlocksReached(chain[..n]);
        BlockCounted(IndexBlocks(s, chain[..n], h), chain[n], h);
        SettledConcat(Moved(chain[..n]), Reached(chain[n].transactions));
      }
    }
  }

  /** Over every run the counters are the blocks started and the transactions of the history that did not raise. */
  lemma {:induction false} RunCounts(ops: seq<IndexOp>)
    ensures Run(ops).totalBlocks == |Started(ops)| && Run(ops).totalTxs == |Settled(History(ops))|
  {
    hide IndexBlocks, IndexBlock, Hashes, Moved, Reached, ReachedBlocks, AllIndexable, BlocksIndexable;
    if ops == [] {
      EmptyRun();
    } else {
      hide Settled;
      var front, op := ops[..|ops| - 1], ops[|ops| - 1];
      RunCounts(front);
      var s := Run(front);
      match op
      case RebuildOp(chain, height, _) =>
        var cleared := EMPTY.(lastHeight := s.lastHeight, indexedAt := s.indexedAt);
        ChainCounted(cleared, chain, height);
        BlocksFrame(cleared, chain, height, 0, 0.0);
      case NewBlockOp(b, height, _) =>
        RunFollowsHistory(front);
        HashesSnoc(Started(front), b);
        BlockCounted(s, b, height);
        SettledConcat(History(front), Reached(b.transactions));
      case ConfirmOp(_) =>
    }
  }

  lemma {:induction false} SettledWhole(txs: seq<Tx>)
    requires AllIndexable(txs)
    ensures Settled(txs) == txs
  {
    hide Indexable;
    if txs != [] { SettledWhole(txs[..|txs| - 1]); }
  }

  /** A new block answers how many transactions it added to the count, a rebuild that returns how many blocks it counted. */
  lemma AnswersCount(s: Index, b: Block, chain: seq<Block>, height: int, now: real)
    ensures var (t, answer) := IndexNewBlock(s, b, height, now); answer.Some? ==> t.totalTxs == s.totalTxs + answer.value
    ensures var (t, answer) := Rebuild(s, chain, height, now); answer.Some? ==> t.totalBlocks == answer.value == |chain|
  {
    hide IndexBlock, IndexBlocks, AllIndexable, BlocksIndexable, Settled;
    BlockCounted(s, b, height);
    if AllIndexable(b.transactions) {
      ReachedWhole(b.transactions);
      SettledWhole(b.transactions);
    }
    BlocksFrame(EMPTY.(lastHeight := s.lastHeight, indexedAt := s.indexedAt), chain, height, 0, 0.0);
    if BlocksIndexable(chain) { AllBlocksReached(chain); }
  }

  /** The heights indexed since the last rebuild that returned: its own, then those of the new blocks that did not raise. */
  function HeightsSince(ops: seq<IndexOp>): seq<int> {
    if ops == [] then [-1]
    else
      var front := ops[..|ops| - 1];
      var before := HeightsSince(front);
      match ops[|ops| - 1]
      case RebuildOp(chain, height, _) => if BlocksIndexable(chain) then [height] else before
      case NewBlockOp(b, _, _) =>
        if b.hash in Hashes(Started(front)) || !AllIndexable(b.transactions) then before else before + [b.index]
      case ConfirmOp(_) => before
  }

  /** Over every run the last height is the greatest of those. */
  lemma {:induction false} RunLastHeight(ops: seq<IndexOp>)
    ensures Run(ops).lastHeight in HeightsSince(ops)
    ensures forall k :: k in HeightsSince(ops) ==> k <= Run(ops).lastHeight
  {
    hide IndexBlocks, IndexBlock, Hashes, Started, ReachedBlocks, AllIndexable, BlocksIndexable, UpdateConfirmations;
    if ops != [] {
      var front, op := ops[..|ops| - 1], ops[|ops| - 1];
      RunLastHeight(front);
      var s := Run(front);
      match op
      case RebuildOp(chain, height, _) =>
        BlocksFrame(EMPTY.(lastHeight := s.lastHeight, indexedAt := s.indexedAt), chain, height, 0, 0.0);
      case NewBlockOp(b, height, _) =>
        RunFollowsHistory(front);
        BlockFrame(s, b, height, 0, 0.0);
      case ConfirmOp(height) => SameHeight(s, height);
    }
  }

  lemma SameHeight(s: Index, height: int)
    ensures UpdateConfirmations(s, height).lastHeight == s.lastHeight
  {
  }
}
