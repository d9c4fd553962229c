/** The explorer's indices: what indexing a transaction, a block or a chain does to all of them. */
module Explorer {
  import opened Wrappers
  import opened Text

  type Outpoint = (string, int)

  datatype TxOutput = TxOutput(address: string, amountSats: int)

  /** amountSats is the attribute the fee line reads; an input without it makes Python raise. */
  datatype TxInput = TxInput(prevTxId: string, prevIndex: int, amountSats: Option<int>)

  datatype TxMeta = TxMeta(txType: string, sizeBytes: nat, gasLimit: int, gasPrice: int, nonce: int)

  datatype Tx = Tx(
    txId: string,
    meta: TxMeta,
    isCoinbase: bool,
    agentId: string,
    timestamp: real,
    inputs: seq<TxInput>,
    outputs: seq<TxOutput>)

  datatype Header = Header(prevHash: string, timestamp: real, merkleRoot: string, validator: string, bits: string, nonce: int,
                           zkmlProofHash: string, pouwWorkHash: string, tensorCommitment: string)

  datatype Block = Block(index: int, hash: string, header: Header, sizeBytes: nat, transactions: seq<Tx>)

  datatype TxInfo = TxInfo(
    txId: string,
    meta: TxMeta,
    isCoinbase: bool,
    agentId: string,
    timestamp: real,
    blockHeight: int,
    blockHash: string,
    confirmations: int,
    inputLabels: seq<string>,
    outputAddresses: seq<string>,
    totalInput: int,
    totalOutput: int,
    fee: int)

  datatype AddressInfo = AddressInfo(
    address: string,
    balance: int,
    received: int,
    sent: int,
    txCount: int,
    txIds: seq<string>,
    firstSeen: real,
    lastSeen: real,
    agentId: string)

  datatype BlockInfo = BlockInfo(
    index: int,
    hash: string,
    header: Header,
    sizeBytes: nat,
    txIds: seq<string>,
    totalOutput: int,
    reward: int,
    interval: real)

  datatype Utxo = Utxo(address: string, amountSats: int)

  /** The tables that depend on what transactions pay and spend. */
  datatype Ledger = Ledger(
    addressInfo: map<string, AddressInfo>,
    txsByAddress: map<string, seq<string>>,
    txsByAgent: map<string, seq<string>>,
    addressByAgent: map<string, string>,
    utxo: map<Outpoint, Utxo>)

  datatype Index = Index(
    ledger: Ledger,
    txByHash: map<string, TxInfo>,
    blockByHash: map<string, BlockInfo>,
    blockByHeight: map<int, BlockInfo>,
    totalTxs: nat,
    totalBlocks: nat,
    lastHeight: int,
    indexedAt: real)

  const EMPTY := Index(Ledger(map[], map[], map[], map[], map[]), map[], map[], map[], 0, 0, -1, 0.0)

  // ---- one transaction ----

  function Key(i: TxInput): Outpoint { (i.prevTxId, i.prevIndex) }

  function Max(a: int, b: int): int { if a < b then b else a }

  function Spend(s: Ledger, coinbase: bool, i: TxInput): Ledger {
    if Key(i) !in s.utxo then s
    else
      var u := s.utxo[Key(i)];
      var s1 := s.(utxo := s.utxo - {Key(i)});
      if coinbase || u.address !in s.addressInfo then s1
      else
        var ai := s.addressInfo[u.address];
        s1.(addressInfo := s.addressInfo[u.address :=
          ai.(balance := Max(0, ai.balance - u.amountSats), sent := ai.sent + u.amountSats)])
  }

  function SpendAll(s: Ledger, coinbase: bool, inputs: seq<TxInput>): Ledger {
    if inputs == [] then s
    else Spend(SpendAll(s, coinbase, inputs[..|inputs| - 1]), coinbase, inputs[|inputs| - 1])
  }

  function Create(s: Ledger, txId: string, outputs: seq<TxOutput>): Ledger {
    if outputs == [] then s
    else
      var n := |outputs| - 1;
      var s1 := Create(s, txId, outputs[..n]);
      s1.(utxo := s1.utxo[(txId, n) := Utxo(outputs[n].address, outputs[n].amountSats)])
  }

  function OutputTotal(outputs: seq<TxOutput>): int {
    if outputs == [] then 0 else OutputTotal(outputs[..|outputs| - 1]) + outputs[|outputs| - 1].amountSats
  }

  /** The sum over the inputs, or none where an input has no such attribute. */
  function InputTotal(inputs: seq<TxInput>): Option<int> {
    if inputs == [] then Some(0)
    else
      var rest := InputTotal(inputs[..|inputs| - 1]);
      var last := inputs[|inputs| - 1].amountSats;
      if rest.None? || last.None? then None else Some(rest.value + last.value)
  }

  function Labels(inputs: seq<TxInput>): (ls: seq<string>)
    ensures |ls| == |inputs|
  {
    seq(|inputs|, i requires 0 <= i < |inputs| =>
      (if |inputs[i].prevTxId| <= 16 then inputs[i].prevTxId else inputs[i].prevTxId[..16]) + ":" + DecimalInt(inputs[i].prevIndex))
  }

  function Addresses(outputs: seq<TxOutput>): (addrs: seq<string>)
    ensures |addrs| == |outputs| && forall i :: 0 <= i < |addrs| ==> addrs[i] == outputs[i].address
  {
    seq(|outputs|, i requires 0 <= i < |outputs| => outputs[i].address)
  }

  function InfoOf(tx: Tx, b: Block, confirmations: int, totalInput: int): TxInfo {
    var out := OutputTotal(tx.outputs);
    TxInfo(tx.txId, tx.meta, tx.isCoinbase, tx.agentId, tx.timestamp, b.index, b.hash, confirmations,
           Labels(tx.inputs), Addresses(tx.outputs), totalInput, out,
           if tx.isCoinbase then 0 else Max(0, totalInput - out))
  }

  /** The credit loop's amount: the loop variable left over from the outputs, so the last one's. */
  function LastAmount(tx: Tx): int {
    if tx.outputs == [] then 0 else tx.outputs[|tx.outputs| - 1].amountSats
  }

  function Touched(ai: AddressInfo, tx: Tx): AddressInfo {
    ai.(balance := ai.balance + LastAmount(tx),
        received := ai.received + LastAmount(tx),
        txCount := ai.txCount + 1,
        txIds := if tx.txId in ai.txIds then ai.txIds else ai.txIds + [tx.txId],
        firstSeen := if ai.firstSeen == 0.0 || tx.timestamp < ai.firstSeen then tx.timestamp else ai.firstSeen,
        lastSeen := if tx.timestamp > ai.lastSeen then tx.timestamp else ai.lastSeen)
  }

  function InfoFor(s: Ledger, addr: string): AddressInfo {
    if addr in s.addressInfo then s.addressInfo[addr] else AddressInfo(addr, 0, 0, 0, 0, [], 0.0, 0.0, "")
  }

  function Append(m: map<string, seq<string>>, k: string, x: string): map<string, seq<string>> {
    m[k := (if k in m then m[k] else []) + [x]]
  }

  function Credit(s: Ledger, tx: Tx, addr: string): Ledger {
    s.(txsByAddress := Append(s.txsByAddress, addr, tx.txId),
       addressInfo := s.addressInfo[addr := Touched(InfoFor(s, addr), tx)])
  }

  function CreditAll(s: Ledger, tx: Tx, addrs: seq<string>): Ledger {
    if addrs == [] then s else Credit(CreditAll(s, tx, addrs[..|addrs| - 1]), tx, addrs[|addrs| - 1])
  }

  function NoteAgent(s: Ledger, tx: Tx): Ledger {
    if tx.agentId == "" then s
    else
      var s1 := s.(txsByAgent := Append(s.txsByAgent, tx.agentId, tx.txId));
      if tx.agentId in s.addressByAgent || tx.outputs == [] then s1
      else
        var addr := tx.outputs[0].address;
        s1.(addressByAgent := s.addressByAgent[tx.agentId := addr],
            addressInfo := if addr in s.addressInfo then s.addressInfo[addr := s.addressInfo[addr].(agentId := tx.agentId)]
                           else s.addressInfo)
  }

  /** The outputs moved, before the line that may raise. */
  function MoveOutputs(s: Ledger, tx: Tx): Ledger {
    Create(SpendAll(s, tx.isCoinbase, tx.inputs), tx.txId, tx.outputs)
  }

  /** The ledger once a transaction has been indexed without a raise. */
  function Settle(s: Ledger, tx: Tx): Ledger {
    NoteAgent(CreditAll(MoveOutputs(s, tx), tx, Addresses(tx.outputs)), tx)
  }

  predicate Indexable(tx: Tx) { InputTotal(tx.inputs).Some? }

  function IndexTx(s: Index, b: Block, confirmations: int, tx: Tx): Index {
    match InputTotal(tx.inputs)
    case None => s.(ledger := MoveOutputs(s.ledger, tx))
    case Some(total) =>
      s.(ledger := Settle(s.ledger, tx),
         txByHash := s.txByHash[tx.txId := InfoOf(tx, b, confirmations, total)],
         totalTxs := s.totalTxs + 1)
  }

  // ---- blocks and chains; a raise stops everything after it ----

  function IndexTxs(s: Index, b: Block, confirmations: int, txs: seq<Tx>): Index {
    if txs == [] then s
    else
      var front := txs[..|txs| - 1];
      var s1 := IndexTxs(s, b, confirmations, front);
      if AllIndexable(front) then IndexTx(s1, b, confirmations, txs[|txs| - 1]) else s1
  }

  predicate AllIndexable(txs: seq<Tx>) {
    forall i :: 0 <= i < |txs| ==> Indexable(txs[i])
  }

  function Ids(txs: seq<Tx>): (ids: seq<string>)
    ensures |ids| == |txs|
  {
    seq(|txs|, i requires 0 <= i < |txs| => txs[i].txId)
  }

  function BlockOutput(txs: seq<Tx>): int {
    if txs == [] then 0 else BlockOutput(txs[..|txs| - 1]) + OutputTotal(txs[|txs| - 1].outputs)
  }

  /** What the last coinbase pays. */
  function Reward(txs: seq<Tx>): int {
    if txs == [] then 0
    else if txs[|txs| - 1].isCoinbase then OutputTotal(txs[|txs| - 1].outputs)
    else Reward(txs[..|txs| - 1])
  }

  function Interval(s: Index, b: Block): real {
    if b.index <= 0 || b.hash in s.blockByHash || b.header.prevHash !in s.blockByHash then 0.0
    else b.header.timestamp - s.blockByHash[b.header.prevHash].header.timestamp
  }

  function AddBlock(s: Index, b: Block): Index {
    var bi := BlockInfo(b.index, b.hash, b.header, b.sizeBytes, Ids(b.transactions), BlockOutput(b.transactions),
                        Reward(b.transactions), Interval(s, b));
    s.(blockByHash := s.blockByHash[b.hash := bi],
       blockByHeight := s.blockByHeight[b.index := bi],
       totalBlocks := s.totalBlocks + 1)
  }

  function IndexBlock(s: Index, b: Block, height: int): Index {
    IndexTxs(AddBlock(s, b), b, height - b.index + 1, b.transactions)
  }

  predicate BlocksIndexable(chain: seq<Block>) {
    forall i :: 0 <= i < |chain| ==> AllIndexable(chain[i].transactions)
  }

  function IndexBlocks(s: Index, chain: seq<Block>, height: int): Index {
    if chain == [] then s
    else
      var front := chain[..|chain| - 1];
      var s1 := IndexBlocks(s, front, height);
      if BlocksIndexable(front) then IndexBlock(s1, chain[|chain| - 1], height) else s1
  }

  /** The blocks a chain's loop starts: all of them, or those up to the first that raises. */
  function ReachedBlocks(chain: seq<Block>): seq<Block> {
    if chain == [] then []
    else if BlocksIndexable(chain[..|chain| - 1]) then chain
    else ReachedBlocks(chain[..|chain| - 1])
  }

  /** None stands for the AttributeError. */
  type Outcome = Option<nat>

  function Rebuild(s: Index, chain: seq<Block>, height: int, now: real): (Index, Outcome) {
    var s1 := IndexBlocks(EMPTY.(lastHeight := s.lastHeight, indexedAt := s.indexedAt), chain, height);
    if BlocksIndexable(chain) then (s1.(lastHeight := height, indexedAt := now), Some(|chain|)) else (s1, None)
  }

  function IndexNewBlock(s: Index, b: Block, height: int, now: real): (Index, Outcome) {
    if b.hash in s.blockByHash then (s, Some(0))
    else
      var s1 := IndexBlock(s, b, height);
      if !AllIndexable(b.transactions) then (s1, None)
      else
        (s1.(lastHeight := if b.index > s1.lastHeight then b.index else s1.lastHeight, indexedAt := now),
         Some(|b.transactions|))
  }

  function Confirmed(info: TxInfo, height: int): TxInfo {
    if info.blockHeight >= 0 then info.(confirmations := height - info.blockHeight + 1) else info
  }

  function UpdateConfirmations(s: Index, height: int): Index {
    s.(txByHash := map id | id in s.txByHash :: Confirmed(s.txByHash[id], height))
  }

  // ---- incremental indexing against a rebuild ----

  /** Indexing a transaction and redating all transactions can be done in either order. */
  lemma TxCommutes(s: Index, b: Block, h1: int, h2: int, tx: Tx)
    requires b.index >= 0
    ensures UpdateConfirmations(IndexTx(s, b, h1 - b.index + 1, tx), h2) ==
            IndexTx(UpdateConfirmations(s, h2), b, h2 - b.index + 1, tx)
  {
    hide MoveOutputs, Settle;
    if Indexable(tx) {
      var total := InputTotal(tx.inputs).value;
      var i1, i2 := InfoOf(tx, b, h1 - b.index + 1, total), InfoOf(tx, b, h2 - b.index + 1, total);
      assert Confirmed(i1, h2) == i2;
      assert UpdateConfirmations(s.(txByHash := s.txByHash[tx.txId := i1]), h2).txByHash ==
             UpdateConfirmations(s, h2).txByHash[tx.txId := i2];
    }
  }

  lemma {:induction false} TxsCommute(s: Index, b: Block, h1: int, h2: int, txs: seq<Tx>)
    requires b.index >= 0
    ensures UpdateConfirmations(IndexTxs(s, b, h1 - b.index + 1, txs), h2) ==
            IndexTxs(UpdateConfirmations(s, h2), b, h2 - b.index + 1, txs)
  {
    hide IndexTx, UpdateConfirmations;
    if txs != [] {
      var n := |txs| - 1;
      TxsCommute(s, b, h1, h2, txs[..n]);
      TxCommutes(IndexTxs(s, b, h1 - b.index + 1, txs[..n]), b, h1, h2, txs[n]);
    }
  }

  lemma BlockCommutes(s: Index, b: Block, h1: int, h2: int)
    requires b.index >= 0
    ensures UpdateConfirmations(IndexBlock(s, b, h1), h2) == IndexBlock(UpdateConfirmations(s, h2), b, h2)
  {
    hide IndexTxs;
    TxsCommute(AddBlock(s, b), b, h1, h2, b.transactions);
  }

  ghost predicate Heights(chain: seq<Block>) {
    forall i :: 0 <= i < |chain| ==> chain[i].index >= 0
  }

  lemma {:induction false} BlocksCommute(s: Index, chain: seq<Block>, h1: int, h2: int)
    requires Heights(chain)
    ensures UpdateConfirmations(IndexBlocks(s, chain, h1), h2) == IndexBlocks(UpdateConfirmations(s, h2), chain, h2)
  {
    hide IndexBlock, UpdateConfirmations, AllIndexable;
    if chain != [] {
      var n := |chain| - 1;
      BlocksCommute(s, chain[..n], h1, h2);
      BlockCommutes(IndexBlocks(s, chain[..n], h1), chain[n], h1, h2);
    }
  }

  /** Transactions leave the block tables and the two clocks alone, and do not read the clocks. */
  lemma {:induction false} TxsFrame(s: Index, b: Block, c: int, txs: seq<Tx>, last: int, at: real)
    ensures var t := IndexTxs(s, b, c, txs);
            && t.blockByHash == s.blockByHash && t.totalBlocks == s.totalBlocks
            && t.lastHeight == s.lastHeight && t.indexedAt == s.indexedAt
            && IndexTxs(s.(lastHeight := last, indexedAt := at), b, c, txs) == t.(lastHeight := last, indexedAt := at)
  {
    hide AllIndexable, MoveOutputs, Settle, InfoOf;
    if txs != [] { TxsFrame(s, b, c, txs[..|txs| - 1], last, at); }
  }

  lemma BlockFrame(s: Index, b: Block, h: int, last: int, at: real)
    ensures var t := IndexBlock(s, b, h);
            && t.blockByHash.Keys == s.blockByHash.Keys + {b.hash} && t.totalBlocks == s.totalBlocks + 1
            && t.lastHeight == s.lastHeight && t.indexedAt == s.indexedAt
            && IndexBlock(s.(lastHeight := last, indexedAt := at), b, h) == t.(lastHeight := last, indexedAt := at)
  {
    hide IndexTxs;
    TxsFrame(AddBlock(s, b), b, h - b.index + 1, b.transactions, last, at);
  }

  function Hashes(chain: seq<Block>): set<string> {
    set i | 0 <= i < |chain| :: chain[i].hash
  }

  lemma {:induction false} BlocksFrame(s: Index, chain: seq<Block>, h: int, last: int, at: real)
    ensures var t := IndexBlocks(s, chain, h);
            && t.blockByHash.Keys == s.blockByHash.Keys + Hashes(ReachedBlocks(chain))
            && t.totalBlocks == s.totalBlocks + |ReachedBlocks(chain)|
            && t.lastHeight == s.lastHeight && t.indexedAt == s.indexedAt
            && IndexBlocks(s.(lastHeight := last, indexedAt := at), chain, h) == t.(lastHeight := last, indexedAt := at)
  {
    if chain != [] {
      hide IndexBlock, AllIndexable;
      var n := |chain| - 1;
      BlocksFrame(s, chain[..n], h, last, at);
      if BlocksIndexable(chain[..n]) {
        AllBlocksReached(chain[..n]);
        BlockFrame(IndexBlocks(s, chain[..n], h), chain[n], h, last, at);
        HashesExtend(chain);
        hide Hashes;
      }
    }
  }

  lemma {:induction false} AllBlocksReached(chain: seq<Block>)
    requires BlocksIndexable(chain)
    ensures ReachedBlocks(chain) == chain
  {
    if chain != [] { assert BlocksIndexable(chain[..|chain| - 1]); }
  }

  lemma HashesExtend(chain: seq<Block>)
    requires chain != []
    ensures Hashes(chain) == Hashes(chain[..|chain| - 1]) + {chain[|chain| - 1].hash}
  {
  }

  /** An index but for its last height and clock reading. */
  function Undated(s: Index): Index { s.(lastHeight := 0, indexedAt := 0.0) }

  /** Indexing the next block and redating gives the tables of a rebuild exactly when either nothing before it raises and its
      hash is new, or something raises and its hash is listed. Where nothing raises the last height agrees as well. */
  lemma IncrementalIsRebuild(s: Index, t: Index, chain: seq<Block>, b: Block, height: int, t0: real, t1: real, t2: real)
    requires Heights(chain) && b.index == height + 1 && height >= -1
    ensures var rebuilt := Rebuild(s, chain, height, t0).0;
            var stepped := UpdateConfirmations(IndexNewBlock(rebuilt, b, height + 1, t1).0, height + 1);
            var again := Rebuild(t, chain + [b], height + 1, t2).0;
            && (Undated(stepped) == Undated(again) <==> (BlocksIndexable(chain) <==> b.hash !in Hashes(ReachedBlocks(chain))))
            && (BlocksIndexable(chain) && AllIndexable(b.transactions) ==>
                  (stepped.(indexedAt := t2) == again <==> b.hash !in Hashes(chain)))
  {
    hide IndexBlocks, IndexBlock, AllIndexable, UpdateConfirmations, BlocksIndexable, Hashes, ReachedBlocks;
    var h := height + 1;
    var core := IndexBlocks(EMPTY, chain, height);
    UnfoldLast(EMPTY, chain, b, h);
    BlocksFrame(EMPTY, chain, height, s.lastHeight, s.indexedAt);
    BlocksFrame(EMPTY, chain + [b], h, t.lastHeight, t.indexedAt);
    var rebuilt := Rebuild(s, chain, height, t0).0;
    var stepped := UpdateConfirmations(IndexNewBlock(rebuilt, b, h, t1).0, h);
    var grown := IndexBlock(core, b, h);
    assert rebuilt == core.(lastHeight := rebuilt.lastHeight, indexedAt := rebuilt.indexedAt);
    BlockFrame(core, b, h, rebuilt.lastHeight, rebuilt.indexedAt);
    BlockCommutes(core, b, h, h);
    BlocksCommute(EMPTY, chain, height, h);
    UpdateFrame(EMPTY, h, 0, 0.0);
    UpdateFrame(core, h, rebuilt.lastHeight, rebuilt.indexedAt);
    var got := IndexNewBlock(rebuilt, b, h, t1).0;
    UpdateFrame(grown, h, got.lastHeight, got.indexedAt);
  }

  lemma UnfoldLast(s: Index, chain: seq<Block>, b: Block, h: int)
    ensures IndexBlocks(s, chain + [b], h) ==
            if BlocksIndexable(chain) then IndexBlock(IndexBlocks(s, chain, h), b, h) else IndexBlocks(s, chain, h)
    ensures ReachedBlocks(chain + [b]) == if BlocksIndexable(chain) then chain + [b] else ReachedBlocks(chain)
    ensures BlocksIndexable(chain) ==> ReachedBlocks(chain) == chain
    ensures BlocksIndexable(chain + [b]) <==> BlocksIndexable(chain) && AllIndexable(b.transactions)
  {
    hide AllIndexable, IndexBlock;
    assert (chain + [b])[..|chain|] == chain;
    assert (chain + [b])[|chain|] == b;
    if BlocksIndexable(chain) { AllBlocksReached(chain); }
    if BlocksIndexable(chain + [b]) {
      forall i | 0 <= i < |chain| ensures AllIndexable(chain[i].transactions) {
        assert (chain + [b])[i] == chain[i];
      }
    }
  }

  lemma UpdateFrame(s: Index, h: int, last: int, at: real)
    ensures s == EMPTY ==> UpdateConfirmations(s, h) == s
    ensures UpdateConfirmations(s, h).totalBlocks == s.totalBlocks
    ensures UpdateConfirmations(s.(lastHeight := last, indexedAt := at), h) ==
            UpdateConfirmations(s, h).(lastHeight := last, indexedAt := at)
  {
  }

  // ---- a block that raises ----

  function IdSet(txs: seq<Tx>): set<string> {
    set i | 0 <= i < |txs| :: txs[i].txId
  }

  /** A raise leaves the block listed with only the transactions before it, and every retry skips the block. */
  lemma RaisedBlockIsSkipped(s: Index, b: Block, h: int, now: real, h': int, now': real) returns (i: nat)
    requires b.hash !in s.blockByHash && !AllIndexable(b.transactions)
    ensures i < |b.transactions| && !Indexable(b.transactions[i])
    ensures var (s1, out) := IndexNewBlock(s, b, h, now);
            && out == None && b.hash in s1.blockByHash
            && s1.txByHash.Keys == s.txByHash.Keys + IdSet(b.transactions[..i])
            && IndexNewBlock(s1, b, h', now') == (s1, Some(0))
  {
    hide Indexable, IndexTxs;
    BlockFrame(s, b, h, 0, 0.0);
    i := FirstUnindexable(b.transactions);
    StopsAt(AddBlock(s, b), b, h - b.index + 1, b.transactions, i);
  }

  lemma {:induction false} FirstUnindexable(txs: seq<Tx>) returns (i: nat)
    requires !AllIndexable(txs)
    ensures i < |txs| && !Indexable(txs[i]) && AllIndexable(txs[..i])
  {
    hide Indexable;
    if AllIndexable(txs[..|txs| - 1]) {
      i := |txs| - 1;
    } else {
      i := FirstUnindexable(txs[..|txs| - 1]);
      assert txs[..|txs| - 1][..i] == txs[..i];
    }
  }

  lemma {:induction false} StopsAt(s: Index, b: Block, c: int, txs: seq<Tx>, i: nat)
    requires i < |txs| && !Indexable(txs[i]) && AllIndexable(txs[..i])
    ensures IndexTxs(s, b, c, txs).txByHash.Keys == s.txByHash.Keys + IdSet(txs[..i])
    decreases |txs|
  {
    hide MoveOutputs, Settle, InfoOf;
    var n := |txs| - 1;
    if i < n {
      assert txs[..n][i] == txs[i] && txs[..n][..i] == txs[..i];
      StopsAt(s, b, c, txs[..n], i);
      assert !AllIndexable(txs[..n]);
    } else {
      RecordedIds(s, b, c, txs[..n]);
    }
  }

  lemma {:induction false} RecordedIds(s: Index, b: Block, c: int, txs: seq<Tx>)
    requires AllIndexable(txs)
    ensures IndexTxs(s, b, c, txs).txByHash.Keys == s.txByHash.Keys + IdSet(txs)
  {
    hide MoveOutputs, Settle, InfoOf;
    if txs != [] {
      var n := |txs| - 1;
      RecordedIds(s, b, c, txs[..n]);
      assert Indexable(txs[n]);
      assert IdSet(txs) == IdSet(txs[..n]) + {txs[n].txId};
    }
  }
}
