/** The explorer's index object: its tables, updated in place by nested loops. */
module ExplorerIndexes {
  import opened Wrappers
  import opened Explorer
  import opened ExplorerLedger

  class BlockchAInIndex {
    var txByHash: map<string, TxInfo>
    var blockByHash: map<string, BlockInfo>
    var blockByHeight: map<int, BlockInfo>
    var addressInfo: map<string, AddressInfo>
    var txsByAddress: map<string, seq<string>>
    var txsByAgent: map<string, seq<string>>
    var addressByAgent: map<string, string>
    var utxoSet: map<Outpoint, Utxo>
    var totalTxs: nat
    var totalBlocks: nat
    var lastIndexedHeight: int
    var indexedAt: real

    ghost function Tables(): Ledger
      reads this
    {
      Ledger(addressInfo, txsByAddress, txsByAgent, addressByAgent, utxoSet)
    }

    ghost function Snapshot(): Index
      reads this
    {
      Index(Tables(), txByHash, blockByHash, blockByHeight, totalTxs, totalBlocks, lastIndexedHeight, indexedAt)
    }

    constructor ()
      ensures Snapshot() == EMPTY
    {
      txByHash, blockByHash, blockByHeight := map[], map[], map[];
      addressInfo, txsByAddress, txsByAgent, addressByAgent, utxoSet := map[], map[], map[], map[], map[];
      totalTxs, totalBlocks, lastIndexedHeight, indexedAt := 0, 0, -1, 0.0;
    }

    /** Pops one spent outpoint and takes its amount from the paid address. */
    method SpendInput(input: TxInput, coinbase: bool)
      modifies this`utxoSet, this`addressInfo
      ensures Tables() == Spend(old(Tables()), coinbase, input)
    {
      var key := Key(input);
      if key in utxoSet {
        var spent := utxoSet[key];
        utxoSet := utxoSet - {key};
        if !coinbase {
          if spent.address in addressInfo {
            var ai := addressInfo[spent.address];
            addressInfo := addressInfo[spent.address :=
              ai.(balance := Max(0, ai.balance - spent.amountSats), sent := ai.sent + spent.amountSats)];
          }
        }
      }
    }

    method SpendInputs(tx: Tx)
      modifies this`utxoSet, this`addressInfo
      ensures Tables() == SpendAll(old(Tables()), tx.isCoinbase, tx.inputs)
    {
      hide Spend;
      ghost var l0 := Tables();
      for i := 0 to |tx.inputs|
        invariant Tables() == SpendAll(l0, tx.isCoinbase, tx.inputs[..i])
      {
        assert tx.inputs[..i + 1][..i] == tx.inputs[..i];
        SpendInput(tx.inputs[i], tx.isCoinbase);
      }
      assert tx.inputs[..|tx.inputs|] == tx.inputs;
    }

    method CreateOutputs(tx: Tx) returns (addresses: seq<string>, totalOut: int)
      modifies this`utxoSet
      ensures Tables() == Create(old(Tables()), tx.txId, tx.outputs)
      ensures addresses == Addresses(tx.outputs) && totalOut == OutputTotal(tx.outputs)
    {
      ghost var l0 := Tables();
      addresses, totalOut := [], 0;
      for i := 0 to |tx.outputs|
        invariant Tables() == Create(l0, tx.txId, tx.outputs[..i])
        invariant addresses == Addresses(tx.outputs)[..i]
        invariant totalOut == OutputTotal(tx.outputs[..i])
      {
        assert tx.outputs[..i + 1][..i] == tx.outputs[..i];
        addresses := addresses + [tx.outputs[i].address];
        totalOut := totalOut + tx.outputs[i].amountSats;
        utxoSet := utxoSet[(tx.txId, i) := Utxo(tx.outputs[i].address, tx.outputs[i].amountSats)];
      }
      assert tx.outputs[..|tx.outputs|] == tx.outputs;
    }

    /** The sum over the inputs; none where an input lacks the attribute and the sum raises. */
    method SumInputs(inputs: seq<TxInput>) returns (total: Option<int>)
      ensures total == InputTotal(inputs)
    {
      var sum := 0;
      for i := 0 to |inputs|
        invariant InputTotal(inputs[..i]) == Some(sum)
      {
        assert inputs[..i + 1][..i] == inputs[..i];
        if inputs[i].amountSats.None? {
          NoTotal(inputs, i + 1);
          return None;
        }
        sum := sum + inputs[i].amountSats.value;
      }
      assert inputs[..|inputs|] == inputs;
      total := Some(sum);
    }

    /** One pass of the transaction loop; raised tells whether the input total raised. */
    method IndexTransaction(tx: Tx, b: Block, confirmations: int) returns (raised: bool)
      modifies this
      ensures Snapshot() == IndexTx(old(Snapshot()), b, confirmations, tx)
      ensures raised <==> !Indexable(tx)
    {
      hide SpendAll, Create, CreditAll, NoteAgent, InputTotal, OutputTotal, Labels, InfoOf;
      SpendInputs(tx);
      var addresses, totalOut := CreateOutputs(tx);
      var totalIn := SumInputs(tx.inputs);
      if totalIn.None? {
        return true;
      }
      raised := false;
      RecordTransaction(tx, b, confirmations, addresses, totalIn.value, totalOut);
      CreditOutputs(tx, addresses);
      RecordAgent(tx, addresses);
    }

    method RecordTransaction(tx: Tx, b: Block, confirmations: int, addresses: seq<string>, totalIn: int, totalOut: int)
      requires addresses == Addresses(tx.outputs) && totalOut == OutputTotal(tx.outputs)
      modifies this`txByHash, this`totalTxs
      ensures txByHash == old(txByHash)[tx.txId := InfoOf(tx, b, confirmations, totalIn)] && totalTxs == old(totalTxs) + 1
    {
      hide Labels, OutputTotal;
      var fee := if tx.isCoinbase then 0 else Max(0, totalIn - totalOut);
      txByHash := txByHash[tx.txId := TxInfo(tx.txId, tx.meta, tx.isCoinbase, tx.agentId, tx.timestamp, b.index, b.hash,
                                             confirmations, Labels(tx.inputs), addresses, totalIn, totalOut, fee)];
      totalTxs := totalTxs + 1;
    }

    method CreditOutput(tx: Tx, addr: string)
      requires tx.outputs != []
      modifies this`txsByAddress, this`addressInfo
      ensures Tables() == Credit(old(Tables()), tx, addr)
    {
      var amount := tx.outputs[|tx.outputs| - 1].amountSats;
      txsByAddress := txsByAddress[addr := (if addr in txsByAddress then txsByAddress[addr] else []) + [tx.txId]];
      var ai := if addr in addressInfo then addressInfo[addr] else AddressInfo(addr, 0, 0, 0, 0, [], 0.0, 0.0, "");
      ai := ai.(balance := ai.balance + amount, received := ai.received + amount, txCount := ai.txCount + 1);
      if tx.txId !in ai.txIds {
        ai := ai.(txIds := ai.txIds + [tx.txId]);
      }
      if ai.firstSeen == 0.0 || tx.timestamp < ai.firstSeen {
        ai := ai.(firstSeen := tx.timestamp);
      }
      if tx.timestamp > ai.lastSeen {
        ai := ai.(lastSeen := tx.timestamp);
      }
      addressInfo := addressInfo[addr := ai];
    }

    method CreditOutputs(tx: Tx, addresses: seq<string>)
      requires addresses == Addresses(tx.outputs)
      modifies this`txsByAddress, this`addressInfo
      ensures Tables() == CreditAll(old(Tables()), tx, addresses)
    {
      hide Credit;
      ghost var l0 := Tables();
      for i := 0 to |addresses|
        invariant Tables() == CreditAll(l0, tx, addresses[..i])
      {
        assert addresses[..i + 1][..i] == addresses[..i];
        CreditOutput(tx, addresses[i]);
      }
      assert addresses[..|addresses|] == addresses;
    }

    method RecordAgent(tx: Tx, addresses: seq<string>)
      requires addresses == Addresses(tx.outputs)
      modifies this`txsByAgent, this`addressByAgent, this`addressInfo
      ensures Tables() == NoteAgent(old(Tables()), tx)
    {
      if tx.agentId != "" {
        txsByAgent := txsByAgent[tx.agentId := (if tx.agentId in txsByAgent then txsByAgent[tx.agentId] else []) + [tx.txId]];
        if tx.agentId !in addressByAgent {
          if addresses != [] {
            var addr := addresses[0];
            addressByAgent := addressByAgent[tx.agentId := addr];
            if addr in addressInfo {
              addressInfo := addressInfo[addr := addressInfo[addr].(agentId := tx.agentId)];
            }
          }
        }
      }
    }

    method ListBlock(b: Block)
      modifies this`blockByHash, this`blockByHeight, this`totalBlocks
      ensures Snapshot() == AddBlock(old(Snapshot()), b)
    {
      hide BlockOutput, Reward, Ids;
      var interval := 0.0;
      if b.index > 0 && b.hash in blockByHash {
      } else if b.index > 0 {
        if b.header.prevHash in blockByHash {
          interval := b.header.timestamp - blockByHash[b.header.prevHash].header.timestamp;
        }
      }
      var total, reward, ids := SumBlock(b.transactions);
      var info := BlockInfo(b.index, b.hash, b.header, b.sizeBytes, ids, total, reward, interval);
      blockByHash := blockByHash[b.hash := info];
      blockByHeight := blockByHeight[b.index := info];
      totalBlocks := totalBlocks + 1;
    }

    method IndexBlockInPlace(b: Block, chainHeight: int) returns (out: Outcome)
      modifies this
      ensures Snapshot() == IndexBlock(old(Snapshot()), b, chainHeight)
      ensures out == if AllIndexable(b.transactions) then Some(|b.transactions|) else None
    {
      hide IndexTx, Indexable, AddBlock;
      var confirmations := chainHeight - b.index + 1;
      ListBlock(b);
      ghost var s0 := Snapshot();
      var indexed := 0;
      for i := 0 to |b.transactions|
        invariant AllIndexable(b.transactions[..i])
        invariant Snapshot() == IndexTxs(s0, b, confirmations, b.transactions[..i])
        invariant indexed == i
      {
        assert b.transactions[..i + 1][..i] == b.transactions[..i];
        var raised := IndexTransaction(b.transactions[i], b, confirmations);
        if raised {
          RaiseStays(s0, b, confirmations, b.transactions, i + 1);
          return None;
        }
        indexed := indexed + 1;
      }
      assert b.transactions[..|b.transactions|] == b.transactions;
      out := Some(indexed);
    }

    method SumBlock(txs: seq<Tx>) returns (total: int, reward: int, ids: seq<string>)
      ensures total == BlockOutput(txs) && reward == Reward(txs) && ids == Ids(txs)
    {
      total, reward, ids := 0, 0, [];
      for i := 0 to |txs|
        invariant total == BlockOutput(txs[..i]) && reward == Reward(txs[..i]) && ids == Ids(txs)[..i]
      {
        assert txs[..i + 1][..i] == txs[..i];
        ids := ids + [txs[i].txId];
        total := total + OutputTotal(txs[i].outputs);
        if txs[i].isCoinbase {
          reward := OutputTotal(txs[i].outputs);
        }
      }
      assert txs[..|txs|] == txs;
    }

    /** The loop over the chain's blocks; done tells whether it ran to the end. */
    method IndexChain(chain: seq<Block>, height: int) returns (done: bool)
      modifies this
      ensures Snapshot() == IndexBlocks(old(Snapshot()), chain, height)
      ensures done <==> BlocksIndexable(chain)
    {
      hide IndexBlock, IndexBlocks, AllIndexable, BlocksIndexable;
      ghost var s0 := Snapshot();
      NoBlocks(s0, height);
      for i := 0 to |chain|
        invariant BlocksIndexable(chain[..i])
        invariant Snapshot() == IndexBlocks(s0, chain[..i], height)
      {
        NextBlock(s0, chain, height, i);
        var indexed := IndexBlockInPlace(chain[i], height);
        if indexed.None? {
          RaiseStaysBlocks(s0, chain, height, i + 1);
          return false;
        }
      }
      assert chain[..|chain|] == chain;
      done := true;
    }

    method Clear()
      modifies this
      ensures Snapshot() == EMPTY.(lastHeight := old(lastIndexedHeight), indexedAt := old(indexedAt))
    {
      txByHash, blockByHash, blockByHeight := map[], map[], map[];
      addressInfo, txsByAddress, txsByAgent, addressByAgent, utxoSet := map[], map[], map[], map[], map[];
      totalTxs, totalBlocks := 0, 0;
    }

    method RebuildAll(chain: seq<Block>, height: int, now: real) returns (out: Outcome)
      modifies this
      ensures (Snapshot(), out) == Rebuild(old(Snapshot()), chain, height, now)
    {
      hide IndexBlocks, BlocksIndexable;
      Clear();
      var done := IndexChain(chain, height);
      if !done {
        return None;
      }
      lastIndexedHeight := height;
      indexedAt := now;
      out := Some(|chain|);
    }

    method IndexNext(b: Block, chainHeight: int, now: real) returns (out: Outcome)
      modifies this
      ensures (Snapshot(), out) == IndexNewBlock(old(Snapshot()), b, chainHeight, now)
    {
      hide IndexBlock;
      if b.hash in blockByHash {
        return Some(0);
      }
      out := IndexBlockInPlace(b, chainHeight);
      if out.Some? {
        if b.index > lastIndexedHeight {
          lastIndexedHeight := b.index;
        }
        indexedAt := now;
      }
    }

    method RefreshConfirmations(currentHeight: int)
      modifies this`txByHash
      ensures Snapshot() == UpdateConfirmations(old(Snapshot()), currentHeight)
    {
      var rest := txByHash.Keys;
      ghost var m := txByHash;
      while rest != {}
        invariant rest <= m.Keys && txByHash.Keys == m.Keys
        invariant forall id :: id in m ==> txByHash[id] == if id in rest then m[id] else Confirmed(m[id], currentHeight)
        decreases |rest|
      {
        var id :| id in rest;
        rest := rest - {id};
        var info := txByHash[id];
        if info.blockHeight >= 0 {
          txByHash := txByHash[id := info.(confirmations := currentHeight - info.blockHeight + 1)];
        }
      }
    }

    /** The unspent outputs of an address, and so the balance the ledger theorems speak of. */
    method GetAddressUtxos(address: string) returns (found: seq<(Outpoint, Utxo)>)
      ensures forall op, v :: (op, v) in found <==> op in utxoSet && utxoSet[op] == v && v.address == address
      ensures SumAmounts(found) == Held(utxoSet, address)
    {
      found := [];
      var rest := utxoSet;
      while rest != map[]
        invariant rest.Keys <= utxoSet.Keys && forall op :: op in rest ==> rest[op] == utxoSet[op]
        invariant forall op, v :: (op, v) in found <==> op in utxoSet && op !in rest && utxoSet[op] == v && v.address == address
        invariant SumAmounts(found) + Held(rest, address) == Held(utxoSet, address)
        decreases |rest|
      {
        var op :| op in rest;
        HeldPick(rest, op, address);
        if rest[op].address == address {
          assert (found + [(op, rest[op])])[..|found|] == found;
          found := found + [(op, rest[op])];
        }
        rest := rest - {op};
      }
    }
  }

  function SumAmounts(found: seq<(Outpoint, Utxo)>): int {
    if found == [] then 0 else SumAmounts(found[..|found| - 1]) + found[|found| - 1].1.amountSats
  }

  lemma {:induction false} NoTotal(inputs: seq<TxInput>, k: nat)
    requires k <= |inputs| && InputTotal(inputs[..k]).None?
    ensures InputTotal(inputs).None?
    decreases |inputs|
  {
    if k == |inputs| {
      assert inputs[..k] == inputs;
    } else {
      assert inputs[..|inputs| - 1][..k] == inputs[..k];
      NoTotal(inputs[..|inputs| - 1], k);
    }
  }

  /** A raise ends the loop over the transactions of a block. */
  lemma {:induction false} RaiseStays(s: Index, b: Block, c: int, txs: seq<Tx>, k: nat)
    requires 0 < k <= |txs| && !Indexable(txs[k - 1])
    ensures IndexTxs(s, b, c, txs) == IndexTxs(s, b, c, txs[..k]) && !AllIndexable(txs)
    decreases |txs|
  {
    hide Indexable, IndexTx;
    if k == |txs| {
      assert txs[..k] == txs;
    } else {
      var front := txs[..|txs| - 1];
      assert front[..k] == txs[..k] && front[k - 1] == txs[k - 1];
      RaiseStays(s, b, c, front, k);
    }
  }

  /** ... and the loop over the blocks of a chain. */
  lemma {:induction false} RaiseStaysBlocks(s: Index, chain: seq<Block>, h: int, k: nat)
    requires 0 < k <= |chain| && !AllIndexable(chain[k - 1].transactions)
    ensures IndexBlocks(s, chain, h) == IndexBlocks(s, chain[..k], h) && !BlocksIndexable(chain)
    decreases |chain|
  {
    hide AllIndexable, IndexBlock;
    if k == |chain| {
      assert chain[..k] == chain;
    } else {
      var front := chain[..|chain| - 1];
      assert front[..k] == chain[..k] && front[k - 1] == chain[k - 1];
      RaiseStaysBlocks(s, front, h, k);
    }
  }

  lemma NoBlocks(s: Index, h: int)
    ensures IndexBlocks(s, [], h) == s && BlocksIndexable([])
  {
  }

  lemma NextBlock(s: Index, chain: seq<Block>, h: int, i: nat)
    requires i < |chain| && BlocksIndexable(chain[..i])
    ensures IndexBlocks(s, chain[..i + 1], h) == IndexBlock(IndexBlocks(s, chain[..i], h), chain[i], h)
    ensures BlocksIndexable(chain[..i + 1]) <==> AllIndexable(chain[i].transactions)
  {
    hide AllIndexable, IndexBlock;
    assert chain[..i + 1][..i] == chain[..i] && chain[..i + 1][i] == chain[i];
    var more := chain[..i + 1];
    forall k | 0 <= k < i ensures AllIndexable(more[k].transactions) {
      assert chain[..i][k] == more[k];
    }
  }
}
