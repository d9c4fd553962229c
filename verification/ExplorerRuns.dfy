/** Whole runs of the index: rebuilds, new blocks and confirmation updates in any order, raises included. */
module ExplorerRuns {
  import opened Wrappers
  import opened Explorer
  import opened ExplorerLedger

  datatype IndexOp =
    | RebuildOp(chain: seq<Block>, height: int, now: real)
    | NewBlockOp(block: Block, height: int, now: real)
    | ConfirmOp(height: int)

  function Step(s: Index, op: IndexOp): Index {
    match op
    case RebuildOp(chain, height, now) => Rebuild(s, chain, height, now).0
    case NewBlockOp(b, height, now) => IndexNewBlock(s, b, height, now).0
    case ConfirmOp(height) => UpdateConfirmations(s, height)
  }

  /** A run from the new index. */
  function Run(ops: seq<IndexOp>): Index {
    if ops == [] then EMPTY else Step(Run(ops[..|ops| - 1]), ops[|ops| - 1])
  }

  /** The blocks the index has started since the last rebuild, told from the operations alone. */
  function Started(ops: seq<IndexOp>): seq<Block> {
    if ops == [] then []
    else
      var before := Started(ops[..|ops| - 1]);
      match ops[|ops| - 1]
      case RebuildOp(chain, _, _) => ReachedBlocks(chain)
      case NewBlockOp(b, _, _) => if b.hash in Hashes(before) then before else before + [b]
      case ConfirmOp(_) => before
  }

  /** The transactions whose outputs have moved since the last rebuild, in order. */
  function History(ops: seq<IndexOp>): seq<Tx> {
    Moved(Started(ops))
  }

  lemma HashesSnoc(blocks: seq<Block>, b: Block)
    ensures Hashes(blocks + [b]) == Hashes(blocks) + {b.hash}
    ensures Moved(blocks + [b]) == Moved(blocks) + Reached(b.transactions)
  {
    hide Reached;
    assert (blocks + [b])[..|blocks|] == blocks;
    HashesExtend(blocks + [b]);
  }

  /** The index lists exactly the blocks it started, and its ledger is that of the history. */
  lemma {:induction false} RunFollowsHistory(ops: seq<IndexOp>)
    ensures Run(ops).blockByHash.Keys == Hashes(Started(ops))
    ensures Run(ops).ledger == ApplyAll(EMPTY.ledger, History(ops))
  {
    hide IndexBlocks, IndexBlock, ApplyAll, Hashes, Moved, Reached, ReachedBlocks, AllIndexable, BlocksIndexable;
    if ops == [] {
      EmptyRun();
    } else {
      var front, op := ops[..|ops| - 1], ops[|ops| - 1];
      RunFollowsHistory(front);
      var s := Run(front);
      match op
      case RebuildOp(chain, height, _) =>
        var cleared := EMPTY.(lastHeight := s.lastHeight, indexedAt := s.indexedAt);
        ChainSettles(cleared, chain, height);
        BlocksFrame(cleared, chain, height, 0, 0.0);
        assert {} + Hashes(ReachedBlocks(chain)) == Hashes(ReachedBlocks(chain));
      case NewBlockOp(b, height, _) =>
        HashesSnoc(Started(front), b);
        BlockApplies(s, b, height);
        BlockFrame(s, b, height, 0, 0.0);
        ApplyConcat(EMPTY.ledger, History(front), Reached(b.transactions));
      case ConfirmOp(_) =>
    }
  }

  lemma EmptyRun()
    ensures Hashes([]) == {} && Moved([]) == [] && ApplyAll(EMPTY.ledger, []) == EMPTY.ledger
  {
  }

  /** After every run the UTXO set is exactly the outputs created and not spent since, in the history since the last rebuild. */
  lemma RunUtxoExact(ops: seq<IndexOp>, op: Outpoint, v: Utxo)
    ensures op in Run(ops).ledger.utxo && Run(ops).ledger.utxo[op] == v <==> Unspent(History(ops), op, v)
  {
    hide Run, Unspent, History;
    RunFollowsHistory(ops);
    UtxoExact(History(ops));
  }

  /** Over every run with an orderly history, balances were right after each transaction if and only if each keeps them. */
  lemma RunBalancesIff(ops: seq<IndexOp>)
    requires Orderly(History(ops))
    ensures BalancedThroughout(History(ops)) <==> forall p :: 0 <= p < |History(ops)| ==> KeepsBalances(History(ops)[p])
    ensures BalancedThroughout(History(ops)) ==> Balanced(Run(ops).ledger)
  {
    hide Run, History, Orderly, KeepsBalances, Balanced;
    RunFollowsHistory(ops);
    var h := History(ops);
    BalancesExactIff(h);
    assert h[..|h|] == h;
  }

  /** A block the index lists already changes nothing more, whatever happened when it was first started. */
  lemma KnownBlockIgnored(ops: seq<IndexOp>, b: Block, height: int, now: real)
    ensures b.hash in Hashes(Started(ops)) <==> IndexNewBlock(Run(ops), b, height, now).1 == Some(0) && Run(ops + [NewBlockOp(b, height, now)]) == Run(ops)
  {
    hide Hashes, Started, IndexBlock, AllIndexable;
    RunFollowsHistory(ops);
    var longer := ops + [NewBlockOp(b, height, now)];
    assert longer[..|ops|] == ops;
    BlockFrame(Run(ops), b, height, 0, 0.0);
  }
}
