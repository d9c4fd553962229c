/** The explorer's UTXO set and balances, against the history of transactions. */
module ExplorerLedger {
  import opened Explorer

  // ---- the ledger is a fold over the transactions the loops started ----

  /** The ledger after one pass of the transaction loop, raised or not. */
  function Apply(l: Ledger, tx: Tx): Ledger {
    if Indexable(tx) then Settle(l, tx) else MoveOutputs(l, tx)
  }

  function ApplyAll(l: Ledger, txs: seq<Tx>): Ledger {
    if txs == [] then l else Apply(ApplyAll(l, txs[..|txs| - 1]), txs[|txs| - 1])
  }

  /** The transactions a block's loop starts: all of them, or those up to the first that raises. */
  function Reached(txs: seq<Tx>): seq<Tx> {
    if txs == [] then []
    else if AllIndexable(txs[..|txs| - 1]) then txs
    else Reached(txs[..|txs| - 1])
  }

  /** The transactions whose outputs moved, block after block; one that raised is the last of its block. */
  function Moved(blocks: seq<Block>): seq<Tx> {
    if blocks == [] then [] else Moved(blocks[..|blocks| - 1]) + Reached(blocks[|blocks| - 1].transactions)
  }

  lemma {:induction false} ApplyConcat(l: Ledger, a: seq<Tx>, b: seq<Tx>)
    ensures ApplyAll(l, a + b) == ApplyAll(ApplyAll(l, a), b)
  {
    hide Apply;
    if b == [] {
      assert a + b == a;
    } else {
      assert (a + b)[..|a + b| - 1] == a + b[..|b| - 1];
      ApplyConcat(l, a, b[..|b| - 1]);
    }
  }

  lemma {:induction false} ReachedWhole(txs: seq<Tx>)
    requires AllIndexable(txs)
    ensures Reached(txs) == txs
  {
    hide Indexable;
    if txs != [] { assert AllIndexable(txs[..|txs| - 1]); }
  }

  lemma {:induction false} TxsApply(s: Index, b: Block, c: int, txs: seq<Tx>)
    ensures IndexTxs(s, b, c, txs).ledger == ApplyAll(s.ledger, Reached(txs))
  {
    hide Settle, MoveOutputs, InfoOf, AllIndexable;
    if txs != [] {
      var front := txs[..|txs| - 1];
      TxsApply(s, b, c, front);
      if AllIndexable(front) { ReachedWhole(front); }
    }
  }

  lemma BlockApplies(s: Index, b: Block, h: int)
    ensures IndexBlock(s, b, h).ledger == ApplyAll(s.ledger, Reached(b.transactions))
  {
    hide IndexTxs, ApplyAll;
    TxsApply(AddBlock(s, b), b, h - b.index + 1, b.transactions);
  }

  /** Indexing a chain moves what its blocks move, in order, and stops with the block that raises. */
  lemma {:induction false} ChainSettles(s: Index, chain: seq<Block>, h: int)
    ensures IndexBlocks(s, chain, h).ledger == ApplyAll(s.ledger, Moved(ReachedBlocks(chain)))
  {
    hide IndexBlock, AllIndexable, Reached, BlocksIndexable;
    if chain == [] {
      AppliedNothing(s.ledger);
    } else {
      var n := |chain| - 1;
      ChainSettles(s, chain[..n], h);
      if BlocksIndexable(chain[..n]) {
        AllBlocksReached(chain[..n]);
        BlockApplies(IndexBlocks(s, chain[..n], h), chain[n], h);
        ApplyConcat(s.ledger, Moved(chain[..n]), Reached(chain[n].transactions));
      }
    }
  }

  lemma AppliedNothing(l: Ledger)
    ensures ApplyAll(l, []) == l
  {
  }

  // ---- the UTXO set ----

  ghost predicate Spends(inputs: seq<TxInput>, op: Outpoint) {
    exists i :: 0 <= i < |inputs| && Key(inputs[i]) == op
  }

  predicate Creates(txId: string, outputs: seq<TxOutput>, op: Outpoint) {
    op.0 == txId && 0 <= op.1 < |outputs|
  }

  function OutputAt(outputs: seq<TxOutput>, i: int): Utxo
    requires 0 <= i < |outputs|
  {
    Utxo(outputs[i].address, outputs[i].amountSats)
  }

  lemma {:induction false} SpendAllUtxo(l: Ledger, coinbase: bool, inputs: seq<TxInput>)
    ensures var u := SpendAll(l, coinbase, inputs).utxo;
            (forall op :: op in u <==> op in l.utxo && !Spends(inputs, op)) && (forall op :: op in u ==> u[op] == l.utxo[op])
  {
    if inputs != [] {
      var n := |inputs| - 1;
      var front := inputs[..n];
      SpendAllUtxo(l, coinbase, front);
      forall op ensures Spends(inputs, op) <==> Spends(front, op) || Key(inputs[n]) == op {
        if i :| 0 <= i < |front| && Key(front[i]) == op { assert Key(inputs[i]) == op; }
        if i :| 0 <= i < |inputs| && Key(inputs[i]) == op { if i < n { assert Key(front[i]) == op; } }
      }
    }
  }

  lemma {:induction false} CreateUtxo(l: Ledger, txId: string, outputs: seq<TxOutput>)
    ensures var u := Create(l, txId, outputs).utxo;
            && (forall op :: op in u <==> op in l.utxo || Creates(txId, outputs, op))
            && (forall op :: op in u ==> u[op] == if Creates(txId, outputs, op) then OutputAt(outputs, op.1) else l.utxo[op])
    ensures Create(l, txId, outputs).(utxo := l.utxo) == l
  {
    if outputs != [] { CreateUtxo(l, txId, outputs[..|outputs| - 1]); }
  }

  lemma {:induction false} CreditKeepsUtxo(l: Ledger, tx: Tx, addrs: seq<string>)
    ensures CreditAll(l, tx, addrs).utxo == l.utxo
  {
    if addrs != [] { CreditKeepsUtxo(l, tx, addrs[..|addrs| - 1]); }
  }

  /** One transaction removes what it spends and then writes what it creates, whether it raises or not. */
  lemma ApplyUtxo(l: Ledger, tx: Tx)
    ensures var u := Apply(l, tx).utxo;
            && (forall op :: op in u <==> Creates(tx.txId, tx.outputs, op) || (op in l.utxo && !Spends(tx.inputs, op)))
            && (forall op :: op in u ==>
                  u[op] == if Creates(tx.txId, tx.outputs, op) then OutputAt(tx.outputs, op.1) else l.utxo[op])
  {
    hide CreditAll, SpendAll, Create, Spends, Creates, OutputAt, Addresses;
    SpendAllUtxo(l, tx.isCoinbase, tx.inputs);
    CreateUtxo(SpendAll(l, tx.isCoinbase, tx.inputs), tx.txId, tx.outputs);
    CreditKeepsUtxo(MoveOutputs(l, tx), tx, Addresses(tx.outputs));
    NoteKeepsUtxo(CreditAll(MoveOutputs(l, tx), tx, Addresses(tx.outputs)), tx);
    hide NoteAgent;
  }

  /** Transaction p created the outpoint with this content and nothing later spent or rewrote it. */
  ghost predicate UnspentSince(txs: seq<Tx>, p: int, op: Outpoint, v: Utxo) {
    && 0 <= p < |txs|
    && Creates(txs[p].txId, txs[p].outputs, op) && OutputAt(txs[p].outputs, op.1) == v
    && forall q :: p < q < |txs| ==> !Creates(txs[q].txId, txs[q].outputs, op) && !Spends(txs[q].inputs, op)
  }

  ghost predicate Unspent(txs: seq<Tx>, op: Outpoint, v: Utxo) {
    exists p :: UnspentSince(txs, p, op, v)
  }

  lemma UnspentStep(txs: seq<Tx>, op: Outpoint, v: Utxo)
    requires txs != []
    ensures var tx := txs[|txs| - 1];
            Unspent(txs, op, v) <==>
            if Creates(tx.txId, tx.outputs, op) then OutputAt(tx.outputs, op.1) == v
            else Unspent(txs[..|txs| - 1], op, v) && !Spends(tx.inputs, op)
  {
    hide Spends, OutputAt;
    var n := |txs| - 1;
    var front, tx := txs[..n], txs[n];
    if p :| UnspentSince(txs, p, op, v) {
      if p < n { assert UnspentSince(front, p, op, v); }
    }
    if Creates(tx.txId, tx.outputs, op) {
      if OutputAt(tx.outputs, op.1) == v { assert UnspentSince(txs, n, op, v); }
    } else if p :| UnspentSince(front, p, op, v) {
      if !Spends(tx.inputs, op) {
        forall q | p < q < |txs| ensures !Creates(txs[q].txId, txs[q].outputs, op) && !Spends(txs[q].inputs, op) {
          if q < n { assert front[q] == txs[q]; }
        }
        assert UnspentSince(txs, p, op, v);
      }
    }
  }

  /** After any history the UTXO set holds exactly the outputs created and not spent since. */
  lemma {:induction false} UtxoExact(txs: seq<Tx>)
    ensures var u := ApplyAll(EMPTY.ledger, txs).utxo;
            forall op, v :: op in u && u[op] == v <==> Unspent(txs, op, v)
  {
    hide Apply, Spends;
    var u := ApplyAll(EMPTY.ledger, txs).utxo;
    if txs != [] {
      var n := |txs| - 1;
      UtxoExact(txs[..n]);
      ApplyUtxo(ApplyAll(EMPTY.ledger, txs[..n]), txs[n]);
      forall op, v ensures op in u && u[op] == v <==> Unspent(txs, op, v) {
        UnspentStep(txs, op, v);
      }
    }
  }

  // ---- balances ----

  /** The sum of an address's unspent outputs. */
  ghost function Held(u: map<Outpoint, Utxo>, addr: string): int {
    if u == map[] then 0
    else
      var op :| op in u;
      Share(u[op], addr) + Held(u - {op}, addr)
  }

  function Share(v: Utxo, addr: string): int { if v.address == addr then v.amountSats else 0 }

  lemma {:induction false} HeldPick(u: map<Outpoint, Utxo>, op: Outpoint, addr: string)
    requires op in u
    ensures Held(u, addr) == Share(u[op], addr) + Held(u - {op}, addr)
    decreases |u|
  {
    var o :| o in u && Held(u, addr) == Share(u[o], addr) + Held(u - {o}, addr);
    if o != op {
      HeldPick(u - {o}, op, addr);
      HeldPick(u - {op}, o, addr);
      assert u - {o} - {op} == u - {op} - {o};
    }
  }

  lemma HeldPut(u: map<Outpoint, Utxo>, op: Outpoint, v: Utxo, addr: string)
    requires op !in u
    ensures Held(u[op := v], addr) == Held(u, addr) + Share(v, addr)
  {
    HeldPick(u[op := v], op, addr);
    assert u[op := v] - {op} == u;
  }

  ghost predicate NonNegative(u: map<Outpoint, Utxo>) {
    forall op :: op in u ==> u[op].amountSats >= 0
  }

  lemma {:induction false} HeldNonNegative(u: map<Outpoint, Utxo>, addr: string)
    requires NonNegative(u)
    ensures Held(u, addr) >= 0
    decreases |u|
  {
    if u != map[] {
      var op :| op in u;
      HeldPick(u, op, addr);
      HeldNonNegative(u - {op}, addr);
    }
  }

  function Balance(l: Ledger, addr: string): int {
    if addr in l.addressInfo then l.addressInfo[addr].balance else 0
  }

  /** Every balance is the sum of the address's unspent outputs. */
  ghost predicate Balanced(l: Ledger) {
    forall addr: string :: Balance(l, addr) == Held(l.utxo, addr)
  }

  /** Spending a live output: the clamp at zero never acts. */
  lemma SpendBalanced(l: Ledger, i: TxInput)
    requires Balanced(l) && NonNegative(l.utxo)
    ensures Balanced(Spend(l, false, i)) && NonNegative(Spend(l, false, i).utxo)
    ensures Key(i) in l.utxo ==> Balance(l, l.utxo[Key(i)].address) - l.utxo[Key(i)].amountSats >= 0
  {
    if Key(i) in l.utxo {
      var u := l.utxo[Key(i)];
      HeldPick(l.utxo, Key(i), u.address);
      HeldNonNegative(l.utxo - {Key(i)}, u.address);
      assert Balance(l, u.address) == Held(l.utxo, u.address);
      forall addr: string ensures Balance(Spend(l, false, i), addr) == Held(l.utxo - {Key(i)}, addr) {
        HeldPick(l.utxo, Key(i), addr);
        assert Balance(l, addr) == Held(l.utxo, addr);
      }
    }
  }

  lemma {:induction false} SpendAllBalanced(l: Ledger, coinbase: bool, inputs: seq<TxInput>)
    requires Balanced(l) && NonNegative(l.utxo)
    requires coinbase ==> forall i :: 0 <= i < |inputs| ==> Key(inputs[i]) !in l.utxo
    ensures Balanced(SpendAll(l, coinbase, inputs)) && NonNegative(SpendAll(l, coinbase, inputs).utxo)
    ensures coinbase ==> SpendAll(l, coinbase, inputs) == l
  {
    hide Balanced, NonNegative;
    if inputs != [] {
      var n := |inputs| - 1;
      SpendAllBalanced(l, coinbase, inputs[..n]);
      if !coinbase { SpendBalanced(SpendAll(l, false, inputs[..n]), inputs[n]); }
    }
  }

  /** What the outputs pay to an address. */
  function Paid(outputs: seq<TxOutput>, addr: string): int {
    if outputs == [] then 0
    else Paid(outputs[..|outputs| - 1], addr) + Share(OutputAt(outputs, |outputs| - 1), addr)
  }

  function Count(addrs: seq<string>, addr: string): nat {
    if addrs == [] then 0
    else Count(addrs[..|addrs| - 1], addr) + if addrs[|addrs| - 1] == addr then 1 else 0
  }

  ghost predicate NewId(l: Ledger, txId: string) {
    forall op :: op in l.utxo ==> op.0 != txId
  }

  lemma {:induction false} CreateHeld(l: Ledger, txId: string, outputs: seq<TxOutput>, addr: string)
    requires NewId(l, txId)
    ensures Held(Create(l, txId, outputs).utxo, addr) == Held(l.utxo, addr) + Paid(outputs, addr)
  {
    if outputs != [] {
      var n := |outputs| - 1;
      CreateHeld(l, txId, outputs[..n], addr);
      CreateUtxo(l, txId, outputs[..n]);
      assert (txId, n) !in Create(l, txId, outputs[..n]).utxo;
      HeldPut(Create(l, txId, outputs[..n]).utxo, (txId, n), OutputAt(outputs, n), addr);
    }
  }

  lemma {:induction false} CreditBalance(l: Ledger, tx: Tx, addrs: seq<string>, addr: string)
    ensures Balance(CreditAll(l, tx, addrs), addr) == Balance(l, addr) + Count(addrs, addr) * LastAmount(tx)
  {
    hide LastAmount, Credit, Balance;
    if addrs != [] {
      var n := |addrs| - 1;
      CreditBalance(l, tx, addrs[..n], addr);
      CreditOne(CreditAll(l, tx, addrs[..n]), tx, addrs[n], addr);
      Distribute(Count(addrs[..n], addr), if addrs[n] == addr then 1 else 0, LastAmount(tx));
    }
  }

  lemma CreditOne(l: Ledger, tx: Tx, paid: string, addr: string)
    ensures Balance(Credit(l, tx, paid), addr) == Balance(l, addr) + if paid == addr then LastAmount(tx) else 0
  {
    hide LastAmount;
  }

  lemma Distribute(a: int, b: int, c: int)
    ensures (a + b) * c == a * c + b * c
  {
  }

  lemma NoteKeepsBalance(l: Ledger, tx: Tx, addr: string)
    ensures Balance(NoteAgent(l, tx), addr) == Balance(l, addr)
  {
  }

  /** For every address, the last output's amount credited once per output is what the outputs pay it. */
  ghost predicate CreditsExact(tx: Tx) {
    forall addr: string :: Count(Addresses(tx.outputs), addr) * LastAmount(tx) == Paid(tx.outputs, addr)
  }

  /** What a well-behaved transaction looks like to a ledger. */
  ghost predicate Benign(l: Ledger, tx: Tx) {
    && NewId(l, tx.txId)
    && (forall i :: 0 <= i < |tx.outputs| ==> tx.outputs[i].amountSats >= 0)
    && (tx.isCoinbase ==> forall i :: 0 <= i < |tx.inputs| ==> Key(tx.inputs[i]) !in l.utxo)
  }

  ghost predicate PaysNothing(tx: Tx) {
    forall i :: 0 <= i < |tx.outputs| ==> tx.outputs[i].amountSats == 0
  }

  /** The credits are exact; where the fee line raises before any credit, nothing was paid. */
  ghost predicate KeepsBalances(tx: Tx) {
    if Indexable(tx) then CreditsExact(tx) else PaysNothing(tx)
  }

  lemma MoveHeld(l: Ledger, tx: Tx, addr: string)
    requires Balanced(l) && NonNegative(l.utxo) && Benign(l, tx)
    ensures Balance(MoveOutputs(l, tx), addr) == Held(MoveOutputs(l, tx).utxo, addr) - Paid(tx.outputs, addr)
  {
    hide SpendAll, Create, Paid;
    var l1 := SpendAll(l, tx.isCoinbase, tx.inputs);
    SpendAllBalanced(l, tx.isCoinbase, tx.inputs);
    SpendAllUtxo(l, tx.isCoinbase, tx.inputs);
    CreateUtxo(l1, tx.txId, tx.outputs);
    CreateHeld(l1, tx.txId, tx.outputs, addr);
    assert Balance(l1, addr) == Held(l1.utxo, addr);
  }

  lemma ApplyNonNegative(l: Ledger, tx: Tx)
    requires NonNegative(l.utxo) && Benign(l, tx)
    ensures NonNegative(Apply(l, tx).utxo)
  {
    hide Apply, Spends;
    ApplyUtxo(l, tx);
  }

  /** A new transaction that does not raise keeps every balance right exactly when its credits are exact. */
  lemma SettleBalancedIff(l: Ledger, tx: Tx)
    requires Balanced(l) && NonNegative(l.utxo) && Benign(l, tx)
    ensures NonNegative(Settle(l, tx).utxo)
    ensures Balanced(Settle(l, tx)) <==> CreditsExact(tx)
  {
    ApplyNonNegative(l, tx);
    hide MoveOutputs, CreditAll, NoteAgent, Count, Paid, LastAmount;
    var l2 := MoveOutputs(l, tx);
    var l3 := CreditAll(l2, tx, Addresses(tx.outputs));
    CreditKeepsUtxo(l2, tx, Addresses(tx.outputs));
    NoteKeepsUtxo(l3, tx);
    forall addr: string
      ensures Balance(Settle(l, tx), addr) - Held(Settle(l, tx).utxo, addr) ==
              Count(Addresses(tx.outputs), addr) * LastAmount(tx) - Paid(tx.outputs, addr)
    {
      MoveHeld(l, tx, addr);
      CreditBalance(l2, tx, Addresses(tx.outputs), addr);
      NoteKeepsBalance(l3, tx, addr);
    }
  }

  lemma {:induction false} PaidAtLeast(outputs: seq<TxOutput>, i: nat)
    requires i < |outputs| && forall j :: 0 <= j < |outputs| ==> outputs[j].amountSats >= 0
    ensures Paid(outputs, outputs[i].address) >= outputs[i].amountSats
  {
    var n := |outputs| - 1;
    if i < n {
      PaidAtLeast(outputs[..n], i);
    } else {
      PaidNonNegative(outputs[..n], outputs[i].address);
    }
  }

  lemma {:induction false} PaidNonNegative(outputs: seq<TxOutput>, addr: string)
    requires forall j :: 0 <= j < |outputs| ==> outputs[j].amountSats >= 0
    ensures Paid(outputs, addr) >= 0
    ensures (forall j :: 0 <= j < |outputs| ==> outputs[j].amountSats == 0) ==> Paid(outputs, addr) == 0
  {
    if outputs != [] { PaidNonNegative(outputs[..|outputs| - 1], addr); }
  }

  lemma MoveBalancedIff(l: Ledger, tx: Tx)
    requires Balanced(l) && NonNegative(l.utxo) && Benign(l, tx)
    ensures Balanced(MoveOutputs(l, tx)) <==> PaysNothing(tx)
  {
    hide MoveOutputs, Paid, Held, Balance;
    forall addr: string
      ensures Balance(MoveOutputs(l, tx), addr) == Held(MoveOutputs(l, tx).utxo, addr) <==> Paid(tx.outputs, addr) == 0
    {
      MoveHeld(l, tx, addr);
    }
    if PaysNothing(tx) {
      forall addr: string ensures Paid(tx.outputs, addr) == 0 { PaidNonNegative(tx.outputs, addr); }
    } else {
      var i :| 0 <= i < |tx.outputs| && tx.outputs[i].amountSats != 0;
      PaidAtLeast(tx.outputs, i);
      assert Paid(tx.outputs, tx.outputs[i].address) != 0;
    }
  }

  /** Indexing a new transaction keeps every balance right exactly when it keeps balances in that sense. */
  lemma IndexTxBalancedIff(s: Index, b: Block, c: int, tx: Tx)
    requires Balanced(s.ledger) && NonNegative(s.ledger.utxo) && Benign(s.ledger, tx)
    ensures IndexTx(s, b, c, tx).ledger == Apply(s.ledger, tx)
    ensures NonNegative(IndexTx(s, b, c, tx).ledger.utxo)
    ensures Balanced(IndexTx(s, b, c, tx).ledger) <==> KeepsBalances(tx)
  {
    hide Settle, MoveOutputs, KeepsBalances, Balanced, Benign, NonNegative, InfoOf;
    ApplyBalancedIff(s.ledger, tx);
  }

  /** The repository's own inputs have no amount: a transaction that spends keeps balances only by paying nothing. */
  lemma PlainInputs(tx: Tx)
    requires forall i :: 0 <= i < |tx.inputs| ==> tx.inputs[i].amountSats.None?
    ensures KeepsBalances(tx) <==> if tx.inputs == [] then CreditsExact(tx) else PaysNothing(tx)
  {
    hide CreditsExact, PaysNothing;
  }

  lemma NoteKeepsUtxo(l: Ledger, tx: Tx)
    ensures NoteAgent(l, tx).utxo == l.utxo
  {
  }

  /** Outputs of one amount are credited exactly; a single output is the plainest case. */
  lemma EqualOutputsExact(tx: Tx)
    requires forall i, j :: 0 <= i < |tx.outputs| && 0 <= j < |tx.outputs| ==> tx.outputs[i].amountSats == tx.outputs[j].amountSats
    ensures CreditsExact(tx)
  {
    forall addr: string ensures Count(Addresses(tx.outputs), addr) * LastAmount(tx) == Paid(tx.outputs, addr) {
      EqualPaid(tx.outputs, LastAmount(tx), addr);
    }
  }

  lemma {:induction false} EqualPaid(outputs: seq<TxOutput>, a: int, addr: string)
    requires forall i :: 0 <= i < |outputs| ==> outputs[i].amountSats == a
    ensures Count(Addresses(outputs), addr) * a == Paid(outputs, addr)
  {
    if outputs != [] {
      var n := |outputs| - 1;
      EqualPaid(outputs[..n], a, addr);
      assert Addresses(outputs)[..n] == Addresses(outputs[..n]);
      Distribute(Count(Addresses(outputs[..n]), addr), if outputs[n].address == addr then 1 else 0, a);
    }
  }

  /** Paying two addresses different amounts is credited wrongly. */
  lemma UnequalOutputsMiscredited(tx: Tx, a: string, b: string, x: int, y: int)
    requires a != b && x != y && tx.outputs == [TxOutput(a, x), TxOutput(b, y)]
    ensures !CreditsExact(tx)
  {
    var addrs := Addresses(tx.outputs);
    assert tx.outputs[..1] == [TxOutput(a, x)] && tx.outputs[..1][..0] == [];
    assert addrs[..1] == [a] && [a][..0] == [];
    assert Count([], a) == 0 && Count([a], a) == 1 && addrs[1] == b;
    assert Count(addrs, a) == Count(addrs[..1], a) == 1;
    assert Paid([], a) == 0;
    assert Paid([TxOutput(a, x)], a) == Share(OutputAt([TxOutput(a, x)], 0), a) == x;
    assert Paid(tx.outputs, a) == Paid(tx.outputs[..1], a) + Share(OutputAt(tx.outputs, 1), a) == x;
  }

  /** What a balance claim needs of a history: new ids, no negative amounts, coinbases that spend nothing live. */
  ghost predicate Orderly(txs: seq<Tx>) {
    && (forall p, q :: 0 <= p < q < |txs| ==> txs[p].txId != txs[q].txId)
    && (forall p, i :: 0 <= p < |txs| && 0 <= i < |txs[p].outputs| ==> txs[p].outputs[i].amountSats >= 0)
    && (forall p, i :: 0 <= p < |txs| && 0 <= i < |txs[p].inputs| && txs[p].isCoinbase ==>
          Key(txs[p].inputs[i]) !in ApplyAll(EMPTY.ledger, txs[..p]).utxo)
  }

  /** Every balance was right after each of the first transactions of the history. */
  ghost predicate BalancedThroughout(txs: seq<Tx>) {
    forall k :: 0 <= k <= |txs| ==> Balanced(ApplyAll(EMPTY.ledger, txs[..k]))
  }

  /** What an orderly history leaves is non-negative, and suits its next transaction. */
  lemma OrderlyStep(txs: seq<Tx>, n: nat)
    requires Orderly(txs) && n <= |txs|
    ensures NonNegative(ApplyAll(EMPTY.ledger, txs[..n]).utxo)
    ensures n < |txs| ==> Benign(ApplyAll(EMPTY.ledger, txs[..n]), txs[n])
  {
    hide ApplyAll;
    var l := ApplyAll(EMPTY.ledger, txs[..n]);
    UtxoExact(txs[..n]);
    forall op | op in l.utxo ensures l.utxo[op].amountSats >= 0 && (n < |txs| ==> op.0 != txs[n].txId) {
      assert Unspent(txs[..n], op, l.utxo[op]);
      var p :| UnspentSince(txs[..n], p, op, l.utxo[op]);
      assert txs[..n][p] == txs[p];
    }
  }

  /** Over an orderly history every balance is the sum of the address's unspent outputs all the way
      if and only if each transaction keeps balances. */
  lemma BalancesExactIff(txs: seq<Tx>)
    requires Orderly(txs)
    ensures BalancedThroughout(txs) <==> forall p :: 0 <= p < |txs| ==> KeepsBalances(txs[p])
  {
    hide KeepsBalances, Apply, Orderly, Benign;
    if forall p :: 0 <= p < |txs| ==> KeepsBalances(txs[p]) {
      forall k | 0 <= k <= |txs| ensures Balanced(ApplyAll(EMPTY.ledger, txs[..k])) {
        BalancesExact(txs, k);
      }
    }
    if BalancedThroughout(txs) {
      forall p | 0 <= p < |txs| ensures KeepsBalances(txs[p]) {
        OrderlyStep(txs, p);
        assert Balanced(ApplyAll(EMPTY.ledger, txs[..p])) && Balanced(ApplyAll(EMPTY.ledger, txs[..p + 1]));
        ApplyLast(txs, p);
        ApplyBalancedIff(ApplyAll(EMPTY.ledger, txs[..p]), txs[p]);
      }
    }
  }

  lemma {:induction false} BalancesExact(txs: seq<Tx>, k: nat)
    requires Orderly(txs) && k <= |txs| && forall p :: 0 <= p < |txs| ==> KeepsBalances(txs[p])
    ensures Balanced(ApplyAll(EMPTY.ledger, txs[..k]))
  {
    hide KeepsBalances, Apply, Orderly, Benign;
    if k == 0 {
      assert Balanced(EMPTY.ledger);
    } else {
      BalancesExact(txs, k - 1);
      OrderlyStep(txs, k - 1);
      ApplyLast(txs, k - 1);
      ApplyBalancedIff(ApplyAll(EMPTY.ledger, txs[..k - 1]), txs[k - 1]);
    }
  }

  lemma ApplyLast(txs: seq<Tx>, p: nat)
    requires p < |txs|
    ensures ApplyAll(EMPTY.ledger, txs[..p + 1]) == Apply(ApplyAll(EMPTY.ledger, txs[..p]), txs[p])
  {
    hide Apply;
    assert txs[..p + 1][..p] == txs[..p];
  }

  lemma ApplyBalancedIff(l: Ledger, tx: Tx)
    requires Balanced(l) && NonNegative(l.utxo) && Benign(l, tx)
    ensures Balanced(Apply(l, tx)) <==> KeepsBalances(tx)
    ensures NonNegative(Apply(l, tx).utxo)
  {
    ApplyNonNegative(l, tx);
    hide Settle, MoveOutputs, CreditsExact, PaysNothing, Balanced, Benign, NonNegative;
    if Indexable(tx) { SettleBalancedIff(l, tx); } else { MoveBalancedIff(l, tx); }
  }
}
