/** The explorer's address and agent tables, told from the history of transactions over whole runs. */
module ExplorerTables {
  import opened Wrappers
  import opened Explorer
  import opened ExplorerLedger
  import opened ExplorerRuns

  // ---- addresses ----

  function Times(tx: Tx, n: nat): (r: seq<Tx>)
    ensures |r| == n && forall i :: 0 <= i < n ==> r[i] == tx
  {
    if n == 0 then [] else Times(tx, n - 1) + [tx]
  }

  /** The transactions that paid an address and did not raise, in order, once for each output paying it. */
  function Touches(txs: seq<Tx>, addr: string): seq<Tx> {
    if txs == [] then []
    else
      var tx := txs[|txs| - 1];
      Touches(txs[..|txs| - 1], addr) + if Indexable(tx) then Times(tx, Count(Addresses(tx.outputs), addr)) else []
  }

  /** What the credit loop adds for a touch: the amount of the transaction's last output. */
  function ReceivedFrom(touches: seq<Tx>): int {
    if touches == [] then 0
    else
      var outputs := touches[|touches| - 1].outputs;
      ReceivedFrom(touches[..|touches| - 1]) + if outputs == [] then 0 else outputs[|outputs| - 1].amountSats
  }

  /** Each id once, where it first appears. */
  function Firsts(ids: seq<string>): seq<string> {
    if ids == [] then []
    else
      var rest, id := Firsts(ids[..|ids| - 1]), ids[|ids| - 1];
      if id in ids[..|ids| - 1] then rest else rest + [id]
  }

  function FirstSeen(touches: seq<Tx>): real {
    if touches == [] then 0.0
    else
      var at, t := FirstSeen(touches[..|touches| - 1]), touches[|touches| - 1].timestamp;
      if at == 0.0 || t < at then t else at
  }

  function LastSeen(touches: seq<Tx>): real {
    if touches == [] then 0.0
    else
      var at, t := LastSeen(touches[..|touches| - 1]), touches[|touches| - 1].timestamp;
      if t > at then t else at
  }

  /** What the two address tables say of an address, but for its balance, what it sent and its agent. */
  ghost predicate Told(l: Ledger, addr: string, touches: seq<Tx>) {
    if touches == [] then addr !in l.txsByAddress && addr !in l.addressInfo
    else
      && addr in l.txsByAddress && l.txsByAddress[addr] == Ids(touches)
      && addr in l.addressInfo
      && var ai := l.addressInfo[addr];
         && ai.address == addr
         && ai.received == ReceivedFrom(touches)
         && ai.txCount == |touches|
         && ai.txIds == Firsts(Ids(touches))
         && ai.firstSeen == FirstSeen(touches)
         && ai.lastSeen == LastSeen(touches)
  }

  /** The ledgers differ in UTXO sets, balances and sums sent alone. */
  ghost predicate SameTables(l: Ledger, m: Ledger) {
    && m.txsByAddress == l.txsByAddress && m.txsByAgent == l.txsByAgent && m.addressByAgent == l.addressByAgent
    && m.addressInfo.Keys == l.addressInfo.Keys
    && forall a :: a in m.addressInfo ==>
         m.addressInfo[a] == l.addressInfo[a].(balance := m.addressInfo[a].balance, sent := m.addressInfo[a].sent)
  }

  lemma {:induction false} SpendKeepsTables(l: Ledger, coinbase: bool, inputs: seq<TxInput>)
    ensures SameTables(l, SpendAll(l, coinbase, inputs))
  {
    if inputs != [] { SpendKeepsTables(l, coinbase, inputs[..|inputs| - 1]); }
  }

  lemma MoveKeepsTables(l: Ledger, tx: Tx)
    ensures SameTables(l, MoveOutputs(l, tx))
  {
    SpendKeepsTables(l, tx.isCoinbase, tx.inputs);
    hide SpendAll, Create;
    CreateUtxo(SpendAll(l, tx.isCoinbase, tx.inputs), tx.txId, tx.outputs);
  }

  lemma {:induction false} FirstsMembers(ids: seq<string>)
    ensures forall id :: id in Firsts(ids) <==> id in ids
  {
    if ids != [] {
      FirstsMembers(ids[..|ids| - 1]);
      assert ids == ids[..|ids| - 1] + [ids[|ids| - 1]];
    }
  }

  lemma CreditTells(l: Ledger, tx: Tx, a: string, addr: string, touches: seq<Tx>)
    requires Told(l, addr, touches)
    ensures Told(Credit(l, tx, a), addr, if a == addr then touches + [tx] else touches)
  {
    TouchSnoc(touches, tx);
    hide ReceivedFrom, Firsts, FirstSeen, LastSeen, Ids, LastAmount;
  }

  lemma TouchSnoc(touches: seq<Tx>, tx: Tx)
    ensures touches == [] ==> Ids(touches) == [] && Firsts(Ids(touches)) == []
    ensures touches == [] ==> ReceivedFrom(touches) == 0 && FirstSeen(touches) == 0.0 && LastSeen(touches) == 0.0
    ensures Ids(touches + [tx]) == Ids(touches) + [tx.txId]
    ensures var ids := Firsts(Ids(touches));
            Firsts(Ids(touches + [tx])) == if tx.txId in ids then ids else ids + [tx.txId]
    ensures ReceivedFrom(touches + [tx]) == ReceivedFrom(touches) + LastAmount(tx)
    ensures FirstSeen(touches + [tx]) ==
            if FirstSeen(touches) == 0.0 || tx.timestamp < FirstSeen(touches) then tx.timestamp else FirstSeen(touches)
    ensures LastSeen(touches + [tx]) == if tx.timestamp > LastSeen(touches) then tx.timestamp else LastSeen(touches)
  {
    var longer := touches + [tx];
    assert longer[..|touches|] == touches;
    assert Ids(longer) == Ids(touches) + [tx.txId];
    assert Ids(longer)[..|touches|] == Ids(touches);
    FirstsMembers(Ids(touches));
    assert touches == [] ==> Ids(touches) == [];
  }

  lemma {:induction false} CreditAllTells(l: Ledger, tx: Tx, addrs: seq<string>, addr: string, touches: seq<Tx>)
    requires Told(l, addr, touches)
    ensures Told(CreditAll(l, tx, addrs), addr, touches + Times(tx, Count(addrs, addr)))
  {
    hide Told, Credit;
    if addrs == [] {
      assert touches + Times(tx, 0) == touches;
    } else {
      var n := |addrs| - 1;
      CreditAllTells(l, tx, addrs[..n], addr, touches);
      var before := touches + Times(tx, Count(addrs[..n], addr));
      CreditTells(CreditAll(l, tx, addrs[..n]), tx, addrs[n], addr, before);
      if addrs[n] == addr { assert before + [tx] == touches + Times(tx, Count(addrs, addr)); }
    }
  }

  lemma ApplyTells(l: Ledger, tx: Tx, addr: string, touches: seq<Tx>)
    requires Told(l, addr, touches)
    ensures Told(Apply(l, tx), addr, touches + if Indexable(tx) then Times(tx, Count(Addresses(tx.outputs), addr)) else [])
  {
    hide MoveOutputs, CreditAll, Times, Count, Addresses, FirstSeen, LastSeen, ReceivedFrom, Firsts, Ids;
    MoveKeepsTables(l, tx);
    assert touches + [] == touches;
    CreditAllTells(MoveOutputs(l, tx), tx, Addresses(tx.outputs), addr, touches);
  }

  /** After any history the address tables tell of each address exactly the transactions that paid it and did not raise. */
  lemma {:induction false} AddressesTold(txs: seq<Tx>, addr: string)
    ensures Told(ApplyAll(EMPTY.ledger, txs), addr, Touches(txs, addr))
  {
    if txs != [] {
      hide Told, Apply;
      AddressesTold(txs[..|txs| - 1], addr);
      ApplyTells(ApplyAll(EMPTY.ledger, txs[..|txs| - 1]), txs[|txs| - 1], addr, Touches(txs[..|txs| - 1], addr));
    }
  }

  /** Over every run, an address's list holds the ids of the transactions of the history that paid it and did not raise, in order,
      once for each output paying it, and there is a list exactly when one did. */
  lemma RunListsAddress(ops: seq<IndexOp>, addr: string)
    ensures var l, touches := Run(ops).ledger, Touches(History(ops), addr);
            && (addr in l.txsByAddress <==> touches != [])
            && (addr in l.txsByAddress ==> l.txsByAddress[addr] == Ids(touches))
            && Told(l, addr, touches)
  {
    RunFollowsHistory(ops);
    hide Run, History, Touches, Ids;
    AddressesTold(History(ops), addr);
  }

  ghost predicate Earliest(t: real, touches: seq<Tx>) {
    && (exists i :: 0 <= i < |touches| && touches[i].timestamp == t)
    && (forall i :: 0 <= i < |touches| ==> t <= touches[i].timestamp)
  }

  /** The zero that stands for "never" is also a timestamp: a first sighting at 0 is forgotten at the next touch. */
  lemma {:induction false} FirstSeenIff(touches: seq<Tx>)
    requires touches != []
    ensures Earliest(FirstSeen(touches), touches) <==>
            (exists i :: 0 <= i < |touches| && touches[i].timestamp < 0.0)
            || (forall i :: 0 <= i < |touches| ==> touches[i].timestamp != 0.0)
            || touches[|touches| - 1].timestamp == 0.0
  {
    FirstSeenFacts(touches);
  }

  lemma {:induction false} FirstSeenFacts(touches: seq<Tx>)
    requires touches != []
    ensures exists i :: 0 <= i < |touches| && touches[i].timestamp == FirstSeen(touches)
    ensures FirstSeen(touches) < 0.0 ==> forall i :: 0 <= i < |touches| ==> FirstSeen(touches) <= touches[i].timestamp
    ensures FirstSeen(touches) >= 0.0 ==> forall i :: 0 <= i < |touches| ==> touches[i].timestamp >= 0.0
    ensures (forall i :: 0 <= i < |touches| ==> touches[i].timestamp > 0.0) ==>
            FirstSeen(touches) > 0.0 && forall i :: 0 <= i < |touches| ==> FirstSeen(touches) <= touches[i].timestamp
    ensures FirstSeen(touches) == 0.0 ==> touches[|touches| - 1].timestamp == 0.0
    ensures touches[|touches| - 1].timestamp == 0.0 ==> FirstSeen(touches) <= 0.0
  {
    var n := |touches| - 1;
    if n > 0 {
      var front := touches[..n];
      FirstSeenFacts(front);
      var i :| 0 <= i < n && front[i].timestamp == FirstSeen(front);
      assert touches[i].timestamp == FirstSeen(front);
      assert touches == front + [touches[n]];
    } else {
      assert touches[0].timestamp == FirstSeen(touches);
    }
  }

  lemma {:induction false} LastSeenIsLatest(touches: seq<Tx>)
    ensures forall i :: 0 <= i < |touches| ==> touches[i].timestamp <= LastSeen(touches)
    ensures LastSeen(touches) >= 0.0
    ensures LastSeen(touches) == 0.0 || exists i :: 0 <= i < |touches| && touches[i].timestamp == LastSeen(touches)
  {
    if touches != [] {
      var n := |touches| - 1;
      LastSeenIsLatest(touches[..n]);
      if LastSeen(touches) == LastSeen(touches[..n]) && LastSeen(touches) != 0.0 {
        var i :| 0 <= i < n && touches[..n][i].timestamp == LastSeen(touches);
        assert touches[i].timestamp == LastSeen(touches);
      }
    }
  }

  /** The ids kept for an address are those of its list, each once, in the order of their first appearance. */
  lemma {:induction false} FirstsExact(ids: seq<string>)
    ensures forall id :: id in Firsts(ids) <==> id in ids
    ensures forall i, j :: 0 <= i < j < |Firsts(ids)| ==> Firsts(ids)[i] != Firsts(ids)[j]
    ensures forall k :: 0 <= k <= |ids| ==> Firsts(ids[..k]) <= Firsts(ids)
  {
    FirstsMembers(ids);
    if ids != [] {
      var n := |ids| - 1;
      FirstsMembers(ids[..n]);
      FirstsExact(ids[..n]);
      forall k | 0 <= k <= |ids| ensures Firsts(ids[..k]) <= Firsts(ids) {
        if k <= n { assert ids[..n][..k] == ids[..k]; } else { assert ids[..k] == ids; }
      }
    }
  }

  // ---- agents ----

  /** The transactions of an agent that did not raise, in order. */
  function AgentTxs(txs: seq<Tx>, agentId: string): seq<Tx> {
    if txs == [] then []
    else
      var tx := txs[|txs| - 1];
      AgentTxs(txs[..|txs| - 1], agentId) + if Indexable(tx) && tx.agentId == agentId then [tx] else []
  }

  /** Where the first of them that pays anything pays first. */
  function Home(mine: seq<Tx>): Option<string> {
    if mine == [] then None
    else if mine[0].outputs != [] then Some(mine[0].outputs[0].address)
    else Home(mine[1..])
  }

  ghost predicate AgentTold(l: Ledger, agentId: string, mine: seq<Tx>) {
    && (if mine == [] then agentId !in l.txsByAgent else agentId in l.txsByAgent && l.txsByAgent[agentId] == Ids(mine))
    && (agentId in l.addressByAgent <==> Home(mine).Some?)
    && (agentId in l.addressByAgent ==> Home(mine) == Some(l.addressByAgent[agentId]))
  }

  lemma {:induction false} HomeSnoc(mine: seq<Tx>, tx: Tx)
    ensures Home(mine + [tx]) ==
            if Home(mine).Some? then Home(mine) else if tx.outputs == [] then None else Some(tx.outputs[0].address)
  {
    if mine == [] {
      assert [tx][1..] == [];
    } else {
      HomeSnoc(mine[1..], tx);
      assert (mine + [tx])[1..] == mine[1..] + [tx];
    }
  }

  lemma NoteTables(l: Ledger, tx: Tx)
    ensures var m := NoteAgent(l, tx);
            && m.txsByAgent == (if tx.agentId == "" then l.txsByAgent else Append(l.txsByAgent, tx.agentId, tx.txId))
            && m.addressByAgent == if tx.agentId == "" || tx.agentId in l.addressByAgent || tx.outputs == [] then l.addressByAgent
                                   else l.addressByAgent[tx.agentId := tx.outputs[0].address]
  {
    hide Append;
  }

  lemma NoteTells(l: Ledger, tx: Tx, agentId: string, mine: seq<Tx>)
    requires AgentTold(l, agentId, mine) && agentId != ""
    ensures AgentTold(NoteAgent(l, tx), agentId, mine + if tx.agentId == agentId then [tx] else [])
  {
    HomeSnoc(mine, tx);
    assert mine + [] == mine;
    assert Ids(mine + [tx]) == Ids(mine) + [tx.txId];
    assert mine == [] ==> Ids(mine) == [];
    NoteTables(l, tx);
    hide Home, Ids, NoteAgent;
  }

  lemma {:induction false} CreditKeepsAgents(l: Ledger, tx: Tx, addrs: seq<string>)
    ensures var m := CreditAll(l, tx, addrs); m.txsByAgent == l.txsByAgent && m.addressByAgent == l.addressByAgent
  {
    if addrs != [] { CreditKeepsAgents(l, tx, addrs[..|addrs| - 1]); }
  }

  lemma ApplyTellsAgent(l: Ledger, tx: Tx, agentId: string, mine: seq<Tx>)
    requires AgentTold(l, agentId, mine) && agentId != ""
    ensures AgentTold(Apply(l, tx), agentId, mine + if Indexable(tx) && tx.agentId == agentId then [tx] else [])
  {
    hide MoveOutputs, CreditAll, NoteAgent, Home, Ids, Indexable;
    MoveKeepsTables(l, tx);
    assert mine + [] == mine;
    var m := MoveOutputs(l, tx);
    CreditKeepsAgents(m, tx, Addresses(tx.outputs));
    NoteTells(CreditAll(m, tx, Addresses(tx.outputs)), tx, agentId, mine);
  }

  lemma {:induction false} AgentsTold(txs: seq<Tx>, agentId: string)
    requires agentId != ""
    ensures AgentTold(ApplyAll(EMPTY.ledger, txs), agentId, AgentTxs(txs, agentId))
  {
    if txs != [] {
      hide AgentTold, Apply, Indexable;
      AgentsTold(txs[..|txs| - 1], agentId);
      ApplyTellsAgent(ApplyAll(EMPTY.ledger, txs[..|txs| - 1]), txs[|txs| - 1], agentId, AgentTxs(txs[..|txs| - 1], agentId));
    }
  }

  ghost predicate NobodyListed(l: Ledger) { "" !in l.txsByAgent && "" !in l.addressByAgent }

  lemma ApplyListsNobody(l: Ledger, tx: Tx)
    requires NobodyListed(l)
    ensures NobodyListed(Apply(l, tx))
  {
    hide MoveOutputs, CreditAll, Indexable, Addresses;
    MoveKeepsTables(l, tx);
    CreditKeepsAgents(MoveOutputs(l, tx), tx, Addresses(tx.outputs));
  }

  lemma {:induction false} NobodyUnlisted(txs: seq<Tx>)
    ensures NobodyListed(ApplyAll(EMPTY.ledger, txs))
  {
    if txs != [] {
      hide Apply, NobodyListed;
      NobodyUnlisted(txs[..|txs| - 1]);
      ApplyListsNobody(ApplyAll(EMPTY.ledger, txs[..|txs| - 1]), txs[|txs| - 1]);
    } else {
      assert NobodyListed(EMPTY.ledger);
    }
  }

  /** Over every run, an agent's list holds the ids of its transactions of the history that did not raise, in order, and its address
      is the first one paid by the first of them that pays anything; the empty id has neither. */
  lemma RunListsAgent(ops: seq<IndexOp>, agentId: string)
    ensures var l, mine := Run(ops).ledger, AgentTxs(History(ops), agentId);
            && (agentId in l.txsByAgent <==> agentId != "" && mine != [])
            && (agentId in l.txsByAgent ==> l.txsByAgent[agentId] == Ids(mine))
            && (agentId in l.addressByAgent <==> agentId != "" && Home(mine).Some?)
            && (agentId in l.addressByAgent ==> Home(mine) == Some(l.addressByAgent[agentId]))
  {
    RunFollowsHistory(ops);
    hide Run, History, AgentTxs, Home, Ids;
    if agentId == "" { NobodyUnlisted(History(ops)); } else { AgentsTold(History(ops), agentId); }
  }

  /** Whose name an address bears: the last agent to have had it as its first paid address. */
  function NameOf(txs: seq<Tx>, addr: string): string {
    if txs == [] then ""
    else
      var front, tx := txs[..|txs| - 1], txs[|txs| - 1];
      if Indexable(tx) && tx.agentId != "" && Home(AgentTxs(front, tx.agentId)).None? && Home([tx]) == Some(addr) then tx.agentId
      else NameOf(front, addr)
  }

  function Name(l: Ledger, addr: string): string {
    if addr in l.addressInfo then l.addressInfo[addr].agentId else ""
  }

  lemma CreditName(l: Ledger, tx: Tx, a: string, addr: string)
    ensures Name(Credit(l, tx, a), addr) == Name(l, addr)
    ensures addr in Credit(l, tx, a).addressInfo <==> addr in l.addressInfo || addr == a
  {
    hide Append, LastAmount;
  }

  lemma {:induction false} CreditKeepsName(l: Ledger, tx: Tx, addrs: seq<string>, addr: string)
    ensures Name(CreditAll(l, tx, addrs), addr) == Name(l, addr)
    ensures addr in addrs ==> addr in CreditAll(l, tx, addrs).addressInfo
  {
    if addrs != [] {
      var n := |addrs| - 1;
      hide Credit, Name;
      CreditKeepsName(l, tx, addrs[..n], addr);
      CreditName(CreditAll(l, tx, addrs[..n]), tx, addrs[n], addr);
      assert addrs == addrs[..n] + [addrs[n]];
    }
  }

  lemma NoteNames(l: Ledger, tx: Tx, addr: string)
    requires tx.outputs != [] ==> tx.outputs[0].address in l.addressInfo
    ensures var takes := tx.agentId != "" && tx.agentId !in l.addressByAgent && Home([tx]) == Some(addr);
            Name(NoteAgent(l, tx), addr) == if takes then tx.agentId else Name(l, addr)
  {
    assert Home([tx][1..]) == None;
    hide Append;
  }

  lemma ApplyNames(l: Ledger, tx: Tx, addr: string)
    ensures var takes := Indexable(tx) && tx.agentId != "" && tx.agentId !in l.addressByAgent && Home([tx]) == Some(addr);
            Name(Apply(l, tx), addr) == if takes then tx.agentId else Name(l, addr)
  {
    var m, addrs := MoveOutputs(l, tx), Addresses(tx.outputs);
    MoveKeepsTables(l, tx);
    hide MoveOutputs, CreditAll, NoteAgent, Indexable;
    CreditKeepsName(m, tx, addrs, addr);
    if tx.outputs != [] {
      assert addrs[0] == tx.outputs[0].address;
      CreditKeepsName(m, tx, addrs, addrs[0]);
    }
    CreditKeepsAgents(m, tx, addrs);
    NoteNames(CreditAll(m, tx, addrs), tx, addr);
  }

  /** After any history an address bears that name, and one that is not listed bears none. */
  lemma {:induction false} NamesTold(txs: seq<Tx>, addr: string)
    ensures Name(ApplyAll(EMPTY.ledger, txs), addr) == NameOf(txs, addr)
  {
    if txs != [] {
      var front, tx := txs[..|txs| - 1], txs[|txs| - 1];
      NamesTold(front, addr);
      if tx.agentId != "" { AgentsTold(front, tx.agentId); }
      ApplyNames(ApplyAll(EMPTY.ledger, front), tx, addr);
      hide Apply, AgentTxs, Home, Indexable, Name, Ids;
    }
  }

  /** Over every run each address listed bears the name of the last agent to have made it its own. */
  lemma RunNames(ops: seq<IndexOp>, addr: string)
    ensures Name(Run(ops).ledger, addr) == NameOf(History(ops), addr)
  {
    RunFollowsHistory(ops);
    hide Run, History, NameOf, Name;
    NamesTold(History(ops), addr);
  }

  // ---- balances against what was received and sent ----

  /** The clamp at zero may leave more than the difference, never less. */
  ghost predicate AtLeast(l: Ledger) {
    forall a :: a in l.addressInfo ==> l.addressInfo[a].balance >= l.addressInfo[a].received - l.addressInfo[a].sent
  }

  ghost predicate InCredit(l: Ledger) {
    forall a :: a in l.addressInfo ==> l.addressInfo[a].balance >= 0
  }

  ghost predicate Even(l: Ledger) {
    forall a :: a in l.addressInfo ==> l.addressInfo[a].balance == l.addressInfo[a].received - l.addressInfo[a].sent
  }

  lemma {:induction false} SpendAllBooks(l: Ledger, coinbase: bool, inputs: seq<TxInput>)
    ensures AtLeast(l) ==> AtLeast(SpendAll(l, coinbase, inputs))
    ensures InCredit(l) ==> InCredit(SpendAll(l, coinbase, inputs))
  {
    if inputs != [] { SpendAllBooks(l, coinbase, inputs[..|inputs| - 1]); }
  }

  lemma {:induction false} CreditAllBooks(l: Ledger, tx: Tx, addrs: seq<string>)
    ensures AtLeast(l) ==> AtLeast(CreditAll(l, tx, addrs))
    ensures Even(l) ==> Even(CreditAll(l, tx, addrs))
    ensures InCredit(l) && LastAmount(tx) >= 0 ==> InCredit(CreditAll(l, tx, addrs))
  {
    if addrs != [] {
      hide LastAmount;
      CreditAllBooks(l, tx, addrs[..|addrs| - 1]);
    }
  }

  lemma NoteBooks(l: Ledger, tx: Tx)
    ensures AtLeast(l) ==> AtLeast(NoteAgent(l, tx))
    ensures Even(l) ==> Even(NoteAgent(l, tx))
    ensures InCredit(l) ==> InCredit(NoteAgent(l, tx))
  {
    hide Append;
  }

  lemma ApplyBooks(l: Ledger, tx: Tx)
    ensures AtLeast(l) ==> AtLeast(Apply(l, tx))
    ensures InCredit(l) && LastAmount(tx) >= 0 ==> InCredit(Apply(l, tx))
    ensures Even(SpendAll(l, tx.isCoinbase, tx.inputs)) ==> Even(Apply(l, tx))
  {
    var l1 := SpendAll(l, tx.isCoinbase, tx.inputs);
    SpendAllBooks(l, tx.isCoinbase, tx.inputs);
    CreateUtxo(l1, tx.txId, tx.outputs);
    hide SpendAll, Create, CreditAll, NoteAgent, Indexable, LastAmount;
    var m := MoveOutputs(l, tx);
    assert m.addressInfo == l1.addressInfo;
    CreditAllBooks(m, tx, Addresses(tx.outputs));
    NoteBooks(CreditAll(m, tx, Addresses(tx.outputs)), tx);
  }

  lemma SpendEven(l: Ledger, i: TxInput)
    requires Balanced(l) && NonNegative(l.utxo) && Even(l)
    ensures Even(Spend(l, false, i))
  {
    SpendBalanced(l, i);
    hide Balanced, NonNegative;
  }

  lemma {:induction false} SpendAllEven(l: Ledger, coinbase: bool, inputs: seq<TxInput>)
    requires Balanced(l) && NonNegative(l.utxo) && Even(l)
    requires coinbase ==> forall i :: 0 <= i < |inputs| ==> Key(inputs[i]) !in l.utxo
    ensures Even(SpendAll(l, coinbase, inputs))
  {
    SpendAllBalanced(l, coinbase, inputs);
    if inputs != [] && !coinbase {
      hide Balanced, NonNegative, Even, Spend;
      var front := inputs[..|inputs| - 1];
      SpendAllEven(l, coinbase, front);
      SpendAllBalanced(l, coinbase, front);
      SpendEven(SpendAll(l, false, front), inputs[|inputs| - 1]);
    }
  }

  lemma {:induction false} BooksKept(txs: seq<Tx>)
    ensures AtLeast(ApplyAll(EMPTY.ledger, txs))
    ensures (forall p :: 0 <= p < |txs| ==> LastAmount(txs[p]) >= 0) ==> InCredit(ApplyAll(EMPTY.ledger, txs))
  {
    if txs != [] {
      hide Apply, AtLeast, InCredit, LastAmount;
      BooksKept(txs[..|txs| - 1]);
      ApplyBooks(ApplyAll(EMPTY.ledger, txs[..|txs| - 1]), txs[|txs| - 1]);
    }
  }

  lemma {:induction false} EvenKept(txs: seq<Tx>, k: nat)
    requires Orderly(txs) && BalancedThroughout(txs) && k <= |txs|
    ensures Even(ApplyAll(EMPTY.ledger, txs[..k]))
  {
    hide Apply, Even, Balanced, Orderly, SpendAll;
    if k == 0 {
      assert Even(EMPTY.ledger) by { EmptyEven(); }
    } else {
      var l := ApplyAll(EMPTY.ledger, txs[..k - 1]);
      EvenKept(txs, k - 1);
      OrderlyStep(txs, k - 1);
      SpendAllEven(l, txs[k - 1].isCoinbase, txs[k - 1].inputs);
      ApplyBooks(l, txs[k - 1]);
      ApplyLast(txs, k - 1);
    }
  }

  lemma EmptyEven()
    ensures Even(EMPTY.ledger)
  {
  }

  /** Over every run no balance is below what was received less what was sent, none is negative unless a last output was, and while
      balances are right they are that difference exactly. */
  lemma RunBooks(ops: seq<IndexOp>)
    ensures AtLeast(Run(ops).ledger)
    ensures (forall p :: 0 <= p < |History(ops)| ==> LastAmount(History(ops)[p]) >= 0) ==> InCredit(Run(ops).ledger)
    ensures Orderly(History(ops)) && BalancedThroughout(History(ops)) ==> Even(Run(ops).ledger)
  {
    RunFollowsHistory(ops);
    hide Run, History, AtLeast, InCredit, Even, Orderly, BalancedThroughout, LastAmount;
    var h := History(ops);
    BooksKept(h);
    if Orderly(h) && BalancedThroughout(h) {
      assert h[..|h|] == h;
      EvenKept(h, |h|);
    }
  }
}
