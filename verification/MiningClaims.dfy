/** Faucet claims: each is paid by the next block, unless its agent claims again before one is mined. */
module MiningClaims {
  import opened Wrappers
  import opened Mining

  /** The faucet payments to an agent, in order. */
  function PaidTo(txs: seq<Tx>, agentId: string): seq<Tx> {
    if txs == [] then []
    else
      var rest, last := PaidTo(txs[..|txs| - 1], agentId), txs[|txs| - 1];
      if last.kind.Faucet? && last.kind.agentId == agentId then rest + [last] else rest
  }

  /** The dictionary has one claim an agent. */
  ghost predicate OnePerAgent(claims: seq<Claim>) {
    forall i, j :: 0 <= i < j < |claims| ==> claims[i].agentId != claims[j].agentId
  }

  function Payment(c: Claim): Tx {
    Tx(c.txId, c.lastClaim, Faucet(c.agentId, c.address, c.amount))
  }

  /** What the next block owes the agent: its claim, if queued. */
  function Owed(claims: seq<Claim>, agentId: string): seq<Tx> {
    var c := ClaimOf(claims, agentId);
    if c.Some? && c.value.queued then [Payment(c.value)] else []
  }

  lemma {:induction false} PaidConcat(a: seq<Tx>, b: seq<Tx>, agentId: string)
    ensures PaidTo(a + b, agentId) == PaidTo(a, agentId) + PaidTo(b, agentId)
  {
    if b == [] {
      assert a + b == a;
    } else {
      assert (a + b)[..|a + b| - 1] == a + b[..|b| - 1];
      PaidConcat(a, b[..|b| - 1], agentId);
    }
  }

  lemma {:induction false} NonePaid(txs: seq<Tx>, agentId: string)
    requires forall i :: 0 <= i < |txs| ==> !txs[i].kind.Faucet?
    ensures PaidTo(txs, agentId) == []
  {
    if txs != [] { NonePaid(txs[..|txs| - 1], agentId); }
  }

  lemma {:induction false} NoFaucetIdentities(agents: seq<Registration>)
    ensures forall i :: 0 <= i < |IdentityTxs(agents)| ==> !IdentityTxs(agents)[i].kind.Faucet?
  {
    if agents != [] { NoFaucetIdentities(agents[..|agents| - 1]); }
  }

  lemma {:induction false} ClaimOfLast(claims: seq<Claim>, agentId: string)
    requires claims != []
    ensures ClaimOf(claims, agentId) ==
            if ClaimOf(claims[..|claims| - 1], agentId).Some? then ClaimOf(claims[..|claims| - 1], agentId)
            else if claims[|claims| - 1].agentId == agentId then Some(claims[|claims| - 1]) else None
  {
    if |claims| > 1 {
      ClaimOfLast(claims[1..], agentId);
      assert claims[..|claims| - 1][1..] == claims[1..][..|claims| - 2];
    }
  }

  lemma {:induction false} ClaimIsIn(claims: seq<Claim>, agentId: string)
    ensures ClaimOf(claims, agentId).Some? ==> ClaimOf(claims, agentId).value in claims && ClaimOf(claims, agentId).value.agentId == agentId
    ensures ClaimOf(claims, agentId).None? ==> forall i :: 0 <= i < |claims| ==> claims[i].agentId != agentId
    decreases |claims|
  {
    if claims != [] { ClaimIsIn(claims[1..], agentId); }
  }

  lemma {:induction false} OwedIsTaken(claims: seq<Claim>, agentId: string)
    requires OnePerAgent(claims)
    ensures PaidTo(FaucetTxs(claims), agentId) == Owed(claims, agentId)
  {
    if claims != [] {
      var n := |claims| - 1;
      var front, c := claims[..n], claims[n];
      OwedIsTaken(front, agentId);
      ClaimOfLast(claims, agentId);
      ClaimIsIn(front, agentId);
      if c.queued { PaidConcat(FaucetTxs(front), [Payment(c)], agentId); }
      assert PaidTo([Payment(c)], agentId) == if c.agentId == agentId then [Payment(c)] else [] by { OnePaid(Payment(c), agentId); }
    }
  }

  lemma OnePaid(t: Tx, agentId: string)
    ensures PaidTo([t], agentId) == if t.kind.Faucet? && t.kind.agentId == agentId then [t] else []
  {
    assert [t][..0] == [];
  }

  lemma WaitingPays(s: State, agentId: string)
    requires OnePerAgent(s.faucet)
    ensures PaidTo(Waiting(s), agentId) == Owed(s.faucet, agentId)
  {
    OwedIsTaken(s.faucet, agentId);
    NonePaid(TransferTxs(s.pending), agentId);
    NoFaucetIdentities(s.agents);
    NonePaid(IdentityTxs(s.agents), agentId);
    hide PaidTo, FaucetTxs, TransferTxs, IdentityTxs;
    PaidConcat(TransferTxs(s.pending), IdentityTxs(s.agents), agentId);
    PaidConcat(FaucetTxs(s.faucet), TransferTxs(s.pending) + IdentityTxs(s.agents), agentId);
  }

  lemma {:induction false} MarkedClaim(claims: seq<Claim>, index: int, now: real, agentId: string)
    ensures var c, d := ClaimOf(claims, agentId), ClaimOf(MinedClaims(claims, index, now), agentId);
      && (c.None? <==> d.None?)
      && (c.Some? ==> d.value == if c.value.queued then c.value.(queued := false, minedIn := Some(index), minedAt := now) else c.value)
  {
    if claims != [] {
      assert MinedClaims(claims, index, now)[1..] == MinedClaims(claims[1..], index, now);
      MarkedClaim(claims[1..], index, now, agentId);
    }
  }

  lemma {:induction false} PutClaimFound(claims: seq<Claim>, c: Claim, agentId: string)
    ensures ClaimOf(PutClaim(claims, c), agentId) == if agentId == c.agentId then Some(c) else ClaimOf(claims, agentId)
    decreases |claims|
  {
    if claims != [] { PutClaimFound(claims[1..], c, agentId); }
  }

  lemma {:induction false} PutClaimUnique(claims: seq<Claim>, c: Claim)
    requires OnePerAgent(claims)
    ensures OnePerAgent(PutClaim(claims, c))
    ensures forall x :: x in PutClaim(claims, c) ==> x == c || x in claims
  {
    if claims != [] && claims[0].agentId != c.agentId {
      var rest := claims[1..];
      PutClaimUnique(rest, c);
      var put := PutClaim(rest, c);
      forall l | 0 <= l < |put| ensures claims[0].agentId != put[l].agentId {
        assert put[l] in put;
        if put[l] in rest { var k :| 0 <= k < |rest| && rest[k] == put[l]; }
      }
    }
  }

  /** Mining pays what is owed and owes nothing more; every queued claim is marked with the block and the time. */
  lemma MinePays(cfg: Config, s: State, m: int, n: int, now: real, agentId: string)
    requires Linked(s.chain, m, n) && OnePerAgent(s.faucet)
    ensures var t := MineStep(cfg, s, n, now).0;
      && Linked(t.chain, m, n + 1) && OnePerAgent(t.faucet)
      && PaidTo(Work(t.chain[n + 1]), agentId) == Owed(s.faucet, agentId)
      && PaidTo(LogOf(t, m, n + 1), agentId) == PaidTo(LogOf(s, m, n), agentId) + Owed(s.faucet, agentId)
      && Owed(t.faucet, agentId) == []
      && LastClaim(t.faucet, agentId) == LastClaim(s.faucet, agentId)
      && (Owed(s.faucet, agentId) != [] ==>
            var c := ClaimOf(t.faucet, agentId); c.Some? && !c.value.queued && c.value.minedIn == Some(n + 1) && c.value.minedAt == now)
  {
    MineMarks(cfg, s, m, n, now);
    hide MineStep, Waiting, PaidTo, MinedClaims, ClaimOf;
    MineLinks(cfg, s, m, n, now);
    var t := MineStep(cfg, s, n, now).0;
    LogSame(s.chain, t.chain, m, n);
    PaidConcat(Log(s.chain, m, n), Waiting(s), agentId);
    WaitingPays(s, agentId);
    MarkedClaim(s.faucet, n + 1, now, agentId);
  }

  lemma MineMarks(cfg: Config, s: State, m: int, n: int, now: real)
    requires Linked(s.chain, m, n)
    ensures var t := MineStep(cfg, s, n, now).0;
            t.faucet == MinedClaims(s.faucet, n + 1, now) && (OnePerAgent(s.faucet) ==> OnePerAgent(t.faucet))
  {
    hide BlockTxs, Draft, BumpHeights, AnchoredAll;
  }

  /** An accepted claim is owed with a new id, its own address and the faucet's amount; it changes nothing for other agents. */
  lemma ClaimOwes(cfg: Config, s: State, agentId: string, address: string, now: real, other: string)
    requires OnePerAgent(s.faucet)
    ensures var (t, answer) := ClaimStep(cfg, s, agentId, address, now);
      && OnePerAgent(t.faucet)
      && (answer.Claimed? <==> now - LastClaim(s.faucet, agentId) >= 86400.0 && cfg.validAddress(address))
      && (answer.Claimed? ==>
            && Owed(t.faucet, agentId) == [Tx(OfFaucet(agentId, address, now), now, Faucet(agentId, address, 10.0))]
            && LastClaim(t.faucet, agentId) == now
            && answer == Claimed(OfFaucet(agentId, address, now), 10.0))
      && (!answer.Claimed? ==> t == s)
      && (other != agentId ==> Owed(t.faucet, other) == Owed(s.faucet, other) && LastClaim(t.faucet, other) == LastClaim(s.faucet, other))
  {
    hide OnePerAgent;
    var c := Claim(agentId, OfFaucet(agentId, address, now), address, FAUCET_AMOUNT, now, true, None, 0.0);
    PutClaimUnique(s.faucet, c);
    PutClaimFound(s.faucet, c, agentId);
    PutClaimFound(s.faucet, c, other);
  }

  /** The operation is an accepted claim of the agent. */
  ghost predicate Claims(cfg: Config, s: State, op: Op, agentId: string) {
    op.ClaimFaucet? && op.agentId == agentId && ClaimStep(cfg, s, op.agentId, op.address, op.now).1.Claimed?
  }

  function PaymentOf(op: Op): Tx
    requires op.ClaimFaucet?
  {
    Tx(OfFaucet(op.agentId, op.address, op.now), op.now, Faucet(op.agentId, op.address, 10.0))
  }

  /** What one operation makes of the payments made to an agent and of the one owed to it. */
  lemma StepPays(cfg: Config, s: State, m: int, n: int, op: Op, agentId: string)
    requires Linked(s.chain, m, n) && OnePerAgent(s.faucet)
    ensures var t, n' := Step(cfg, s, n, op), if op.Mine? then n + 1 else n;
      && Linked(t.chain, m, n') && OnePerAgent(t.faucet)
      && PaidTo(LogOf(t, m, n'), agentId) == PaidTo(LogOf(s, m, n), agentId) + (if op.Mine? then Owed(s.faucet, agentId) else [])
      && Owed(t.faucet, agentId) ==
           (if op.Mine? then [] else if Claims(cfg, s, op, agentId) then [PaymentOf(op)] else Owed(s.faucet, agentId))
      && LastClaim(t.faucet, agentId) == (if Claims(cfg, s, op, agentId) then op.now else LastClaim(s.faucet, agentId))
  {
    hide QueueStep, RegisterStep, ClaimStep, MineStep, PaidTo, Log, Owed, LastClaim, OnePerAgent;
    StepLinks(cfg, s, m, n, op);
    match op
    case Mine(now) => MinePays(cfg, s, m, n, now, agentId);
    case ClaimFaucet(a, addr, now) =>
      QuietStep(cfg, s, n, op);
      ClaimOwes(cfg, s, a, addr, now, agentId);
    case Queue(_, _) => QuietStep(cfg, s, n, op);
    case Register(_, _, _) => QuietStep(cfg, s, n, op);
  }

  /** The payments an agent is to have had, and the one still due, told from the operations and the answers. */
  ghost function Account(cfg: Config, s: State, m: int, n: int, ops: seq<Op>, agentId: string): (seq<Tx>, seq<Tx>)
    requires Linked(s.chain, m, n)
  {
    if ops == [] then (PaidTo(LogOf(s, m, n), agentId), Owed(s.faucet, agentId))
    else
      var front, op := ops[..|ops| - 1], ops[|ops| - 1];
      var (paid, due) := Account(cfg, s, m, n, front, agentId);
      if op.Mine? then (paid + due, [])
      else if Claims(cfg, Run(cfg, s, m, n, front), op, agentId) then (paid, [PaymentOf(op)])
      else (paid, due)
  }

  /** Over every run the faucet payments in the blocks are exactly those: each claim at most once, with its own id, address and
      amount, and nothing for anyone who has not claimed. */
  lemma {:induction false} RunPays(cfg: Config, s: State, m: int, n: int, ops: seq<Op>, agentId: string)
    requires Linked(s.chain, m, n) && OnePerAgent(s.faucet)
    ensures var t := Run(cfg, s, m, n, ops);
      && OnePerAgent(t.faucet)
      && (PaidTo(LogOf(t, m, TopAfter(n, ops)), agentId), Owed(t.faucet, agentId)) == Account(cfg, s, m, n, ops, agentId)
  {
    hide Step, Linked, PaidTo, Log, Owed, OnePerAgent, Claims;
    if ops != [] {
      var front := ops[..|ops| - 1];
      RunPays(cfg, s, m, n, front, agentId);
      StepPays(cfg, Run(cfg, s, m, n, front), m, TopAfter(n, front), ops[|ops| - 1], agentId);
      var paid := PaidTo(LogOf(Run(cfg, s, m, n, front), m, TopAfter(n, front)), agentId);
      assert paid + [] == paid;
    }
  }

  /** The agent claims again, and is accepted, on the way. */
  ghost predicate ClaimsAgain(cfg: Config, s: State, m: int, n: int, ops: seq<Op>, agentId: string)
    requires Linked(s.chain, m, n)
  {
    exists k :: 0 <= k < |ops| && Claims(cfg, Run(cfg, s, m, n, ops[..k]), ops[k], agentId)
  }

  lemma {:induction false} DueUntilMined(cfg: Config, s: State, m: int, n: int, ops: seq<Op>, agentId: string, p: Tx)
    requires Linked(s.chain, m, n) && OnePerAgent(s.faucet) && NoMine(ops)
    requires Owed(s.faucet, agentId) == [p] && p.timestamp <= LastClaim(s.faucet, agentId)
    ensures TopAfter(n, ops) == n && OnePerAgent(Run(cfg, s, m, n, ops).faucet)
    ensures LastClaim(Run(cfg, s, m, n, ops).faucet, agentId) >= p.timestamp
    ensures var due := Owed(Run(cfg, s, m, n, ops).faucet, agentId);
            if ClaimsAgain(cfg, s, m, n, ops, agentId) then |due| == 1 && due[0].timestamp > p.timestamp else due == [p]
  {
    hide Step, Linked, PaidTo, Log, Owed, OnePerAgent, Claims, LastClaim;
    if ops != [] {
      var front, op := ops[..|ops| - 1], ops[|ops| - 1];
      DueUntilMined(cfg, s, m, n, front, agentId, p);
      var t := Run(cfg, s, m, n, front);
      StepPays(cfg, t, m, n, op, agentId);
      AgainStep(cfg, s, m, n, ops, agentId);
      if Claims(cfg, t, op, agentId) { LaterClaim(cfg, t, op, agentId); }
    }
  }

  lemma LaterClaim(cfg: Config, s: State, op: Op, agentId: string)
    requires Claims(cfg, s, op, agentId)
    ensures op.now >= LastClaim(s.faucet, agentId) + 86400.0 && PaymentOf(op).timestamp == op.now
  {
  }

  lemma AgainStep(cfg: Config, s: State, m: int, n: int, ops: seq<Op>, agentId: string)
    requires Linked(s.chain, m, n) && ops != []
    ensures var front := ops[..|ops| - 1];
            ClaimsAgain(cfg, s, m, n, ops, agentId) <==>
            ClaimsAgain(cfg, s, m, n, front, agentId) || Claims(cfg, Run(cfg, s, m, n, front), ops[|ops| - 1], agentId)
  {
    hide Claims, Run, Linked;
    var front := ops[..|ops| - 1];
    forall k | 0 <= k < |front| ensures front[..k] == ops[..k] && front[k] == ops[k] {}
    if k :| 0 <= k < |front| && Claims(cfg, Run(cfg, s, m, n, front[..k]), front[k], agentId) {
      assert Claims(cfg, Run(cfg, s, m, n, ops[..k]), ops[k], agentId);
    }
    if k :| 0 <= k < |ops| && Claims(cfg, Run(cfg, s, m, n, ops[..k]), ops[k], agentId) && k < |front| {
      assert Claims(cfg, Run(cfg, s, m, n, front[..k]), front[k], agentId);
    }
  }

  /** An accepted claim is paid by the next block mined if and only if its agent is not accepted again before that block. */
  lemma ClaimPaidIff(cfg: Config, s: State, m: int, n: int, agentId: string, address: string, at: real, ops: seq<Op>, now: real)
    requires Linked(s.chain, m, n) && OnePerAgent(s.faucet) && NoMine(ops)
    requires ClaimStep(cfg, s, agentId, address, at).1.Claimed?
    ensures var q := ClaimStep(cfg, s, agentId, address, at).0;
            Linked(q.chain, m, n) &&
            var t := Run(cfg, q, m, n, ops);
            n in t.chain &&
            var u := MineStep(cfg, t, n, now).0;
            var p := Tx(OfFaucet(agentId, address, at), at, Faucet(agentId, address, 10.0));
            && n + 1 in u.chain && |PaidTo(Work(u.chain[n + 1]), agentId)| == 1
            && (PaidTo(Work(u.chain[n + 1]), agentId) == [p] <==> !ClaimsAgain(cfg, q, m, n, ops, agentId))
  {
    ClaimOwes(cfg, s, agentId, address, at, agentId);
    StepLinks(cfg, s, m, n, ClaimFaucet(agentId, address, at));
    hide ClaimStep, MineStep, PaidTo, Owed, LastClaim, Linked, OnePerAgent, ClaimsAgain;
    var q := ClaimStep(cfg, s, agentId, address, at).0;
    DueUntilMined(cfg, q, m, n, ops, agentId, Tx(OfFaucet(agentId, address, at), at, Faucet(agentId, address, 10.0)));
    var t := Run(cfg, q, m, n, ops);
    MinePays(cfg, t, m, n, now, agentId);
    MineLinks(cfg, t, m, n, now);
    TopStored(t.chain, m, n);
  }

  /** Over every run the accepted claims of an agent are a day or more apart. */
  lemma {:induction false} ClaimsADayApart(cfg: Config, s: State, m: int, n: int, ops: seq<Op>, i: nat, j: nat, agentId: string)
    requires Linked(s.chain, m, n) && OnePerAgent(s.faucet) && i < j < |ops|
    requires Claims(cfg, Run(cfg, s, m, n, ops[..i]), ops[i], agentId) && Claims(cfg, Run(cfg, s, m, n, ops[..j]), ops[j], agentId)
    ensures ops[j].now >= ops[i].now + 86400.0
  {
    hide Claims, Run, OnePerAgent, Linked;
    LastClaimKept(cfg, s, m, n, ops, i, j, agentId);
    LaterClaim(cfg, Run(cfg, s, m, n, ops[..j]), ops[j], agentId);
  }

  lemma {:induction false} LastClaimKept(cfg: Config, s: State, m: int, n: int, ops: seq<Op>, i: nat, j: nat, agentId: string)
    requires Linked(s.chain, m, n) && OnePerAgent(s.faucet) && i < j <= |ops|
    requires Claims(cfg, Run(cfg, s, m, n, ops[..i]), ops[i], agentId)
    ensures ops[i].ClaimFaucet? && LastClaim(Run(cfg, s, m, n, ops[..j]).faucet, agentId) >= ops[i].now
    decreases j
  {
    IsClaim(cfg, Run(cfg, s, m, n, ops[..i]), ops[i], agentId);
    hide Claims, Run, Linked, OnePerAgent, LastClaim;
    var t := Run(cfg, s, m, n, ops[..j - 1]);
    LastClaimStep(cfg, s, m, n, ops, j, agentId);
    if i < j - 1 {
      LastClaimKept(cfg, s, m, n, ops, i, j - 1, agentId);
      if Claims(cfg, t, ops[j - 1], agentId) { LaterClaim(cfg, t, ops[j - 1], agentId); }
    }
  }

  lemma LastClaimStep(cfg: Config, s: State, m: int, n: int, ops: seq<Op>, j: nat, agentId: string)
    requires Linked(s.chain, m, n) && OnePerAgent(s.faucet) && 0 < j <= |ops|
    ensures var t, op := Run(cfg, s, m, n, ops[..j - 1]), ops[j - 1];
            LastClaim(Run(cfg, s, m, n, ops[..j]).faucet, agentId) ==
            if Claims(cfg, t, op, agentId) then op.now else LastClaim(t.faucet, agentId)
  {
    hide Claims, Step, Linked, OnePerAgent, LastClaim, PaidTo, Owed, Log;
    var front := ops[..j - 1];
    assert ops[..j][..j - 1] == front;
    RunPays(cfg, s, m, n, front, agentId);
    StepPays(cfg, Run(cfg, s, m, n, front), m, TopAfter(n, front), ops[j - 1], agentId);
  }

  lemma IsClaim(cfg: Config, s: State, op: Op, agentId: string)
    requires Claims(cfg, s, op, agentId)
    ensures op.ClaimFaucet?
  {
  }
}
