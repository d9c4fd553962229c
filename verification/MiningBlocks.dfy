/** What a mined block says of itself and of what it carries, and what the queues answer. */
module MiningBlocks {
  import opened Wrappers
  import opened Mining

  // ---- blocks ----

  /** Block b was mined on last at that time: its own coinbase, what was waiting, a header over its transactions, and the rest copied. */
  ghost predicate MinedOn(last: Block, b: Block, at: real) {
    && last.transactions != [] && b.transactions != [] && b.header.Some? && last.header.Some?
    && b.index == last.index + 1 && b.txCount == |b.transactions| && b.persistedAt == at && b.rest == last.rest
    && b.immutableHash == b.hash == Some(HashOf(b.header.value))
    && b.transactions[0] == Tx(CoinbaseId(b.index, at), at, last.transactions[0].kind)
    && var h, was := b.header.value, last.header.value;
       && h.timestamp == at && h.prev == last.hash && h.rest == was.rest
       && (h.merkleRoot.Some? <==> was.merkleRoot.Some?)
       && (h.merkleRoot.Some? ==> |h.merkleRoot.value| == |b.transactions|)
       && (h.merkleRoot.Some? ==> forall i :: 0 <= i < |b.transactions| ==> h.merkleRoot.value[i] == b.transactions[i].id)
  }

  lemma MineShapes(cfg: Config, s: State, m: int, n: int, now: real)
    requires Linked(s.chain, m, n)
    ensures var (t, answer) := MineStep(cfg, s, n, now);
      && n + 1 in t.chain && MinedOn(s.chain[n], t.chain[n + 1], now)
      && answer == Mined(n + 1, t.chain[n + 1].hash.value, |t.chain[n + 1].transactions|, t.chain[n + 1].header.value.nonce)
      && (t.lastHash.Some? <==> s.lastHash.Some?) && (t.lastHash.Some? ==> t.lastHash == t.chain[n + 1].hash)
      && t.heights.Keys == s.heights.Keys
      && (forall k :: k in s.heights ==>
            t.heights[k] == if k in {"_chain_height", "height", "chain_height"} then n + 1 else s.heights[k])
  {
    hide Waiting, MinedClaims, AnchoredAll;
  }

  ghost predicate MinedAt(chain: map<int, Block>, k: int) {
    k in chain && k - 1 in chain && MinedOn(chain[k - 1], chain[k], chain[k].persistedAt)
  }

  /** Every block above m was mined on the one below it. */
  ghost predicate AllMined(chain: map<int, Block>, m: int, n: int) {
    forall k :: m < k <= n ==> MinedAt(chain, k)
  }

  lemma StepShapes(cfg: Config, s: State, m: int, n: int, op: Op)
    requires Linked(s.chain, m, n) && AllMined(s.chain, m, n)
    ensures AllMined(Step(cfg, s, n, op).chain, m, if op.Mine? then n + 1 else n)
  {
    if op.Mine? {
      MineShapes(cfg, s, m, n, op.now);
      MineLinks(cfg, s, m, n, op.now);
      hide MinedOn, MineStep, Linked;
      var c, d := s.chain, MineStep(cfg, s, n, op.now).0.chain;
      assert n + 1 in d && d[n + 1].persistedAt == op.now by { MinedWhen(c[n], d[n + 1], op.now); }
      forall k | m < k <= n + 1 ensures MinedAt(d, k) {
        if k <= n { assert MinedAt(c, k); }
      }
    } else {
      TopStored(s.chain, m, n);
      QuietStep(cfg, s, n, op);
    }
  }

  lemma MinedWhen(last: Block, b: Block, at: real)
    requires MinedOn(last, b, at)
    ensures b.persistedAt == at
  {
  }

  /** Over every run, whatever was there at the start. */
  lemma {:induction false} RunShapes(cfg: Config, s: State, m: int, n: int, ops: seq<Op>)
    requires Linked(s.chain, m, n) && AllMined(s.chain, m, n)
    ensures AllMined(Run(cfg, s, m, n, ops).chain, m, TopAfter(n, ops))
  {
    hide AllMined, Step, Linked;
    if ops != [] {
      var front := ops[..|ops| - 1];
      RunShapes(cfg, s, m, n, front);
      StepShapes(cfg, Run(cfg, s, m, n, front), m, TopAfter(n, front), ops[|ops| - 1]);
    }
  }

  /** The height entries that are present and the last hash, where it is kept, name the top. */
  ghost predicate TopNamed(s: State, n: int) {
    && (forall k :: k in s.heights && k in {"_chain_height", "height", "chain_height"} ==> s.heights[k] == n)
    && (s.lastHash.Some? ==> n in s.chain && s.lastHash == s.chain[n].hash)
  }

  /** Over every run they still do; and once a block was mined they do whatever they said before. */
  lemma {:induction false} RunNamesTop(cfg: Config, s: State, m: int, n: int, ops: seq<Op>)
    requires Linked(s.chain, m, n) && (TopNamed(s, n) || !NoMine(ops))
    ensures TopNamed(Run(cfg, s, m, n, ops), TopAfter(n, ops))
  {
    hide Step, Linked, TopNamed;
    if ops != [] {
      var front, op := ops[..|ops| - 1], ops[|ops| - 1];
      var t := Run(cfg, s, m, n, front);
      if !op.Mine? {
        assert !NoMine(ops) ==> !NoMine(front) by {
          if i :| 0 <= i < |ops| && ops[i].Mine? { assert front[i] == ops[i]; }
        }
        RunNamesTop(cfg, s, m, n, front);
      }
      StepNamesTop(cfg, t, m, TopAfter(n, front), op);
    }
  }

  lemma StepNamesTop(cfg: Config, s: State, m: int, n: int, op: Op)
    requires Linked(s.chain, m, n) && (TopNamed(s, n) || op.Mine?)
    ensures TopNamed(Step(cfg, s, n, op), if op.Mine? then n + 1 else n)
  {
    hide Linked, MineStep;
    TopStored(s.chain, m, n);
    if op.Mine? { MineShapes(cfg, s, m, n, op.now); }
  }

  // ---- what the block carries ----

  /** A payment repeats a queued claim, a transfer a pending broadcast, an identity a waiting registration. */
  ghost predicate Carries(s: State, t: Tx) {
    match t.kind
    case Coinbase(_) => false
    case Faucet(a, addr, n) =>
      exists c :: c in s.faucet && c.queued && t.id == c.txId && t.timestamp == c.lastClaim && a == c.agentId && addr == c.address && n == c.amount
    case Transfer(item) =>
      item in s.pending && t.timestamp == item.queuedAt && t.id == OfSignature(if item.sig.Some? then item.sig.value else "None")
    case Identity(a, addr) =>
      exists r :: r in s.agents && !r.anchored && t.id == r.identityHash && t.timestamp == r.registeredAt && a == r.agentId && addr == r.address
  }

  lemma {:induction false} FaucetTxsCarry(s: State, k: nat)
    requires k <= |s.faucet|
    ensures forall t :: t in FaucetTxs(s.faucet[..k]) ==> Carries(s, t)
  {
    if k > 0 {
      assert s.faucet[..k][..k - 1] == s.faucet[..k - 1];
      FaucetTxsCarry(s, k - 1);
      var c := s.faucet[k - 1];
      assert c in s.faucet;
      assert c.queued ==> Carries(s, Tx(c.txId, c.lastClaim, Faucet(c.agentId, c.address, c.amount)));
    }
  }

  lemma {:induction false} IdentityTxsCarry(s: State, k: nat)
    requires k <= |s.agents|
    ensures forall t :: t in IdentityTxs(s.agents[..k]) ==> Carries(s, t)
  {
    if k > 0 {
      assert s.agents[..k][..k - 1] == s.agents[..k - 1];
      IdentityTxsCarry(s, k - 1);
      var r := s.agents[k - 1];
      assert r in s.agents;
      assert !r.anchored ==> Carries(s, Tx(r.identityHash, r.registeredAt, Identity(r.agentId, r.address)));
    }
  }

  /** All a block carries besides its coinbase repeats what was waiting. */
  lemma BlockCarries(cfg: Config, s: State, m: int, n: int, now: real, t: Tx)
    requires Linked(s.chain, m, n)
    ensures var u := MineStep(cfg, s, n, now).0; n + 1 in u.chain && (t in Work(u.chain[n + 1]) ==> Carries(s, t))
  {
    MineLinks(cfg, s, m, n, now);
    hide MineStep, FaucetTxs, IdentityTxs, Carries, Work, Linked;
    FaucetTxsCarry(s, |s.faucet|);
    IdentityTxsCarry(s, |s.agents|);
    assert s.faucet[..|s.faucet|] == s.faucet && s.agents[..|s.agents|] == s.agents;
    forall x | x in TransferTxs(s.pending) ensures Carries(s, x) {
      TransferCarries(s, x);
    }
  }

  lemma TransferCarries(s: State, x: Tx)
    requires x in TransferTxs(s.pending)
    ensures Carries(s, x)
  {
    var i :| 0 <= i < |s.pending| && TransferTxs(s.pending)[i] == x;
    assert s.pending[i] in s.pending;
  }

  // ---- what the queue answers ----

  /** A broadcast is refused exactly when a pending one bears its signature, changing nothing; accepted, it comes last, stamped, and of
      all pending the last 5000 stay. */
  lemma QueueAnswers(s: State, payload: Broadcast, now: real)
    ensures var (t, answer) := QueueStep(s, payload, now);
      && (answer == DuplicateSig <==> exists b :: b in s.pending && b.sig == payload.sig)
      && (answer == DuplicateSig ==> t == s)
      && (answer == Queued ==>
            var all := s.pending + [payload.(serial := s.accepted, queuedAt := now)];
            && |t.pending| == (if |all| <= 5000 then |all| else 5000)
            && t.pending == all[|all| - |t.pending|..] && t.dropped + t.pending == s.dropped + all
            && t == s.(pending := t.pending, dropped := t.dropped, accepted := s.accepted + 1))
  {
  }

  // ---- what the registry answers ----

  const LOWER := "abcdefghijklmnopqrstuvwxyz"
  const UPPER := "ABCDEFGHIJKLMNOPQRSTUVWXYZ"
  const OTHERS := "0123456789_-"

  lemma IdChars(c: char)
    ensures c in LOWER <==> 'a' <= c <= 'z'
    ensures c in UPPER <==> 'A' <= c <= 'Z'
    ensures c in OTHERS <==> '0' <= c <= '9' || c == '_' || c == '-'
  {
  }

  lemma AgentIdExact(id: string)
    ensures ValidAgentId(id) <==> 3 <= |id| <= 32 && forall c :: c in id ==> c in LOWER + UPPER + OTHERS
  {
    forall c: char
      ensures c in LOWER + UPPER + OTHERS <==> 'A' <= c <= 'Z' || 'a' <= c <= 'z' || '0' <= c <= '9' || c == '_' || c == '-'
    {
      IdChars(c);
    }
    assert forall i :: 0 <= i < |id| ==> id[i] in id;
  }

  ghost predicate Between(cfg: Config, s: string, r: string, i: int, j: int) {
    && 0 <= i <= j <= |s| && r == s[i..j]
    && (forall k :: 0 <= k < i ==> cfg.isSpace(s[k])) && (forall k :: j <= k < |s| ==> cfg.isSpace(s[k]))
  }

  /** r is s without the white space around it. */
  ghost predicate StrippedTo(cfg: Config, s: string, r: string) {
    && (exists i, j :: Between(cfg, s, r, i, j))
    && (r == "" || (!cfg.isSpace(r[0]) && !cfg.isSpace(r[|r| - 1])))
  }

  lemma {:induction false} StripBetween(cfg: Config, s: string) returns (i: int, j: int)
    ensures Between(cfg, s, Strip(cfg.isSpace, s), i, j)
    decreases |s|
  {
    if s == "" {
      i, j := 0, 0;
    } else if cfg.isSpace(s[0]) {
      i, j := StripBetween(cfg, s[1..]);
      assert forall k :: 0 < k < |s| ==> s[k] == s[1..][k - 1];
      assert s[1..][i..j] == s[i + 1..j + 1];
      i, j := i + 1, j + 1;
    } else if cfg.isSpace(s[|s| - 1]) {
      i, j := StripBetween(cfg, s[..|s| - 1]);
      assert s[..|s| - 1][i..j] == s[i..j];
      assert forall k :: 0 <= k < |s| - 1 ==> s[k] == s[..|s| - 1][k];
    } else {
      i, j := 0, |s|;
    }
  }

  lemma StripExact(cfg: Config, s: string)
    ensures StrippedTo(cfg, s, Strip(cfg.isSpace, s))
  {
    var i, j := StripBetween(cfg, s);
  }

  ghost predicate AddressForm(address: string) {
    "b'/t" <= address
  }

  /** The first rule that fails answers; one accepted is stored last, waiting, and answers its identity hash. */
  ghost predicate RegisteredAs(cfg: Config, s: State, rawId: string, given: string, now: real, id: string, address: string) {
    var (t, answer) := RegisterStep(cfg, s, rawId, given, now);
    var valid := 3 <= |id| <= 32 && forall c :: c in id ==> c in LOWER + UPPER + OTHERS;
    var known := exists r :: r in s.agents && r.agentId == id;
    && StrippedTo(cfg, rawId, id) && StrippedTo(cfg, if given == "" then "b'/t" + cfg.fallback(id) else given, address)
    && (answer == InvalidAgentId <==> !valid)
    && (answer == InvalidAddress <==> valid && !AddressForm(address))
    && (answer == AlreadyRegistered <==> valid && AddressForm(address) && known)
    && (answer.Registered? <==> valid && AddressForm(address) && !known)
    && (answer.Registered? ==>
          && answer.identityHash == OfIdentity(id, address, now)
          && t == s.(agents := s.agents + [Registration(id, address, answer.identityHash, now, false)]))
    && (!answer.Registered? ==> t == s)
  }

  /** A registration is taken as given but for the white space around, with the fallback address where none was given. */
  lemma RegisterAnswers(cfg: Config, s: State, rawId: string, given: string, now: real)
    ensures exists id, address :: RegisteredAs(cfg, s, rawId, given, now, id, address)
  {
    var id := Strip(cfg.isSpace, rawId);
    var text := if given == "" then "b'/t" + cfg.fallback(id) else given;
    var address := Strip(cfg.isSpace, text);
    StripExact(cfg, rawId);
    StripExact(cfg, text);
    AgentIdExact(id);
    KnownExact(s.agents, id);
    hide Strip, StrippedTo, ValidAgentId, Known;
    assert RegisteredAs(cfg, s, rawId, given, now, id, address);
  }

  lemma KnownExact(agents: seq<Registration>, id: string)
    ensures Known(agents, id) <==> exists r :: r in agents && r.agentId == id
  {
  }

  // ---- what the faucet answers ----

  /** A claim waits out the day first, then its address is looked at; the answer tells the whole seconds left. */
  lemma ClaimAnswers(cfg: Config, s: State, agentId: string, address: string, now: real)
    ensures var answer, left := ClaimStep(cfg, s, agentId, address, now).1, LastClaim(s.faucet, agentId) + 86400.0 - now;
      && (answer.Cooldown? <==> left > 0.0)
      && (answer.Cooldown? ==> answer.waitSeconds as real <= left < answer.waitSeconds as real + 1.0)
      && (answer == InvalidClaimAddress <==> left <= 0.0 && !cfg.validAddress(address))
  {
    hide PutClaim, ClaimOf;
  }
}
