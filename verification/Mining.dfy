/** The miner with its queues: broadcasts and registrations wait, and each mined block takes all of them. */
module Mining {
  import opened Wrappers

  /** A transaction id or identity hash, by what it is the digest of. */
  datatype TxId =
    | CoinbaseId(index: int, now: real)
    | Given(text: string)
    | OfSignature(sig: string)
    | OfIdentity(agentId: string, address: string, now: real)
    | OfFaucet(agentId: string, address: string, now: real)

  /** A block hash is the digest of a header; hashing is injective by construction. */
  datatype BlockHash = Stored(text: string) | HashOf(header: Header)

  datatype Header = Header(prev: Option<BlockHash>, timestamp: real, nonce: nat, merkleRoot: Option<seq<TxId>>, rest: string)

  /** serial numbers the accepted broadcasts in order; the source keeps no such number. */
  datatype Broadcast = Broadcast(serial: nat, sig: Option<string>, from: string, to: string, amount: real, pubkey: string, queuedAt: real)

  datatype Claim = Claim(agentId: string, txId: TxId, address: string, amount: real, lastClaim: real,
                         queued: bool, minedIn: Option<int>, minedAt: real)

  datatype Registration = Registration(agentId: string, address: string, identityHash: TxId, registeredAt: real, anchored: bool)

  datatype Kind =
    | Coinbase(rest: string)
    | Faucet(agentId: string, address: string, amount: real)
    | Transfer(item: Broadcast)
    | Identity(agentId: string, address: string)

  datatype Tx = Tx(id: TxId, timestamp: real, kind: Kind)

  datatype Block = Block(index: int, header: Option<Header>, hash: Option<BlockHash>, transactions: seq<Tx>, txCount: nat,
                         persistedAt: real, immutableHash: Option<BlockHash>, rest: string)

  /** The files the miner and the daemon share. lastHash is kept only where the file has that entry; dropped records what
      the cap on the queue let go. */
  datatype State = State(
    chain: map<int, Block>,
    heights: map<string, int>,
    lastHash: Option<BlockHash>,
    faucet: seq<Claim>,
    pending: seq<Broadcast>,
    mined: seq<Broadcast>,
    agents: seq<Registration>,
    accepted: nat,
    dropped: seq<Broadcast>)

  /** The difficulty test on a hash, the digest text of the fallback address, what str.strip() takes for white space, and
      the faucet's address check. */
  datatype Config = Config(meets: BlockHash -> bool, fallback: string -> string, isSpace: char -> bool, validAddress: string -> bool)

  const QUEUE_CAP := 5000
  const EMPTY_HEADER := Header(None, 0.0, 0, None, "")

  // ---- the queue and the registry ----

  datatype QueueAnswer = DuplicateSig | Queued

  predicate HasSig(items: seq<Broadcast>, sig: Option<string>) {
    exists i :: 0 <= i < |items| && items[i].sig == sig
  }

  /** items[:-5000], what items[-5000:] leaves behind. */
  function Overflow(items: seq<Broadcast>): nat {
    if |items| > QUEUE_CAP then |items| - QUEUE_CAP else 0
  }

  function QueueStep(s: State, payload: Broadcast, now: real): (State, QueueAnswer) {
    if HasSig(s.pending, payload.sig) then (s, DuplicateSig)
    else
      var items := s.pending + [payload.(serial := s.accepted, queuedAt := now)];
      var k := Overflow(items);
      (s.(pending := items[k..], dropped := s.dropped + items[..k], accepted := s.accepted + 1), Queued)
  }

  datatype RegisterAnswer = InvalidAgentId | InvalidAddress | AlreadyRegistered | Registered(identityHash: TxId)

  /** ^[A-Za-z0-9_-]{3,32}$ on stripped text. */
  predicate ValidAgentId(s: string) {
    3 <= |s| <= 32 && forall i :: 0 <= i < |s| ==>
      'A' <= s[i] <= 'Z' || 'a' <= s[i] <= 'z' || '0' <= s[i] <= '9' || s[i] == '_' || s[i] == '-'
  }

  predicate Known(agents: seq<Registration>, agentId: string) {
    exists i :: 0 <= i < |agents| && agents[i].agentId == agentId
  }

  /** str.strip() */
  function Strip(isSpace: char -> bool, s: string): (r: string)
    ensures r == "" || (!isSpace(r[0]) && !isSpace(r[|r| - 1]))
    decreases |s|
  {
    if s == "" then ""
    else if isSpace(s[0]) then Strip(isSpace, s[1..])
    else if isSpace(s[|s| - 1]) then Strip(isSpace, s[..|s| - 1])
    else s
  }

  function RegisterStep(cfg: Config, s: State, rawId: string, given: string, now: real): (State, RegisterAnswer) {
    var agentId := Strip(cfg.isSpace, rawId);
    var address := Strip(cfg.isSpace, if given == "" then "b'/t" + cfg.fallback(agentId) else given);
    if !ValidAgentId(agentId) then (s, InvalidAgentId)
    else if !(|address| >= 4 && address[..4] == "b'/t") then (s, InvalidAddress)
    else if Known(s.agents, agentId) then (s, AlreadyRegistered)
    else
      var id := OfIdentity(agentId, address, now);
      (s.(agents := s.agents + [Registration(agentId, address, id, now, false)]), Registered(id))
  }

  // ---- the faucet ----

  const COOLDOWN := 86400.0
  const FAUCET_AMOUNT := 10.0

  datatype ClaimAnswer = Cooldown(waitSeconds: int) | InvalidClaimAddress | Claimed(txId: TxId, amount: real)

  /** The claims are a dictionary in insertion order: a sequence keyed by agentId. */
  function ClaimOf(claims: seq<Claim>, agentId: string): Option<Claim> {
    if claims == [] then None
    else if claims[0].agentId == agentId then Some(claims[0])
    else ClaimOf(claims[1..], agentId)
  }

  function PutClaim(claims: seq<Claim>, c: Claim): seq<Claim> {
    if claims == [] then [c]
    else if claims[0].agentId == c.agentId then [c] + claims[1..]
    else [claims[0]] + PutClaim(claims[1..], c)
  }

  function LastClaim(claims: seq<Claim>, agentId: string): real {
    var c := ClaimOf(claims, agentId);
    if c.Some? then c.value.lastClaim else 0.0
  }

  function ClaimStep(cfg: Config, s: State, agentId: string, address: string, now: real): (State, ClaimAnswer) {
    var since := now - LastClaim(s.faucet, agentId);
    if since < COOLDOWN then (s, Cooldown((COOLDOWN - since).Floor))
    else if !cfg.validAddress(address) then (s, InvalidClaimAddress)
    else
      var id := OfFaucet(agentId, address, now);
      (s.(faucet := PutClaim(s.faucet, Claim(agentId, id, address, FAUCET_AMOUNT, now, true, None, 0.0))), Claimed(id, FAUCET_AMOUNT))
  }

  // ---- mining ----

  function FaucetTxs(claims: seq<Claim>): seq<Tx> {
    if claims == [] then []
    else
      var c := claims[|claims| - 1];
      var rest := FaucetTxs(claims[..|claims| - 1]);
      if c.queued then rest + [Tx(c.txId, c.lastClaim, Faucet(c.agentId, c.address, c.amount))] else rest
  }

  function TransferTx(b: Broadcast): Tx {
    Tx(OfSignature(if b.sig.None? then "None" else b.sig.value), b.queuedAt, Transfer(b))
  }

  function TransferTxs(items: seq<Broadcast>): (txs: seq<Tx>)
    ensures |txs| == |items| && forall i :: 0 <= i < |items| ==> txs[i] == TransferTx(items[i])
  {
    seq(|items|, i requires 0 <= i < |items| => TransferTx(items[i]))
  }

  function IdentityTxs(agents: seq<Registration>): seq<Tx> {
    if agents == [] then []
    else
      var r := agents[|agents| - 1];
      var rest := IdentityTxs(agents[..|agents| - 1]);
      if r.anchored then rest else rest + [Tx(r.identityHash, r.registeredAt, Identity(r.agentId, r.address))]
  }

  /** Everything waiting, in the order the miner takes it. */
  function Waiting(s: State): seq<Tx> {
    FaucetTxs(s.faucet) + (TransferTxs(s.pending) + IdentityTxs(s.agents))
  }

  function IdsOf(txs: seq<Tx>): (ids: seq<TxId>)
    ensures |ids| == |txs|
  {
    seq(|txs|, i requires 0 <= i < |txs| => txs[i].id)
  }

  /** The nonce the loop stops at: the first that meets the difficulty, or 201. */
  function Nonce(cfg: Config, h: Header, from: nat): (n: nat)
    requires from <= 201
    ensures from <= n <= 201
    ensures n == 201 || cfg.meets(HashOf(h.(nonce := n)))
    ensures forall k :: from <= k < n ==> !cfg.meets(HashOf(h.(nonce := k)))
    decreases 201 - from
  {
    if cfg.meets(HashOf(h.(nonce := from))) || from > 200 then from else Nonce(cfg, h, from + 1)
  }

  function MinedClaims(claims: seq<Claim>, index: int, now: real): (r: seq<Claim>)
    ensures |r| == |claims|
    ensures forall i :: 0 <= i < |r| ==>
              r[i] == if claims[i].queued then claims[i].(queued := false, minedIn := Some(index), minedAt := now) else claims[i]
  {
    seq(|claims|, i requires 0 <= i < |claims| =>
      if claims[i].queued then claims[i].(queued := false, minedIn := Some(index), minedAt := now) else claims[i])
  }

  function AnchoredAll(agents: seq<Registration>): (r: seq<Registration>)
    ensures |r| == |agents| && forall i :: 0 <= i < |r| ==> r[i] == agents[i].(anchored := true)
  {
    seq(|agents|, i requires 0 <= i < |agents| => agents[i].(anchored := true))
  }

  ghost predicate IsTop(chain: map<int, Block>, k: int) {
    k in chain && forall j :: j in chain ==> j <= k
  }

  datatype MineAnswer = NoChain | Raised | Mined(height: int, hash: BlockHash, txs: nat, nonce: nat)

  /** The header before the nonce loop. */
  function Draft(last: Block, txs: seq<Tx>, now: real): Header {
    var hdr := if last.header.Some? then last.header.value else EMPTY_HEADER;
    hdr.(prev := last.hash, timestamp := now,
         merkleRoot := if hdr.merkleRoot.Some? then Some(IdsOf(txs)) else None)
  }

  function BlockTxs(s: State, last: Block, now: real): seq<Tx>
    requires last.transactions != []
  {
    [last.transactions[0].(id := CoinbaseId(last.index + 1, now), timestamp := now)] + Waiting(s)
  }

  function NextBlock(cfg: Config, s: State, last: Block, now: real): Block
    requires last.transactions != []
  {
    var txs := BlockTxs(s, last, now);
    var draft := Draft(last, txs, now);
    var hdr := draft.(nonce := Nonce(cfg, draft, 0));
    last.(index := last.index + 1, header := if last.header.Some? then Some(hdr) else None, hash := Some(HashOf(hdr)),
          transactions := txs, txCount := |txs|, persistedAt := now, immutableHash := Some(HashOf(hdr)))
  }

  function BumpHeights(m: map<string, int>, index: int): map<string, int> {
    map k | k in m :: if k == "_chain_height" || k == "height" || k == "chain_height" then index else m[k]
  }

  /** Mining on top of the block stored under the greatest key. */
  function MineStep(cfg: Config, s: State, top: int, now: real): (State, MineAnswer)
    requires top in s.chain
  {
    var last := s.chain[top];
    if last.transactions == [] then (s, Raised)
    else
      var nb := NextBlock(cfg, s, last, now);
      var draft := Draft(last, nb.transactions, now);
      (s.(chain := s.chain[nb.index := nb],
          heights := BumpHeights(s.heights, nb.index),
          lastHash := if s.lastHash.Some? then nb.hash else None,
          faucet := MinedClaims(s.faucet, nb.index, now),
          mined := s.mined + s.pending,
          pending := [],
          agents := AnchoredAll(s.agents)),
       Mined(nb.index, nb.hash.value, |nb.transactions|, Nonce(cfg, draft, 0)))
  }

  // ---- the hash chain ----

  /** The transactions a block took from the queues: all but its coinbase. */
  function Work(b: Block): seq<Tx> {
    if b.transactions == [] then [] else b.transactions[1..]
  }

  /** Block k is hashed from its own header, which names the hash of block k - 1. */
  ghost predicate LinkAt(chain: map<int, Block>, k: int) {
    && k in chain && k - 1 in chain
    && chain[k].index == k
    && chain[k].header.Some?
    && chain[k].hash == Some(HashOf(chain[k].header.value))
    && chain[k].header.value.prev == chain[k - 1].hash
  }

  /** Every block above height m, up to the top n, is linked. */
  ghost predicate Linked(chain: map<int, Block>, m: int, n: int) {
    && m <= n && m in chain && IsTop(chain, n)
    && chain[n].index == n && chain[n].header.Some? && chain[n].transactions != []
    && forall k :: m < k <= n ==> LinkAt(chain, k)
  }

  datatype Op =
    | Queue(payload: Broadcast, now: real)
    | Register(agentId: string, address: string, now: real)
    | ClaimFaucet(agentId: string, address: string, now: real)
    | Mine(now: real)

  /** One atomic step on a linked chain whose top is n. */
  function Step(cfg: Config, s: State, n: int, op: Op): State
    requires n in s.chain
  {
    match op
    case Queue(p, now) => QueueStep(s, p, now).0
    case Register(a, addr, now) => RegisterStep(cfg, s, a, addr, now).0
    case ClaimFaucet(a, addr, now) => ClaimStep(cfg, s, a, addr, now).0
    case Mine(now) => MineStep(cfg, s, n, now).0
  }

  lemma NextBlockFacts(cfg: Config, s: State, last: Block, now: real)
    requires last.transactions != [] && last.header.Some?
    ensures var nb := NextBlock(cfg, s, last, now);
            && nb.index == last.index + 1
            && nb.header.Some? && nb.hash == Some(HashOf(nb.header.value)) && nb.header.value.prev == last.hash
            && nb.transactions != [] && nb.transactions[1..] == Waiting(s)
            && nb.header.value.nonce <= 201
            && (nb.header.value.nonce < 201 ==> cfg.meets(nb.hash.value))
            && forall k :: 0 <= k < nb.header.value.nonce ==> !cfg.meets(HashOf(nb.header.value.(nonce := k)))
  {
    hide Waiting, IdsOf;
  }

  /** Mining links one new block on top, under a key not used before; its nonce is the first to meet the target, or 201. */
  lemma MineLinks(cfg: Config, s: State, m: int, n: int, now: real)
    requires Linked(s.chain, m, n)
    ensures var t := MineStep(cfg, s, n, now).0;
            && Linked(t.chain, m, n + 1) && n + 1 !in s.chain && t.chain == s.chain[n + 1 := t.chain[n + 1]]
            && Work(t.chain[n + 1]) == Waiting(s)
            && var h := t.chain[n + 1].header.value;
               h.nonce <= 201 && (h.nonce < 201 ==> cfg.meets(HashOf(h)))
               && forall k :: 0 <= k < h.nonce ==> !cfg.meets(HashOf(h.(nonce := k)))
  {
    hide NextBlock, Waiting, BumpHeights, MinedClaims, AnchoredAll;
    NextBlockFacts(cfg, s, s.chain[n], now);
    var t := MineStep(cfg, s, n, now).0;
    forall k | m < k <= n + 1 ensures LinkAt(t.chain, k) {
      if k <= n { assert LinkAt(s.chain, k); }
    }
  }

  function TopAfter(n: int, ops: seq<Op>): int {
    if ops == [] then n else TopAfter(n, ops[..|ops| - 1]) + if ops[|ops| - 1].Mine? then 1 else 0
  }

  /** A run from a state whose chain is linked above m with top n. */
  ghost function Run(cfg: Config, s: State, m: int, n: int, ops: seq<Op>): (t: State)
    requires Linked(s.chain, m, n)
    ensures Linked(t.chain, m, TopAfter(n, ops))
  {
    if ops == [] then s
    else
      var front, op := ops[..|ops| - 1], ops[|ops| - 1];
      var t := Run(cfg, s, m, n, front);
      StepLinks(cfg, t, m, TopAfter(n, front), op);
      Step(cfg, t, TopAfter(n, front), op)
  }

  lemma StepLinks(cfg: Config, s: State, m: int, n: int, op: Op)
    requires Linked(s.chain, m, n)
    ensures var t := Step(cfg, s, n, op);
            Linked(t.chain, m, if op.Mine? then n + 1 else n)
    ensures forall k :: k in s.chain ==> k in Step(cfg, s, n, op).chain && Step(cfg, s, n, op).chain[k] == s.chain[k]
  {
    hide MineStep;
    if op.Mine? { MineLinks(cfg, s, m, n, op.now); } else { QuietStep(cfg, s, n, op); }
  }

  /** Mining never changes a block that is already there. */
  lemma {:induction false} EarlierBlocksStay(cfg: Config, s: State, m: int, n: int, ops: seq<Op>, k: int)
    requires Linked(s.chain, m, n) && k in s.chain
    ensures k in Run(cfg, s, m, n, ops).chain && Run(cfg, s, m, n, ops).chain[k] == s.chain[k]
  {
    hide Step, Linked;
    if ops != [] {
      var front := ops[..|ops| - 1];
      EarlierBlocksStay(cfg, s, m, n, front, k);
      StepLinks(cfg, Run(cfg, s, m, n, front), m, TopAfter(n, front), ops[|ops| - 1]);
    }
  }

  lemma QuietStep(cfg: Config, s: State, n: int, op: Op)
    requires n in s.chain && !op.Mine?
    ensures Step(cfg, s, n, op).chain == s.chain && Step(cfg, s, n, op).mined == s.mined
    ensures op.Queue? || op.ClaimFaucet? ==> Step(cfg, s, n, op).agents == s.agents
    ensures op.Queue? || op.Register? ==> Step(cfg, s, n, op).faucet == s.faucet
    ensures op.Register? || op.ClaimFaucet? ==> Step(cfg, s, n, op).pending == s.pending
    ensures op.Register? || op.ClaimFaucet? ==> Step(cfg, s, n, op).dropped == s.dropped
    ensures op.Register? || op.ClaimFaucet? ==> Step(cfg, s, n, op).accepted == s.accepted
  {
  }

  /** Two chains over one base with the same tip hash have the same headers all the way down. */
  lemma {:induction false} TipFixesHeaders(c: map<int, Block>, d: map<int, Block>, m: int, n: int, k: int)
    requires Linked(c, m, n) && Linked(d, m, n) && c[m].hash == d[m].hash && m < k <= n
    requires c[n].hash == d[n].hash
    ensures k in c && k in d && c[k].header == d[k].header && c[k].hash == d[k].hash
    decreases n - k
  {
    assert LinkAt(c, k) && LinkAt(d, k);
    if k < n {
      TipFixesHeaders(c, d, m, n, k + 1);
      assert LinkAt(c, k + 1) && LinkAt(d, k + 1);
      assert c[k].hash == c[k + 1].header.value.prev == d[k].hash;
    }
  }

  // ---- exactly once ----

  function Log(chain: map<int, Block>, m: int, n: int): seq<Tx>
    decreases n - m
  {
    if n <= m || n !in chain then [] else Log(chain, m, n - 1) + Work(chain[n])
  }

  function Transfers(txs: seq<Tx>): seq<Broadcast> {
    if txs == [] then []
    else
      var rest, last := Transfers(txs[..|txs| - 1]), txs[|txs| - 1].kind;
      if last.Transfer? then rest + [last.item] else rest
  }

  function Identities(txs: seq<Tx>): seq<string> {
    if txs == [] then []
    else
      var rest, last := Identities(txs[..|txs| - 1]), txs[|txs| - 1].kind;
      if last.Identity? then rest + [last.agentId] else rest
  }

  lemma {:induction false} FiltersConcat(a: seq<Tx>, b: seq<Tx>)
    ensures Transfers(a + b) == Transfers(a) + Transfers(b)
    ensures Identities(a + b) == Identities(a) + Identities(b)
  {
    if b == [] {
      assert a + b == a;
    } else {
      assert (a + b)[..|a + b| - 1] == a + b[..|b| - 1];
      FiltersConcat(a, b[..|b| - 1]);
    }
  }

  lemma FiltersSnoc(txs: seq<Tx>, t: Tx)
    ensures Transfers(txs + [t]) == Transfers(txs) + if t.kind.Transfer? then [t.kind.item] else []
    ensures Identities(txs + [t]) == Identities(txs) + if t.kind.Identity? then [t.kind.agentId] else []
  {
  }

  lemma {:induction false} FaucetHasNone(claims: seq<Claim>)
    ensures Transfers(FaucetTxs(claims)) == [] && Identities(FaucetTxs(claims)) == []
  {
    if claims != [] {
      var c := claims[|claims| - 1];
      FaucetHasNone(claims[..|claims| - 1]);
      FiltersSnoc(FaucetTxs(claims[..|claims| - 1]), Tx(c.txId, c.lastClaim, Faucet(c.agentId, c.address, c.amount)));
    }
  }

  lemma {:induction false} TransfersOf(items: seq<Broadcast>)
    ensures Transfers(TransferTxs(items)) == items && Identities(TransferTxs(items)) == []
  {
    if items != [] {
      var n := |items| - 1;
      TransfersOf(items[..n]);
      assert TransferTxs(items)[..n] == TransferTxs(items[..n]);
    }
  }

  function Unanchored(agents: seq<Registration>): seq<string> {
    if agents == [] then []
    else
      var rest, last := Unanchored(agents[..|agents| - 1]), agents[|agents| - 1];
      if last.anchored then rest else rest + [last.agentId]
  }

  lemma {:induction false} IdentitiesOf(agents: seq<Registration>)
    ensures Transfers(IdentityTxs(agents)) == [] && Identities(IdentityTxs(agents)) == Unanchored(agents)
  {
    if agents != [] {
      var n := |agents| - 1;
      IdentitiesOf(agents[..n]);
      FiltersSnoc(IdentityTxs(agents[..n]), Tx(agents[n].identityHash, agents[n].registeredAt, Identity(agents[n].agentId, agents[n].address)));
    }
  }

  /** What a block mined now would carry: all pending broadcasts in order, all pending identities in order. */
  lemma WaitingCarriesAll(s: State)
    ensures Transfers(Waiting(s)) == s.pending && Identities(Waiting(s)) == Unanchored(s.agents)
  {
    FaucetHasNone(s.faucet);
    TransfersOf(s.pending);
    IdentitiesOf(s.agents);
    FiltersConcat(TransferTxs(s.pending), IdentityTxs(s.agents));
    FiltersConcat(FaucetTxs(s.faucet), TransferTxs(s.pending) + IdentityTxs(s.agents));
  }

  lemma {:induction false} LogSame(c: map<int, Block>, d: map<int, Block>, m: int, n: int)
    requires forall k :: m < k <= n && k in c ==> k in d && c[k] == d[k]
    requires forall k :: m < k <= n && k in d ==> k in c
    ensures Log(c, m, n) == Log(d, m, n)
    decreases n - m
  {
    if n > m { LogSame(c, d, m, n - 1); }
  }

  /** Mining empties the queues into the log. */
  lemma MineLogs(cfg: Config, s: State, m: int, n: int, now: real)
    requires Linked(s.chain, m, n)
    ensures var t := MineStep(cfg, s, n, now).0;
            && Linked(t.chain, m, n + 1)
            && Transfers(Work(t.chain[n + 1])) == s.pending
            && Transfers(LogOf(t, m, n + 1)) == Transfers(LogOf(s, m, n)) + s.pending
            && Identities(LogOf(t, m, n + 1)) == Identities(LogOf(s, m, n)) + Unanchored(s.agents)
  {
    hide MineStep, Waiting, Transfers, Identities, Unanchored;
    MineLinks(cfg, s, m, n, now);
    var t := MineStep(cfg, s, n, now).0;
    LogSame(s.chain, t.chain, m, n);
    FiltersConcat(Log(s.chain, m, n), Waiting(s));
    WaitingCarriesAll(s);
  }

  /** All transactions taken from the queues into blocks above m. */
  function LogOf(s: State, m: int, n: int): seq<Tx> {
    Log(s.chain, m, n)
  }

  // ---- broadcasts: every serial is in exactly one place ----

  function Serials(items: seq<Broadcast>): multiset<nat> {
    if items == [] then multiset{} else Serials(items[..|items| - 1]) + multiset{items[|items| - 1].serial}
  }

  function FirstSerials(count: nat): (b: multiset<nat>)
    ensures forall k: nat :: b[k] == if k < count then 1 else 0
  {
    if count == 0 then multiset{} else FirstSerials(count - 1) + multiset{count - 1}
  }

  lemma {:induction false} SerialsConcat(a: seq<Broadcast>, b: seq<Broadcast>)
    ensures Serials(a + b) == Serials(a) + Serials(b)
  {
    if b == [] {
      assert a + b == a;
    } else {
      assert (a + b)[..|a + b| - 1] == a + b[..|b| - 1];
      SerialsConcat(a, b[..|b| - 1]);
    }
  }

  /** Mined, pending and dropped broadcasts together are each accepted broadcast once. */
  ghost predicate AllAccounted(s: State, m: int, n: int) {
    Serials(Transfers(LogOf(s, m, n))) + Serials(s.pending) + Serials(s.dropped) == FirstSerials(s.accepted)
  }

  lemma QueueAccounts(s: State, payload: Broadcast, now: real)
    ensures var (t, answer) := QueueStep(s, payload, now);
            && t.accepted == s.accepted + (if answer == Queued then 1 else 0)
            && Serials(t.pending) + Serials(t.dropped) ==
               Serials(s.pending) + Serials(s.dropped) + if answer == Queued then multiset{s.accepted} else multiset{}
  {
    hide HasSig, Serials;
    var (t, answer) := QueueStep(s, payload, now);
    if answer == Queued {
      var item := payload.(serial := s.accepted, queuedAt := now);
      var items := s.pending + [item];
      var k := Overflow(items);
      assert items == items[..k] + items[k..];
      SerialsConcat(items[..k], items[k..]);
      SerialsConcat(s.pending, [item]);
      SerialsConcat(s.dropped, items[..k]);
      OneSerial(item);
      assert Serials(t.pending) + Serials(t.dropped) == Serials(s.dropped) + Serials(items);
    } else {
      var all := Serials(s.pending) + Serials(s.dropped);
      assert all == all + multiset{};
    }
  }

  lemma OneSerial(item: Broadcast)
    ensures Serials([item]) == multiset{item.serial}
  {
  }

  lemma StepAccounts(cfg: Config, s: State, m: int, n: int, op: Op)
    requires Linked(s.chain, m, n) && AllAccounted(s, m, n)
    ensures var t := Step(cfg, s, n, op);
            var n' := if op.Mine? then n + 1 else n;
            Linked(t.chain, m, n') && AllAccounted(t, m, n')
  {
    hide Serials, Transfers, FirstSerials, QueueStep, MineStep, RegisterStep, ClaimStep, Log;
    StepLinks(cfg, s, m, n, op);
    var t := Step(cfg, s, n, op);
    match op
    case Queue(p, now) =>
      QueueAccounts(s, p, now);
      QuietStep(cfg, s, n, op);
      var logged := Serials(Transfers(LogOf(s, m, n)));
      assert logged + Serials(t.pending) + Serials(t.dropped) == logged + (Serials(t.pending) + Serials(t.dropped));
      assert logged + (Serials(s.pending) + Serials(s.dropped)) == FirstSerials(s.accepted);
      NextSerial(s.accepted);
    case Register(_, _, _) =>
      QuietStep(cfg, s, n, op);
    case ClaimFaucet(_, _, _) =>
      QuietStep(cfg, s, n, op);
    case Mine(now) =>
      MineLogs(cfg, s, m, n, now);
      MineEmpties(cfg, s, m, n, now);
      SerialsConcat(Transfers(LogOf(s, m, n)), s.pending);
  }

  lemma NextSerial(count: nat)
    ensures FirstSerials(count + 1) == FirstSerials(count) + multiset{count}
  {
  }

  lemma MineEmpties(cfg: Config, s: State, m: int, n: int, now: real)
    requires Linked(s.chain, m, n)
    ensures var t := MineStep(cfg, s, n, now).0;
            && t.pending == [] && Serials(t.pending) == multiset{} && t.mined == s.mined + s.pending
            && t.dropped == s.dropped && t.accepted == s.accepted && t.agents == AnchoredAll(s.agents)
  {
    hide NextBlock, AnchoredAll;
  }

  /** The same over every run. */
  lemma {:induction false} RunAccounts(cfg: Config, s: State, m: int, n: int, ops: seq<Op>)
    requires Linked(s.chain, m, n) && AllAccounted(s, m, n)
    ensures AllAccounted(Run(cfg, s, m, n, ops), m, TopAfter(n, ops))
  {
    hide AllAccounted, Step, Linked;
    if ops != [] {
      var front := ops[..|ops| - 1];
      RunAccounts(cfg, s, m, n, front);
      StepAccounts(cfg, Run(cfg, s, m, n, front), m, TopAfter(n, front), ops[|ops| - 1]);
    }
  }

  /** Each accepted broadcast is in the blocks, in the queue or dropped: in one of them, and once. */
  lemma ExactlyOncePlace(cfg: Config, s: State, m: int, n: int, ops: seq<Op>, k: nat)
    requires Linked(s.chain, m, n) && AllAccounted(s, m, n)
    ensures var t := Run(cfg, s, m, n, ops);
            Serials(Transfers(LogOf(t, m, TopAfter(n, ops))))[k] + Serials(t.pending)[k] + Serials(t.dropped)[k]
            == if k < t.accepted then 1 else 0
  {
    hide Serials, Linked;
    RunAccounts(cfg, s, m, n, ops);
    var t := Run(cfg, s, m, n, ops);
    assert FirstSerials(t.accepted)[k] == if k < t.accepted then 1 else 0;
    assert (Serials(Transfers(LogOf(t, m, TopAfter(n, ops)))) + Serials(t.pending) + Serials(t.dropped))[k] == FirstSerials(t.accepted)[k];
  }

  /** What the miner lists as mined grows by just the transfers its blocks gain, in order. */
  lemma {:induction false} MinedListFollowsLog(cfg: Config, s: State, m: int, n: int, ops: seq<Op>, start: seq<Broadcast>)
    requires Linked(s.chain, m, n) && s.mined == start + Transfers(LogOf(s, m, n))
    ensures var t := Run(cfg, s, m, n, ops); t.mined == start + Transfers(LogOf(t, m, TopAfter(n, ops)))
  {
    hide Step, Linked, Transfers;
    if ops != [] {
      var front, op := ops[..|ops| - 1], ops[|ops| - 1];
      MinedListFollowsLog(cfg, s, m, n, front, start);
      StepLogs(cfg, Run(cfg, s, m, n, front), m, TopAfter(n, front), op, start);
    }
  }

  lemma StepLogs(cfg: Config, s: State, m: int, n: int, op: Op, start: seq<Broadcast>)
    requires Linked(s.chain, m, n) && s.mined == start + Transfers(LogOf(s, m, n))
    ensures var t := Step(cfg, s, n, op);
            t.mined == start + Transfers(LogOf(t, m, if op.Mine? then n + 1 else n))
  {
    hide MineStep, Transfers, Log;
    if op.Mine? {
      MineLogs(cfg, s, m, n, op.now);
      MineEmpties(cfg, s, m, n, op.now);
    } else {
      QuietStep(cfg, s, n, op);
    }
  }

  ghost predicate HasSerial(items: seq<Broadcast>, serial: nat) {
    exists i :: 0 <= i < |items| && items[i].serial == serial
  }

  ghost predicate NoMine(ops: seq<Op>) {
    forall i :: 0 <= i < |ops| ==> !ops[i].Mine?
  }

  lemma {:induction false} SerialCounted(items: seq<Broadcast>, serial: nat)
    ensures HasSerial(items, serial) <==> Serials(items)[serial] > 0
  {
    if items != [] {
      var n := |items| - 1;
      SerialCounted(items[..n], serial);
      if i :| 0 <= i < |items| && items[i].serial == serial && i < n { assert items[..n][i].serial == serial; }
      if i :| 0 <= i < n && items[..n][i].serial == serial { assert items[i].serial == serial; }
      assert items[n].serial == serial ==> HasSerial(items, serial);
    }
  }

  /** Where the broadcast of that serial stands once so many were accepted after it: that many places from the end of the
      queue, or, past the cap, among the dropped. */
  ghost predicate StandsAt(s: State, serial: nat) {
    serial < s.accepted &&
    var later := s.accepted - 1 - serial;
    if later < QUEUE_CAP then later < |s.pending| && s.pending[|s.pending| - 1 - later].serial == serial
    else HasSerial(s.dropped, serial)
  }

  lemma QueueMovesOn(s: State, payload: Broadcast, now: real, serial: nat)
    requires StandsAt(s, serial)
    ensures StandsAt(QueueStep(s, payload, now).0, serial)
  {
    hide HasSig;
    var (t, answer) := QueueStep(s, payload, now);
    if answer == Queued {
      var items := s.pending + [payload.(serial := s.accepted, queuedAt := now)];
      var k := Overflow(items);
      var later := s.accepted - 1 - serial;
      if later < QUEUE_CAP {
        var i := |s.pending| - 1 - later;
        assert items[i].serial == serial;
        if later + 1 < QUEUE_CAP {
          assert t.pending[i - k] == items[i];
        } else {
          assert t.dropped[|s.dropped| + i] == items[i];
        }
      } else {
        var i :| 0 <= i < |s.dropped| && s.dropped[i].serial == serial;
        assert t.dropped[i] == s.dropped[i];
      }
    }
  }

  lemma {:induction false} StandsUntilMined(cfg: Config, s: State, m: int, n: int, ops: seq<Op>, serial: nat)
    requires Linked(s.chain, m, n) && NoMine(ops) && StandsAt(s, serial)
    ensures TopAfter(n, ops) == n && StandsAt(Run(cfg, s, m, n, ops), serial)
  {
    hide Linked, QueueStep, MineStep, RegisterStep, StandsAt;
    if ops != [] {
      var front, op := ops[..|ops| - 1], ops[|ops| - 1];
      StandsUntilMined(cfg, s, m, n, front, serial);
      var t := Run(cfg, s, m, n, front);
      if op.Queue? {
        QueueMovesOn(t, op.payload, op.now, serial);
      } else {
        TopStored(t.chain, m, n);
        QuietStep(cfg, t, n, op);
        SameQueue(t, Step(cfg, t, n, op), serial);
      }
    }
  }

  lemma TopStored(chain: map<int, Block>, m: int, n: int)
    requires Linked(chain, m, n)
    ensures n in chain
  {
  }

  lemma SameQueue(s: State, t: State, serial: nat)
    requires StandsAt(s, serial) && t.pending == s.pending && t.dropped == s.dropped && t.accepted == s.accepted
    ensures StandsAt(t, serial)
  {
  }

  lemma AcceptedStands(s: State, payload: Broadcast, at: real)
    requires QueueStep(s, payload, at).1 == Queued
    ensures StandsAt(QueueStep(s, payload, at).0, s.accepted) && QueueStep(s, payload, at).0.chain == s.chain
    ensures QueueStep(s, payload, at).0.accepted == s.accepted + 1
  {
    hide HasSig;
  }

  /** Each serial is in one place only, so in the queue and among the dropped never both. */
  lemma NotBoth(s: State, m: int, n: int, serial: nat)
    requires AllAccounted(s, m, n)
    ensures !(HasSerial(s.pending, serial) && HasSerial(s.dropped, serial))
  {
    hide Serials, HasSerial;
    SerialCounted(s.pending, serial);
    SerialCounted(s.dropped, serial);
    assert (Serials(Transfers(LogOf(s, m, n))) + Serials(s.pending) + Serials(s.dropped))[serial] == FirstSerials(s.accepted)[serial];
  }

  /** A broadcast accepted before steps without mining is in the very next block exactly when fewer than the cap were accepted
      after it; otherwise, and only then, the cap has dropped it. */
  lemma InFirstBlockAfter(cfg: Config, s: State, m: int, n: int, payload: Broadcast, at: real, ops: seq<Op>, now: real)
    requires Linked(s.chain, m, n) && AllAccounted(s, m, n) && NoMine(ops) && QueueStep(s, payload, at).1 == Queued
    ensures var q := QueueStep(s, payload, at).0;
            Linked(q.chain, m, n) &&
            var t := Run(cfg, q, m, n, ops);
            n in t.chain &&
            var u := MineStep(cfg, t, n, now).0;
            && n + 1 in u.chain && u.pending == []
            && (HasSerial(Transfers(Work(u.chain[n + 1])), s.accepted) <==> t.accepted - q.accepted < QUEUE_CAP)
            && (HasSerial(t.dropped, s.accepted) <==> t.accepted - q.accepted >= QUEUE_CAP)
  {
    AcceptedStands(s, payload, at);
    StepAccounts(cfg, s, m, n, Queue(payload, at));
    hide MineStep, QueueStep, Transfers, AllAccounted, Linked;
    var q := QueueStep(s, payload, at).0;
    StandsUntilMined(cfg, q, m, n, ops, s.accepted);
    RunAccounts(cfg, q, m, n, ops);
    var t := Run(cfg, q, m, n, ops);
    NotBoth(t, m, n, s.accepted);
    MineLogs(cfg, t, m, n, now);
    MineLinks(cfg, t, m, n, now);
    MineEmpties(cfg, t, m, n, now);
  }

  // ---- identities ----

  function AgentIds(agents: seq<Registration>): (ids: seq<string>)
    ensures |ids| == |agents| && forall i :: 0 <= i < |ids| ==> ids[i] == agents[i].agentId
  {
    seq(|agents|, i requires 0 <= i < |agents| => agents[i].agentId)
  }

  /** Every registered agent is anchored from before, mined, or waiting: in one of them, and once. */
  ghost predicate AgentsAccounted(s: State, m: int, n: int, before: multiset<string>) {
    && multiset(Identities(LogOf(s, m, n))) + multiset(Unanchored(s.agents)) + before == multiset(AgentIds(s.agents))
    && forall a :: multiset(AgentIds(s.agents))[a] <= 1
  }

  lemma RegisterAccounts(cfg: Config, s: State, agentId: string, given: string, now: real)
    requires forall a :: multiset(AgentIds(s.agents))[a] <= 1
    ensures var (t, answer) := RegisterStep(cfg, s, agentId, given, now);
            var extra := if answer.Registered? then multiset{Strip(cfg.isSpace, agentId)} else multiset{};
            && multiset(Unanchored(t.agents)) == multiset(Unanchored(s.agents)) + extra
            && multiset(AgentIds(t.agents)) == multiset(AgentIds(s.agents)) + extra
            && forall a :: multiset(AgentIds(t.agents))[a] <= 1
  {
    hide ValidAgentId, Unanchored, Strip;
    var (t, answer) := RegisterStep(cfg, s, agentId, given, now);
    if answer.Registered? {
      assert t.agents[..|s.agents|] == s.agents;
      UnanchoredSnoc(s.agents, t.agents[|s.agents|]);
      assert t.agents == s.agents + [t.agents[|s.agents|]];
      assert AgentIds(t.agents) == AgentIds(s.agents) + [Strip(cfg.isSpace, agentId)];
      assert Strip(cfg.isSpace, agentId) !in AgentIds(s.agents);
    }
  }

  lemma UnanchoredSnoc(agents: seq<Registration>, r: Registration)
    requires !r.anchored
    ensures Unanchored(agents + [r]) == Unanchored(agents) + [r.agentId]
  {
  }

  lemma {:induction false} AnchoredAllWaitsNone(agents: seq<Registration>)
    ensures Unanchored(AnchoredAll(agents)) == [] && AgentIds(AnchoredAll(agents)) == AgentIds(agents)
  {
    if agents != [] {
      assert AnchoredAll(agents)[..|agents| - 1] == AnchoredAll(agents[..|agents| - 1]);
      AnchoredAllWaitsNone(agents[..|agents| - 1]);
    }
  }

  lemma StepAgents(cfg: Config, s: State, m: int, n: int, op: Op, before: multiset<string>)
    requires Linked(s.chain, m, n) && AgentsAccounted(s, m, n, before)
    ensures AgentsAccounted(Step(cfg, s, n, op), m, if op.Mine? then n + 1 else n, before)
  {
    hide Identities, Unanchored, QueueStep, RegisterStep, ClaimStep, MineStep, Log;
    var t := Step(cfg, s, n, op);
    match op
    case Queue(_, _) => QuietStep(cfg, s, n, op);
    case ClaimFaucet(_, _, _) => QuietStep(cfg, s, n, op);
    case Register(a, addr, now) =>
      QuietStep(cfg, s, n, op);
      RegisterAccounts(cfg, s, a, addr, now);
    case Mine(now) =>
      MineLogs(cfg, s, m, n, now);
      MineEmpties(cfg, s, m, n, now);
      AnchoredAllWaitsNone(s.agents);
      assert multiset(Identities(LogOf(t, m, n + 1))) ==
             multiset(Identities(LogOf(s, m, n))) + multiset(Unanchored(s.agents));
  }

  /** Over every run, each registered agent's identity is in at most one block, and is mined or waiting, never both. */
  lemma {:induction false} RunAgents(cfg: Config, s: State, m: int, n: int, ops: seq<Op>, before: multiset<string>)
    requires Linked(s.chain, m, n) && AgentsAccounted(s, m, n, before)
    ensures AgentsAccounted(Run(cfg, s, m, n, ops), m, TopAfter(n, ops), before)
  {
    hide AgentsAccounted, Step, Linked;
    if ops != [] {
      var front := ops[..|ops| - 1];
      RunAgents(cfg, s, m, n, front, before);
      StepAgents(cfg, Run(cfg, s, m, n, front), m, TopAfter(n, front), ops[|ops| - 1], before);
    }
  }

  /** A block takes every identity waiting, so a registration is in the first block mined after it. */
  lemma IdentitiesInNextBlock(cfg: Config, s: State, m: int, n: int, now: real)
    requires Linked(s.chain, m, n)
    ensures var u := MineStep(cfg, s, n, now).0;
            n + 1 in u.chain && Identities(Work(u.chain[n + 1])) == Unanchored(s.agents) && Unanchored(u.agents) == []
  {
    hide MineStep, Identities, Unanchored;
    MineLinks(cfg, s, m, n, now);
    MineEmpties(cfg, s, m, n, now);
    WaitingCarriesAll(s);
    AnchoredAllWaitsNone(s.agents);
  }
}
