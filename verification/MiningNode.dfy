/** The shared files as one object, with the daemon's and the miner's operations on them. */
module MiningNodes {
  import opened Wrappers
  import opened Mining

  class Node {
    const config: Config
    var chain: map<int, Block>
    var heights: map<string, int>
    var lastHash: Option<BlockHash>
    var faucet: seq<Claim>
    var pending: seq<Broadcast>
    var mined: seq<Broadcast>
    var agents: seq<Registration>
    var accepted: nat
    ghost var dropped: seq<Broadcast>

    ghost function Snapshot(): State
      reads this
    {
      State(chain, heights, lastHash, faucet, pending, mined, agents, accepted, dropped)
    }

    /** A node over what the files hold. */
    constructor (config: Config, stored: State)
      ensures this.config == config && Snapshot() == stored
    {
      this.config := config;
      chain, heights, lastHash, faucet := stored.chain, stored.heights, stored.lastHash, stored.faucet;
      pending, mined, agents := stored.pending, stored.mined, stored.agents;
      accepted, dropped := stored.accepted, stored.dropped;
    }

    method QueueBroadcast(payload: Broadcast, now: real) returns (answer: QueueAnswer)
      modifies this`pending, this`accepted, this`dropped
      ensures (Snapshot(), answer) == QueueStep(old(Snapshot()), payload, now)
    {
      var items := pending;
      for i := 0 to |items|
        invariant forall j :: 0 <= j < i ==> items[j].sig != payload.sig
      {
        if items[i].sig == payload.sig {
          return DuplicateSig;
        }
      }
      items := items + [payload.(serial := accepted, queuedAt := now)];
      accepted := accepted + 1;
      var k := if |items| > QUEUE_CAP then |items| - QUEUE_CAP else 0;
      dropped := dropped + items[..k];
      pending := items[k..];
      answer := Queued;
    }

    method MylinkRegister(rawId: string, given: string, now: real) returns (answer: RegisterAnswer)
      modifies this`agents
      ensures (Snapshot(), answer) == RegisterStep(config, old(Snapshot()), rawId, given, now)
    {
      var agentId := Strip(config.isSpace, rawId);
      var address := given;
      if address == "" {
        address := "b'/t" + config.fallback(agentId);
      }
      address := Strip(config.isSpace, address);
      if !ValidAgentId(agentId) {
        return InvalidAgentId;
      }
      if |address| < 4 || address[..4] != "b'/t" {
        return InvalidAddress;
      }
      if Known(agents, agentId) {
        return AlreadyRegistered;
      }
      var hash := OfIdentity(agentId, address, now);
      agents := agents + [Registration(agentId, address, hash, now, false)];
      answer := Registered(hash);
    }

    method FaucetClaim(agentId: string, address: string, now: real) returns (answer: ClaimAnswer)
      modifies this`faucet
      ensures (Snapshot(), answer) == ClaimStep(config, old(Snapshot()), agentId, address, now)
    {
      var at := 0;
      while at < |faucet| && faucet[at].agentId != agentId
        invariant at <= |faucet|
        invariant forall j :: 0 <= j < at ==> faucet[j].agentId != agentId
      {
        at := at + 1;
      }
      ClaimFound(faucet, agentId, at);
      var last := if at < |faucet| then faucet[at].lastClaim else 0.0;
      if now - last < COOLDOWN {
        return Cooldown((COOLDOWN - (now - last)).Floor);
      }
      if !config.validAddress(address) {
        return InvalidClaimAddress;
      }
      var id := OfFaucet(agentId, address, now);
      var claim := Claim(agentId, id, address, FAUCET_AMOUNT, now, true, None, 0.0);
      ClaimPut(faucet, claim, at);
      faucet := if at < |faucet| then faucet[at := claim] else faucet + [claim];
      answer := Claimed(id, FAUCET_AMOUNT);
    }

    static lemma {:induction false} ClaimFound(claims: seq<Claim>, agentId: string, at: nat)
      requires at <= |claims| && (forall j :: 0 <= j < at ==> claims[j].agentId != agentId)
      requires at < |claims| ==> claims[at].agentId == agentId
      ensures ClaimOf(claims, agentId) == if at < |claims| then Some(claims[at]) else None
    {
      if at > 0 { ClaimFound(claims[1..], agentId, at - 1); }
    }

    static lemma {:induction false} ClaimPut(claims: seq<Claim>, c: Claim, at: nat)
      requires at <= |claims| && (forall j :: 0 <= j < at ==> claims[j].agentId != c.agentId)
      requires at < |claims| ==> claims[at].agentId == c.agentId
      ensures PutClaim(claims, c) == if at < |claims| then claims[at := c] else claims + [c]
    {
      if at > 0 {
        ClaimPut(claims[1..], c, at - 1);
        assert claims == [claims[0]] + claims[1..];
      }
    }

    static lemma HasKey(m: map<int, Block>)
      requires m != map[]
      ensures exists k: int :: k in m
    {
      assert (forall k: int :: k !in m) ==> m == map[];
    }

    /** The last of the sorted block keys. */
    method LastKey() returns (top: int)
      requires chain != map[]
      ensures IsTop(chain, top)
    {
      var rest := chain;
      HasKey(rest);
      top :| top in rest;
      rest := rest - {top};
      while rest != map[]
        invariant top in chain && rest.Keys <= chain.Keys
        invariant forall k :: k in chain && k !in rest ==> k <= top
        decreases |rest|
      {
        HasKey(rest);
        var k :| k in rest;
        rest := rest - {k};
        if k > top {
          top := k;
        }
      }
    }

    method TakeFaucet() returns (txs: seq<Tx>)
      ensures txs == FaucetTxs(faucet)
    {
      txs := [];
      for i := 0 to |faucet|
        invariant txs == FaucetTxs(faucet[..i])
      {
        assert faucet[..i + 1][..i] == faucet[..i];
        var c := faucet[i];
        if c.queued {
          txs := txs + [Tx(c.txId, c.lastClaim, Faucet(c.agentId, c.address, c.amount))];
        }
      }
      assert faucet[..|faucet|] == faucet;
    }

    method TakeTransfers() returns (txs: seq<Tx>)
      ensures txs == TransferTxs(pending)
    {
      txs := [];
      for i := 0 to |pending|
        invariant txs == TransferTxs(pending)[..i]
      {
        txs := txs + [TransferTx(pending[i])];
      }
    }

    method TakeIdentities() returns (txs: seq<Tx>)
      ensures txs == IdentityTxs(agents)
    {
      txs := [];
      for i := 0 to |agents|
        invariant txs == IdentityTxs(agents[..i])
      {
        assert agents[..i + 1][..i] == agents[..i];
        var r := agents[i];
        if !r.anchored {
          txs := txs + [Tx(r.identityHash, r.registeredAt, Identity(r.agentId, r.address))];
        }
      }
      assert agents[..|agents|] == agents;
    }

    /** The nonce loop. */
    method FindNonce(draft: Header) returns (hdr: Header, nonce: nat)
      ensures nonce == Nonce(config, draft, 0) && hdr == draft.(nonce := nonce)
    {
      nonce := 0;
      hdr := draft.(nonce := nonce);
      while !config.meets(HashOf(hdr)) && nonce <= 200
        invariant nonce <= 201 && hdr == draft.(nonce := nonce)
        invariant Nonce(config, draft, nonce) == Nonce(config, draft, 0)
        decreases 201 - nonce
      {
        nonce := nonce + 1;
        hdr := draft.(nonce := nonce);
      }
    }

    method MineBlock(now: real) returns (answer: MineAnswer)
      modifies this
      ensures old(chain) == map[] ==> answer == NoChain && Snapshot() == old(Snapshot())
      ensures old(chain) != map[] ==>
                exists top :: IsTop(old(chain), top) && (Snapshot(), answer) == MineStep(config, old(Snapshot()), top, now)
    {
      hide FaucetTxs, IdentityTxs, TransferTxs, IdsOf, IsTop, BumpHeights, MinedClaims, AnchoredAll, Nonce;
      if chain == map[] {
        return NoChain;
      }
      var top := LastKey();
      ghost var s := Snapshot();
      var last := chain[top];
      if last.transactions == [] {
        assert (s, Raised) == MineStep(config, s, top, now);
        return Raised;
      }
      var newIndex := last.index + 1;
      var fromFaucet := TakeFaucet();
      var transfers := TakeTransfers();
      var identities := TakeIdentities();
      var txs := [last.transactions[0].(id := CoinbaseId(newIndex, now), timestamp := now)] + (fromFaucet + (transfers + identities));
      var hdr := if last.header.Some? then last.header.value else EMPTY_HEADER;
      hdr := hdr.(prev := last.hash, timestamp := now);
      if hdr.merkleRoot.Some? {
        hdr := hdr.(merkleRoot := Some(IdsOf(txs)));
      }
      assert hdr == Draft(last, txs, now);
      hide Draft;
      var final, nonce := FindNonce(hdr);
      var nb := last.(index := newIndex, header := if last.header.Some? then Some(final) else None,
                      hash := Some(HashOf(final)), transactions := txs, txCount := |txs|,
                      persistedAt := now, immutableHash := Some(HashOf(final)));
      assert nb == NextBlock(config, s, last, now);
      hide NextBlock;
      SaveBlock(nb);
      DrainQueues(newIndex, now);
      answer := Mined(newIndex, HashOf(final), |txs|, nonce);
      assert (Snapshot(), answer) == MineStep(config, s, top, now);
    }

    method SaveBlock(nb: Block)
      modifies this`chain, this`heights, this`lastHash
      ensures chain == old(chain)[nb.index := nb] && heights == BumpHeights(old(heights), nb.index)
      ensures lastHash == if old(lastHash).Some? then nb.hash else None
    {
      if lastHash.Some? {
        lastHash := nb.hash;
      }
      chain := chain[nb.index := nb];
      heights := map k | k in heights :: if k == "_chain_height" || k == "height" || k == "chain_height" then nb.index else heights[k];
    }

    /** Marks the claims and registrations taken, and moves the broadcasts taken to the mined list. */
    method DrainQueues(index: int, now: real)
      modifies this`faucet, this`pending, this`mined, this`agents
      ensures faucet == MinedClaims(old(faucet), index, now) && agents == AnchoredAll(old(agents))
      ensures mined == old(mined) + old(pending) && pending == []
    {
      MarkClaims(index, now);
      mined := mined + pending;
      pending := [];
      MarkAgents();
    }

    method MarkClaims(index: int, now: real)
      modifies this`faucet
      ensures faucet == MinedClaims(old(faucet), index, now)
    {
      for i := 0 to |faucet|
        invariant |faucet| == |old(faucet)|
        invariant forall j :: 0 <= j < |faucet| ==> faucet[j] == if j < i then MinedClaims(old(faucet), index, now)[j] else old(faucet)[j]
      {
        if faucet[i].queued {
          faucet := faucet[i := faucet[i].(queued := false, minedIn := Some(index), minedAt := now)];
        }
      }
    }

    method MarkAgents()
      modifies this`agents
      ensures agents == AnchoredAll(old(agents))
    {
      for i := 0 to |agents|
        invariant |agents| == |old(agents)|
        invariant forall j :: 0 <= j < |agents| ==> agents[j] == if j < i then AnchoredAll(old(agents))[j] else old(agents)[j]
      {
        if !agents[i].anchored {
          agents := agents[i := agents[i].(anchored := true)];
        }
      }
    }
  }
}
