/** The manager object: its fields, and each operation proved against the state machine. */
module BridgeManagers {
  import opened Wrappers
  import opened Merkle
  import opened Authorization
  import opened Bridge
  import opened BridgeSafety

  class BridgeManager {
    const config: Config
    var transfers: map<string, Record>
    var events: map<string, Event>
    var merkleLeaves: seq<Digest>
    var paused: bool
    var dailyVolume: map<string, int>
    var dailyVolumeDay: Option<int>
    var totalLockedSats: int
    var totalMintedSats: int
    var totalBurnedSats: int
    var totalReleasedSats: int
    var processedTxHashes: map<TxHash, string>
    var lockDedup: map<string, string>

    ghost function Snapshot(): State
      reads this
    {
      State(transfers, events, merkleLeaves, paused, dailyVolume, dailyVolumeDay, totalLockedSats, totalMintedSats,
            totalBurnedSats, totalReleasedSats, processedTxHashes, lockDedup)
    }

    /** What every operation keeps, new transfers having new ids. */
    ghost predicate Valid()
      reads this
    {
      config.threshold >= 1 && Inv(config, Snapshot())
    }

    constructor (config: Config)
      ensures this.config == config && Snapshot() == INITIAL
      ensures config.threshold >= 1 ==> Valid()
    {
      assert FreshRun(config, []);
      if config.threshold >= 1 {
        RunKeepsInv(config, []);
      }
      this.config := config;
      transfers, events, merkleLeaves, paused := map[], map[], [], false;
      dailyVolume, dailyVolumeDay := map[], None;
      totalLockedSats, totalMintedSats, totalBurnedSats, totalReleasedSats := 0, 0, 0, 0;
      processedTxHashes, lockDedup := map[], map[];
    }

    /** Starting a manager: without an authorization registry only where the environment allows insecure local use. */
    static method Start(config: Config, insecureLocal: bool) returns (manager: BridgeManager?)
      ensures manager == null <==> config.authorization.None? && !insecureLocal
      ensures manager != null ==> fresh(manager) && manager.config == config && manager.Snapshot() == INITIAL
      ensures manager != null && config.threshold >= 1 ==> manager.Valid()
    {
      if config.authorization.None? && !insecureLocal {
        return null;
      }
      manager := new BridgeManager(config);
    }

    method ResetDailyVolume(now: real)
      modifies this
      ensures Snapshot() == ResetDaily(old(Snapshot()), now)
    {
      var today := Day(now);
      if Some(today) != dailyVolumeDay {
        dailyVolume := map[];
        dailyVolumeDay := Some(today);
      }
    }

    method CheckRateLimit(agentId: string, amountSats: int, now: real) returns (ok: bool)
      modifies this
      ensures Snapshot() == ResetDaily(old(Snapshot()), now)
      ensures ok <==> Volume(Snapshot(), agentId) + amountSats <= config.dailyLimitSats
    {
      ResetDailyVolume(now);
      var current := if agentId in dailyVolume then dailyVolume[agentId] else 0;
      ok := current + amountSats <= config.dailyLimitSats;
    }

    method CheckPendingLimit(agentId: string) returns (ok: bool)
      ensures ok <==> Total(PendingOf(agentId), transfers) < config.maxPending
    {
      var pending := 0;
      var rest := transfers;
      while rest != map[]
        invariant pending + Total(PendingOf(agentId), rest) == Total(PendingOf(agentId), transfers)
        decreases |rest|
      {
        var t :| t in rest;
        TotalPick(PendingOf(agentId), rest, t);
        if rest[t].agentId == agentId && Live(rest[t].state) {
          pending := pending + 1;
        }
        rest := rest - {t};
      }
      ok := pending < config.maxPending;
    }

    method LockBait(agentId: string, amountSats: int, targetChainId: int, recipient: string, transferId: string, now: real)
      returns (out: Outcome)
      modifies this
      ensures (Snapshot(), out) ==
              Bridge.LockBait(config, old(Snapshot()), agentId, amountSats, targetChainId, recipient, transferId, now)
      ensures old(Valid()) && transferId !in old(transfers) ==> Valid()
    {
      hide Inv, DedupKey, EventId, Direction, Day, Path, Root;
      if Valid() && transferId !in transfers {
        LockKeepsInv(config, Snapshot(), agentId, amountSats, targetChainId, recipient, transferId, now);
      }
      if paused {
        return Err(BridgePaused);
      }
      if targetChainId !in config.chains {
        return Err(UnsupportedChain(targetChainId));
      }
      var chain := config.chains[targetChainId];
      if amountSats < chain.minLockSats {
        return Err(BelowMinimum(chain.minLockSats));
      }
      if amountSats > chain.maxLockSats {
        return Err(AboveMaximum(chain.maxLockSats));
      }
      var withinLimit := CheckRateLimit(agentId, amountSats, now);
      if !withinLimit {
        return Err(DailyLimitExceeded);
      }
      var fewPending := CheckPendingLimit(agentId);
      if !fewPending {
        return Err(TooManyPending);
      }
      var fee := Fee(amountSats, chain.feeBps);
      var key := DedupKey(agentId, amountSats, recipient, targetChainId);
      if key in lockDedup {
        return Err(DuplicateLock(lockDedup[key]));
      }
      var eventId := EventId(Lock, transferId);
      var txHash := TxHash(Lock, eventId, now);
      if txHash in processedTxHashes {
        return Err(DuplicateTxHash(processedTxHashes[txHash]));
      }
      out := RecordLock(agentId, amountSats, targetChainId, recipient, transferId, now, fee);
    }

    /** Appends the leaf of a new lock and makes its event and record. */
    method PrepareLock(agentId: string, amountSats: int, targetChainId: int, recipient: string, transferId: string,
                       now: real, fee: int)
      returns (event: Event, record: Record)
      modifies this`merkleLeaves
      ensures (event, record) ==
              NewLock(old(Snapshot()), agentId, amountSats, targetChainId, recipient, transferId, now, fee)
      ensures merkleLeaves == old(merkleLeaves) + [LeafOf(event)]
    {
      hide DedupKey, EventId, Direction, Path;
      var eventId := EventId(Lock, transferId);
      var txHash := TxHash(Lock, eventId, now);
      record := Record(transferId, Direction(0, targetChainId), agentId, amountSats, fee, 0, targetChainId,
                       "bait:" + agentId, recipient, now, Locked, None, None, None, None, 0.0, 0.0);
      var leafHash := LockLeaf(eventId, amountSats, recipient, targetChainId);
      var leafIndex := |merkleLeaves|;
      merkleLeaves := merkleLeaves + [leafHash];
      var proof := ComputeProofPath(merkleLeaves, leafIndex);
      event := Event(eventId, transferId, Lock, agentId, amountSats, targetChainId, recipient, now, txHash, proof, [], Locked);
      record := record.(lockEvent := Some(eventId));
    }

    /** The part of lock_bait that follows the checks. */
    method RecordLock(agentId: string, amountSats: int, targetChainId: int, recipient: string, transferId: string,
                      now: real, fee: int)
      returns (out: Outcome)
      modifies this
      ensures (Snapshot(), out) ==
              Bridge.RecordLock(old(Snapshot()), agentId, amountSats, targetChainId, recipient, transferId, now, fee)
    {
      hide DedupKey, NewLock, LeafOf;
      ghost var before := Snapshot();
      ghost var result := Bridge.RecordLock(before, agentId, amountSats, targetChainId, recipient, transferId, now, fee);
      ghost var e := NewLock(before, agentId, amountSats, targetChainId, recipient, transferId, now, fee).0;
      assert result.0.events == events[e.eventId := e] && result.0.leaves == merkleLeaves + [LeafOf(e)];
      hide Bridge.RecordLock;
      var leafIndex := |merkleLeaves|;
      var event, record := PrepareLock(agentId, amountSats, targetChainId, recipient, transferId, now, fee);
      var key := DedupKey(agentId, amountSats, recipient, targetChainId);
      transfers := transfers[transferId := record];
      events := events[event.eventId := event];
      lockDedup := lockDedup[key := transferId];
      processedTxHashes := processedTxHashes[event.txHash := transferId];
      totalLockedSats := totalLockedSats + amountSats;
      dailyVolume := dailyVolume[agentId := (if agentId in dailyVolume then dailyVolume[agentId] else 0) + amountSats];
      out := Ok(LockReceipt(transferId, event.eventId, event.txHash, amountSats, fee, event.merkleProof, LeafOf(event), leafIndex));
    }

    /** The checks submit_proof makes when an authorization registry is set. */
    method CheckRelayer(event: Event, proof: seq<Digest>, signerId: string, signature: string)
      returns (refusal: Option<BridgeError>)
      ensures refusal == Refusal(config, event, proof, signerId, signature)
    {
      refusal := None;
      if config.authorization.Some? {
        if signerId == "" || signature == "" {
          return Some(RelayerSignatureRequired);
        }
        if proof != event.merkleProof {
          return Some(ProofMismatch);
        }
        if HasSigner(event, signerId) {
          return Some(DuplicateRelayer);
        }
        var claim := Claim(event.eventId, event.transferId, event.chainId, event.amountSats, Hexes(config, proof));
        var verdict := VerifyOne(config.authorization.value, claim, signerId, signature);
        if verdict.Err? {
          return Some(InvalidRelayerSignature(verdict.error));
        }
      }
    }

    method SubmitProof(eventId: string, proof: seq<Digest>, signerId: string, signature: string, now: real)
      returns (out: Outcome)
      modifies this
      ensures (Snapshot(), out) == Bridge.SubmitProof(config, old(Snapshot()), eventId, proof, signerId, signature, now)
      ensures old(Valid()) ==> Valid()
    {
      hide Inv, Refusal, HasSigner, Bridge.AcceptProof;
      if Valid() {
        StepKeepsInv(config, Snapshot(), SubmitOp(eventId, proof, signerId, signature, now));
      }
      if eventId !in events {
        return Err(EventNotFound);
      }
      var event := events[eventId];
      if !(event.state == Locked || event.state == PendingProof || event.state == ProofSubmitted) {
        return Err(InvalidState(event.state));
      }
      var refusal := CheckRelayer(event, proof, signerId, signature);
      if refusal.Some? {
        return Err(refusal.value);
      }
      out := AcceptProof(eventId, signerId, signature, now);
    }

    /** The part of submit_proof that follows the checks. */
    method AcceptProof(eventId: string, signerId: string, signature: string, now: real) returns (out: Outcome)
      requires eventId in events
      modifies this
      ensures (Snapshot(), out) == Bridge.AcceptProof(config, old(Snapshot()), eventId, signerId, signature, now)
    {
      hide HasSigner;
      var event := events[eventId];
      if signerId != "" && signature != "" {
        if !HasSigner(event, signerId) {
          event := event.(signatures := event.signatures + [RelayerSignature(signerId, signature)]);
        }
      }
      if |event.signatures| >= config.threshold {
        event := event.(state := ProofSubmitted);
        if event.transferId in transfers {
          var record := transfers[event.transferId];
          transfers := transfers[event.transferId := record.(state := ProofSubmitted, proofSubmittedAt := now)];
        }
      } else {
        event := event.(state := PendingProof);
        if event.transferId in transfers {
          var record := transfers[event.transferId];
          transfers := transfers[event.transferId := record.(state := PendingProof)];
        }
      }
      events := events[eventId := event];
      out := Ok(SubmitReceipt(eventId, event.state, |event.signatures|, config.threshold,
                              |event.signatures| >= config.threshold));
    }

    method MintWrapped(eventId: string, now: real) returns (out: Outcome)
      modifies this
      ensures (Snapshot(), out) == Bridge.MintWrapped(config, old(Snapshot()), eventId, now)
      ensures old(Valid()) ==> Valid()
    {
      hide Inv;
      if Valid() {
        StepKeepsInv(config, Snapshot(), MintOp(eventId, now));
      }
      if eventId !in events {
        return Err(EventNotFound);
      }
      var event := events[eventId];
      if event.state == Minted {
        var recipient := if event.transferId in transfers then transfers[event.transferId].targetAddress else event.recipient;
        return Ok(MintReceipt(eventId, event.amountSats, event.chainId, recipient, true));
      }
      if |event.signatures| < config.threshold {
        return Err(InsufficientSignatures(|event.signatures|, config.threshold));
      }
      events := events[eventId := event.(state := Minted)];
      if event.transferId in transfers {
        var record := transfers[event.transferId];
        transfers := transfers[event.transferId :=
          record.(state := Minted, mintEvent := Some(Entry("mint_" + eventId, event.amountSats, now)))];
      }
      totalMintedSats := totalMintedSats + event.amountSats;
      out := Ok(MintReceipt(eventId, event.amountSats, event.chainId, event.recipient, false));
    }

    method BurnWrapped(agentId: string, amountSats: int, sourceChainId: int, transferId: string, now: real)
      returns (out: Outcome)
      modifies this
      ensures (Snapshot(), out) ==
              Bridge.BurnWrapped(config, old(Snapshot()), agentId, amountSats, sourceChainId, transferId, now)
      ensures old(Valid()) && transferId !in old(transfers) ==> Valid()
    {
      hide Inv, NewBurn, Fee, Weight, Total;
      if Valid() && transferId !in transfers {
        BurnKeepsInv(config, Snapshot(), agentId, amountSats, sourceChainId, transferId, now);
      }
      if sourceChainId !in config.chains {
        return Err(UnsupportedChain(sourceChainId));
      }
      if paused {
        return Err(BridgePaused);
      }
      var fee := Fee(amountSats, config.chains[sourceChainId].feeBps);
      var (event, record) := NewBurn(agentId, amountSats, sourceChainId, transferId, now, fee);
      transfers := transfers[transferId := record];
      events := events[event.eventId := event];
      totalBurnedSats := totalBurnedSats + amountSats;
      out := Ok(BurnReceipt(transferId, event.eventId, event.txHash, amountSats, fee));
    }

    method ReleaseBait(eventId: string, now: real) returns (out: Outcome)
      modifies this
      ensures (Snapshot(), out) == Bridge.ReleaseBait(old(Snapshot()), eventId, now)
      ensures old(Valid()) ==> Valid()
    {
      hide Inv;
      if Valid() {
        StepKeepsInv(config, Snapshot(), ReleaseOp(eventId, now));
      }
      if eventId !in events {
        return Err(EventNotFound);
      }
      var event := events[eventId];
      if event.kind != Burn {
        return Err(NotABurnEvent);
      }
      events := events[eventId := event.(state := Completed)];
      if event.transferId in transfers {
        var record := transfers[event.transferId];
        transfers := transfers[event.transferId :=
          record.(state := Completed, releaseEvent := Some(Entry("release_" + eventId, event.amountSats, now)), completedAt := now)];
      }
      totalReleasedSats := totalReleasedSats + event.amountSats;
      out := Ok(ReleaseReceipt(eventId, event.amountSats, event.recipient));
    }

    method Refund(transferId: string, reason: string, now: real) returns (out: Outcome)
      modifies this
      ensures (Snapshot(), out) == RefundTransfer(old(Snapshot()), transferId, reason, now)
      ensures old(Valid()) ==> Valid()
    {
      hide Inv;
      if Valid() {
        StepKeepsInv(config, Snapshot(), RefundOp(transferId, reason, now));
      }
      if transferId !in transfers {
        return Err(TransferNotFound);
      }
      var record := transfers[transferId];
      if !(record.state == Locked || record.state == PendingProof) {
        return Err(CannotRefundInState(record.state));
      }
      transfers := transfers[transferId := record.(state := Refunded, completedAt := now)];
      totalReleasedSats := totalReleasedSats + record.amountSats;
      if record.lockEvent.Some? && record.lockEvent.value in events {
        events := events[record.lockEvent.value := events[record.lockEvent.value].(state := Refunded)];
      }
      out := Ok(RefundReceipt(transferId, record.amountSats, reason, record.state));
    }

    method Pause(on: bool) returns (out: Outcome)
      modifies this`paused
      ensures (Snapshot(), out) == SetPaused(old(Snapshot()), on)
      ensures old(Valid()) ==> Valid()
    {
      hide Inv;
      if Valid() {
        StepKeepsInv(config, Snapshot(), PauseOp(on));
      }
      paused := on;
      out := Ok(PauseReceipt(on));
    }

    method GetMerkleRoot() returns (root: Digest)
      ensures root == Root(merkleLeaves)
    {
      var r, _ := ComputeMerkleRoot(merkleLeaves);
      root := r;
    }
  }
}
