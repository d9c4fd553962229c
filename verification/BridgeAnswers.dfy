/** What the bridge answers, and what its records keep, against what was asked for over the run. */
module BridgeAnswers {
  import opened Wrappers
  import opened Text
  import opened Merkle
  import opened Authorization
  import opened Bridge
  import opened BridgeSafety

  // ---- signatures ----

  /** Over every run with a registry, every signature any event holds is of a registered signer and verifies under that
      signer's key over the bytes of the event's claim. */
  lemma StoredSignaturesGenuine(cfg: Config, ops: seq<Op>, id: string, i: nat)
    requires cfg.threshold >= 1 && FreshRun(cfg, ops) && cfg.authorization.Some?
    requires id in Run(cfg, ops).events && i < |Run(cfg, ops).events[id].signatures|
    ensures var reg, e := cfg.authorization.value, Run(cfg, ops).events[id];
            var g := e.signatures[i];
            && g.signer in reg.keys && reg.decode(g.signature).Some? && |reg.decode(g.signature).value| == 64
            && SigningBytes(ClaimOf(cfg, e)).Ok?
            && reg.verifies(reg.keys[g.signer], reg.decode(g.signature).value, SigningBytes(ClaimOf(cfg, e)).value)
  {
    hide Run, FreshRun, VerifyOne, ClaimOf, SigningBytes;
    RunKeepsInv(cfg, ops);
    InvGivesPair(cfg, Run(cfg, ops), id);
  }

  /** ... so nothing is minted that could not be signed for. */
  lemma MintedCouldBeSigned(cfg: Config, ops: seq<Op>, id: string)
    requires cfg.threshold >= 1 && FreshRun(cfg, ops) && cfg.authorization.Some?
    requires id in Run(cfg, ops).events && Run(cfg, ops).events[id].state == Minted
    ensures Run(cfg, ops).events[id].chainId > 0 && Run(cfg, ops).events[id].amountSats > 0
  {
    hide Run, FreshRun, SigningBytes, ClaimOf;
    RunKeepsInv(cfg, ops);
    InvGivesPair(cfg, Run(cfg, ops), id);
    StoredSignaturesGenuine(cfg, ops, id, 0);
    SignableClaim(cfg, Run(cfg, ops).events[id]);
  }

  lemma SignableClaim(cfg: Config, e: Event)
    requires SigningBytes(ClaimOf(cfg, e)).Ok?
    ensures e.chainId > 0 && e.amountSats > 0
  {
    SignableIff(ClaimOf(cfg, e));
  }

  /** With a registry a proof is accepted exactly if the event is live, the proof is the stored one, the signer is not taken to
      have signed, and the signature is genuine. */
  lemma SubmitAcceptedIff(cfg: Config, s: State, eventId: string, proof: seq<Digest>, signer: string, signature: string, now: real)
    requires cfg.authorization.Some?
    ensures SubmitProof(cfg, s, eventId, proof, signer, signature, now).1.Ok? <==>
            && eventId in s.events && Live(s.events[eventId].state)
            && signature != "" && proof == s.events[eventId].merkleProof && !HasSigner(s.events[eventId], signer)
            && Genuine(cfg.authorization.value, ClaimOf(cfg, s.events[eventId]), signer, signature)
  {
    hide HasSigner, VerifyOne, Genuine, AcceptProof;
    if eventId in s.events {
      var e := s.events[eventId];
      VerifyOneIff(cfg.authorization.value, ClaimOf(cfg, e), signer, signature);
      GenuineNames(cfg.authorization.value, ClaimOf(cfg, e), signer, signature);
      AcceptedIsOk(cfg, s, eventId, signer, signature, now);
    }
  }

  lemma GenuineNames(reg: Registry, c: Claim, signer: string, signature: string)
    ensures Genuine(reg, c, signer, signature) ==> signer != ""
  {
  }

  lemma AcceptedIsOk(cfg: Config, s: State, eventId: string, signer: string, signature: string, now: real)
    requires eventId in s.events
    ensures AcceptProof(cfg, s, eventId, signer, signature, now).1.Ok?
  {
    hide HasSigner;
  }

  /** An accepted proof adds that one signature and answers what the event then holds. */
  lemma SubmitStores(cfg: Config, s: State, eventId: string, proof: seq<Digest>, signer: string, signature: string, now: real)
    requires cfg.authorization.Some? && Inv(cfg, s)
    requires SubmitProof(cfg, s, eventId, proof, signer, signature, now).1.Ok?
    ensures var (s', out) := SubmitProof(cfg, s, eventId, proof, signer, signature, now);
            && eventId in s.events && eventId in s'.events
            && s'.events[eventId].signatures == s.events[eventId].signatures + [RelayerSignature(signer, signature)]
            && out.value == SubmitReceipt(eventId, s'.events[eventId].state, |s'.events[eventId].signatures|, cfg.threshold,
                                          s'.events[eventId].state == ProofSubmitted)
            && s.events[eventId].transferId in s'.transfers
            && (s'.events[eventId].state == ProofSubmitted ==> s'.transfers[s.events[eventId].transferId].proofSubmittedAt == now)
  {
    hide Inv, HasSigner, VerifyOne, Hexes;
    InvGivesPair(cfg, s, eventId);
  }

  // ---- nothing of a transfer changes but its phase, signatures and history ----

  lemma EventStays(cfg: Config, s: State, op: Op, id: string)
    requires cfg.threshold >= 1 && Inv(cfg, s) && FreshId(s, op) && id in s.events
    ensures var s' := Step(cfg, s, op).0; id in s'.events && SameEvent(s.events[id], s'.events[id])
  {
    hide Inv, Moves, LockBait, BurnWrapped, SubmitProof, MintWrapped, ReleaseBait, RefundTransfer, EventId;
    match op
    case LockOp(a, n, c, rc, t, now) =>
      InvGivesFresh(cfg, s, Lock, t);
      LockEvents(cfg, s, a, n, c, rc, t, now);
    case BurnOp(a, n, c, t, now) =>
      InvGivesFresh(cfg, s, Burn, t);
      BurnEvents(cfg, s, a, n, c, t, now);
    case PauseOp(_) =>
    case _ =>
      hide Step;
      var e, r := StepMoves(cfg, s, op);
      if Step(cfg, s, op).0 != s { MoveEvent(cfg, s, Step(cfg, s, op).0, e, r, id); }
  }

  lemma MoveEvent(cfg: Config, s: State, s': State, e: Event, r: Record, id: string)
    requires Moves(cfg, s, s', e, r) && id in s.events
    ensures id in s'.events && SameEvent(s.events[id], s'.events[id])
    ensures forall t :: t in s.transfers ==> t in s'.transfers && SameRecord(s.transfers[t], s'.transfers[t])
  {
    hide PairOk;
  }

  lemma InvGivesFresh(cfg: Config, s: State, k: Kind, t: string)
    requires Inv(cfg, s) && t !in s.transfers
    ensures EventId(k, t) !in s.events
  {
    FreshEvent(cfg, s, k, t);
  }

  lemma LockEvents(cfg: Config, s: State, agentId: string, amountSats: int, chainId: int, recipient: string, transferId: string, now: real)
    ensures var (s', out) := LockBait(cfg, s, agentId, amountSats, chainId, recipient, transferId, now);
            && (forall id :: id in s.events && id != EventId(Lock, transferId) ==> id in s'.events && s'.events[id] == s.events[id])
            && (out.Err? ==> s'.events == s.events)
            && (forall t :: t in s.transfers && t != transferId ==> t in s'.transfers && s'.transfers[t] == s.transfers[t])
            && (out.Err? ==> s'.transfers == s.transfers)
  {
    hide LockBait, RecordLock, EventId, Fee;
    if LockBait(cfg, s, agentId, amountSats, chainId, recipient, transferId, now).1.Ok? {
      RecordIsAsked(cfg, s, agentId, amountSats, chainId, recipient, transferId, now);
      RecordEvents(ResetDaily(s, now), agentId, amountSats, chainId, recipient, transferId, now,
                   Fee(amountSats, cfg.chains[chainId].feeBps));
    } else {
      RefusalsChangeNothing(cfg, s, LockOp(agentId, amountSats, chainId, recipient, transferId, now));
    }
  }

  lemma RecordEvents(s: State, agentId: string, amountSats: int, chainId: int, recipient: string, transferId: string, now: real, fee: int)
    ensures var s' := RecordLock(s, agentId, amountSats, chainId, recipient, transferId, now, fee).0;
            && (forall id :: id in s.events && id != EventId(Lock, transferId) ==> id in s'.events && s'.events[id] == s.events[id])
            && (forall t :: t in s.transfers && t != transferId ==> t in s'.transfers && s'.transfers[t] == s.transfers[t])
            && s'.paused == s.paused
  {
    hide DedupKey, EventId, Direction, Path;
  }

  lemma BurnEvents(cfg: Config, s: State, agentId: string, amountSats: int, chainId: int, transferId: string, now: real)
    ensures var (s', out) := BurnWrapped(cfg, s, agentId, amountSats, chainId, transferId, now);
            && (forall id :: id in s.events && id != EventId(Burn, transferId) ==> id in s'.events && s'.events[id] == s.events[id])
            && (out.Err? ==> s'.events == s.events)
            && (forall t :: t in s.transfers && t != transferId ==> t in s'.transfers && s'.transfers[t] == s.transfers[t])
            && (out.Err? ==> s'.transfers == s.transfers)
  {
    hide EventId, Direction, Fee, DecimalInt;
  }

  lemma RecordStays(cfg: Config, s: State, op: Op, t: string)
    requires cfg.threshold >= 1 && Inv(cfg, s) && FreshId(s, op) && t in s.transfers
    ensures var s' := Step(cfg, s, op).0; t in s'.transfers && SameRecord(s.transfers[t], s'.transfers[t])
  {
    hide Inv, Moves, LockBait, BurnWrapped, SubmitProof, MintWrapped, ReleaseBait, RefundTransfer;
    match op
    case LockOp(a, n, c, rc, u, now) => LockEvents(cfg, s, a, n, c, rc, u, now);
    case BurnOp(a, n, c, u, now) => BurnEvents(cfg, s, a, n, c, u, now);
    case PauseOp(_) =>
    case _ =>
      hide Step;
      var e, r := StepMoves(cfg, s, op);
      if Step(cfg, s, op).0 != s { MoveEventOf(cfg, s, Step(cfg, s, op).0, e, r); }
  }

  lemma MoveEventOf(cfg: Config, s: State, s': State, e: Event, r: Record)
    requires Moves(cfg, s, s', e, r)
    ensures forall t :: t in s.transfers ==> t in s'.transfers && SameRecord(s.transfers[t], s'.transfers[t])
  {
    hide PairOk;
  }

  /** Over every run an event keeps all but its phase, and its signatures only grow; a record keeps all but its phase and history. */
  lemma {:induction false} TransferStays(cfg: Config, ops: seq<Op>, k: nat, id: string)
    requires cfg.threshold >= 1 && FreshRun(cfg, ops) && k <= |ops| && id in Run(cfg, ops[..k]).events
    ensures id in Run(cfg, ops).events && SameEvent(Run(cfg, ops[..k]).events[id], Run(cfg, ops).events[id])
    ensures var t := Run(cfg, ops[..k]).events[id].transferId;
            t in Run(cfg, ops[..k]).transfers ==>
              t in Run(cfg, ops).transfers && SameRecord(Run(cfg, ops[..k]).transfers[t], Run(cfg, ops).transfers[t])
    decreases |ops|
  {
    if k == |ops| {
      assert ops[..k] == ops;
    } else {
      var n := |ops| - 1;
      var s := Run(cfg, ops[..n]);
      assert FreshId(s, ops[n]) && Run(cfg, ops) == Step(cfg, s, ops[n]).0;
      FreshPrefix(cfg, ops, n);
      hide Inv, Step, FreshId, FreshRun, Run;
      assert ops[..n][..k] == ops[..k];
      TransferStays(cfg, ops[..n], k, id);
      RunKeepsInv(cfg, ops[..n]);
      EventStays(cfg, s, ops[n], id);
      var t := Run(cfg, ops[..k]).events[id].transferId;
      if t in s.transfers { RecordStays(cfg, s, ops[n], t); }
      hide SameEvent, SameRecord;
      SameAgain(Run(cfg, ops[..k]).events[id], s.events[id], Run(cfg, ops).events[id]);
      if t in Run(cfg, ops[..k]).transfers {
        SameRecordAgain(Run(cfg, ops[..k]).transfers[t], s.transfers[t], Run(cfg, ops).transfers[t]);
      }
    }
  }

  lemma SameAgain(d: Event, e: Event, f: Event)
    requires SameEvent(d, e) && SameEvent(e, f)
    ensures SameEvent(d, f)
  {
  }

  lemma SameRecordAgain(q: Record, r: Record, w: Record)
    requires SameRecord(q, r) && SameRecord(r, w)
    ensures SameRecord(q, w)
  {
  }

  // ---- locks ----

  /** Operation k is an accepted lock with these arguments. */
  ghost predicate LockedBy(cfg: Config, ops: seq<Op>, k: nat, agentId: string, amountSats: int, chainId: int, recipient: string,
                           transferId: string, now: real) {
    && k < |ops| && ops[k] == LockOp(agentId, amountSats, chainId, recipient, transferId, now)
    && Step(cfg, Run(cfg, ops[..k]), ops[k]).1.Ok?
  }

  /** The event and the record are of that request. */
  ghost predicate OfLock(cfg: Config, e: Event, r: Record, agentId: string, amountSats: int, chainId: int, recipient: string,
                         transferId: string, now: real) {
    && e.eventId == EventId(Lock, transferId) && e.transferId == transferId && e.kind == Lock && e.agentId == agentId
    && e.amountSats == amountSats && e.chainId == chainId && e.recipient == recipient && e.timestamp == now
    && e.txHash == TxHash(Lock, e.eventId, now)
    && r.transferId == transferId && r.agentId == agentId && r.amountSats == amountSats
    && r.sourceChainId == 0 && r.targetChainId == chainId && r.direction == Direction(0, chainId)
    && r.sourceAddress == "bait:" + agentId && r.targetAddress == recipient && r.createdAt == now
    && chainId in cfg.chains && FeeOf(amountSats, cfg.chains[chainId].feeBps, r.feeSats)
  }

  /** fee is the share of bps ten-thousandths in the amount, cut off towards zero. */
  predicate FeeOf(amountSats: int, bps: int, fee: int) {
    if amountSats * bps >= 0 then 10000 * fee <= amountSats * bps < 10000 * (fee + 1)
    else 10000 * (fee - 1) < amountSats * bps <= 10000 * fee
  }

  lemma FeeExact(amountSats: int, bps: int, fee: int)
    ensures FeeOf(amountSats, bps, fee) <==> fee == Fee(amountSats, bps)
  {
    var p := amountSats * bps;
    hide *;
    FeeOfProduct(amountSats, bps, p, fee);
  }

  lemma FeeOfProduct(amountSats: int, bps: int, p: int, fee: int)
    requires p == amountSats * bps
    ensures FeeOf(amountSats, bps, fee) <==> fee == Fee(amountSats, bps)
  {
  }

  /** An accepted lock stores what was asked for, and answers what it stored. */
  lemma LockStores(cfg: Config, s: State, agentId: string, amountSats: int, chainId: int, recipient: string, transferId: string, now: real)
    requires LockBait(cfg, s, agentId, amountSats, chainId, recipient, transferId, now).1.Ok?
    ensures var (s', out) := LockBait(cfg, s, agentId, amountSats, chainId, recipient, transferId, now);
            var id := EventId(Lock, transferId);
            && id in s'.events && transferId in s'.transfers
            && OfLock(cfg, s'.events[id], s'.transfers[transferId], agentId, amountSats, chainId, recipient, transferId, now)
            && out.value == LockReceipt(transferId, id, s'.events[id].txHash, amountSats, s'.transfers[transferId].feeSats,
                                        s'.events[id].merkleProof, LeafOf(s'.events[id]), |s.leaves|)
            && s'.leaves == s.leaves + [LeafOf(s'.events[id])]
            && s'.totalLocked == s.totalLocked + amountSats
            && s'.events[id].state == Locked && s'.events[id].signatures == []
  {
    hide DedupKey, EventId, Direction, Path, Total, Day, Fee, FeeOf;
    if chainId in cfg.chains {
      var fee := Fee(amountSats, cfg.chains[chainId].feeBps);
      FeeExact(amountSats, cfg.chains[chainId].feeBps, fee);
    }
  }

  /** Over every run the transfer of an accepted lock keeps what was asked for. */
  lemma LockKept(cfg: Config, ops: seq<Op>, k: nat, agentId: string, amountSats: int, chainId: int, recipient: string,
                 transferId: string, now: real)
    requires cfg.threshold >= 1 && FreshRun(cfg, ops) && LockedBy(cfg, ops, k, agentId, amountSats, chainId, recipient, transferId, now)
    ensures var s := Run(cfg, ops);
            var id := EventId(Lock, transferId);
            && id in s.events && transferId in s.transfers
            && OfLock(cfg, s.events[id], s.transfers[transferId], agentId, amountSats, chainId, recipient, transferId, now)
  {
    assert ops[..k + 1][..k] == ops[..k];
    assert Run(cfg, ops[..k + 1]) == Step(cfg, Run(cfg, ops[..k]), ops[k]).0;
    hide Run, FreshRun, EventId, LockBait, OfLock, SameEvent, SameRecord;
    LockStores(cfg, Run(cfg, ops[..k]), agentId, amountSats, chainId, recipient, transferId, now);
    var id, s, t := EventId(Lock, transferId), Run(cfg, ops[..k + 1]), Run(cfg, ops);
    LockNames(cfg, s.events[id], s.transfers[transferId], agentId, amountSats, chainId, recipient, transferId, now);
    TransferStays(cfg, ops, k + 1, id);
    LockStill(cfg, s.events[id], s.transfers[transferId], t.events[id], t.transfers[transferId], agentId, amountSats, chainId,
              recipient, transferId, now);
  }

  lemma LockNames(cfg: Config, e: Event, r: Record, agentId: string, amountSats: int, chainId: int, recipient: string,
                  transferId: string, now: real)
    requires OfLock(cfg, e, r, agentId, amountSats, chainId, recipient, transferId, now)
    ensures e.transferId == transferId
  {
  }

  lemma LockStill(cfg: Config, e: Event, r: Record, e': Event, r': Record, agentId: string, amountSats: int, chainId: int,
                  recipient: string, transferId: string, now: real)
    requires OfLock(cfg, e, r, agentId, amountSats, chainId, recipient, transferId, now) && SameEvent(e, e') && SameRecord(r, r')
    ensures OfLock(cfg, e', r', agentId, amountSats, chainId, recipient, transferId, now)
  {
    hide FeeOf, Direction, EventId;
  }

  /** Over every run a mint of that lock, the first or a repetition, answers the event, amount, chain and recipient its
      lock_bait was asked for, or that signatures are missing. */
  lemma MintAnswersRequest(cfg: Config, ops: seq<Op>, k: nat, agentId: string, amountSats: int, chainId: int, recipient: string,
                           transferId: string, now: real, at: real)
    requires cfg.threshold >= 1 && FreshRun(cfg, ops) && LockedBy(cfg, ops, k, agentId, amountSats, chainId, recipient, transferId, now)
    ensures var s := Run(cfg, ops);
            var id := EventId(Lock, transferId);
            id in s.events &&
            MintWrapped(cfg, s, id, at).1 ==
              if s.events[id].state == Minted || |s.events[id].signatures| >= cfg.threshold
              then Ok(MintReceipt(id, amountSats, chainId, recipient, s.events[id].state == Minted))
              else Err(InsufficientSignatures(|s.events[id].signatures|, cfg.threshold))
  {
    hide Run, FreshRun, EventId, FeeOf, Direction, LockedBy;
    LockKept(cfg, ops, k, agentId, amountSats, chainId, recipient, transferId, now);
  }

  /** A refund of that lock answers and releases the amount locked, exactly from the two early phases. */
  lemma RefundAnswersRequest(cfg: Config, ops: seq<Op>, k: nat, agentId: string, amountSats: int, chainId: int, recipient: string,
                             transferId: string, now: real, reason: string, at: real)
    requires cfg.threshold >= 1 && FreshRun(cfg, ops) && LockedBy(cfg, ops, k, agentId, amountSats, chainId, recipient, transferId, now)
    ensures var s := Run(cfg, ops);
            transferId in s.transfers &&
            var (s', out) := RefundTransfer(s, transferId, reason, at);
            var phase := s.transfers[transferId].state;
            if phase == Locked || phase == PendingProof
            then out == Ok(RefundReceipt(transferId, amountSats, reason, phase)) && s'.totalReleased == s.totalReleased + amountSats
                 && transferId in s'.transfers && s'.transfers[transferId].state == Refunded && s'.transfers[transferId].completedAt == at
            else out == Err(CannotRefundInState(phase)) && s' == s
  {
    hide Run, FreshRun, EventId, FeeOf, Direction, LockedBy;
    LockKept(cfg, ops, k, agentId, amountSats, chainId, recipient, transferId, now);
  }

  // ---- burns ----

  ghost predicate BurnedBy(cfg: Config, ops: seq<Op>, k: nat, agentId: string, amountSats: int, chainId: int, transferId: string, now: real) {
    && k < |ops| && ops[k] == BurnOp(agentId, amountSats, chainId, transferId, now)
    && Step(cfg, Run(cfg, ops[..k]), ops[k]).1.Ok?
  }

  ghost predicate OfBurn(cfg: Config, e: Event, r: Record, agentId: string, amountSats: int, chainId: int, transferId: string, now: real) {
    && e.eventId == EventId(Burn, transferId) && e.transferId == transferId && e.kind == Burn && e.agentId == agentId
    && e.amountSats == amountSats && e.chainId == chainId && e.recipient == "bait:" + agentId && e.timestamp == now
    && e.txHash == TxHash(Burn, e.eventId, now)
    && r.transferId == transferId && r.agentId == agentId && r.amountSats == amountSats && r.burnEvent == Some(e.eventId)
    && r.sourceChainId == chainId && r.targetChainId == 0 && r.direction == Direction(chainId, 0)
    && r.sourceAddress == "chain:" + DecimalInt(chainId) + ":" + agentId && r.targetAddress == "bait:" + agentId && r.createdAt == now
    && chainId in cfg.chains && FeeOf(amountSats, cfg.chains[chainId].feeBps, r.feeSats)
  }

  /** An accepted burn stores what was asked for, and answers what it stored. */
  lemma BurnStores(cfg: Config, s: State, agentId: string, amountSats: int, chainId: int, transferId: string, now: real)
    requires BurnWrapped(cfg, s, agentId, amountSats, chainId, transferId, now).1.Ok?
    ensures var (s', out) := BurnWrapped(cfg, s, agentId, amountSats, chainId, transferId, now);
            var id := EventId(Burn, transferId);
            && id in s'.events && transferId in s'.transfers
            && OfBurn(cfg, s'.events[id], s'.transfers[transferId], agentId, amountSats, chainId, transferId, now)
            && out.value == BurnReceipt(transferId, id, s'.events[id].txHash, amountSats, s'.transfers[transferId].feeSats)
            && s'.totalBurned == s.totalBurned + amountSats && s'.events[id].state == Burned
  {
    hide EventId, Direction, Fee, DecimalInt, FeeOf;
    if chainId in cfg.chains {
      FeeExact(amountSats, cfg.chains[chainId].feeBps, Fee(amountSats, cfg.chains[chainId].feeBps));
    }
  }

  /** Over every run the transfer of an accepted burn keeps what was asked for. */
  lemma BurnKept(cfg: Config, ops: seq<Op>, k: nat, agentId: string, amountSats: int, chainId: int, transferId: string, now: real)
    requires cfg.threshold >= 1 && FreshRun(cfg, ops) && BurnedBy(cfg, ops, k, agentId, amountSats, chainId, transferId, now)
    ensures var s := Run(cfg, ops);
            var id := EventId(Burn, transferId);
            && id in s.events && transferId in s.transfers
            && OfBurn(cfg, s.events[id], s.transfers[transferId], agentId, amountSats, chainId, transferId, now)
  {
    BurnRun(cfg, ops, k, agentId, amountSats, chainId, transferId, now);
    hide Run, FreshRun, EventId, BurnWrapped, OfBurn, SameEvent, SameRecord, BurnedBy;
    BurnStores(cfg, Run(cfg, ops[..k]), agentId, amountSats, chainId, transferId, now);
    var id, s, t := EventId(Burn, transferId), Run(cfg, ops[..k + 1]), Run(cfg, ops);
    BurnNames(cfg, s.events[id], s.transfers[transferId], agentId, amountSats, chainId, transferId, now);
    TransferStays(cfg, ops, k + 1, id);
    BurnStill(cfg, s.events[id], s.transfers[transferId], t.events[id], t.transfers[transferId], agentId, amountSats, chainId,
              transferId, now);
  }

  lemma BurnRun(cfg: Config, ops: seq<Op>, k: nat, agentId: string, amountSats: int, chainId: int, transferId: string, now: real)
    requires BurnedBy(cfg, ops, k, agentId, amountSats, chainId, transferId, now)
    ensures k < |ops|
    ensures var (s', out) := BurnWrapped(cfg, Run(cfg, ops[..k]), agentId, amountSats, chainId, transferId, now);
            Run(cfg, ops[..k + 1]) == s' && out.Ok?
  {
    assert ops[..k + 1][..k] == ops[..k];
    assert Run(cfg, ops[..k + 1]) == Step(cfg, Run(cfg, ops[..k]), ops[k]).0;
    hide Run, BurnWrapped;
  }

  lemma BurnNames(cfg: Config, e: Event, r: Record, agentId: string, amountSats: int, chainId: int, transferId: string, now: real)
    requires OfBurn(cfg, e, r, agentId, amountSats, chainId, transferId, now)
    ensures e.transferId == transferId
  {
  }

  lemma BurnStill(cfg: Config, e: Event, r: Record, e': Event, r': Record, agentId: string, amountSats: int, chainId: int,
                  transferId: string, now: real)
    requires OfBurn(cfg, e, r, agentId, amountSats, chainId, transferId, now) && SameEvent(e, e') && SameRecord(r, r')
    ensures OfBurn(cfg, e', r', agentId, amountSats, chainId, transferId, now)
  {
    hide FeeOf, Direction, DecimalInt, EventId;
  }

  /** Over every run a release of that burn answers and releases the amount burned, to the burning agent. */
  lemma ReleaseAnswersRequest(cfg: Config, ops: seq<Op>, k: nat, agentId: string, amountSats: int, chainId: int,
                              transferId: string, now: real, at: real)
    requires cfg.threshold >= 1 && FreshRun(cfg, ops) && BurnedBy(cfg, ops, k, agentId, amountSats, chainId, transferId, now)
    ensures var s := Run(cfg, ops);
            var id := EventId(Burn, transferId);
            id in s.events &&
            var (s', out) := ReleaseBait(s, id, at);
            && out == Ok(ReleaseReceipt(id, amountSats, "bait:" + agentId)) && s'.totalReleased == s.totalReleased + amountSats
            && transferId in s'.transfers && s'.transfers[transferId].state == Completed && s'.transfers[transferId].completedAt == at
  {
    hide Run, FreshRun, EventId, FeeOf, Direction, DecimalInt, BurnedBy;
    BurnKept(cfg, ops, k, agentId, amountSats, chainId, transferId, now);
  }

  /** Only burn events are released. */
  lemma LocksAreNotReleased(cfg: Config, s: State, id: string, at: real)
    requires Inv(cfg, s)
    ensures ReleaseBait(s, id, at).1.Ok? <==> id in s.events && s.events[id].kind == Burn
    ensures id in s.events && s.events[id].kind == Lock ==> ReleaseBait(s, id, at) == (s, Err(NotABurnEvent))
  {
  }

  // ---- the running totals against the answers ----

  datatype Book = LockedBook | MintedBook | BurnedBook | ReleasedBook

  /** What one answer enters in a book. */
  function Entered(b: Book, out: Outcome): int {
    if out.Err? then 0
    else
      match out.value
      case LockReceipt(_, _, _, n, _, _, _, _) => if b == LockedBook then n else 0
      case MintReceipt(_, n, _, _, again) => if b == MintedBook && !again then n else 0
      case BurnReceipt(_, _, _, n, _) => if b == BurnedBook then n else 0
      case ReleaseReceipt(_, n, _) => if b == ReleasedBook then n else 0
      case RefundReceipt(_, n, _, _) => if b == ReleasedBook then n else 0
      case _ => 0
  }

  ghost function Booked(cfg: Config, ops: seq<Op>, b: Book): int {
    if ops == [] then 0
    else
      var n := |ops| - 1;
      Booked(cfg, ops[..n], b) + Entered(b, Step(cfg, Run(cfg, ops[..n]), ops[n]).1)
  }

  function TotalOf(s: State, b: Book): int {
    match b
    case LockedBook => s.totalLocked
    case MintedBook => s.totalMinted
    case BurnedBook => s.totalBurned
    case ReleasedBook => s.totalReleased
  }

  lemma StepBooks(cfg: Config, s: State, op: Op, b: Book)
    ensures var (s', out) := Step(cfg, s, op); TotalOf(s', b) == TotalOf(s, b) + Entered(b, out)
  {
    hide HasSigner, Refusal, EventId, DedupKey, Direction, Path, Fee, Total, Day, DecimalInt, LockBait, AcceptProof;
    if op.LockOp? {
      LockBooks(cfg, s, op.agentId, op.amountSats, op.chainId, op.recipient, op.transferId, op.now, b);
    } else if op.SubmitOp? {
      ProofBooks(cfg, s, op.eventId, op.signer, op.signature, op.now, b);
    }
  }

  lemma LockBooks(cfg: Config, s: State, agentId: string, amountSats: int, chainId: int, recipient: string, transferId: string,
                  now: real, b: Book)
    ensures var (s', out) := LockBait(cfg, s, agentId, amountSats, chainId, recipient, transferId, now);
            TotalOf(s', b) == TotalOf(s, b) + Entered(b, out)
  {
    hide LockBait, RecordLock, Fee, EventId;
    if LockBait(cfg, s, agentId, amountSats, chainId, recipient, transferId, now).1.Ok? {
      RecordIsAsked(cfg, s, agentId, amountSats, chainId, recipient, transferId, now);
      RecordBooks(ResetDaily(s, now), agentId, amountSats, chainId, recipient, transferId, now,
                  Fee(amountSats, cfg.chains[chainId].feeBps), b);
    } else {
      RefusalsChangeNothing(cfg, s, LockOp(agentId, amountSats, chainId, recipient, transferId, now));
    }
  }

  lemma RecordBooks(s: State, agentId: string, amountSats: int, chainId: int, recipient: string, transferId: string,
                    now: real, fee: int, b: Book)
    ensures var (s', out) := RecordLock(s, agentId, amountSats, chainId, recipient, transferId, now, fee);
            TotalOf(s', b) == TotalOf(s, b) + Entered(b, out)
  {
    hide DedupKey, EventId, Direction, Path;
  }

  lemma ProofBooks(cfg: Config, s: State, eventId: string, signer: string, signature: string, now: real, b: Book)
    ensures eventId in s.events ==>
              var (s', out) := AcceptProof(cfg, s, eventId, signer, signature, now);
              TotalOf(s', b) == TotalOf(s, b) + Entered(b, out)
  {
    hide HasSigner;
  }

  /** Over every run each total is the sum of the amounts answered: of locks, of first mints, of burns, of releases and refunds. */
  lemma {:induction false} TotalsAreBooked(cfg: Config, ops: seq<Op>, b: Book)
    ensures TotalOf(Run(cfg, ops), b) == Booked(cfg, ops, b)
  {
    hide Step, Entered;
    if ops != [] {
      TotalsAreBooked(cfg, ops[..|ops| - 1], b);
      StepBooks(cfg, Run(cfg, ops[..|ops| - 1]), ops[|ops| - 1], b);
    } else {
      hide TotalOf;
      assert TotalOf(INITIAL, b) == 0 by { InitialTotals(b); }
    }
  }

  lemma InitialTotals(b: Book)
    ensures TotalOf(INITIAL, b) == 0
  {
  }

  // ---- the pause ----

  /** What the last pause or unpause of the run said. */
  function LastPause(ops: seq<Op>): bool {
    if ops == [] then false
    else if ops[|ops| - 1].PauseOp? then ops[|ops| - 1].paused
    else LastPause(ops[..|ops| - 1])
  }

  lemma StepPause(cfg: Config, s: State, op: Op)
    ensures Step(cfg, s, op).0.paused == if op.PauseOp? then op.paused else s.paused
  {
    hide HasSigner, Refusal, EventId, DedupKey, Direction, Path, Fee, Total, Day, DecimalInt;
  }

  lemma {:induction false} RunPause(cfg: Config, ops: seq<Op>)
    ensures Run(cfg, ops).paused == LastPause(ops)
  {
    hide Step;
    if ops != [] {
      RunPause(cfg, ops[..|ops| - 1]);
      StepPause(cfg, Run(cfg, ops[..|ops| - 1]), ops[|ops| - 1]);
    }
  }

  /** Over every run: while the last word was pause, no lock and no burn is accepted and neither changes anything; a bridge not
      paused never gives the pause as a reason. */
  lemma PausedAcceptsNothing(cfg: Config, ops: seq<Op>, agentId: string, amountSats: int, chainId: int, recipient: string,
                             transferId: string, now: real)
    ensures var s := Run(cfg, ops);
            var (s1, lock) := LockBait(cfg, s, agentId, amountSats, chainId, recipient, transferId, now);
            var (s2, burn) := BurnWrapped(cfg, s, agentId, amountSats, chainId, transferId, now);
            && (LastPause(ops) <==> lock == Err(BridgePaused))
            && (LastPause(ops) ==> s1 == s && s2 == s && burn.Err?)
            && (burn.Ok? <==> !LastPause(ops) && chainId in cfg.chains)
  {
    hide Run, HasSigner, EventId, DedupKey, Direction, Path, Fee, Total, Day, DecimalInt;
    RunPause(cfg, ops);
  }
}
