/** What every reachable state of the bridge satisfies. */
module BridgeSafety {
  import opened Wrappers
  import opened Text
  import opened Merkle
  import opened Authorization
  import opened Bridge

  function EventIdOf(r: Record): string {
    EventId(if r.lockEvent.Some? then Lock else Burn, r.transferId)
  }

  ghost predicate DistinctSigners(sigs: seq<RelayerSignature>) {
    forall i, j :: 0 <= i < j < |sigs| ==> sigs[i].signer != sigs[j].signer
  }

  /** Each signature is a registered signer's, over the event's own id, transfer, chain, amount and stored proof. */
  ghost predicate AllGenuine(cfg: Config, e: Event) {
    cfg.authorization.Some? ==>
      forall i :: 0 <= i < |e.signatures| ==>
        Genuine(cfg.authorization.value, ClaimOf(cfg, e), e.signatures[i].signer, e.signatures[i].signature)
  }

  ghost predicate LockPair(cfg: Config, r: Record, e: Event) {
    && r.lockEvent == Some(e.eventId)
    && r.amountSats >= 0
    && r.targetAddress == e.recipient && r.targetChainId == e.chainId
    && (Live(e.state) || e.state == Minted || e.state == Refunded)
    && (e.state == ProofSubmitted || e.state == Minted <==> |e.signatures| >= cfg.threshold)
    && (e.state == Locked ==> e.signatures == [])
    && DistinctSigners(e.signatures)
    && AllGenuine(cfg, e)
  }

  ghost predicate BurnPair(r: Record, e: Event) {
    && r.lockEvent == None
    && (e.state == Burned || e.state == Completed)
    && e.signatures == []
  }

  /** The record holds a mint entry exactly when minted and a release entry exactly when completed, each for the event's amount. */
  ghost predicate HistoryOk(r: Record, e: Event) {
    && (r.mintEvent.Some? <==> r.state == Minted)
    && (r.mintEvent.Some? ==> r.mintEvent.value.eventId == "mint_" + e.eventId && r.mintEvent.value.amountSats == e.amountSats)
    && (r.releaseEvent.Some? <==> r.state == Completed)
    && (r.releaseEvent.Some? ==> r.releaseEvent.value.eventId == "release_" + e.eventId && r.releaseEvent.value.amountSats == e.amountSats)
  }

  /** A record and its event agree. */
  ghost predicate PairOk(cfg: Config, r: Record, e: Event) {
    && e.transferId == r.transferId
    && e.eventId == EventId(e.kind, r.transferId)
    && e.state == r.state
    && e.amountSats == r.amountSats
    && e.agentId == r.agentId
    && HistoryOk(r, e)
    && (if e.kind == Lock then LockPair(cfg, r, e) else BurnPair(r, e))
  }

  ghost predicate RecordsPaired(cfg: Config, s: State) {
    forall t :: t in s.transfers ==>
      var r := s.transfers[t];
      r.transferId == t && EventIdOf(r) in s.events && PairOk(cfg, r, s.events[EventIdOf(r)])
  }

  ghost predicate EventsPaired(s: State) {
    forall id :: id in s.events ==>
      s.events[id].transferId in s.transfers && EventIdOf(s.transfers[s.events[id].transferId]) == id
  }

  ghost predicate TotalsAgree(s: State) {
    && s.totalLocked == Total(LockedAmount, s.transfers)
    && s.totalMinted == Total(MintedAmount, s.transfers)
    && s.totalBurned == Total(BurnedAmount, s.transfers)
    && |s.leaves| == Total(LockCount, s.transfers)
  }

  ghost predicate PendingWithin(cfg: Config, s: State) {
    forall a: string :: Total(PendingOf(a), s.transfers) <= cfg.maxPending
  }

  function KeyOf(r: Record): string {
    DedupKey(r.agentId, r.amountSats, r.targetAddress, r.targetChainId)
  }

  /** The duplicate table holds exactly the locks' keys, each with its lock. */
  ghost predicate LocksIndexed(s: State) {
    && (forall t :: t in s.transfers && s.transfers[t].lockEvent.Some? ==>
          KeyOf(s.transfers[t]) in s.dedup && s.dedup[KeyOf(s.transfers[t])] == t)
    && (forall key :: key in s.dedup ==>
          s.dedup[key] in s.transfers && s.transfers[s.dedup[key]].lockEvent.Some? && KeyOf(s.transfers[s.dedup[key]]) == key)
  }

  ghost predicate HashesKnown(s: State) {
    forall h :: h in s.txHashes ==> h.eventId in s.events
  }

  /** Leaf k is the event's leaf, and its stored proof is the path of that leaf at lock time. */
  ghost predicate AnchoredAt(s: State, e: Event, k: nat) {
    && k < |s.leaves|
    && s.leaves[k] == LeafOf(e)
    && e.merkleProof == Path(s.leaves[..k + 1], k)
  }

  ghost predicate Anchored(s: State, e: Event) {
    exists k :: AnchoredAt(s, e, k)
  }

  ghost predicate LocksAnchored(s: State) {
    forall id :: id in s.events && s.events[id].kind == Lock ==> Anchored(s, s.events[id])
  }

  /** Every leaf is the leaf of a lock event, and no leaf occurs twice. */
  ghost predicate LeavesAreLocks(s: State) {
    && Distinct(s.leaves)
    && forall k :: 0 <= k < |s.leaves| ==>
         && s.leaves[k].LockLeaf? && s.leaves[k].eventId in s.events
         && s.events[s.leaves[k].eventId].kind == Lock && s.leaves[k] == LeafOf(s.events[s.leaves[k].eventId])
  }

  ghost predicate Inv(cfg: Config, s: State) {
    && RecordsPaired(cfg, s)
    && EventsPaired(s)
    && TotalsAgree(s)
    && PendingWithin(cfg, s)
    && LocksIndexed(s)
    && HashesKnown(s)
    && LocksAnchored(s)
    && LeavesAreLocks(s)
  }

  // ---- ids ----

  lemma EventIdInjective(k: Kind, t: string, k': Kind, t': string)
    requires EventId(k, t) == EventId(k', t')
    ensures k == k' && t == t'
  {
    assert EventId(k, t)[0] == if k == Lock then 'e' else 'b';
    assert EventId(k', t')[0] == if k' == Lock then 'e' else 'b';
    if k == Lock { Split("evt_", t, "evt_", t'); } else { Split("burn_", t, "burn_", t'); }
  }

  lemma EventIdsOfRecordsDiffer(r: Record, r': Record)
    requires r.transferId != r'.transferId
    ensures EventIdOf(r) != EventIdOf(r')
  {
    if EventIdOf(r) == EventIdOf(r') {
      EventIdInjective(if r.lockEvent.Some? then Lock else Burn, r.transferId,
                       if r'.lockEvent.Some? then Lock else Burn, r'.transferId);
    }
  }

  // ---- writing one record together with its event ----

  /** s with record r and event e assigned. */
  function Put(s: State, e: Event, r: Record): State {
    s.(transfers := s.transfers[r.transferId := r], events := s.events[e.eventId := e])
  }

  /** The pair is new, or takes the place of the pair with the same id. */
  ghost predicate PutFits(s: State, e: Event, r: Record) {
    && e.eventId == EventIdOf(r) && e.transferId == r.transferId
    && (r.transferId in s.transfers ==> EventIdOf(s.transfers[r.transferId]) == EventIdOf(r))
  }

  lemma PutKeepsRecords(cfg: Config, s: State, e: Event, r: Record)
    requires RecordsPaired(cfg, s) && PairOk(cfg, r, e) && PutFits(s, e, r)
    ensures RecordsPaired(cfg, Put(s, e, r))
  {
    hide PairOk;
    forall t | t in s.transfers && t != r.transferId ensures EventIdOf(s.transfers[t]) != e.eventId {
      EventIdsOfRecordsDiffer(s.transfers[t], r);
    }
    hide EventIdOf;
  }

  lemma PutKeepsEvents(s: State, e: Event, r: Record)
    requires EventsPaired(s) && PutFits(s, e, r)
    ensures EventsPaired(Put(s, e, r))
  {
    hide EventIdOf;
  }

  lemma PutKeepsPairs(cfg: Config, s: State, e: Event, r: Record)
    requires RecordsPaired(cfg, s) && EventsPaired(s)
    requires PairOk(cfg, r, e)
    requires r.transferId in s.transfers ==> s.transfers[r.transferId].lockEvent == r.lockEvent
    ensures RecordsPaired(cfg, Put(s, e, r)) && EventsPaired(Put(s, e, r))
  {
    hide EventId;
    PairFacts(cfg, r, e);
    assert r.transferId in s.transfers ==> s.transfers[r.transferId].transferId == r.transferId;
    hide PairOk, RecordsPaired, EventsPaired;
    PutKeepsRecords(cfg, s, e, r);
    PutKeepsEvents(s, e, r);
  }

  /** The pairing reads nothing but the two maps. */
  lemma PairsFrame(cfg: Config, s: State, s': State)
    requires RecordsPaired(cfg, s) && EventsPaired(s)
    requires s'.transfers == s.transfers && s'.events == s.events
    ensures RecordsPaired(cfg, s') && EventsPaired(s')
  {
    hide PairOk, EventIdOf;
  }

  /** s' is s with an existing pair replaced and the totals possibly moved. */
  ghost predicate ReplacesPair(s: State, s': State, e: Event, r: Record) {
    && e.eventId in s.events && r.transferId in s.transfers
    && s'.transfers == s.transfers[r.transferId := r]
    && s'.events == s.events[e.eventId := e]
    && s'.leaves == s.leaves && s'.txHashes == s.txHashes && s'.dedup == s.dedup
  }

  /** Only the phase and the history entries differ. */
  predicate SameRecord(q: Record, r: Record) {
    r == q.(state := r.state, mintEvent := r.mintEvent, releaseEvent := r.releaseEvent,
            proofSubmittedAt := r.proofSubmittedAt, completedAt := r.completedAt)
  }

  /** Only the phase differs, and signatures may have been added. */
  predicate SameEvent(d: Event, e: Event) {
    e == d.(signatures := e.signatures, state := e.state) && d.signatures <= e.signatures
  }

  /** Only the phase, the signatures and the history entries of the pair differ. */
  ghost predicate SameTransfer(s: State, e: Event, r: Record)
    requires e.eventId in s.events && r.transferId in s.transfers
  {
    var q, d := s.transfers[r.transferId], s.events[e.eventId];
    && SameRecord(q, r) && SameEvent(d, e)
    && (Live(r.state) ==> Live(q.state))
  }

  /** The moves a transfer may make. */
  predicate Allowed(from: Phase, to: Phase) {
    match from
    case Locked => to == PendingProof || to == ProofSubmitted || to == Refunded
    case PendingProof => to == PendingProof || to == ProofSubmitted || to == Refunded
    case ProofSubmitted => to == ProofSubmitted || to == Minted
    case Burned => to == Completed
    case Completed => to == Completed
    case _ => false
  }

  /** One existing pair makes an allowed move and the totals follow it. */
  ghost predicate Moves(cfg: Config, s: State, s': State, e: Event, r: Record) {
    && PairOk(cfg, r, e)
    && ReplacesPair(s, s', e, r)
    && SameTransfer(s, e, r)
    && Allowed(s.transfers[r.transferId].state, r.state)
    && s'.totalLocked == s.totalLocked && s'.totalBurned == s.totalBurned
    && s'.totalMinted == s.totalMinted + Weight(MintedAmount, r) - Weight(MintedAmount, s.transfers[r.transferId])
    && s'.dailyVolume == s.dailyVolume && s'.volumeDay == s.volumeDay
  }

  lemma ReplaceKeepsIndex(s: State, s': State, e: Event, r: Record)
    requires LocksIndexed(s) && HashesKnown(s) && ReplacesPair(s, s', e, r) && SameTransfer(s, e, r)
    ensures LocksIndexed(s') && HashesKnown(s')
  {
    hide DedupKey;
  }

  lemma ReplaceKeepsAnchors(s: State, s': State, e: Event, r: Record)
    requires LocksAnchored(s) && LeavesAreLocks(s) && ReplacesPair(s, s', e, r) && SameTransfer(s, e, r)
    ensures LocksAnchored(s') && LeavesAreLocks(s')
  {
    hide Path;
    forall id | id in s'.events && s'.events[id].kind == Lock ensures Anchored(s', s'.events[id]) {
      assert Anchored(s, s.events[id]);
      var k :| AnchoredAt(s, s.events[id], k);
      assert AnchoredAt(s', s'.events[id], k);
    }
  }

  lemma ReplaceKeepsPending(cfg: Config, s: State, s': State, e: Event, r: Record)
    requires PendingWithin(cfg, s) && ReplacesPair(s, s', e, r) && SameTransfer(s, e, r)
    ensures PendingWithin(cfg, s')
  {
    forall a: string ensures Total(PendingOf(a), s'.transfers) <= cfg.maxPending {
      TotalPut(PendingOf(a), s.transfers, r.transferId, r);
    }
  }

  /** Such a move keeps the invariant. */
  lemma MoveKeepsInv(cfg: Config, s: State, s': State, e: Event, r: Record)
    requires Inv(cfg, s) && Moves(cfg, s, s', e, r)
    ensures Inv(cfg, s')
  {
    hide PairOk, LeavesAreLocks, LocksAnchored, LocksIndexed, HashesKnown, PendingWithin, RecordsPaired, EventsPaired;
    PutKeepsPairs(cfg, s, e, r);
    PairsFrame(cfg, Put(s, e, r), s');
    ReplaceKeepsIndex(s, s', e, r);
    ReplaceKeepsAnchors(s, s', e, r);
    ReplaceKeepsPending(cfg, s, s', e, r);
    TotalPut(LockedAmount, s.transfers, r.transferId, r);
    TotalPut(MintedAmount, s.transfers, r.transferId, r);
    TotalPut(BurnedAmount, s.transfers, r.transferId, r);
    TotalPut(LockCount, s.transfers, r.transferId, r);
  }

  lemma InvGivesPair(cfg: Config, s: State, id: string)
    requires Inv(cfg, s) && id in s.events
    ensures s.events[id].transferId in s.transfers && s.events[id].eventId == id
    ensures PairOk(cfg, s.transfers[s.events[id].transferId], s.events[id])
    ensures s.transfers[s.events[id].transferId].transferId == s.events[id].transferId
    ensures RecordOf(s, s.events[id]) == s.transfers[s.events[id].transferId]
  {
  }

  lemma InvGivesEvent(cfg: Config, s: State, t: string)
    requires Inv(cfg, s) && t in s.transfers
    ensures var r := s.transfers[t];
            r.transferId == t && EventIdOf(r) in s.events && PairOk(cfg, r, s.events[EventIdOf(r)])
  {
  }

  // ---- operations ----

  lemma AppendedSigner(e: Event, signer: string, signature: string)
    requires DistinctSigners(e.signatures) && !HasSigner(e, signer)
    ensures DistinctSigners(e.signatures + [RelayerSignature(signer, signature)])
  {
  }

  lemma SubmitKeepsPair(cfg: Config, e: Event, r: Record, proof: seq<Digest>, signer: string, signature: string,
                        e': Event, r': Record)
    requires cfg.threshold >= 1
    requires PairOk(cfg, r, e) && Live(e.state) && Refusal(cfg, e, proof, signer, signature).None?
    requires e'.signatures == if signer != "" && signature != "" && !HasSigner(e, signer)
                              then e.signatures + [RelayerSignature(signer, signature)] else e.signatures
    requires e'.state == if |e'.signatures| >= cfg.threshold then ProofSubmitted else PendingProof
    requires e' == e.(signatures := e'.signatures, state := e'.state)
    requires r' == r.(state := e'.state, proofSubmittedAt := r'.proofSubmittedAt)
    ensures PairOk(cfg, r', e')
  {
    hide HasSigner, VerifyOne, Genuine, EventId;
    if cfg.authorization.Some? {
      VerifyOneIff(cfg.authorization.value, ClaimOf(cfg, e).(proof := Hexes(cfg, proof)), signer, signature);
    }
    if e'.signatures != e.signatures { AppendedSigner(e, signer, signature); }
    assert ClaimOf(cfg, e') == ClaimOf(cfg, e);
  }

  lemma SubmitMoves(cfg: Config, s: State, eventId: string, proof: seq<Digest>, signer: string, signature: string, now: real)
    returns (e': Event, r': Record)
    requires cfg.threshold >= 1 && Inv(cfg, s)
    requires SubmitProof(cfg, s, eventId, proof, signer, signature, now).1.Ok?
    ensures Moves(cfg, s, SubmitProof(cfg, s, eventId, proof, signer, signature, now).0, e', r')
  {
    hide Inv, PairOk, HasSigner, Refusal;
    var s' := SubmitProof(cfg, s, eventId, proof, signer, signature, now).0;
    InvGivesPair(cfg, s, eventId);
    var e := s.events[eventId];
    var r := s.transfers[e.transferId];
    e', r' := s'.events[eventId], s'.transfers[e.transferId];
    SubmitKeepsPair(cfg, e, r, proof, signer, signature, e', r');
    PairFacts(cfg, r, e);
  }

  lemma PairFacts(cfg: Config, r: Record, e: Event)
    requires PairOk(cfg, r, e)
    ensures r.state == e.state && r.amountSats == e.amountSats && r.lockEvent.Some? == (e.kind == Lock)
    ensures e.eventId == EventIdOf(r) && r.transferId == e.transferId
    ensures e.state == ProofSubmitted ==> |e.signatures| >= cfg.threshold
  {
  }

  lemma MintMoves(cfg: Config, s: State, eventId: string, now: real) returns (e': Event, r': Record)
    requires cfg.threshold >= 1 && Inv(cfg, s)
    requires var out := MintWrapped(cfg, s, eventId, now).1; out.Ok? && !out.value.idempotent
    ensures Moves(cfg, s, MintWrapped(cfg, s, eventId, now).0, e', r')
  {
    hide Inv;
    var s' := MintWrapped(cfg, s, eventId, now).0;
    InvGivesPair(cfg, s, eventId);
    var e := s.events[eventId];
    e', r' := s'.events[eventId], s'.transfers[e.transferId];
    assert ClaimOf(cfg, e') == ClaimOf(cfg, e);
  }

  lemma ReleaseMoves(cfg: Config, s: State, eventId: string, now: real) returns (e': Event, r': Record)
    requires Inv(cfg, s) && ReleaseBait(s, eventId, now).1.Ok?
    ensures Moves(cfg, s, ReleaseBait(s, eventId, now).0, e', r')
  {
    hide Inv;
    var s' := ReleaseBait(s, eventId, now).0;
    InvGivesPair(cfg, s, eventId);
    e', r' := s'.events[eventId], s'.transfers[s.events[eventId].transferId];
  }

  lemma RefundMoves(cfg: Config, s: State, transferId: string, reason: string, now: real) returns (e': Event, r': Record)
    requires Inv(cfg, s) && RefundTransfer(s, transferId, reason, now).1.Ok?
    ensures Moves(cfg, s, RefundTransfer(s, transferId, reason, now).0, e', r')
  {
    hide Inv;
    var s' := RefundTransfer(s, transferId, reason, now).0;
    var r := s.transfers[transferId];
    InvGivesEvent(cfg, s, transferId);
    e', r' := s.events[EventIdOf(r)].(state := Refunded), s'.transfers[transferId];
    assert ClaimOf(cfg, e') == ClaimOf(cfg, s.events[EventIdOf(r)]);
  }

  /** An operation on an existing transfer changes nothing or makes one allowed move. */
  lemma StepMoves(cfg: Config, s: State, op: Op) returns (e: Event, r: Record)
    requires cfg.threshold >= 1 && Inv(cfg, s)
    requires op.SubmitOp? || op.MintOp? || op.ReleaseOp? || op.RefundOp?
    ensures Step(cfg, s, op).0 == s || Moves(cfg, s, Step(cfg, s, op).0, e, r)
  {
    hide Inv, Moves, SubmitProof, MintWrapped, ReleaseBait, RefundTransfer;
    var out := Step(cfg, s, op).1;
    if out.Ok? {
      match op
      case SubmitOp(id, p, sg, sig, now) => e, r := SubmitMoves(cfg, s, id, p, sg, sig, now);
      case MintOp(id, now) =>
        MintReceiptShape(cfg, s, id, now);
        if !out.value.idempotent { e, r := MintMoves(cfg, s, id, now); } else { e, r := *, *; }
      case ReleaseOp(id, now) => e, r := ReleaseMoves(cfg, s, id, now);
      case RefundOp(t, why, now) => e, r := RefundMoves(cfg, s, t, why, now);
    } else {
      RefusalsChangeNothing(cfg, s, op);
      e, r := *, *;
    }
  }

  lemma MintReceiptShape(cfg: Config, s: State, id: string, now: real)
    ensures var (s', out) := MintWrapped(cfg, s, id, now);
            out.Ok? ==> out.value.MintReceipt? && (out.value.idempotent ==> s' == s)
  {
  }

  /** A refused operation changes nothing, except that a refused lock may start a new day. */
  lemma RefusalsChangeNothing(cfg: Config, s: State, op: Op)
    ensures var (s', out) := Step(cfg, s, op);
            out.Err? ==> s' == s || (op.LockOp? && s' == ResetDaily(s, op.now))
  {
  }

  lemma FreshEvent(cfg: Config, s: State, k: Kind, t: string)
    requires RecordsPaired(cfg, s) && EventsPaired(s) && t !in s.transfers
    ensures EventId(k, t) !in s.events
  {
    if EventId(k, t) in s.events {
      var r := s.transfers[s.events[EventId(k, t)].transferId];
      EventIdInjective(if r.lockEvent.Some? then Lock else Burn, r.transferId, k, t);
    }
  }

  lemma NewBurnAgrees(cfg: Config, agentId: string, amountSats: int, chainId: int, transferId: string, now: real, fee: int)
    ensures var (e, r) := NewBurn(agentId, amountSats, chainId, transferId, now, fee);
            PairOk(cfg, r, e) && e.eventId == EventId(Burn, transferId) && r.transferId == transferId
            && e.kind == Burn && r.state == Burned && r.lockEvent.None? && r.amountSats == amountSats
  {
    hide EventId, Direction, DecimalInt;
  }

  lemma BurnKeepsIndex(s: State, s': State, e: Event, r: Record)
    requires LocksIndexed(s) && HashesKnown(s) && r.lockEvent.None? && r.transferId !in s.transfers
    requires s'.transfers == s.transfers[r.transferId := r] && s'.events == s.events[e.eventId := e]
    requires s'.dedup == s.dedup && s'.txHashes == s.txHashes
    ensures LocksIndexed(s') && HashesKnown(s')
  {
    hide DedupKey;
  }

  lemma BurnKeepsInv(cfg: Config, s: State, agentId: string, amountSats: int, chainId: int, transferId: string, now: real)
    requires Inv(cfg, s) && transferId !in s.transfers
    ensures Inv(cfg, BurnWrapped(cfg, s, agentId, amountSats, chainId, transferId, now).0)
  {
    hide RecordsPaired, EventsPaired, TotalsAgree, PendingWithin, LocksAnchored, LeavesAreLocks, LocksIndexed, HashesKnown;
    hide PairOk, EventId, NewBurn, Fee;
    var (s', out) := BurnWrapped(cfg, s, agentId, amountSats, chainId, transferId, now);
    if out.Ok? {
      var fee := Fee(amountSats, cfg.chains[chainId].feeBps);
      var (e, r) := NewBurn(agentId, amountSats, chainId, transferId, now, fee);
      NewBurnAgrees(cfg, agentId, amountSats, chainId, transferId, now, fee);
      FreshEvent(cfg, s, Burn, transferId);
      AddKeepsCore(cfg, s, s', e, r);
      NewPairKeepsAnchors(s, s', e);
      BurnKeepsIndex(s, s', e, r);
    }
  }

  lemma NewPairKeepsAnchors(s: State, s': State, e: Event)
    requires LocksAnchored(s) && LeavesAreLocks(s)
    requires e.eventId !in s.events && e.kind == Burn
    requires s'.leaves == s.leaves && s'.events == s.events[e.eventId := e]
    ensures LocksAnchored(s') && LeavesAreLocks(s')
  {
    hide Path;
    forall id | id in s'.events && s'.events[id].kind == Lock ensures Anchored(s', s'.events[id]) {
      assert Anchored(s, s.events[id]);
      var k :| AnchoredAt(s, s.events[id], k);
      assert AnchoredAt(s', s'.events[id], k);
    }
  }

  /** Adding a new pair that agrees, with the totals following it. */
  lemma AddKeepsCore(cfg: Config, s: State, s': State, e: Event, r: Record)
    requires RecordsPaired(cfg, s) && EventsPaired(s) && TotalsAgree(s) && PendingWithin(cfg, s)
    requires PairOk(cfg, r, e) && r.transferId !in s.transfers
    requires s'.transfers == s.transfers[r.transferId := r] && s'.events == s.events[e.eventId := e]
    requires s'.totalLocked == s.totalLocked + Weight(LockedAmount, r)
    requires s'.totalMinted == s.totalMinted + Weight(MintedAmount, r)
    requires s'.totalBurned == s.totalBurned + Weight(BurnedAmount, r)
    requires |s'.leaves| == |s.leaves| + Weight(LockCount, r)
    requires Live(r.state) ==> Total(PendingOf(r.agentId), s.transfers) < cfg.maxPending
    ensures RecordsPaired(cfg, s') && EventsPaired(s') && TotalsAgree(s') && PendingWithin(cfg, s')
  {
    hide PairOk, RecordsPaired, EventsPaired;
    PutKeepsPairs(cfg, s, e, r);
    PairsFrame(cfg, Put(s, e, r), s');
    TotalPut(LockedAmount, s.transfers, r.transferId, r);
    TotalPut(MintedAmount, s.transfers, r.transferId, r);
    TotalPut(BurnedAmount, s.transfers, r.transferId, r);
    TotalPut(LockCount, s.transfers, r.transferId, r);
    forall a: string ensures Total(PendingOf(a), s'.transfers) <= cfg.maxPending {
      TotalPut(PendingOf(a), s.transfers, r.transferId, r);
    }
  }

  /** With fresh ids the transaction-hash check never refuses a lock. */
  lemma TxHashCheckNeverRefuses(cfg: Config, s: State, agentId: string, amountSats: int, chainId: int, recipient: string,
                                transferId: string, now: real)
    requires Inv(cfg, s) && transferId !in s.transfers
    ensures var out := LockBait(cfg, s, agentId, amountSats, chainId, recipient, transferId, now).1;
            out.Err? ==> !out.error.DuplicateTxHash?
  {
    NewTxHash(cfg, s, transferId, now);
    hide Inv, EventId, DedupKey, Direction, Path, Total, Day, Fee;
  }

  lemma NewTxHash(cfg: Config, s: State, transferId: string, now: real)
    requires Inv(cfg, s) && transferId !in s.transfers
    ensures TxHash(Lock, EventId(Lock, transferId), now) !in s.txHashes
  {
    FreshEvent(cfg, s, Lock, transferId);
  }

  lemma LockKeepsAnchors(cfg: Config, s: State, s': State, e: Event)
    requires LocksAnchored(s) && LeavesAreLocks(s)
    requires e.eventId !in s.events && e.kind == Lock
    requires s'.leaves == s.leaves + [LeafOf(e)] && s'.events == s.events[e.eventId := e]
    requires e.merkleProof == Path(s'.leaves, |s.leaves|)
    ensures LocksAnchored(s') && LeavesAreLocks(s')
  {
    hide Path;
    forall id | id in s'.events && s'.events[id].kind == Lock ensures Anchored(s', s'.events[id]) {
      if id == e.eventId {
        assert s'.leaves[..|s.leaves| + 1] == s'.leaves;
        assert AnchoredAt(s', e, |s.leaves|);
      } else {
        assert Anchored(s, s.events[id]);
        var k :| AnchoredAt(s, s.events[id], k);
        assert s'.leaves[..k + 1] == s.leaves[..k + 1];
        assert AnchoredAt(s', s'.events[id], k);
      }
    }
  }

  lemma RecordKeepsInv(cfg: Config, s: State, agentId: string, amountSats: int, chainId: int, recipient: string,
                       transferId: string, now: real, fee: int)
    requires cfg.threshold >= 1 && amountSats >= 0 && Inv(cfg, s) && transferId !in s.transfers
    requires DedupKey(agentId, amountSats, recipient, chainId) !in s.dedup
    requires Total(PendingOf(agentId), s.transfers) < cfg.maxPending
    ensures Inv(cfg, RecordLock(s, agentId, amountSats, chainId, recipient, transferId, now, fee).0)
  {
    hide RecordsPaired, EventsPaired, TotalsAgree, PendingWithin, LocksAnchored, LeavesAreLocks, LocksIndexed, HashesKnown;
    hide PairOk, Path, EventId, DedupKey, Direction;
    FreshEvent(cfg, s, Lock, transferId);
    var (e, r) := NewLock(s, agentId, amountSats, chainId, recipient, transferId, now, fee);
    NewLockAgrees(cfg, s, agentId, amountSats, chainId, recipient, transferId, now, fee);
    var s' := RecordLock(s, agentId, amountSats, chainId, recipient, transferId, now, fee).0;
    AddKeepsCore(cfg, s, s', e, r);
    LockKeepsAnchors(cfg, s, s', e);
    LockKeepsIndex(s, s', r, e);
  }

  lemma LockKeepsInv(cfg: Config, s: State, agentId: string, amountSats: int, chainId: int, recipient: string,
                     transferId: string, now: real)
    requires cfg.threshold >= 1 && Inv(cfg, s) && transferId !in s.transfers
    ensures Inv(cfg, LockBait(cfg, s, agentId, amountSats, chainId, recipient, transferId, now).0)
  {
    hide Inv, RecordLock, EventId, DedupKey, Volume, Fee, Day, Total;
    ResetKeepsInv(cfg, s, now);
    if LockBait(cfg, s, agentId, amountSats, chainId, recipient, transferId, now).1.Ok? {
      RecordIsAsked(cfg, s, agentId, amountSats, chainId, recipient, transferId, now);
      RecordKeepsInv(cfg, ResetDaily(s, now), agentId, amountSats, chainId, recipient, transferId, now,
                     Fee(amountSats, cfg.chains[chainId].feeBps));
    } else {
      RefusalsChangeNothing(cfg, s, LockOp(agentId, amountSats, chainId, recipient, transferId, now));
    }
  }

  /** An accepted lock has passed every check, and is recorded. */
  lemma RecordIsAsked(cfg: Config, s: State, agentId: string, amountSats: int, chainId: int, recipient: string,
                      transferId: string, now: real)
    requires LockBait(cfg, s, agentId, amountSats, chainId, recipient, transferId, now).1.Ok?
    ensures chainId in cfg.chains && amountSats >= 0
    ensures DedupKey(agentId, amountSats, recipient, chainId) !in s.dedup
    ensures Total(PendingOf(agentId), s.transfers) < cfg.maxPending
    ensures LockBait(cfg, s, agentId, amountSats, chainId, recipient, transferId, now) ==
            RecordLock(ResetDaily(s, now), agentId, amountSats, chainId, recipient, transferId, now,
                       Fee(amountSats, cfg.chains[chainId].feeBps))
  {
    hide EventId, DedupKey, Volume, Fee, Day, Total, NewLock;
  }

  lemma NewLockAgrees(cfg: Config, s: State, agentId: string, amountSats: int, chainId: int, recipient: string,
                      transferId: string, now: real, fee: int)
    requires cfg.threshold >= 1 && amountSats >= 0
    ensures var (e, r) := NewLock(s, agentId, amountSats, chainId, recipient, transferId, now, fee); PairOk(cfg, r, e)
  {
    hide Path;
  }

  lemma LockKeepsIndex(s: State, s': State, r: Record, e: Event)
    requires LocksIndexed(s) && HashesKnown(s)
    requires r.transferId !in s.transfers && r.lockEvent.Some?
    requires KeyOf(r) !in s.dedup && s'.dedup == s.dedup[KeyOf(r) := r.transferId]
    requires s'.transfers == s.transfers[r.transferId := r] && s'.events == s.events[e.eventId := e]
    requires e.txHash.eventId == e.eventId && s'.txHashes == s.txHashes[e.txHash := r.transferId]
    ensures LocksIndexed(s') && HashesKnown(s')
  {
    hide DedupKey;
  }

  lemma ResetKeepsInv(cfg: Config, s: State, now: real)
    requires Inv(cfg, s)
    ensures Inv(cfg, ResetDaily(s, now))
  {
    OtherFieldsKeepInv(cfg, s, ResetDaily(s, now));
  }

  /** The invariant reads neither the pause flag nor the daily volumes. */
  lemma OtherFieldsKeepInv(cfg: Config, s: State, s': State)
    requires Inv(cfg, s)
    requires s' == s.(paused := s'.paused, dailyVolume := s'.dailyVolume, volumeDay := s'.volumeDay)
    ensures Inv(cfg, s')
  {
    hide RecordsPaired, EventsPaired, LocksAnchored, DedupKey;
    PairsFrame(cfg, s, s');
    OtherFieldsKeepAnchors(s, s');
  }

  lemma OtherFieldsKeepAnchors(s: State, s': State)
    requires LocksAnchored(s) && s'.events == s.events && s'.leaves == s.leaves
    ensures LocksAnchored(s')
  {
    forall id | id in s'.events && s'.events[id].kind == Lock ensures Anchored(s', s'.events[id]) {
      assert Anchored(s, s.events[id]);
      var k :| AnchoredAt(s, s.events[id], k);
      assert AnchoredAt(s', s'.events[id], k);
    }
  }

  lemma StepKeepsInv(cfg: Config, s: State, op: Op)
    requires cfg.threshold >= 1 && Inv(cfg, s) && FreshId(s, op)
    ensures Inv(cfg, Step(cfg, s, op).0)
  {
    hide Inv, Moves, LockBait, BurnWrapped, SubmitProof, MintWrapped, ReleaseBait, RefundTransfer;
    match op
    case LockOp(a, n, c, rc, t, now) => LockKeepsInv(cfg, s, a, n, c, rc, t, now);
    case BurnOp(a, n, c, t, now) => BurnKeepsInv(cfg, s, a, n, c, t, now);
    case PauseOp(p) => OtherFieldsKeepInv(cfg, s, s.(paused := p));
    case _ =>
      hide Step;
      var e, r := StepMoves(cfg, s, op);
      var s' := Step(cfg, s, op).0;
      if s' != s { MoveKeepsInv(cfg, s, s', e, r); }
  }

  lemma {:induction false} RunKeepsInv(cfg: Config, ops: seq<Op>)
    requires cfg.threshold >= 1 && FreshRun(cfg, ops)
    ensures Inv(cfg, Run(cfg, ops))
  {
    if ops != [] {
      var n := |ops| - 1;
      FreshPrefix(cfg, ops, n);
      RunKeepsInv(cfg, ops[..n]);
      StepKeepsInv(cfg, Run(cfg, ops[..n]), ops[n]);
    }
  }

  lemma FreshPrefix(cfg: Config, ops: seq<Op>, n: nat)
    requires FreshRun(cfg, ops) && n <= |ops|
    ensures FreshRun(cfg, ops[..n])
  {
    forall k | 0 <= k < n ensures FreshId(Run(cfg, ops[..n][..k]), ops[..n][k]) {
      assert ops[..n][..k] == ops[..k];
    }
  }
}
