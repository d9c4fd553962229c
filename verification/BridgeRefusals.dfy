/** Which requests the bridge refuses, and for which of the rules they break. */
module BridgeRefusals {
  import opened Wrappers
  import opened Text
  import opened Merkle
  import opened Authorization
  import opened Bridge
  import opened BridgeSafety
  import opened BridgeAnswers

  /** What the agent has locked on the day of the request, as the manager counts it. */
  function VolumeToday(s: State, agentId: string, now: real): int {
    if s.volumeDay == Some(Day(now)) then Volume(s, agentId) else 0
  }

  /** The request breaks the rule that the error reports. */
  ghost predicate Breaks(cfg: Config, s: State, op: Op, e: BridgeError) {
    match op
    case LockOp(agentId, n, chainId, recipient, _, now) => LockBreaks(cfg, s, agentId, n, chainId, recipient, now, e)
    case SubmitOp(id, proof, signer, signature, _) => SubmitBreaks(cfg, s, id, proof, signer, signature, e)
    case MintOp(id, _) =>
      || (e == EventNotFound && id !in s.events)
      || (id in s.events && s.events[id].state != Minted && |s.events[id].signatures| < cfg.threshold
          && e == InsufficientSignatures(|s.events[id].signatures|, cfg.threshold))
    case BurnOp(_, _, chainId, _, _) => (e == BridgePaused && s.paused) || (e == UnsupportedChain(chainId) && chainId !in cfg.chains)
    case ReleaseOp(id, _) =>
      (e == EventNotFound && id !in s.events) || (e == NotABurnEvent && id in s.events && s.events[id].kind == Lock)
    case RefundOp(t, _, _) =>
      || (e == TransferNotFound && t !in s.transfers)
      || (t in s.transfers && s.transfers[t].state !in {Locked, PendingProof} && e == CannotRefundInState(s.transfers[t].state))
    case PauseOp(_) => false
  }

  ghost predicate LockBreaks(cfg: Config, s: State, agentId: string, n: int, chainId: int, recipient: string, now: real, e: BridgeError) {
    match e
    case BridgePaused => s.paused
    case UnsupportedChain(c) => c == chainId && chainId !in cfg.chains
    case BelowMinimum(m) => chainId in cfg.chains && m == cfg.chains[chainId].minLockSats && n < m
    case AboveMaximum(m) => chainId in cfg.chains && m == cfg.chains[chainId].maxLockSats && n > m
    case DailyLimitExceeded => VolumeToday(s, agentId, now) + n > cfg.dailyLimitSats
    case TooManyPending => Total(PendingOf(agentId), s.transfers) >= cfg.maxPending
    case DuplicateLock(t) =>
      DedupKey(agentId, n, recipient, chainId) in s.dedup && s.dedup[DedupKey(agentId, n, recipient, chainId)] == t
    case _ => false
  }

  ghost predicate SubmitBreaks(cfg: Config, s: State, id: string, proof: seq<Digest>, signer: string, signature: string, e: BridgeError) {
    if id !in s.events then e == EventNotFound
    else
      var event := s.events[id];
      match e
      case InvalidState(p) => p == event.state && p !in {Locked, PendingProof, ProofSubmitted}
      case RelayerSignatureRequired => cfg.authorization.Some? && (signer == "" || signature == "")
      case ProofMismatch => cfg.authorization.Some? && proof != event.merkleProof
      case DuplicateRelayer => cfg.authorization.Some? && HasSigner(event, signer)
      case InvalidRelayerSignature(detail) =>
        && cfg.authorization.Some? && !Genuine(cfg.authorization.value, ClaimOf(cfg, event).(proof := Hexes(cfg, proof)), signer, signature)
        && detail == (if signer == "" then InvalidSignerId
                      else if signer !in cfg.authorization.value.keys then UnknownSigner(signer) else InvalidSignature(signer))
      case _ => false
  }

  /** The order in which the rules are checked; a burn asks for its chain before it looks at the pause. */
  function Rank(op: Op, e: BridgeError): nat {
    match e
    case BridgePaused => if op.BurnOp? then 2 else 0
    case UnsupportedChain(_) => 1
    case BelowMinimum(_) => 2
    case AboveMaximum(_) => 3
    case DailyLimitExceeded => 4
    case TooManyPending => 5
    case DuplicateLock(_) => 6
    case EventNotFound => 0
    case TransferNotFound => 0
    case InvalidState(_) => 1
    case RelayerSignatureRequired => 2
    case ProofMismatch => 3
    case DuplicateRelayer => 4
    case InvalidRelayerSignature(_) => 5
    case InsufficientSignatures(_, _) => 1
    case NotABurnEvent => 1
    case CannotRefundInState(_) => 1
    case DuplicateTxHash(_) => 7
  }

  lemma ResetVolume(s: State, agentId: string, now: real)
    ensures Volume(ResetDaily(s, now), agentId) == VolumeToday(s, agentId, now)
    ensures ResetDaily(s, now).transfers == s.transfers && ResetDaily(s, now).dedup == s.dedup && ResetDaily(s, now).txHashes == s.txHashes
  {
    hide Day;
  }

  /** The checks of a lock in order. */
  ghost predicate LockAnswered(cfg: Config, s: State, agentId: string, n: int, chainId: int, recipient: string, now: real, out: Outcome) {
    var key := DedupKey(agentId, n, recipient, chainId);
    if s.paused then out == Err(BridgePaused)
    else if chainId !in cfg.chains then out == Err(UnsupportedChain(chainId))
    else if n < cfg.chains[chainId].minLockSats then out == Err(BelowMinimum(cfg.chains[chainId].minLockSats))
    else if n > cfg.chains[chainId].maxLockSats then out == Err(AboveMaximum(cfg.chains[chainId].maxLockSats))
    else if VolumeToday(s, agentId, now) + n > cfg.dailyLimitSats then out == Err(DailyLimitExceeded)
    else if Total(PendingOf(agentId), s.transfers) >= cfg.maxPending then out == Err(TooManyPending)
    else if key in s.dedup then out == Err(DuplicateLock(s.dedup[key]))
    else out.Ok?
  }

  lemma LockAnswers(cfg: Config, s: State, agentId: string, n: int, chainId: int, recipient: string, transferId: string, now: real)
    requires Inv(cfg, s) && transferId !in s.transfers
    ensures LockAnswered(cfg, s, agentId, n, chainId, recipient, now, LockBait(cfg, s, agentId, n, chainId, recipient, transferId, now).1)
  {
    NewTxHash(cfg, s, transferId, now);
    ResetVolume(s, agentId, now);
    hide Inv, ResetDaily, Volume, VolumeToday, DedupKey, EventId, Total, Fee, NewLock;
  }

  lemma LockNamed(cfg: Config, s: State, agentId: string, n: int, chainId: int, recipient: string, now: real, out: Outcome)
    requires LockAnswered(cfg, s, agentId, n, chainId, recipient, now, out) && out.Err?
    ensures LockBreaks(cfg, s, agentId, n, chainId, recipient, now, out.error)
  {
    hide VolumeToday, DedupKey, Total;
  }

  lemma LockLater(cfg: Config, s: State, agentId: string, n: int, chainId: int, recipient: string, transferId: string, now: real,
                  out: Outcome, e: BridgeError)
    requires LockAnswered(cfg, s, agentId, n, chainId, recipient, now, out)
    requires LockBreaks(cfg, s, agentId, n, chainId, recipient, now, e)
    ensures out.Err?
    ensures var op := LockOp(agentId, n, chainId, recipient, transferId, now); Rank(op, out.error) <= Rank(op, e)
  {
    hide VolumeToday, DedupKey, Total;
  }

  lemma LockFirst(cfg: Config, s: State, op: Op)
    requires op.LockOp? && Inv(cfg, s) && FreshId(s, op)
    ensures FirstOf(cfg, s, op, Step(cfg, s, op).1)
  {
    hide Inv, LockBait, LockAnswered, LockBreaks, Rank;
    var out := LockBait(cfg, s, op.agentId, op.amountSats, op.chainId, op.recipient, op.transferId, op.now).1;
    LockAnswers(cfg, s, op.agentId, op.amountSats, op.chainId, op.recipient, op.transferId, op.now);
    if out.Err? { LockNamed(cfg, s, op.agentId, op.amountSats, op.chainId, op.recipient, op.now, out); }
    forall e | Breaks(cfg, s, op, e) ensures out.Err? && Rank(op, out.error) <= Rank(op, e) {
      LockLater(cfg, s, op.agentId, op.amountSats, op.chainId, op.recipient, op.transferId, op.now, out, e);
    }
  }

  lemma SubmitFirst(cfg: Config, s: State, op: Op)
    requires op.SubmitOp?
    ensures FirstOf(cfg, s, op, Step(cfg, s, op).1)
  {
    hide HasSigner, VerifyOne, Genuine, AcceptProof, Hexes;
    if op.eventId in s.events {
      AcceptedIsOk(cfg, s, op.eventId, op.signer, op.signature, op.now);
      if cfg.authorization.Some? {
        VerifyOneDetail(cfg.authorization.value, ClaimOf(cfg, s.events[op.eventId]).(proof := Hexes(cfg, op.proof)), op.signer, op.signature);
      }
    }
  }

  lemma VerifyOneDetail(reg: Registry, c: Claim, signer: string, signature: string)
    ensures VerifyOne(reg, c, signer, signature) ==
            if Genuine(reg, c, signer, signature) then Ok((signer, signature))
            else Err(if signer == "" then InvalidSignerId else if signer !in reg.keys then UnknownSigner(signer) else InvalidSignature(signer))
  {
    VerifyOneIff(reg, c, signer, signature);
    hide Genuine, SigningBytes;
  }

  /** The answer is a receipt exactly when no rule is broken, and otherwise the first rule broken. */
  ghost predicate FirstOf(cfg: Config, s: State, op: Op, out: Outcome) {
    match out
    case Ok(_) => forall e :: !Breaks(cfg, s, op, e)
    case Err(error) => Breaks(cfg, s, op, error) && forall e :: Breaks(cfg, s, op, e) ==> Rank(op, error) <= Rank(op, e)
  }

  lemma OthersFirst(cfg: Config, s: State, op: Op)
    requires !op.LockOp? && !op.SubmitOp?
    ensures FirstOf(cfg, s, op, Step(cfg, s, op).1)
  {
    hide LockBreaks, SubmitBreaks, Fee, NewBurn, Store, RecordOf;
  }

  /** After any run, a request is refused exactly when it breaks a rule, and for the first rule it breaks. */
  lemma RequestsAnswered(cfg: Config, ops: seq<Op>, op: Op)
    requires cfg.threshold >= 1 && FreshRun(cfg, ops) && FreshId(Run(cfg, ops), op)
    ensures FirstOf(cfg, Run(cfg, ops), op, Step(cfg, Run(cfg, ops), op).1)
  {
    RunKeepsInv(cfg, ops);
    hide FirstOf, Inv, Run, FreshRun, FreshId, Step;
    var s := Run(cfg, ops);
    if op.LockOp? { LockFirst(cfg, s, op); }
    else if op.SubmitOp? { SubmitFirst(cfg, s, op); }
    else { OthersFirst(cfg, s, op); }
  }

  // ---- directions ----

  ghost predicate OneSided(source: int, target: int) { source == 0 || target == 0 }

  lemma DirectionNames()
    ensures Direction(0, 1) == "bait_to_eth" && Direction(1, 0) == "eth_to_bait"
    ensures Direction(0, 1399811149) == "bait_to_sol" && Direction(1399811149, 0) == "sol_to_bait"
    ensures forall a, b :: a !in {1, 1399811149} && b !in {1, 1399811149} ==>
              Direction(a, b) == "chain_" + DecimalInt(a) + "_to_" + DecimalInt(b)
  {
    hide DecimalInt;
  }

  /** The direction of a lock or a burn tells which way it goes and over which chain. */
  lemma DirectionTells(a: int, b: int, c: int, d: int)
    requires OneSided(a, b) && OneSided(c, d)
    ensures Direction(a, b) == Direction(c, d) <==> a == c && b == d
  {
    hide DecimalInt;
    var n := "chain_" + DecimalInt(a) + "_to_" + DecimalInt(b);
    var m := "chain_" + DecimalInt(c) + "_to_" + DecimalInt(d);
    assert n[0] == 'c' && m[0] == 'c';
    if n == m {
      assert n == "chain_" + (DecimalInt(a) + ("_to_" + DecimalInt(b))) && m == "chain_" + (DecimalInt(c) + ("_to_" + DecimalInt(d)));
      Split("chain_", DecimalInt(a) + ("_to_" + DecimalInt(b)), "chain_", DecimalInt(c) + ("_to_" + DecimalInt(d)));
      DecimalIntPrefix(a, "_to_" + DecimalInt(b), c, "_to_" + DecimalInt(d));
      Split("_to_", DecimalInt(b), "_to_", DecimalInt(d));
      assert DecimalInt(b) + "" == DecimalInt(d) + "";
      DecimalIntPrefix(b, "", d, "");
    }
  }
}
