/** The bridge as a state machine: what each operation of the manager does to the whole state. */
module Bridge {
  import opened Wrappers
  import opened Text
  import opened Merkle
  import opened Authorization

  datatype Phase =
    | Locked | PendingProof | ProofSubmitted | Minted
    | Completed | Burned | Refunded | Expired

  datatype Kind = Lock | Burn

  datatype RelayerSignature = RelayerSignature(signer: string, signature: string) {
    /** The form the event stores. */
    function Stored(): string { signer + ":" + signature }
  }

  datatype TxHash = TxHash(kind: Kind, eventId: string, now: real)

  datatype Event = Event(
    eventId: string,
    transferId: string,
    kind: Kind,
    agentId: string,
    amountSats: int,
    chainId: int,
    recipient: string,
    timestamp: real,
    txHash: TxHash,
    merkleProof: seq<Digest>,
    signatures: seq<RelayerSignature>,
    state: Phase)

  /** A mint or release entry in a record. */
  datatype Entry = Entry(eventId: string, amountSats: int, timestamp: real)

  datatype Record = Record(
    transferId: string,
    direction: string,
    agentId: string,
    amountSats: int,
    feeSats: int,
    sourceChainId: int,
    targetChainId: int,
    sourceAddress: string,
    targetAddress: string,
    createdAt: real,
    state: Phase,
    lockEvent: Option<string>,
    mintEvent: Option<Entry>,
    burnEvent: Option<string>,
    releaseEvent: Option<Entry>,
    proofSubmittedAt: real,
    completedAt: real)

  datatype ChainConfig = ChainConfig(minLockSats: nat, maxLockSats: int, feeBps: int)

  datatype Config = Config(
    threshold: int,
    maxPending: nat,
    dailyLimitSats: int,
    chains: map<int, ChainConfig>,
    authorization: Option<Registry>,
    hex: Digest -> string)

  datatype State = State(
    transfers: map<string, Record>,
    events: map<string, Event>,
    leaves: seq<Digest>,
    paused: bool,
    dailyVolume: map<string, int>,
    volumeDay: Option<int>,
    totalLocked: int,
    totalMinted: int,
    totalBurned: int,
    totalReleased: int,
    txHashes: map<TxHash, string>,
    dedup: map<string, string>)

  const INITIAL := State(map[], map[], [], false, map[], None, 0, 0, 0, 0, map[], map[])

  datatype BridgeError =
    | BridgePaused | UnsupportedChain(chainId: int) | BelowMinimum(min: int) | AboveMaximum(max: int)
    | DailyLimitExceeded | TooManyPending | DuplicateLock(existing: string) | DuplicateTxHash(existing: string)
    | EventNotFound | InvalidState(state: Phase) | RelayerSignatureRequired | ProofMismatch | DuplicateRelayer
    | InvalidRelayerSignature(detail: AuthorizationError) | InsufficientSignatures(have: int, need: int)
    | NotABurnEvent | TransferNotFound | CannotRefundInState(state: Phase)

  datatype Receipt =
    | LockReceipt(transferId: string, eventId: string, txHash: TxHash, amountSats: int, feeSats: int,
                  merkleProof: seq<Digest>, leafHash: Digest, leafIndex: nat)
    | SubmitReceipt(eventId: string, state: Phase, signatures: nat, required: int, readyToMint: bool)
    | MintReceipt(eventId: string, amountSats: int, targetChainId: int, recipient: string, idempotent: bool)
    | BurnReceipt(transferId: string, eventId: string, txHash: TxHash, amountSats: int, feeSats: int)
    | ReleaseReceipt(eventId: string, amountSats: int, recipient: string)
    | RefundReceipt(transferId: string, amountSats: int, reason: string, previousState: Phase)
    | PauseReceipt(paused: bool)

  type Outcome = Result<Receipt, BridgeError>

  // ---- small parts ----

  /** The UTC day of a clock reading. */
  function Day(now: real): int { (now / 86400.0).Floor }

  /** Python's int() of a quotient: rounds towards zero. */
  function Fee(amountSats: int, bps: int): int {
    var p := amountSats * bps;
    if p >= 0 then p / 10000 else -(-p / 10000)
  }

  function Direction(source: int, target: int): string {
    if target == 1 then "bait_to_eth"
    else if target == 1399811149 then "bait_to_sol"
    else if source == 1 then "eth_to_bait"
    else if source == 1399811149 then "sol_to_bait"
    else "chain_" + DecimalInt(source) + "_to_" + DecimalInt(target)
  }

  function EventId(kind: Kind, transferId: string): string {
    (if kind == Lock then "evt_" else "burn_") + transferId
  }

  /** What the duplicate-lock digest is taken of. */
  function DedupKey(agentId: string, amountSats: int, recipient: string, chainId: int): string {
    agentId + ":" + DecimalInt(amountSats) + ":" + recipient + ":" + DecimalInt(chainId)
  }

  predicate Live(p: Phase) { p == Locked || p == PendingProof || p == ProofSubmitted }

  predicate StartsWith(s: string, prefix: string) { |prefix| <= |s| && s[..|prefix|] == prefix }

  predicate HasSigner(e: Event, signer: string) {
    exists i :: 0 <= i < |e.signatures| && StartsWith(e.signatures[i].Stored(), signer + ":")
  }

  function Hexes(cfg: Config, proof: seq<Digest>): seq<string> {
    seq(|proof|, i requires 0 <= i < |proof| => cfg.hex(proof[i]))
  }

  function ClaimOf(cfg: Config, e: Event): Claim {
    Claim(e.eventId, e.transferId, e.chainId, e.amountSats, Hexes(cfg, e.merkleProof))
  }

  function LeafOf(e: Event): Digest { LockLeaf(e.eventId, e.amountSats, e.recipient, e.chainId) }

  function Volume(s: State, agentId: string): int {
    if agentId in s.dailyVolume then s.dailyVolume[agentId] else 0
  }

  function ResetDaily(s: State, now: real): State {
    if s.volumeDay == Some(Day(now)) then s else s.(dailyVolume := map[], volumeDay := Some(Day(now)))
  }

  // ---- sums over all transfers ----

  datatype Measure =
    | LockedAmount | MintedAmount | RefundedAmount | LiveAmount | BurnedAmount | LockCount
    | PendingOf(agentId: string) | VolumeOf(agentId: string, day: int)

  function Weight(m: Measure, r: Record): int {
    match m
    case LockedAmount => if r.lockEvent.Some? then r.amountSats else 0
    case MintedAmount => if r.state == Minted then r.amountSats else 0
    case RefundedAmount => if r.state == Refunded then r.amountSats else 0
    case LiveAmount => if Live(r.state) then r.amountSats else 0
    case LockCount => if r.lockEvent.Some? then 1 else 0
    case BurnedAmount => if r.lockEvent.None? then r.amountSats else 0
    case PendingOf(a) => if r.agentId == a && Live(r.state) then 1 else 0
    case VolumeOf(a, d) => if r.lockEvent.Some? && r.agentId == a && Day(r.createdAt) == d then r.amountSats else 0
  }

  ghost function Total(m: Measure, ts: map<string, Record>): int {
    if ts == map[] then 0
    else
      var t :| t in ts;
      Weight(m, ts[t]) + Total(m, ts - {t})
  }

  lemma {:induction false} TotalPick(m: Measure, ts: map<string, Record>, t: string)
    requires t in ts
    ensures Total(m, ts) == Weight(m, ts[t]) + Total(m, ts - {t})
    decreases |ts|
  {
    hide Weight;
    var u :| u in ts && Total(m, ts) == Weight(m, ts[u]) + Total(m, ts - {u});
    if u != t {
      TotalPick(m, ts - {u}, t);
      TotalPick(m, ts - {t}, u);
      assert ts - {u} - {t} == ts - {t} - {u};
    }
  }

  /** Assigning one record moves a total by the difference of the two weights. */
  lemma TotalPut(m: Measure, ts: map<string, Record>, t: string, r: Record)
    ensures Total(m, ts[t := r]) == Total(m, ts) + Weight(m, r) - (if t in ts then Weight(m, ts[t]) else 0)
  {
    TotalPick(m, ts[t := r], t);
    assert ts[t := r] - {t} == ts - {t};
    if t in ts {
      TotalPick(m, ts, t);
    } else {
      assert ts - {t} == ts;
    }
  }

  // ---- the operations ----

  ghost function LockBait(cfg: Config, s: State, agentId: string, amountSats: int, chainId: int, recipient: string,
                          transferId: string, now: real): (State, Outcome)
  {
    if s.paused then (s, Err(BridgePaused))
    else if chainId !in cfg.chains then (s, Err(UnsupportedChain(chainId)))
    else if amountSats < cfg.chains[chainId].minLockSats then (s, Err(BelowMinimum(cfg.chains[chainId].minLockSats)))
    else if amountSats > cfg.chains[chainId].maxLockSats then (s, Err(AboveMaximum(cfg.chains[chainId].maxLockSats)))
    else
      var s1 := ResetDaily(s, now);
      var key := DedupKey(agentId, amountSats, recipient, chainId);
      var eventId := EventId(Lock, transferId);
      var txHash := TxHash(Lock, eventId, now);
      if Volume(s1, agentId) + amountSats > cfg.dailyLimitSats then (s1, Err(DailyLimitExceeded))
      else if Total(PendingOf(agentId), s1.transfers) >= cfg.maxPending then (s1, Err(TooManyPending))
      else if key in s1.dedup then (s1, Err(DuplicateLock(s1.dedup[key])))
      else if txHash in s1.txHashes then (s1, Err(DuplicateTxHash(s1.txHashes[txHash])))
      else RecordLock(s1, agentId, amountSats, chainId, recipient, transferId, now, Fee(amountSats, cfg.chains[chainId].feeBps))
  }

  /** A lock that passed every check. */
  function RecordLock(s: State, agentId: string, amountSats: int, chainId: int, recipient: string,
                      transferId: string, now: real, fee: int): (State, Outcome)
  {
    var (e, r) := NewLock(s, agentId, amountSats, chainId, recipient, transferId, now, fee);
    (s.(transfers := s.transfers[transferId := r],
        events := s.events[e.eventId := e],
        leaves := s.leaves + [LeafOf(e)],
        dailyVolume := s.dailyVolume[agentId := Volume(s, agentId) + amountSats],
        totalLocked := s.totalLocked + amountSats,
        txHashes := s.txHashes[e.txHash := transferId],
        dedup := s.dedup[DedupKey(agentId, amountSats, recipient, chainId) := transferId]),
     Ok(LockReceipt(transferId, e.eventId, e.txHash, amountSats, fee, e.merkleProof, LeafOf(e), |s.leaves|)))
  }

  function NewLock(s: State, agentId: string, amountSats: int, chainId: int, recipient: string,
                   transferId: string, now: real, fee: int): (Event, Record)
  {
    var eventId := EventId(Lock, transferId);
    var leaf := LockLeaf(eventId, amountSats, recipient, chainId);
    (Event(eventId, transferId, Lock, agentId, amountSats, chainId, recipient, now, TxHash(Lock, eventId, now),
           Path(s.leaves + [leaf], |s.leaves|), [], Locked),
     Record(transferId, Direction(0, chainId), agentId, amountSats, fee, 0, chainId, "bait:" + agentId, recipient, now,
            Locked, Some(eventId), None, None, None, 0.0, 0.0))
  }

  /** Writes back one event and, where it is known, its record. */
  function Store(s: State, id: string, e: Event, r: Record): State {
    s.(events := s.events[id := e],
       transfers := if e.transferId in s.transfers then s.transfers[e.transferId := r] else s.transfers)
  }

  function RecordOf(s: State, e: Event): (r: Record)
    ensures e.transferId in s.transfers ==> r == s.transfers[e.transferId]
  {
    if e.transferId in s.transfers then s.transfers[e.transferId]
    else Record("", "", "", 0, 0, 0, 0, "", "", 0.0, Expired, None, None, None, None, 0.0, 0.0)
  }

  function SubmitProof(cfg: Config, s: State, eventId: string, proof: seq<Digest>, signer: string, signature: string,
                       now: real): (State, Outcome)
  {
    if eventId !in s.events then (s, Err(EventNotFound))
    else
      var e := s.events[eventId];
      if !Live(e.state) then (s, Err(InvalidState(e.state)))
      else
        var refusal := Refusal(cfg, e, proof, signer, signature);
        if refusal.Some? then (s, Err(refusal.value)) else AcceptProof(cfg, s, eventId, signer, signature, now)
  }

  /** A proof submission that passed every check. */
  function AcceptProof(cfg: Config, s: State, eventId: string, signer: string, signature: string, now: real): (State, Outcome)
    requires eventId in s.events
  {
    var e := s.events[eventId];
    var sigs := if signer != "" && signature != "" && !HasSigner(e, signer)
                then e.signatures + [RelayerSignature(signer, signature)] else e.signatures;
    var ready := |sigs| >= cfg.threshold;
    var phase := if ready then ProofSubmitted else PendingProof;
    var r := RecordOf(s, e);
    var r' := if ready then r.(state := phase, proofSubmittedAt := now) else r.(state := phase);
    (Store(s, eventId, e.(signatures := sigs, state := phase), r'),
     Ok(SubmitReceipt(eventId, phase, |sigs|, cfg.threshold, ready)))
  }

  /** The checks made before anything changes, when an authorization registry is set. */
  function Refusal(cfg: Config, e: Event, proof: seq<Digest>, signer: string, signature: string): Option<BridgeError> {
    match cfg.authorization
    case None => None
    case Some(reg) =>
      if signer == "" || signature == "" then Some(RelayerSignatureRequired)
      else if proof != e.merkleProof then Some(ProofMismatch)
      else if HasSigner(e, signer) then Some(DuplicateRelayer)
      else
        match VerifyOne(reg, Claim(e.eventId, e.transferId, e.chainId, e.amountSats, Hexes(cfg, proof)), signer, signature)
        case Err(detail) => Some(InvalidRelayerSignature(detail))
        case Ok(_) => None
  }

  function MintWrapped(cfg: Config, s: State, eventId: string, now: real): (State, Outcome) {
    if eventId !in s.events then (s, Err(EventNotFound))
    else
      var e := s.events[eventId];
      var r := RecordOf(s, e);
      if e.state == Minted then
        (s, Ok(MintReceipt(eventId, e.amountSats, e.chainId,
                           if e.transferId in s.transfers then r.targetAddress else e.recipient, true)))
      else if |e.signatures| < cfg.threshold then
        (s, Err(InsufficientSignatures(|e.signatures|, cfg.threshold)))
      else
        (Store(s, eventId, e.(state := Minted), r.(state := Minted, mintEvent := Some(Entry("mint_" + eventId, e.amountSats, now))))
         .(totalMinted := s.totalMinted + e.amountSats),
         Ok(MintReceipt(eventId, e.amountSats, e.chainId, e.recipient, false)))
  }

  function BurnWrapped(cfg: Config, s: State, agentId: string, amountSats: int, chainId: int,
                       transferId: string, now: real): (State, Outcome)
  {
    if chainId !in cfg.chains then (s, Err(UnsupportedChain(chainId)))
    else if s.paused then (s, Err(BridgePaused))
    else
      var fee := Fee(amountSats, cfg.chains[chainId].feeBps);
      var (e, r) := NewBurn(agentId, amountSats, chainId, transferId, now, fee);
      (s.(transfers := s.transfers[transferId := r],
          events := s.events[e.eventId := e],
          totalBurned := s.totalBurned + amountSats),
       Ok(BurnReceipt(transferId, e.eventId, e.txHash, amountSats, fee)))
  }

  function NewBurn(agentId: string, amountSats: int, chainId: int, transferId: string, now: real, fee: int): (Event, Record) {
    var eventId := EventId(Burn, transferId);
    (Event(eventId, transferId, Burn, agentId, amountSats, chainId, "bait:" + agentId, now,
           TxHash(Burn, eventId, now), [], [], Burned),
     Record(transferId, Direction(chainId, 0), agentId, amountSats, fee, chainId, 0,
            "chain:" + DecimalInt(chainId) + ":" + agentId, "bait:" + agentId, now, Burned, None, None, Some(eventId),
            None, 0.0, 0.0))
  }

  function ReleaseBait(s: State, eventId: string, now: real): (State, Outcome) {
    if eventId !in s.events then (s, Err(EventNotFound))
    else
      var e := s.events[eventId];
      var r := RecordOf(s, e);
      if e.kind != Burn then (s, Err(NotABurnEvent))
      else
        (Store(s, eventId, e.(state := Completed),
               r.(state := Completed, releaseEvent := Some(Entry("release_" + eventId, e.amountSats, now)), completedAt := now))
         .(totalReleased := s.totalReleased + e.amountSats),
         Ok(ReleaseReceipt(eventId, e.amountSats, e.recipient)))
  }

  function RefundTransfer(s: State, transferId: string, reason: string, now: real): (State, Outcome) {
    if transferId !in s.transfers then (s, Err(TransferNotFound))
    else
      var r := s.transfers[transferId];
      if r.state != Locked && r.state != PendingProof then (s, Err(CannotRefundInState(r.state)))
      else
        (s.(transfers := s.transfers[transferId := r.(state := Refunded, completedAt := now)],
            totalReleased := s.totalReleased + r.amountSats,
            events := if r.lockEvent.Some? && r.lockEvent.value in s.events
                      then s.events[r.lockEvent.value := s.events[r.lockEvent.value].(state := Refunded)]
                      else s.events),
         Ok(RefundReceipt(transferId, r.amountSats, reason, r.state)))
  }

  function SetPaused(s: State, paused: bool): (State, Outcome) {
    (s.(paused := paused), Ok(PauseReceipt(paused)))
  }

  // ---- runs ----

  datatype Op =
    | LockOp(agentId: string, amountSats: int, chainId: int, recipient: string, transferId: string, now: real)
    | SubmitOp(eventId: string, proof: seq<Digest>, signer: string, signature: string, now: real)
    | MintOp(eventId: string, now: real)
    | BurnOp(agentId: string, amountSats: int, chainId: int, transferId: string, now: real)
    | ReleaseOp(eventId: string, now: real)
    | RefundOp(transferId: string, reason: string, now: real)
    | PauseOp(paused: bool)

  ghost function Step(cfg: Config, s: State, op: Op): (State, Outcome) {
    match op
    case LockOp(a, n, c, rc, t, now) => LockBait(cfg, s, a, n, c, rc, t, now)
    case SubmitOp(e, p, sg, sig, now) => SubmitProof(cfg, s, e, p, sg, sig, now)
    case MintOp(e, now) => MintWrapped(cfg, s, e, now)
    case BurnOp(a, n, c, t, now) => BurnWrapped(cfg, s, a, n, c, t, now)
    case ReleaseOp(e, now) => ReleaseBait(s, e, now)
    case RefundOp(t, why, now) => RefundTransfer(s, t, why, now)
    case PauseOp(p) => SetPaused(s, p)
  }

  /** New transfers carry ids no earlier transfer has: uuid4 is taken never to repeat. */
  predicate FreshId(s: State, op: Op) {
    (op.LockOp? || op.BurnOp?) ==> op.transferId !in s.transfers
  }

  ghost function Run(cfg: Config, ops: seq<Op>): State {
    if ops == [] then INITIAL else Step(cfg, Run(cfg, ops[..|ops| - 1]), ops[|ops| - 1]).0
  }

  ghost predicate FreshRun(cfg: Config, ops: seq<Op>) {
    forall k :: 0 <= k < |ops| ==> FreshId(Run(cfg, ops[..k]), ops[k])
  }
}
