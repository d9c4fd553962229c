/** The bridge's promises, proved over every run. */
module BridgeTheorems {
  import opened Wrappers
  import opened Text
  import opened Merkle
  import opened Authorization
  import opened Bridge
  import opened BridgeSafety
  import opened BridgeDuplicates

  // ---- conservation ----

  lemma {:induction false} TotalsSplit(cfg: Config, ts: map<string, Record>)
    requires forall t :: t in ts ==>
               Weight(LockedAmount, ts[t]) == Weight(MintedAmount, ts[t]) + Weight(RefundedAmount, ts[t]) + Weight(LiveAmount, ts[t])
               && Weight(RefundedAmount, ts[t]) >= 0 && Weight(LiveAmount, ts[t]) >= 0
    ensures Total(LockedAmount, ts) == Total(MintedAmount, ts) + Total(RefundedAmount, ts) + Total(LiveAmount, ts)
    ensures Total(RefundedAmount, ts) >= 0 && Total(LiveAmount, ts) >= 0
    decreases |ts|
  {
    if ts != map[] {
      var t :| t in ts;
      TotalPick(LockedAmount, ts, t);
      TotalPick(MintedAmount, ts, t);
      TotalPick(RefundedAmount, ts, t);
      TotalPick(LiveAmount, ts, t);
      TotalsSplit(cfg, ts - {t});
    }
  }

  /** Everything locked is minted, refunded or still live; so no run mints more than it locked. */
  lemma Conservation(cfg: Config, ops: seq<Op>)
    requires cfg.threshold >= 1 && FreshRun(cfg, ops)
    ensures var s := Run(cfg, ops);
            && s.totalLocked == s.totalMinted + Total(RefundedAmount, s.transfers) + Total(LiveAmount, s.transfers)
            && s.totalLocked >= s.totalMinted
  {
    hide Inv, PairOk;
    var s := Run(cfg, ops);
    RunKeepsInv(cfg, ops);
    InvGivesTotals(cfg, s);
    forall t | t in s.transfers
      ensures Weight(LockedAmount, s.transfers[t]) ==
              Weight(MintedAmount, s.transfers[t]) + Weight(RefundedAmount, s.transfers[t]) + Weight(LiveAmount, s.transfers[t])
      ensures Weight(RefundedAmount, s.transfers[t]) >= 0 && Weight(LiveAmount, s.transfers[t]) >= 0
    {
      InvGivesEvent(cfg, s, t);
      WeightsSplit(cfg, s.transfers[t], s.events[EventIdOf(s.transfers[t])]);
    }
    TotalsSplit(cfg, s.transfers);
  }

  lemma InvGivesTotals(cfg: Config, s: State)
    requires Inv(cfg, s)
    ensures TotalsAgree(s)
  {
  }

  lemma WeightsSplit(cfg: Config, r: Record, e: Event)
    requires PairOk(cfg, r, e)
    ensures Weight(LockedAmount, r) == Weight(MintedAmount, r) + Weight(RefundedAmount, r) + Weight(LiveAmount, r)
    ensures Weight(RefundedAmount, r) >= 0 && Weight(LiveAmount, r) >= 0
  {
  }

  /** Burn one satoshi, then mint the burn event. */
  function BurnThenMint(chainId: int): seq<Op> {
    [BurnOp("a", 1, chainId, "x", 0.0), MintOp(EventId(Burn, "x"), 0.0)]
  }

  lemma BurnThenMintMints(cfg: Config, chainId: int)
    requires cfg.threshold <= 0 && chainId in cfg.chains
    ensures FreshRun(cfg, BurnThenMint(chainId))
    ensures Run(cfg, BurnThenMint(chainId)).totalMinted == 1 && Run(cfg, BurnThenMint(chainId)).totalLocked == 0
  {
    hide EventId, DecimalInt, Direction, Fee;
    var ops := BurnThenMint(chainId);
    assert ops[..0] == [] && ops[..1] == [ops[0]] && [ops[0]][..0] == [];
    assert Run(cfg, ops[..0]) == INITIAL;
    var one := Step(cfg, INITIAL, ops[0]).0;
    assert Run(cfg, ops[..1]) == one;
    assert Run(cfg, ops) == Step(cfg, one, ops[1]).0;
  }

  /** A bridge with some chain never mints more than it locked exactly when its threshold is positive. */
  lemma ConservationIff(cfg: Config)
    requires exists c :: c in cfg.chains
    ensures (forall ops :: FreshRun(cfg, ops) ==> Run(cfg, ops).totalMinted <= Run(cfg, ops).totalLocked) <==> cfg.threshold >= 1
  {
    if cfg.threshold >= 1 {
      forall ops | FreshRun(cfg, ops) ensures Run(cfg, ops).totalMinted <= Run(cfg, ops).totalLocked {
        Conservation(cfg, ops);
      }
    } else {
      var c :| c in cfg.chains;
      BurnThenMintMints(cfg, c);
    }
  }

  // ---- mint safety ----

  /** Every minted event is a lock with enough distinct signers, each genuine over its own claim. */
  lemma MintSafety(cfg: Config, ops: seq<Op>, id: string)
    requires cfg.threshold >= 1 && FreshRun(cfg, ops)
    requires id in Run(cfg, ops).events && Run(cfg, ops).events[id].state == Minted
    ensures var e := Run(cfg, ops).events[id];
            && e.kind == Lock
            && |e.signatures| >= cfg.threshold
            && DistinctSigners(e.signatures)
            && AllGenuine(cfg, e)
  {
    RunKeepsInv(cfg, ops);
    InvGivesPair(cfg, Run(cfg, ops), id);
  }

  /** The bytes signed for two different minted events differ. */
  lemma MintedBytesDiffer(cfg: Config, ops: seq<Op>, id: string, id': string)
    requires cfg.threshold >= 1 && FreshRun(cfg, ops) && cfg.authorization.Some? && id != id'
    requires id in Run(cfg, ops).events && Run(cfg, ops).events[id].state == Minted
    requires id' in Run(cfg, ops).events && Run(cfg, ops).events[id'].state == Minted
    ensures SigningBytes(ClaimOf(cfg, Run(cfg, ops).events[id])) != SigningBytes(ClaimOf(cfg, Run(cfg, ops).events[id']))
  {
    hide SigningBytes;
    var s := Run(cfg, ops);
    RunKeepsInv(cfg, ops);
    InvGivesPair(cfg, s, id);
    InvGivesPair(cfg, s, id');
    AcceptedHasBytes(cfg, s.events[id]);
    AcceptedHasBytes(cfg, s.events[id']);
    if SigningBytes(ClaimOf(cfg, s.events[id])) == SigningBytes(ClaimOf(cfg, s.events[id'])) {
      SigningBytesUnambiguous(ClaimOf(cfg, s.events[id]), ClaimOf(cfg, s.events[id']));
    }
  }

  lemma AcceptedHasBytes(cfg: Config, e: Event)
    requires cfg.authorization.Some? && AllGenuine(cfg, e) && e.signatures != []
    ensures SigningBytes(ClaimOf(cfg, e)).Ok?
  {
    var reg := cfg.authorization.value;
    assert Genuine(reg, ClaimOf(cfg, e), e.signatures[0].signer, e.signatures[0].signature);
  }

  // ---- the test for a second signature ----

  /** The stored form begins with the name and a colon: it is this signer's, or its signer's name goes on with a colon, or
      the name runs past the signer's into the signature text. */
  predicate TakenFor(g: RelayerSignature, name: string) {
    || NamedOrLonger(g, name)
    || (StartsWith(name, g.signer + ":") && StartsWith(g.signature, name[|g.signer| + 1..] + ":"))
  }

  predicate NamedOrLonger(g: RelayerSignature, name: string) {
    g.signer == name || StartsWith(g.signer, name + ":")
  }

  lemma StoredStartsIff(g: RelayerSignature, name: string)
    ensures StartsWith(g.Stored(), name + ":") <==> TakenFor(g, name)
  {
    var s, p := g.Stored(), name + ":";
    assert s == g.signer + (":" + g.signature);
    assert forall i :: 0 <= i < |g.signer| ==> s[i] == g.signer[i];
    assert s[|g.signer|] == ':';
    assert s[|g.signer| + 1..] == g.signature;
    if |name| < |g.signer| {
      assert s[..|p|] == g.signer[..|p|];
    } else if |name| == |g.signer| {
      assert s[..|p|] == g.signer + ":";
      assert s[..|p|][..|name|] == g.signer && p[..|name|] == name;
    } else {
      LongName(g, name);
    }
  }

  lemma LongName(g: RelayerSignature, name: string)
    requires |name| > |g.signer|
    ensures StartsWith(g.Stored(), name + ":") <==>
            StartsWith(name, g.signer + ":") && StartsWith(g.signature, name[|g.signer| + 1..] + ":")
  {
    var s, k := g.Stored(), |g.signer| + 1;
    var head, rest := name[..k], name[k..];
    assert name + ":" == head + (rest + ":");
    assert s == (g.signer + ":") + g.signature;
    if StartsWith(s, name + ":") {
      assert s[..k] == (name + ":")[..k] == head;
      assert s[..k] == g.signer + ":";
      assert s[k..|name| + 1] == (name + ":")[k..] == rest + ":";
      assert g.signature[..|rest| + 1] == s[k..|name| + 1];
    }
    if head == g.signer + ":" && StartsWith(g.signature, rest + ":") {
      assert g.signature == (rest + ":") + g.signature[|rest| + 1..];
      assert s == (name + ":") + g.signature[|rest| + 1..];
    }
  }

  /** A relayer is told it has signed exactly when some stored signature is taken for its own. */
  lemma HasSignerExactly(e: Event, name: string)
    ensures HasSigner(e, name) <==> exists i :: 0 <= i < |e.signatures| && TakenFor(e.signatures[i], name)
    ensures (forall i :: 0 <= i < |e.signatures| ==> NoColon(e.signatures[i].signature)) ==>
              (HasSigner(e, name) <==> exists i :: 0 <= i < |e.signatures| && NamedOrLonger(e.signatures[i], name))
  {
    hide StartsWith;
    forall i | 0 <= i < |e.signatures|
      ensures StartsWith(e.signatures[i].Stored(), name + ":") <==> TakenFor(e.signatures[i], name)
      ensures NoColon(e.signatures[i].signature) ==>
                (TakenFor(e.signatures[i], name) <==> NamedOrLonger(e.signatures[i], name))
    {
      StoredStartsIff(e.signatures[i], name);
      if NoColon(e.signatures[i].signature) && StartsWith(name, e.signatures[i].signer + ":") {
        ColonInside(e.signatures[i], name);
      }
    }
  }

  lemma ColonInside(g: RelayerSignature, name: string)
    requires NoColon(g.signature) && StartsWith(name, g.signer + ":")
    ensures !StartsWith(g.signature, name[|g.signer| + 1..] + ":")
  {
    var p := name[|g.signer| + 1..] + ":";
    if StartsWith(g.signature, p) {
      PrefixLast(g.signature, p);
    }
  }

  lemma PrefixLast(s: string, p: string)
    requires StartsWith(s, p) && p != ""
    ensures s[|p| - 1] == p[|p| - 1]
  {
    assert s[..|p|][|p| - 1] == s[|p| - 1];
  }

  /** Once a relayer whose name goes on with a colon has signed, the relayer with the shorter name is refused unheard. */
  lemma ShorterNameRefused(cfg: Config, e: Event, i: nat, name: string, signature: string)
    requires cfg.authorization.Some? && name != "" && signature != ""
    requires i < |e.signatures| && StartsWith(e.signatures[i].signer, name + ":")
    ensures Refusal(cfg, e, e.merkleProof, name, signature) == Some(DuplicateRelayer)
  {
    hide StartsWith, VerifyOne;
    StoredStartsIff(e.signatures[i], name);
  }

  // ---- the order of states ----

  /** The phases a transfer seen in phase p can be seen in later. */
  predicate Later(p: Phase, q: Phase) {
    match p
    case Locked => Live(q) || q == Minted || q == Refunded
    case PendingProof => q == PendingProof || q == ProofSubmitted || q == Minted || q == Refunded
    case ProofSubmitted => q == ProofSubmitted || q == Minted
    case Burned => q == Burned || q == Completed
    case _ => q == p
  }

  /** The step a transfer's phase may take: none, or one of the allowed moves. */
  predicate StaysOrMoves(from: Phase, to: Phase) { from == to || Allowed(from, to) }

  /** What a lock does to the transfers and the volumes. */
  lemma LockEffect(cfg: Config, s: State, agentId: string, amountSats: int, chainId: int, recipient: string,
                   transferId: string, now: real) returns (r: Record)
    ensures var (s', out) := LockBait(cfg, s, agentId, amountSats, chainId, recipient, transferId, now);
            var s1 := ResetDaily(s, now);
            && (out.Err? ==> s' == s || s' == s1)
            && (out.Ok? ==>
                  && s'.transfers == s.transfers[transferId := r] && s'.volumeDay == s1.volumeDay
                  && r.transferId == transferId && r.lockEvent.Some? && r.createdAt == now
                  && r.agentId == agentId && r.amountSats == amountSats && r.targetChainId == chainId
                  && Volume(s1, agentId) + amountSats <= cfg.dailyLimitSats
                  && s'.dailyVolume == s1.dailyVolume[agentId := Volume(s1, agentId) + amountSats])
  {
    hide DedupKey, EventId, Direction, Path, Total, Day, Fee;
    var out := LockBait(cfg, s, agentId, amountSats, chainId, recipient, transferId, now).1;
    if out.Ok? {
      r := NewLock(ResetDaily(s, now), agentId, amountSats, chainId, recipient, transferId, now,
                   Fee(amountSats, cfg.chains[chainId].feeBps)).1;
    } else {
      r := *;
    }
  }

  lemma BurnEffect(cfg: Config, s: State, agentId: string, amountSats: int, chainId: int, transferId: string, now: real)
    returns (r: Record)
    ensures var s' := BurnWrapped(cfg, s, agentId, amountSats, chainId, transferId, now).0;
            && s'.volumeDay == s.volumeDay && s'.dailyVolume == s.dailyVolume
            && (s'.transfers == s.transfers
                || (s'.transfers == s.transfers[transferId := r] && r.transferId == transferId && r.lockEvent.None?))
  {
    hide EventId, Direction, Fee, DecimalInt;
    var s' := BurnWrapped(cfg, s, agentId, amountSats, chainId, transferId, now).0;
    if transferId in s'.transfers { r := s'.transfers[transferId]; } else { r := *; }
  }

  lemma StepOrder(cfg: Config, s: State, op: Op, t: string)
    requires cfg.threshold >= 1 && Inv(cfg, s) && FreshId(s, op) && t in s.transfers
    ensures t in Step(cfg, s, op).0.transfers
    ensures StaysOrMoves(s.transfers[t].state, Step(cfg, s, op).0.transfers[t].state)
    ensures Step(cfg, s, op).0.transfers[t].amountSats == s.transfers[t].amountSats
  {
    hide Inv, Moves, LockBait, BurnWrapped, SubmitProof, MintWrapped, ReleaseBait, RefundTransfer;
    match op
    case LockOp(a, n, c, rc, u, now) =>
      var _ := LockEffect(cfg, s, a, n, c, rc, u, now);
    case BurnOp(a, n, c, u, now) =>
      var _ := BurnEffect(cfg, s, a, n, c, u, now);
    case PauseOp(_) =>
    case _ =>
      hide Step;
      var e, r := StepMoves(cfg, s, op);
      MoveEffect(cfg, s, Step(cfg, s, op).0, e, r, t);
  }

  lemma MoveEffect(cfg: Config, s: State, s': State, e: Event, r: Record, t: string)
    requires s' == s || Moves(cfg, s, s', e, r)
    requires t in s.transfers
    ensures t in s'.transfers && StaysOrMoves(s.transfers[t].state, s'.transfers[t].state)
    ensures s'.transfers[t].amountSats == s.transfers[t].amountSats
  {
    hide PairOk;
  }

  lemma LaterStep(p: Phase, q: Phase, q': Phase)
    requires Later(p, q) && StaysOrMoves(q, q')
    ensures Later(p, q')
  {
  }

  /** Phases only move forward over a run; minted, refunded and completed are never left. */
  lemma {:induction false} RunOrder(cfg: Config, ops: seq<Op>, k: nat, t: string)
    requires cfg.threshold >= 1 && FreshRun(cfg, ops) && k <= |ops| && t in Run(cfg, ops[..k]).transfers
    ensures t in Run(cfg, ops).transfers
    ensures Later(Run(cfg, ops[..k]).transfers[t].state, Run(cfg, ops).transfers[t].state)
    ensures Run(cfg, ops).transfers[t].amountSats == Run(cfg, ops[..k]).transfers[t].amountSats
    decreases |ops|
  {
    hide Inv, Step, StaysOrMoves, Later, FreshId;
    if k == |ops| {
      assert ops[..k] == ops;
      LaterReflexive(Run(cfg, ops).transfers[t].state);
    } else {
      var n := |ops| - 1;
      assert ops[..n][..k] == ops[..k];
      FreshPrefix(cfg, ops, n);
      RunOrder(cfg, ops[..n], k, t);
      RunKeepsInv(cfg, ops[..n]);
      var s := Run(cfg, ops[..n]);
      StepOrder(cfg, s, ops[n], t);
      LaterStep(Run(cfg, ops[..k]).transfers[t].state, s.transfers[t].state, Step(cfg, s, ops[n]).0.transfers[t].state);
    }
  }

  lemma LaterReflexive(p: Phase)
    ensures Later(p, p)
  {
  }

  /** No transfer is minted at one moment of a run and refunded at another. */
  lemma NeverMintedAndRefunded(cfg: Config, ops: seq<Op>, j: nat, k: nat, t: string)
    requires cfg.threshold >= 1 && FreshRun(cfg, ops) && j <= |ops| && k <= |ops|
    requires t in Run(cfg, ops[..j]).transfers && Run(cfg, ops[..j]).transfers[t].state == Minted
    requires t in Run(cfg, ops[..k]).transfers
    ensures Run(cfg, ops[..k]).transfers[t].state != Refunded
  {
    hide Run, FreshRun;
    RunOrder(cfg, ops, j, t);
    RunOrder(cfg, ops, k, t);
  }

  /** Record and event agree, and a lock has reached the threshold exactly in the last two phases. */
  lemma PhasesTrackSignatures(cfg: Config, ops: seq<Op>, id: string)
    requires cfg.threshold >= 1 && FreshRun(cfg, ops) && id in Run(cfg, ops).events
    ensures var s := Run(cfg, ops);
            var e := s.events[id];
            && e.transferId in s.transfers && s.transfers[e.transferId].state == e.state
            && (e.state == ProofSubmitted <==> e.kind == Lock && Live(e.state) && |e.signatures| >= cfg.threshold)
            && (e.state == Minted ==> |e.signatures| >= cfg.threshold)
            && (e.state == Refunded ==> |e.signatures| < cfg.threshold)
            && (e.kind == Burn ==> e.state == Burned || e.state == Completed)
  {
    RunKeepsInv(cfg, ops);
    InvGivesPair(cfg, Run(cfg, ops), id);
  }

  // ---- limits ----

  /** No agent ever has more live transfers than the limit. */
  lemma PendingLimit(cfg: Config, ops: seq<Op>, agentId: string)
    requires cfg.threshold >= 1 && FreshRun(cfg, ops)
    ensures Total(PendingOf(agentId), Run(cfg, ops).transfers) <= cfg.maxPending
  {
    RunKeepsInv(cfg, ops);
  }

  /** No two locks share agent, amount, recipient and chain. */
  lemma NoDuplicateLocks(cfg: Config, ops: seq<Op>, t: string, u: string)
    requires cfg.threshold >= 1 && FreshRun(cfg, ops) && t != u
    requires t in Run(cfg, ops).transfers && Run(cfg, ops).transfers[t].lockEvent.Some?
    requires u in Run(cfg, ops).transfers && Run(cfg, ops).transfers[u].lockEvent.Some?
    ensures var (q, r) := (Run(cfg, ops).transfers[t], Run(cfg, ops).transfers[u]);
            q.agentId != r.agentId || q.amountSats != r.amountSats || q.targetAddress != r.targetAddress || q.targetChainId != r.targetChainId
  {
    RunKeepsInv(cfg, ops);
    assert LocksIndexed(Run(cfg, ops));
  }

  // ---- daily volume ----

  lemma {:induction false} TotalZero(m: Measure, ts: map<string, Record>)
    requires forall t :: t in ts ==> Weight(m, ts[t]) == 0
    ensures Total(m, ts) == 0
    decreases |ts|
  {
    if ts != map[] {
      var t :| t in ts;
      TotalPick(m, ts, t);
      TotalZero(m, ts - {t});
    }
  }

  lemma {:induction false} TotalNonNegative(m: Measure, ts: map<string, Record>)
    requires forall u :: u in ts ==> Weight(m, ts[u]) >= 0
    ensures Total(m, ts) >= 0
    decreases |ts|
  {
    if ts != map[] {
      var t :| t in ts;
      TotalPick(m, ts, t);
      TotalNonNegative(m, ts - {t});
    }
  }

  /** A step adds to an agent's volume just what it adds to its locks of the day; a step to another day starts from nothing. */
  ghost predicate VolumeFollows(s: State, s': State, agentId: string) {
    match s'.volumeDay
    case None => s.volumeDay == None && s'.dailyVolume == s.dailyVolume
    case Some(d) =>
      Volume(s', agentId) == (if s.volumeDay == s'.volumeDay then Volume(s, agentId) else 0)
                             + Total(VolumeOf(agentId, d), s'.transfers) - Total(VolumeOf(agentId, d), s.transfers)
  }

  ghost predicate WithinLimit(cfg: Config, s: State) {
    forall a :: a in s.dailyVolume ==> s.dailyVolume[a] <= cfg.dailyLimitSats
  }

  lemma LockVolume(cfg: Config, s: State, agentId: string, amountSats: int, chainId: int, recipient: string,
                   transferId: string, now: real, a: string)
    requires transferId !in s.transfers
    ensures var s' := LockBait(cfg, s, agentId, amountSats, chainId, recipient, transferId, now).0;
            VolumeFollows(s, s', a) && (WithinLimit(cfg, s) ==> WithinLimit(cfg, s'))
  {
    LockWithinLimit(cfg, s, agentId, amountSats, chainId, recipient, transferId, now);
    hide Day, LockBait, Total, WithinLimit;
    var (s', out) := LockBait(cfg, s, agentId, amountSats, chainId, recipient, transferId, now);
    var r := LockEffect(cfg, s, agentId, amountSats, chainId, recipient, transferId, now);
    if out.Ok? { TotalPut(VolumeOf(a, Day(now)), s.transfers, transferId, r); }
  }

  lemma LockWithinLimit(cfg: Config, s: State, agentId: string, amountSats: int, chainId: int, recipient: string,
                        transferId: string, now: real)
    ensures WithinLimit(cfg, s) ==> WithinLimit(cfg, LockBait(cfg, s, agentId, amountSats, chainId, recipient, transferId, now).0)
  {
    hide Day, LockBait;
    var r := LockEffect(cfg, s, agentId, amountSats, chainId, recipient, transferId, now);
  }

  lemma BurnVolume(cfg: Config, s: State, agentId: string, amountSats: int, chainId: int, transferId: string, now: real, a: string)
    requires transferId !in s.transfers
    ensures var s' := BurnWrapped(cfg, s, agentId, amountSats, chainId, transferId, now).0;
            VolumeFollows(s, s', a) && (WithinLimit(cfg, s) ==> WithinLimit(cfg, s'))
  {
    hide Day, BurnWrapped;
    var s' := BurnWrapped(cfg, s, agentId, amountSats, chainId, transferId, now).0;
    var r := BurnEffect(cfg, s, agentId, amountSats, chainId, transferId, now);
    if s'.transfers != s.transfers && s.volumeDay.Some? {
      TotalPut(VolumeOf(a, s.volumeDay.value), s.transfers, transferId, r);
    }
  }

  lemma MoveVolume(cfg: Config, s: State, s': State, e: Event, r: Record, a: string)
    requires Moves(cfg, s, s', e, r)
    ensures VolumeFollows(s, s', a) && (WithinLimit(cfg, s) ==> WithinLimit(cfg, s'))
  {
    hide PairOk, Day;
    if s.volumeDay.Some? { TotalPut(VolumeOf(a, s.volumeDay.value), s.transfers, r.transferId, r); }
  }

  lemma StepVolume(cfg: Config, s: State, op: Op, a: string)
    requires cfg.threshold >= 1 && Inv(cfg, s) && FreshId(s, op)
    ensures VolumeFollows(s, Step(cfg, s, op).0, a) && (WithinLimit(cfg, s) ==> WithinLimit(cfg, Step(cfg, s, op).0))
  {
    hide Inv, LockBait, BurnWrapped, SubmitProof, MintWrapped, ReleaseBait, RefundTransfer;
    match op
    case LockOp(agentId, amountSats, chainId, recipient, transferId, now) =>
      LockVolume(cfg, s, agentId, amountSats, chainId, recipient, transferId, now, a);
    case BurnOp(agentId, amountSats, chainId, transferId, now) =>
      BurnVolume(cfg, s, agentId, amountSats, chainId, transferId, now, a);
    case PauseOp(_) =>
    case _ =>
      hide Moves, Step;
      var e, r := StepMoves(cfg, s, op);
      if Step(cfg, s, op).0 != s { MoveVolume(cfg, s, Step(cfg, s, op).0, e, r, a); }
  }

  /** How many operations came before the one that last changed the day. */
  ghost function DayStart(cfg: Config, ops: seq<Op>): (k: nat)
    ensures k <= |ops|
  {
    if ops == [] then 0
    else
      var front := ops[..|ops| - 1];
      if Run(cfg, ops).volumeDay == Run(cfg, front).volumeDay then DayStart(cfg, front) else |ops| - 1
  }

  /** The state just before the last change of day. */
  ghost function BeforeDay(cfg: Config, ops: seq<Op>): State { Run(cfg, ops[..DayStart(cfg, ops)]) }

  lemma LastStep(cfg: Config, ops: seq<Op>)
    requires ops != []
    ensures Run(cfg, ops) == Step(cfg, Run(cfg, ops[..|ops| - 1]), ops[|ops| - 1]).0
  {
    hide Step;
  }

  lemma DayStep(cfg: Config, ops: seq<Op>)
    requires ops != []
    ensures var front := ops[..|ops| - 1];
            if Run(cfg, ops).volumeDay == Run(cfg, front).volumeDay
            then DayStart(cfg, ops) == DayStart(cfg, front) && BeforeDay(cfg, ops) == BeforeDay(cfg, front)
            else DayStart(cfg, ops) == |ops| - 1 && BeforeDay(cfg, ops) == Run(cfg, front)
  {
    hide Run;
    var k := DayStart(cfg, ops);
    assert k <= |ops| - 1 && ops[..|ops| - 1][..k] == ops[..k];
  }

  /** Against the state before the day's first operation, the agent's volume falls short of its locks of the day by just what
      it had locked of that day before. */
  ghost predicate Accounted(s: State, before: State, a: string) {
    match s.volumeDay
    case None => s.dailyVolume == map[]
    case Some(d) => Volume(s, a) + Total(VolumeOf(a, d), before.transfers) == Total(VolumeOf(a, d), s.transfers)
  }

  lemma AccountedStep(s: State, s': State, before: State, a: string)
    requires Accounted(s, before, a) && VolumeFollows(s, s', a)
    ensures Accounted(s', if s'.volumeDay == s.volumeDay then before else s, a)
  {
    hide Total, Volume;
  }

  lemma {:induction false} VolumeSinceChange(cfg: Config, ops: seq<Op>, a: string)
    requires cfg.threshold >= 1 && FreshRun(cfg, ops)
    ensures WithinLimit(cfg, Run(cfg, ops))
    ensures Accounted(Run(cfg, ops), BeforeDay(cfg, ops), a)
  {
    if ops != [] {
      var n := |ops| - 1;
      var s := Run(cfg, ops[..n]);
      assert FreshId(s, ops[n]);
      FreshPrefix(cfg, ops, n);
      hide Step, Inv, FreshId, FreshRun, Run, BeforeDay, DayStart, WithinLimit, Accounted, VolumeFollows;
      VolumeSinceChange(cfg, ops[..n], a);
      RunKeepsInv(cfg, ops[..n]);
      StepVolume(cfg, s, ops[n], a);
      AccountedStep(s, Step(cfg, s, ops[n]).0, BeforeDay(cfg, ops[..n]), a);
      DayStep(cfg, ops);
      LastStep(cfg, ops);
    }
  }

  /** The agent locked something on that day. */
  ghost predicate LockedOn(s: State, agentId: string, day: int) {
    exists t :: t in s.transfers && Weight(VolumeOf(agentId, day), s.transfers[t]) > 0
  }

  lemma LockedOnIff(cfg: Config, s: State, agentId: string, day: int)
    requires Inv(cfg, s)
    ensures Total(VolumeOf(agentId, day), s.transfers) >= 0
    ensures Total(VolumeOf(agentId, day), s.transfers) == 0 <==> !LockedOn(s, agentId, day)
  {
    hide Inv, PairOk, Day;
    var m := VolumeOf(agentId, day);
    forall t | t in s.transfers ensures Weight(m, s.transfers[t]) >= 0 {
      InvGivesEvent(cfg, s, t);
      LockAmount(cfg, s.transfers[t], s.events[EventIdOf(s.transfers[t])]);
    }
    if t :| t in s.transfers && Weight(m, s.transfers[t]) > 0 {
      TotalPick(m, s.transfers, t);
      TotalNonNegative(m, s.transfers - {t});
    } else {
      TotalZero(m, s.transfers);
    }
  }

  lemma LockAmount(cfg: Config, r: Record, e: Event)
    requires PairOk(cfg, r, e)
    ensures r.lockEvent.Some? ==> r.amountSats >= 0
  {
  }

  /** Over every run an agent's volume is the sum of its locks of the day if and only if it had locked nothing of that day
      before the last change to it. It never exceeds that sum, and what is recorded never exceeds the limit. */
  lemma VolumeExactIff(cfg: Config, ops: seq<Op>, agentId: string, d: int)
    requires cfg.threshold >= 1 && FreshRun(cfg, ops) && Run(cfg, ops).volumeDay == Some(d)
    ensures Volume(Run(cfg, ops), agentId) == Total(VolumeOf(agentId, d), Run(cfg, ops).transfers)
       <==> !LockedOn(BeforeDay(cfg, ops), agentId, d)
    ensures Volume(Run(cfg, ops), agentId) <= Total(VolumeOf(agentId, d), Run(cfg, ops).transfers)
    ensures WithinLimit(cfg, Run(cfg, ops))
  {
    hide Inv, LockedOn, Run, FreshRun, DayStart;
    VolumeSinceChange(cfg, ops, agentId);
    var k := DayStart(cfg, ops);
    FreshPrefix(cfg, ops, k);
    RunKeepsInv(cfg, ops[..k]);
    LockedOnIff(cfg, BeforeDay(cfg, ops), agentId, d);
  }

  /** A change to any other day, earlier or later, keeps an agent's volume right exactly when it locked nothing on that day yet. */
  lemma NewDayExactIff(cfg: Config, ops: seq<Op>, now: real, agentId: string)
    requires cfg.threshold >= 1 && FreshRun(cfg, ops) && Run(cfg, ops).volumeDay != Some(Day(now))
    ensures Volume(ResetDaily(Run(cfg, ops), now), agentId) == Total(VolumeOf(agentId, Day(now)), Run(cfg, ops).transfers)
       <==> !LockedOn(Run(cfg, ops), agentId, Day(now))
  {
    hide Inv, LockedOn, Day, Run, FreshRun;
    RunKeepsInv(cfg, ops);
    LockedOnIff(cfg, Run(cfg, ops), agentId, Day(now));
  }

  // ---- a clock that only moves forward ----

  /** The clock has not moved back past the day the manager last saw. */
  predicate ClockForward(s: State, op: Op) {
    op.LockOp? && s.volumeDay.Some? ==> s.volumeDay.value <= Day(op.now)
  }

  ghost predicate ClockRun(cfg: Config, ops: seq<Op>) {
    forall k :: 0 <= k < |ops| ==> ClockForward(Run(cfg, ops[..k]), ops[k])
  }

  /** Every lock is of the manager's day or an earlier one. */
  ghost predicate NoLaterLock(s: State) {
    forall t :: t in s.transfers && s.transfers[t].lockEvent.Some? ==>
      s.volumeDay.Some? && Day(s.transfers[t].createdAt) <= s.volumeDay.value
  }

  lemma StepKeepsNoLaterLock(cfg: Config, s: State, op: Op)
    requires cfg.threshold >= 1 && Inv(cfg, s) && FreshId(s, op) && ClockForward(s, op) && NoLaterLock(s)
    ensures var s' := Step(cfg, s, op).0;
            NoLaterLock(s') && (s.volumeDay.Some? ==> s'.volumeDay.Some? && s.volumeDay.value <= s'.volumeDay.value)
  {
    hide Inv, Day, Moves, NoLaterLock, LockBait, BurnWrapped, SubmitProof, MintWrapped, ReleaseBait, RefundTransfer;
    match op
    case LockOp(a, n, c, rc, u, now) =>
      var r := LockEffect(cfg, s, a, n, c, rc, u, now);
      NoLaterAfter(s, Step(cfg, s, op).0, r);
    case BurnOp(a, n, c, u, now) =>
      var r := BurnEffect(cfg, s, a, n, c, u, now);
      NoLaterAfter(s, Step(cfg, s, op).0, r);
    case PauseOp(p) =>
      var r: Record := *;
      NoLaterAfter(s, s.(paused := p), r);
    case _ =>
      hide Step;
      var e, r := StepMoves(cfg, s, op);
      if Step(cfg, s, op).0 != s { MoveNoLater(cfg, s, Step(cfg, s, op).0, e, r); }
  }

  lemma NoLaterAfter(s: State, s': State, r: Record)
    requires NoLaterLock(s) && (s.volumeDay.Some? ==> s'.volumeDay.Some? && s.volumeDay.value <= s'.volumeDay.value)
    requires s'.transfers == s.transfers
             || (s'.transfers == s.transfers[r.transferId := r]
                 && (r.lockEvent.Some? ==> s'.volumeDay.Some? && Day(r.createdAt) <= s'.volumeDay.value))
    ensures NoLaterLock(s')
  {
    hide Day;
  }

  lemma MoveNoLater(cfg: Config, s: State, s': State, e: Event, r: Record)
    requires NoLaterLock(s) && Moves(cfg, s, s', e, r)
    ensures NoLaterLock(s') && s'.volumeDay == s.volumeDay
  {
    hide Day, PairOk;
  }

  lemma ClockPrefix(cfg: Config, ops: seq<Op>, n: nat)
    requires ClockRun(cfg, ops) && n <= |ops|
    ensures ClockRun(cfg, ops[..n])
  {
    hide ClockForward;
    forall k | 0 <= k < n ensures ClockForward(Run(cfg, ops[..n][..k]), ops[..n][k]) {
      assert ops[..n][..k] == ops[..k];
    }
  }

  /** No lock before the last change of day was of the day changed to or a later one. */
  ghost predicate Forward(s: State, before: State) {
    NoLaterLock(s) &&
    (s.volumeDay.Some? ==> NoLaterLock(before) && (before.volumeDay.Some? ==> before.volumeDay.value < s.volumeDay.value))
  }

  lemma ForwardStep(cfg: Config, s: State, before: State, op: Op)
    requires cfg.threshold >= 1 && Inv(cfg, s) && FreshId(s, op) && ClockForward(s, op) && Forward(s, before)
    ensures var s' := Step(cfg, s, op).0;
            Forward(s', if s'.volumeDay == s.volumeDay then before else s)
  {
    hide Inv, FreshId, ClockForward, Step, NoLaterLock;
    StepKeepsNoLaterLock(cfg, s, op);
  }

  lemma {:induction false} ForwardRun(cfg: Config, ops: seq<Op>)
    requires cfg.threshold >= 1 && FreshRun(cfg, ops) && ClockRun(cfg, ops)
    ensures Forward(Run(cfg, ops), BeforeDay(cfg, ops))
  {
    if ops != [] {
      var n := |ops| - 1;
      var s := Run(cfg, ops[..n]);
      assert FreshId(s, ops[n]) && ClockForward(s, ops[n]);
      FreshPrefix(cfg, ops, n);
      ClockPrefix(cfg, ops, n);
      hide Step, Inv, FreshId, Forward, ClockForward, FreshRun, ClockRun, Run, BeforeDay, DayStart;
      ForwardRun(cfg, ops[..n]);
      RunKeepsInv(cfg, ops[..n]);
      ForwardStep(cfg, s, BeforeDay(cfg, ops[..n]), ops[n]);
      DayStep(cfg, ops);
      LastStep(cfg, ops);
    }
  }

  /** While the clock moves forward every agent's volume is the sum of its locks of the day. */
  lemma DailyVolume(cfg: Config, ops: seq<Op>, agentId: string, d: int)
    requires cfg.threshold >= 1 && FreshRun(cfg, ops) && ClockRun(cfg, ops) && Run(cfg, ops).volumeDay == Some(d)
    ensures Volume(Run(cfg, ops), agentId) == Total(VolumeOf(agentId, d), Run(cfg, ops).transfers)
    ensures WithinLimit(cfg, Run(cfg, ops))
  {
    hide Run, FreshRun, ClockRun, DayStart, BeforeDay, Total, Volume;
    VolumeExactIff(cfg, ops, agentId, d);
    ForwardRun(cfg, ops);
  }

  /** The same request on day 1, then with the clock back on day 0, then on day 1 again. */
  function BackAndForth(chainId: int): seq<Op> {
    [LockOp("a", 1, chainId, "r", "x", 86400.0), LockOp("a", 1, chainId, "r", "y", 0.0), LockOp("a", 1, chainId, "r", "y", 86400.0)]
  }

  /** A repeated request is refused, but only after the day was reset. */
  lemma DuplicateOnlyResets(cfg: Config, s: State, chainId: int, transferId: string, now: real)
    requires Admits(cfg, chainId, 1) && !s.paused && DedupKey("a", 1, "r", chainId) in s.dedup
    ensures LockBait(cfg, s, "a", 1, chainId, "r", transferId, now).0 == ResetDaily(s, now)
  {
    hide DedupKey, EventId, Day;
  }

  /** With a clock that moves back the recorded volume forgets locks of the current day. */
  lemma ClockBackForgets(cfg: Config, chainId: int)
    requires Admits(cfg, chainId, 1)
    ensures FreshRun(cfg, BackAndForth(chainId))
    ensures var s := Run(cfg, BackAndForth(chainId));
            s.volumeDay == Some(1) && Volume(s, "a") == 0 && Total(VolumeOf("a", 1), s.transfers) == 1
  {
    hide LockBait, DedupKey;
    var ops := BackAndForth(chainId);
    assert ops[..0] == [] && ops[..1] == [ops[0]] && [ops[0]][..0] == [] && ops[..2][..1] == ops[..1] && ops[..3] == ops;
    FirstLock(cfg, "a", 1, chainId, "r", "x", 86400.0);
    var one := Step(cfg, INITIAL, ops[0]).0;
    assert Run(cfg, ops[..0]) == INITIAL && Run(cfg, ops[..1]) == one;
    DuplicateOnlyResets(cfg, one, chainId, "y", 0.0);
    var two := ResetDaily(one, 0.0);
    assert Run(cfg, ops[..2]) == two;
    DuplicateOnlyResets(cfg, two, chainId, "y", 86400.0);
    assert Day(0.0) == 0 && Day(86400.0) == 1;
    assert Run(cfg, ops) == ResetDaily(two, 86400.0);
    assert "y" !in one.transfers.Keys;
  }

  // ---- Merkle proofs of locks ----

  /** The proof a lock returns folds to the manager's root right after the call. */
  lemma LockReceiptFolds(cfg: Config, s: State, agentId: string, amountSats: int, chainId: int, recipient: string,
                         transferId: string, now: real)
    requires LockBait(cfg, s, agentId, amountSats, chainId, recipient, transferId, now).1.Ok?
    ensures var (s', out) := LockBait(cfg, s, agentId, amountSats, chainId, recipient, transferId, now);
            var c := out.value;
            c.LockReceipt? && Fold(c.leafHash, c.leafIndex, c.merkleProof) == Root(s'.leaves)
  {
    hide Total, DedupKey, EventId, Direction;
    var s1 := ResetDaily(s, now);
    var s' := LockBait(cfg, s, agentId, amountSats, chainId, recipient, transferId, now).0;
    Inclusion(s'.leaves, |s1.leaves|);
  }

  ghost predicate InTree(s: State, e: Event) {
    exists k :: 0 <= k < |s.leaves| && s.leaves[k] == LeafOf(e)
  }

  /** Over every run an event has its leaf in the tree if and only if it is a lock. */
  lemma InTreeIffLock(cfg: Config, ops: seq<Op>, id: string)
    requires cfg.threshold >= 1 && FreshRun(cfg, ops) && id in Run(cfg, ops).events
    ensures InTree(Run(cfg, ops), Run(cfg, ops).events[id]) <==> Run(cfg, ops).events[id].kind == Lock
  {
    hide Run, FreshRun, PairOk, Path;
    var s := Run(cfg, ops);
    RunKeepsInv(cfg, ops);
    InvGivesPair(cfg, s, id);
    if s.events[id].kind == Lock {
      var k := AnchorIndex(cfg, s, id);
      assert s.leaves[k] == LeafOf(s.events[id]);
    }
    assert LeavesAreLocks(s);
  }

  ghost function LockIds(ts: map<string, Record>): set<string> {
    set t | t in ts && ts[t].lockEvent.Some?
  }

  lemma {:induction false} LocksCounted(ts: map<string, Record>)
    ensures |LockIds(ts)| == Total(LockCount, ts)
    decreases |ts|
  {
    if ts != map[] {
      var t :| t in ts;
      TotalPick(LockCount, ts, t);
      LocksCounted(ts - {t});
      LockIdsPick(ts, t);
      hide LockIds, Total;
    } else {
      assert LockIds(ts) == {};
    }
  }

  lemma LockIdsPick(ts: map<string, Record>, t: string)
    requires t in ts
    ensures LockIds(ts) == LockIds(ts - {t}) + if ts[t].lockEvent.Some? then {t} else {}
    ensures t !in LockIds(ts - {t})
  {
  }

  /** ... and the tree has as many leaves, all different, as there are lock records. */
  lemma LeavesCountLocks(cfg: Config, ops: seq<Op>)
    requires cfg.threshold >= 1 && FreshRun(cfg, ops)
    ensures |Run(cfg, ops).leaves| == |LockIds(Run(cfg, ops).transfers)| && Distinct(Run(cfg, ops).leaves)
  {
    hide Run, FreshRun, LockIds, Total;
    RunKeepsInv(cfg, ops);
    LocksCounted(Run(cfg, ops).transfers);
    assert TotalsAgree(Run(cfg, ops)) && LeavesAreLocks(Run(cfg, ops));
  }

  /** Every minted lock's stored proof folds to the root of the leaves at its lock, its own leaf last. */
  lemma MintedIsAnchored(cfg: Config, ops: seq<Op>, id: string) returns (k: nat)
    requires cfg.threshold >= 1 && FreshRun(cfg, ops)
    requires id in Run(cfg, ops).events && Run(cfg, ops).events[id].state == Minted
    ensures var s := Run(cfg, ops);
            k < |s.leaves| && s.leaves[k] == LeafOf(s.events[id])
            && Fold(LeafOf(s.events[id]), k, s.events[id].merkleProof) == Root(s.leaves[..k + 1])
  {
    MintSafety(cfg, ops, id);
    RunKeepsInv(cfg, ops);
    var s := Run(cfg, ops);
    hide Inv, Path, Root, Fold;
    k := AnchorIndex(cfg, s, id);
    Inclusion(s.leaves[..k + 1], k);
  }

  lemma AnchorIndex(cfg: Config, s: State, id: string) returns (k: nat)
    requires Inv(cfg, s) && id in s.events && s.events[id].kind == Lock
    ensures AnchoredAt(s, s.events[id], k)
  {
    assert Anchored(s, s.events[id]);
    k :| AnchoredAt(s, s.events[id], k);
  }

  /** Folding a lock's path always on the left reaches the root for the first lock only. */
  lemma LeftFoldOnlyFirstLock(cfg: Config, ops: seq<Op>, i: nat)
    requires cfg.threshold >= 1 && FreshRun(cfg, ops) && i < |Run(cfg, ops).leaves|
    ensures var leaves := Run(cfg, ops).leaves;
            LeftFold(leaves[i], Path(leaves, i)) == Root(leaves) <==> i == 0
  {
    RunKeepsInv(cfg, ops);
    var leaves := Run(cfg, ops).leaves;
    LeftFoldReachesRoot(leaves, i);
    LeftFoldOnlyFirst(leaves, i);
  }
}
