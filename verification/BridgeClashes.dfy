/** Which agents can be refused for each other's locks on a given bridge, and the duplicate check over runs. */
module BridgeClashes {
  import opened Wrappers
  import opened Text
  import opened Bridge
  import opened BridgeSafety
  import opened BridgeDuplicates
  import opened BridgeTheorems

  /** The ids clash by an amount that some chain and the limits admit. */
  ghost predicate AdmittedClash(cfg: Config, a: string, b: string) {
    exists c: int, k: int :: Admits(cfg, c, k) && (ClashBy(a, b, k) || ClashBy(b, a, k))
  }

  // ---- every lock has an admitted amount ----

  ghost predicate LocksAdmitted(cfg: Config, s: State) {
    && (forall t :: t in s.transfers && s.transfers[t].lockEvent.Some? ==>
          Admits(cfg, s.transfers[t].targetChainId, s.transfers[t].amountSats))
    && forall a :: a in s.dailyVolume ==> s.dailyVolume[a] >= 0
  }

  lemma PendingNonNegative(ts: map<string, Record>, agentId: string)
    ensures Total(PendingOf(agentId), ts) >= 0
  {
    TotalNonNegative(PendingOf(agentId), ts);
  }

  /** Whatever the outcome, a request that no early check refuses has an admitted amount. */
  lemma ReachesCheck(cfg: Config, s: State, agentId: string, amountSats: int, chainId: int, recipient: string,
                     transferId: string, now: real)
    requires LocksAdmitted(cfg, s)
    ensures RefusedEarlier(LockBait(cfg, s, agentId, amountSats, chainId, recipient, transferId, now).1)
            || (Admits(cfg, chainId, amountSats) && amountSats >= 0)
  {
    hide DedupKey, EventId, Total, Day, RecordLock, Fee;
    PendingNonNegative(s.transfers, agentId);
    assert Volume(ResetDaily(s, now), agentId) >= 0;
  }

  lemma LockKeepsAdmitted(cfg: Config, s: State, agentId: string, amountSats: int, chainId: int, recipient: string,
                          transferId: string, now: real)
    requires LocksAdmitted(cfg, s) && transferId !in s.transfers
    ensures LocksAdmitted(cfg, LockBait(cfg, s, agentId, amountSats, chainId, recipient, transferId, now).0)
  {
    ReachesCheck(cfg, s, agentId, amountSats, chainId, recipient, transferId, now);
    hide LockBait, Admits, Day, Volume;
    var r := LockEffect(cfg, s, agentId, amountSats, chainId, recipient, transferId, now);
  }

  lemma MoveKeepsAdmitted(cfg: Config, s: State, s': State, e: Event, r: Record)
    requires LocksAdmitted(cfg, s) && Moves(cfg, s, s', e, r)
    ensures LocksAdmitted(cfg, s')
  {
    hide PairOk, Admits;
  }

  lemma StepKeepsAdmitted(cfg: Config, s: State, op: Op)
    requires cfg.threshold >= 1 && Inv(cfg, s) && FreshId(s, op) && LocksAdmitted(cfg, s)
    ensures LocksAdmitted(cfg, Step(cfg, s, op).0)
  {
    hide Inv, Moves, Admits, LockBait, BurnWrapped, SubmitProof, MintWrapped, ReleaseBait, RefundTransfer;
    match op
    case LockOp(a, n, c, rc, u, now) =>
      LockKeepsAdmitted(cfg, s, a, n, c, rc, u, now);
    case BurnOp(a, n, c, u, now) =>
      var _ := BurnEffect(cfg, s, a, n, c, u, now);
    case PauseOp(_) =>
    case _ =>
      hide Step, LocksAdmitted;
      var e, r := StepMoves(cfg, s, op);
      if Step(cfg, s, op).0 != s { MoveKeepsAdmitted(cfg, s, Step(cfg, s, op).0, e, r); }
  }

  lemma {:induction false} RunAdmitted(cfg: Config, ops: seq<Op>)
    requires cfg.threshold >= 1 && FreshRun(cfg, ops)
    ensures LocksAdmitted(cfg, Run(cfg, ops))
  {
    if ops != [] {
      var n := |ops| - 1;
      assert FreshId(Run(cfg, ops[..n]), ops[n]);
      FreshPrefix(cfg, ops, n);
      hide Step, Inv, FreshId, LocksAdmitted, FreshRun;
      RunAdmitted(cfg, ops[..n]);
      RunKeepsInv(cfg, ops[..n]);
      StepKeepsAdmitted(cfg, Run(cfg, ops[..n]), ops[n]);
    }
  }

  // ---- the duplicate check over runs ----

  /** Over every run: where no other agent with a lock clashes with this one by an admitted amount, a request that reaches the
      check is answered as a duplicate of t exactly when t is the lock of that very request. */
  lemma DuplicateExact(cfg: Config, ops: seq<Op>, agentId: string, amountSats: int, chainId: int, recipient: string,
                       transferId: string, now: real, t: string)
    requires cfg.threshold >= 1 && FreshRun(cfg, ops)
    requires forall u :: u in Run(cfg, ops).transfers && Run(cfg, ops).transfers[u].lockEvent.Some? ==>
               Run(cfg, ops).transfers[u].agentId == agentId || !AdmittedClash(cfg, Run(cfg, ops).transfers[u].agentId, agentId)
    ensures var out := LockBait(cfg, Run(cfg, ops), agentId, amountSats, chainId, recipient, transferId, now).1;
            RefusedEarlier(out) ||
            (out == Err(DuplicateLock(t)) <==>
               t in Run(cfg, ops).transfers && LocksRequest(Run(cfg, ops).transfers[t], agentId, amountSats, recipient, chainId))
  {
    hide LockBait, DedupKey, AdmittedClash, Inv, RefusedEarlier, Run, FreshRun;
    var s := Run(cfg, ops);
    RunKeepsInv(cfg, ops);
    DuplicateByKey(cfg, s, agentId, amountSats, chainId, recipient, transferId, now, t);
    if t in s.transfers && s.transfers[t].lockEvent.Some? {
      var r := s.transfers[t];
      if KeyOf(r) == DedupKey(agentId, amountSats, recipient, chainId) && r.agentId != agentId {
        SharedByAdmitted(cfg, ops, t, agentId, amountSats, chainId, recipient, transferId, now);
      }
      if r.agentId == agentId {
        SameAgentKeys(agentId, r.amountSats, r.targetAddress, r.targetChainId, amountSats, recipient, chainId);
      }
    }
  }

  /** A lock and a request of another agent that reaches the check share a key only where an admitted amount makes the ids clash. */
  lemma SharedByAdmitted(cfg: Config, ops: seq<Op>, t: string, agentId: string, amountSats: int, chainId: int, recipient: string,
                         transferId: string, now: real)
    requires cfg.threshold >= 1 && FreshRun(cfg, ops) && t in Run(cfg, ops).transfers
    requires var r := Run(cfg, ops).transfers[t];
             r.lockEvent.Some? && r.agentId != agentId && KeyOf(r) == DedupKey(agentId, amountSats, recipient, chainId)
    ensures RefusedEarlier(LockBait(cfg, Run(cfg, ops), agentId, amountSats, chainId, recipient, transferId, now).1)
            || AdmittedClash(cfg, Run(cfg, ops).transfers[t].agentId, agentId)
  {
    hide LockBait, DedupKey, RefusedEarlier, Run, FreshRun, ClashBy, Admits;
    var s := Run(cfg, ops);
    var r := s.transfers[t];
    RunAdmitted(cfg, ops);
    ReachesCheck(cfg, s, agentId, amountSats, chainId, recipient, transferId, now);
    OtherAgentClashes(r.agentId, r.amountSats, r.targetAddress, r.targetChainId, agentId, amountSats, recipient, chainId);
    assert Admits(cfg, r.targetChainId, r.amountSats);
  }

  // ---- who can be refused for whom ----

  /** The run ops ends in a state that answers b's request as a duplicate of a lock of a. */
  ghost predicate RefusesAfter(cfg: Config, ops: seq<Op>, a: string, b: string, amountSats: int, chainId: int, recipient: string, id: string, now: real) {
    && FreshRun(cfg, ops) && id !in Run(cfg, ops).transfers
    && var out := LockBait(cfg, Run(cfg, ops), b, amountSats, chainId, recipient, id, now).1;
       out.Err? && out.error.DuplicateLock? && out.error.existing in Run(cfg, ops).transfers
       && Run(cfg, ops).transfers[out.error.existing].agentId == a
  }

  ghost predicate SomeRunRefuses(cfg: Config, a: string, b: string) {
    exists ops: seq<Op>, n: int, c: int, r: string, id: string, now: real :: RefusesAfter(cfg, ops, a, b, n, c, r, id, now)
  }

  lemma OneLockRun(cfg: Config, a: string, k: int, chainId: int, rec: string)
    ensures var ops := [LockOp(a, k, chainId, rec, "x", 0.0)];
            FreshRun(cfg, ops) && Run(cfg, ops) == LockBait(cfg, INITIAL, a, k, chainId, rec, "x", 0.0).0
  {
    hide LockBait;
    var ops := [LockOp(a, k, chainId, rec, "x", 0.0)];
    assert ops[..0] == [] && Run(cfg, []) == INITIAL;
  }

  lemma ClashGivesRun(cfg: Config, a: string, b: string, c: int, k: int)
    requires Admits(cfg, c, k) && (ClashBy(a, b, k) || ClashBy(b, a, k))
    ensures SomeRunRefuses(cfg, a, b)
  {
    hide LockBait, Admits, Extends, Run, FreshRun, CollidingRecipient, DedupKey;
    if ClashBy(b, a, k) {
      var z :| Extends(b, a, k, z);
      ClashRefusesOther(cfg, a, b, k, z, k, "", c, 0.0);
      OneLockRun(cfg, a, k, c, CollidingRecipient(z, k, ""));
      assert RefusesAfter(cfg, [LockOp(a, k, c, CollidingRecipient(z, k, ""), "x", 0.0)], a, b, k, c, "", "y", 0.0);
    } else {
      var z :| Extends(a, b, k, z);
      ClashShares(b, a, k, z, k, "", c);
      LongerDiffers(a, b, k, z);
      SameKeyRefused(cfg, a, k, "", b, k, CollidingRecipient(z, k, ""), c, 0.0);
      OneLockRun(cfg, a, k, c, "");
      assert RefusesAfter(cfg, [LockOp(a, k, c, "", "x", 0.0)], a, b, k, c, CollidingRecipient(z, k, ""), "y", 0.0);
    }
  }

  lemma LongerDiffers(longer: string, shorter: string, k: int, z: string)
    requires Extends(longer, shorter, k, z)
    ensures longer != shorter
  {
    assert |longer| > |shorter|;
  }

  lemma RunGivesClash(cfg: Config, ops: seq<Op>, a: string, b: string, amountSats: int, chainId: int, recipient: string, id: string, now: real)
    requires cfg.threshold >= 1 && a != b && RefusesAfter(cfg, ops, a, b, amountSats, chainId, recipient, id, now)
    ensures AdmittedClash(cfg, a, b)
  {
    hide LockBait, DedupKey, Inv, Run, FreshRun, AdmittedClash;
    var out := LockBait(cfg, Run(cfg, ops), b, amountSats, chainId, recipient, id, now).1;
    RunKeepsInv(cfg, ops);
    DuplicateByKey(cfg, Run(cfg, ops), b, amountSats, chainId, recipient, id, now, out.error.existing);
    SharedByAdmitted(cfg, ops, out.error.existing, b, amountSats, chainId, recipient, id, now);
  }

  /** On a given bridge some run refuses a request of b as a lock of a if and only if their ids clash, with either the longer,
      by an amount some chain admits. */
  lemma RefusedForOtherIff(cfg: Config, a: string, b: string)
    requires cfg.threshold >= 1 && a != b
    ensures SomeRunRefuses(cfg, a, b) <==> AdmittedClash(cfg, a, b)
  {
    hide RefusesAfter, Admits, ClashBy;
    if SomeRunRefuses(cfg, a, b) {
      var ops: seq<Op>, n: int, c: int, r: string, id: string, now: real :| RefusesAfter(cfg, ops, a, b, n, c, r, id, now);
      RunGivesClash(cfg, ops, a, b, n, c, r, id, now);
    }
    if AdmittedClash(cfg, a, b) {
      var c: int, k: int :| Admits(cfg, c, k) && (ClashBy(a, b, k) || ClashBy(b, a, k));
      ClashGivesRun(cfg, a, b, c, k);
    }
  }
}
