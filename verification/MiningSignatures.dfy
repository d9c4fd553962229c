/** Signatures of broadcasts: when each is mined at most once. */
module MiningSignatures {
  import opened Mining

  ghost predicate DistinctSigs(items: seq<Broadcast>) {
    forall i, j :: 0 <= i < j < |items| ==> items[i].sig != items[j].sig
  }

  /** No signature is twice among the mined and the pending broadcasts. */
  ghost predicate SigsOnce(s: State, m: int, n: int) {
    DistinctSigs(Transfers(LogOf(s, m, n)) + s.pending)
  }

  lemma QueueKeepsSigs(logged: seq<Broadcast>, s: State, payload: Broadcast, now: real)
    requires DistinctSigs(logged + s.pending)
    ensures var (t, answer) := QueueStep(s, payload, now);
            DistinctSigs(logged + t.pending) <==> !(answer == Queued && HasSig(logged, payload.sig))
  {
    var (t, answer) := QueueStep(s, payload, now);
    if answer == Queued {
      var before, after := logged + s.pending, logged + t.pending;
      var items := s.pending + [payload.(serial := s.accepted, queuedAt := now)];
      var k := Overflow(items);
      assert after[|after| - 1].sig == payload.sig;
      if i :| 0 <= i < |logged| && logged[i].sig == payload.sig {
        assert after[i].sig == after[|after| - 1].sig;
      } else {
        forall i, j | 0 <= i < j < |after| ensures after[i].sig != after[j].sig {
          var p := if i < |logged| then i else i + k;
          var q := if j < |logged| then j else j + k;
          if j < |after| - 1 {
            assert before[p] == after[i] && before[q] == after[j];
          } else if i < |logged| {
            assert after[i] == logged[i];
          } else {
            assert after[i] == s.pending[i - |logged| + k];
          }
        }
      }
    }
  }

  /** The step accepts a broadcast whose signature a block already holds. */
  ghost predicate RepeatsMined(s: State, m: int, n: int, op: Op) {
    op.Queue? && QueueStep(s, op.payload, op.now).1 == Queued && HasSig(Transfers(LogOf(s, m, n)), op.payload.sig)
  }

  lemma StepKeepsSigs(cfg: Config, s: State, m: int, n: int, op: Op)
    requires Linked(s.chain, m, n) && SigsOnce(s, m, n)
    ensures SigsOnce(Step(cfg, s, n, op), m, if op.Mine? then n + 1 else n) <==> !RepeatsMined(s, m, n, op)
  {
    hide QueueStep, RegisterStep, ClaimStep, MineStep, Transfers, Log, HasSig, DistinctSigs;
    match op
    case Queue(p, now) =>
      QuietStep(cfg, s, n, op);
      QueueKeepsSigs(Transfers(LogOf(s, m, n)), s, p, now);
    case Register(_, _, _) =>
      QuietStep(cfg, s, n, op);
    case ClaimFaucet(_, _, _) =>
      QuietStep(cfg, s, n, op);
    case Mine(now) =>
      MineLogs(cfg, s, m, n, now);
      MineEmpties(cfg, s, m, n, now);
      var logged := Transfers(LogOf(s, m, n));
      assert (logged + s.pending) + [] == logged + s.pending;
  }

  ghost predicate OnceThroughout(cfg: Config, s: State, m: int, n: int, ops: seq<Op>)
    requires Linked(s.chain, m, n)
  {
    forall k :: 0 <= k <= |ops| ==> SigsOnce(Run(cfg, s, m, n, ops[..k]), m, TopAfter(n, ops[..k]))
  }

  ghost predicate NeverRepeats(cfg: Config, s: State, m: int, n: int, ops: seq<Op>)
    requires Linked(s.chain, m, n)
  {
    forall k :: 0 <= k < |ops| ==> !RepeatsMined(Run(cfg, s, m, n, ops[..k]), m, TopAfter(n, ops[..k]), ops[k])
  }

  lemma RunStep(cfg: Config, s: State, m: int, n: int, ops: seq<Op>, k: nat)
    requires Linked(s.chain, m, n) && k < |ops|
    ensures var t, n' := Run(cfg, s, m, n, ops[..k]), TopAfter(n, ops[..k]);
            && Linked(t.chain, m, n')
            && Run(cfg, s, m, n, ops[..k + 1]) == Step(cfg, t, n', ops[k])
            && TopAfter(n, ops[..k + 1]) == if ops[k].Mine? then n' + 1 else n'
  {
    hide Linked, Step;
    assert ops[..k + 1][..k] == ops[..k];
  }

  /** Over every run each signature is mined or pending at most once, at every moment, if and only if no accepted broadcast
      repeats one already mined. */
  lemma SigsOnceIff(cfg: Config, s: State, m: int, n: int, ops: seq<Op>)
    requires Linked(s.chain, m, n) && SigsOnce(s, m, n)
    ensures OnceThroughout(cfg, s, m, n, ops) <==> NeverRepeats(cfg, s, m, n, ops)
  {
    hide Run, SigsOnce, RepeatsMined, Linked;
    if NeverRepeats(cfg, s, m, n, ops) {
      forall k | 0 <= k <= |ops| ensures SigsOnce(Run(cfg, s, m, n, ops[..k]), m, TopAfter(n, ops[..k])) {
        OnceUpTo(cfg, s, m, n, ops, k);
      }
    }
    if OnceThroughout(cfg, s, m, n, ops) {
      forall k | 0 <= k < |ops| ensures !RepeatsMined(Run(cfg, s, m, n, ops[..k]), m, TopAfter(n, ops[..k]), ops[k]) {
        RunStep(cfg, s, m, n, ops, k);
        StepKeepsSigs(cfg, Run(cfg, s, m, n, ops[..k]), m, TopAfter(n, ops[..k]), ops[k]);
        assert SigsOnce(Run(cfg, s, m, n, ops[..k + 1]), m, TopAfter(n, ops[..k + 1]));
      }
    }
  }

  lemma {:induction false} OnceUpTo(cfg: Config, s: State, m: int, n: int, ops: seq<Op>, k: nat)
    requires Linked(s.chain, m, n) && SigsOnce(s, m, n) && NeverRepeats(cfg, s, m, n, ops) && k <= |ops|
    ensures SigsOnce(Run(cfg, s, m, n, ops[..k]), m, TopAfter(n, ops[..k]))
  {
    hide SigsOnce, RepeatsMined, Linked, Step;
    if k > 0 {
      OnceUpTo(cfg, s, m, n, ops, k - 1);
      RunStep(cfg, s, m, n, ops, k - 1);
      StepKeepsSigs(cfg, Run(cfg, s, m, n, ops[..k - 1]), m, TopAfter(n, ops[..k - 1]), ops[k - 1]);
    }
  }

  /** While no accepted broadcast repeats a mined one, no signature is twice in the blocks. */
  lemma BlocksHoldSigsOnce(cfg: Config, s: State, m: int, n: int, ops: seq<Op>)
    requires Linked(s.chain, m, n) && SigsOnce(s, m, n) && NeverRepeats(cfg, s, m, n, ops)
    ensures DistinctSigs(Transfers(LogOf(Run(cfg, s, m, n, ops), m, TopAfter(n, ops))))
  {
    hide Run, NeverRepeats, Transfers, Linked;
    OnceUpTo(cfg, s, m, n, ops, |ops|);
    assert ops[..|ops|] == ops;
    var t := Run(cfg, s, m, n, ops);
    var logged := Transfers(LogOf(t, m, TopAfter(n, ops)));
    assert forall i :: 0 <= i < |logged| ==> (logged + t.pending)[i] == logged[i];
  }

  /** Any broadcast can be mined twice: queued again once it is mined, it is accepted and mined again. */
  lemma SameSigMinedTwice(cfg: Config, s: State, m: int, n: int, payload: Broadcast, now: real)
    requires Linked(s.chain, m, n) && s.pending == []
    ensures var t := Run(cfg, s, m, n, [Queue(payload, now), Mine(now), Queue(payload, now), Mine(now)]);
            !DistinctSigs(Transfers(LogOf(t, m, n + 2)))
  {
    hide MineStep, QueueStep, Transfers, Log;
    var ops := [Queue(payload, now), Mine(now), Queue(payload, now), Mine(now)];
    var first := QueueThenMine(cfg, s, m, n, payload, now);
    var s2 := MineStep(cfg, QueueStep(s, payload, now).0, n, now).0;
    var again := QueueThenMine(cfg, s2, m, n + 1, payload, now);
    var s4 := MineStep(cfg, QueueStep(s2, payload, now).0, n + 1, now).0;
    var a := Transfers(LogOf(s, m, n));
    var all := Transfers(LogOf(s4, m, n + 2));
    assert all == a + [first] + [again];
    assert all[|a|].sig == all[|a| + 1].sig;
    TwoSteps(cfg, s, m, n, ops, 0);
    TwoSteps(cfg, s, m, n, ops, 2);
    assert ops[..0] == [] && ops[..4] == ops;
  }

  lemma TwoSteps(cfg: Config, s: State, m: int, n: int, ops: seq<Op>, k: nat)
    requires Linked(s.chain, m, n) && k + 2 <= |ops| && ops[k].Queue? && ops[k + 1].Mine?
    ensures var t, n' := Run(cfg, s, m, n, ops[..k]), TopAfter(n, ops[..k]);
            n' in t.chain &&
            var q := QueueStep(t, ops[k].payload, ops[k].now).0;
            && n' in q.chain && TopAfter(n, ops[..k + 2]) == n' + 1
            && Run(cfg, s, m, n, ops[..k + 2]) == MineStep(cfg, q, n', ops[k + 1].now).0
  {
    hide QueueStep, MineStep, Run, TopAfter, Linked;
    RunStep(cfg, s, m, n, ops, k);
    RunStep(cfg, s, m, n, ops, k + 1);
    TopStored(Run(cfg, s, m, n, ops[..k]).chain, m, TopAfter(n, ops[..k]));
    TopStored(Run(cfg, s, m, n, ops[..k + 1]).chain, m, TopAfter(n, ops[..k + 1]));
  }

  lemma QueueThenMine(cfg: Config, s: State, m: int, n: int, payload: Broadcast, now: real) returns (item: Broadcast)
    requires Linked(s.chain, m, n) && s.pending == []
    ensures item.sig == payload.sig
    ensures var q := QueueStep(s, payload, now).0;
            n in q.chain && Linked(q.chain, m, n) &&
            var u := MineStep(cfg, q, n, now).0;
            Linked(u.chain, m, n + 1) && u.pending == []
            && Transfers(LogOf(u, m, n + 1)) == Transfers(LogOf(s, m, n)) + [item]
  {
    hide MineStep, Transfers, Log, Linked;
    item := payload.(serial := s.accepted, queuedAt := now);
    var q := QueueStep(s, payload, now).0;
    assert q.pending == [item] && q.chain == s.chain;
    TopStored(q.chain, m, n);
    MineLogs(cfg, q, m, n, now);
    MineEmpties(cfg, q, m, n, now);
  }
}
