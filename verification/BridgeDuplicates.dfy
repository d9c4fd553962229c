/** When two requests share a duplicate key, and what the duplicate check answers over a run. */
module BridgeDuplicates {
  import opened Wrappers
  import opened Text
  import opened Merkle
  import opened Bridge
  import opened BridgeSafety

  ghost predicate NoColon(s: string) { forall i :: 0 <= i < |s| ==> s[i] != ':' }

  lemma FirstColon(a: string, x: string, b: string, y: string)
    requires NoColon(a) && NoColon(b) && a + (":" + x) == b + (":" + y)
    ensures a == b && x == y
  {
    var s, t := a + (":" + x), b + (":" + y);
    assert s[|a|] == ':' && t[|b|] == ':';
    assert forall i :: 0 <= i < |a| ==> s[i] == a[i];
    assert forall i :: 0 <= i < |b| ==> t[i] == b[i];
    Split(a, ":" + x, b, ":" + y);
    Split(":", x, ":", y);
  }

  lemma LastColon(x: string, c: string, y: string, d: string)
    requires NoColon(c) && NoColon(d) && x + (":" + c) == y + (":" + d)
    ensures x == y && c == d
  {
    var s, t := x + (":" + c), y + (":" + d);
    assert s[|x|] == ':' && t[|y|] == ':';
    assert forall i :: |x| < i < |s| ==> s[i] == c[i - |x| - 1];
    assert forall i :: |y| < i < |t| ==> t[i] == d[i - |y| - 1];
    Split(x, ":" + c, y, ":" + d);
    Split(":", c, ":", d);
  }

  lemma DecimalHasNoColon(i: int)
    ensures NoColon(DecimalInt(i))
  {
    DecimalIntShape(i);
  }

  lemma KeySpread(a: string, d: string, r: string, k: string)
    ensures a + ":" + d + ":" + r + ":" + k == a + (":" + (d + (":" + (r + (":" + k)))))
  {
  }

  /** With a colon in an agent id, two different requests share a key. */
  lemma ColonMakesKeysCollide()
    ensures DedupKey("a", 5, "6:r", 1) == DedupKey("a:5", 6, "r", 1)
  {
  }

  // ---- one agent ----

  /** The requests of one agent never share a key, whatever its id. */
  lemma SameAgentKeys(a: string, n: int, r: string, c: int, n': int, r': string, c': int)
    ensures DedupKey(a, n, r, c) == DedupKey(a, n', r', c') <==> n == n' && r == r' && c == c'
  {
    var (d, d', k, k') := (DecimalInt(n), DecimalInt(n'), DecimalInt(c), DecimalInt(c'));
    DecimalHasNoColon(n);
    DecimalHasNoColon(n');
    DecimalHasNoColon(c);
    DecimalHasNoColon(c');
    if DedupKey(a, n, r, c) == DedupKey(a, n', r', c') {
      hide DecimalInt;
      KeySpread(a, d, r, k);
      KeySpread(a, d', r', k');
      Split(a, ":" + (d + (":" + (r + (":" + k)))), a, ":" + (d' + (":" + (r' + (":" + k')))));
      Split(":", d + (":" + (r + (":" + k))), ":", d' + (":" + (r' + (":" + k'))));
      FirstColon(d, r + (":" + k), d', r' + (":" + k'));
      LastColon(r, k, r', k');
      SameNumeral(n, n');
      SameNumeral(c, c');
    }
  }

  lemma SameNumeral(n: int, n': int)
    requires DecimalInt(n) == DecimalInt(n')
    ensures n == n'
  {
    assert DecimalInt(n) + "" == DecimalInt(n') + "";
    DecimalIntPrefix(n, "", n', "");
  }

  // ---- two agents ----

  /** One id is the other, a colon and the numeral of k, ending there or going on with another colon. */
  ghost predicate ClashBy(longer: string, shorter: string, k: int) {
    exists z: string :: Extends(longer, shorter, k, z)
  }

  ghost predicate Extends(longer: string, shorter: string, k: int, z: string) {
    longer == shorter + (":" + (DecimalInt(k) + z)) && (z == "" || z[0] == ':')
  }

  ghost predicate Clash(a: string, b: string) {
    exists k: int :: ClashBy(a, b, k) || ClashBy(b, a, k)
  }

  ghost predicate SharesKey(a: string, b: string) {
    exists n: int, r: string, c: int, n': int, r': string, c': int :: DedupKey(a, n, r, c) == DedupKey(b, n', r', c')
  }

  /** d has no colon and is followed by one: so is the same text read as rest, a colon and more. */
  lemma UpToColon(d: string, x: string, rest: string, y: string)
    requires NoColon(d) && d + (":" + x) == rest + (":" + y)
    ensures |d| <= |rest| && rest[..|d|] == d && (rest[|d|..] == "" || rest[|d|..][0] == ':')
  {
    var s, t := d + (":" + x), rest + (":" + y);
    assert s[|d|] == ':' && t[|rest|] == ':';
    assert forall i :: 0 <= i < |d| ==> s[i] == d[i];
    assert forall i :: 0 <= i < |rest| ==> t[i] == rest[i];
    assert |d| < |rest| ==> rest[|d|..][0] == t[|d|];
  }

  lemma SharedKeyClashes(a: string, n: int, r: string, c: int, b: string, n': int, r': string, c': int)
    requires |a| < |b| && DedupKey(a, n, r, c) == DedupKey(b, n', r', c')
    ensures ClashBy(b, a, n)
  {
    var (d, d', k, k') := (DecimalInt(n), DecimalInt(n'), DecimalInt(c), DecimalInt(c'));
    DecimalHasNoColon(n);
    hide DecimalInt;
    KeySpread(a, d, r, k);
    KeySpread(b, d', r', k');
    var x, y := d + (":" + (r + (":" + k))), d' + (":" + (r' + (":" + k')));
    var rest := Beyond(a, x, b, y);
    UpToColon(d, r + (":" + k), rest, y);
    var z := rest[|d|..];
    assert rest == d + z;
    assert Extends(b, a, n, z);
  }

  lemma Beyond(a: string, x: string, b: string, y: string) returns (rest: string)
    requires |a| < |b| && a + (":" + x) == b + (":" + y)
    ensures b == a + (":" + rest) && x == rest + (":" + y)
  {
    var tail := b[|a|..];
    assert b + (":" + y) == b[..|a|] + (tail + (":" + y));
    Split(a, ":" + x, b[..|a|], tail + (":" + y));
    rest := tail[1..];
    assert (tail + (":" + y))[0] == tail[0] == ':';
    assert tail + (":" + y) == ":" + (rest + (":" + y));
    Split(":", x, ":", rest + (":" + y));
  }

  /** The recipient that makes a's request of k collide with b's request. */
  function CollidingRecipient(z: string, n: int, r: string): string {
    if z == "" then DecimalInt(n) + (":" + r) else z[1..] + (":" + (DecimalInt(n) + (":" + r)))
  }

  lemma ClashShares(a: string, b: string, k: int, z: string, n: int, r: string, c: int)
    requires Extends(b, a, k, z)
    ensures DedupKey(a, k, CollidingRecipient(z, n, r), c) == DedupKey(b, n, r, c)
  {
    var (d, e, m) := (DecimalInt(k), DecimalInt(n), DecimalInt(c));
    hide DecimalInt;
    KeySpread(a, d, CollidingRecipient(z, n, r), m);
    KeySpread(b, e, r, m);
    var u := e + (":" + (r + (":" + m)));
    Regroup(a, d, z, u);
    if z == "" {
      assert (e + (":" + r)) + (":" + m) == u;
    } else {
      var w := z[1..];
      assert z == ":" + w;
      assert (w + (":" + (e + (":" + r)))) + (":" + m) == w + (":" + u);
      assert z + (":" + u) == ":" + (w + (":" + u));
    }
  }

  lemma Regroup(a: string, d: string, z: string, u: string)
    ensures (a + (":" + (d + z))) + (":" + u) == a + (":" + (d + (z + (":" + u))))
  {
    Assoc(a, ":" + (d + z), ":" + u);
    Assoc(":", d + z, ":" + u);
    Assoc(d, z, ":" + u);
  }

  /** Two different agents have requests that share a key if and only if their ids clash. */
  lemma SharesKeyIff(a: string, b: string)
    requires a != b
    ensures SharesKey(a, b) <==> Clash(a, b)
  {
    hide DedupKey, Extends;
    if n: int, r: string, c: int, n': int, r': string, c': int :| DedupKey(a, n, r, c) == DedupKey(b, n', r', c') {
      OtherAgentClashes(a, n, r, c, b, n', r', c');
    }
    if k: int :| ClashBy(a, b, k) || ClashBy(b, a, k) {
      if ClashBy(b, a, k) {
        var z :| Extends(b, a, k, z);
        ClashShares(a, b, k, z, 0, "", 0);
      } else {
        var z :| Extends(a, b, k, z);
        ClashShares(b, a, k, z, 0, "", 0);
      }
    }
  }

  lemma OtherAgentClashes(a: string, n: int, r: string, c: int, b: string, n': int, r': string, c': int)
    requires a != b && DedupKey(a, n, r, c) == DedupKey(b, n', r', c')
    ensures ClashBy(b, a, n) || ClashBy(a, b, n')
  {
    if |a| < |b| {
      SharedKeyClashes(a, n, r, c, b, n', r', c');
    } else if |b| < |a| {
      SharedKeyClashes(b, n', r', c', a, n, r, c);
    } else {
      hide DecimalInt;
      KeySpread(a, DecimalInt(n), r, DecimalInt(c));
      KeySpread(b, DecimalInt(n'), r', DecimalInt(c'));
      Split(a, ":" + (DecimalInt(n) + (":" + (r + (":" + DecimalInt(c))))),
            b, ":" + (DecimalInt(n') + (":" + (r' + (":" + DecimalInt(c'))))));
    }
  }

  /** Between agents whose ids do not clash the key stands for one request. */
  lemma DedupKeyExact(a: string, n: int, r: string, c: int, a': string, n': int, r': string, c': int)
    requires a == a' || !Clash(a, a')
    ensures DedupKey(a, n, r, c) == DedupKey(a', n', r', c') <==> a == a' && n == n' && r == r' && c == c'
  {
    hide DedupKey, ClashBy;
    if DedupKey(a, n, r, c) == DedupKey(a', n', r', c') {
      if a != a' { OtherAgentClashes(a, n, r, c, a', n', r', c'); }
      SameAgentKeys(a, n, r, c, n', r', c');
    }
  }

  /** Ids without colons never clash. */
  lemma ColonFreeNeverClash(a: string, b: string)
    requires NoColon(a) && NoColon(b)
    ensures !Clash(a, b)
  {
    hide DecimalInt;
    forall longer: string, shorter: string, k: int, z: string | Extends(longer, shorter, k, z)
      ensures !NoColon(longer)
    {
      assert longer[|shorter|] == ':';
    }
  }

  // ---- the duplicate check over runs ----

  /** r is the lock of that request. */
  predicate LocksRequest(r: Record, agentId: string, amountSats: int, recipient: string, chainId: int) {
    r.lockEvent.Some? && r.agentId == agentId && r.amountSats == amountSats && r.targetAddress == recipient && r.targetChainId == chainId
  }

  /** A refusal that comes before the duplicate check. */
  predicate RefusedEarlier(out: Outcome) {
    out.Err? && (out.error.BridgePaused? || out.error.UnsupportedChain? || out.error.BelowMinimum? || out.error.AboveMaximum?
                 || out.error.DailyLimitExceeded? || out.error.TooManyPending?)
  }

  lemma AnswerFromTable(cfg: Config, s: State, agentId: string, amountSats: int, chainId: int, recipient: string,
                        transferId: string, now: real, t: string)
    ensures var out := LockBait(cfg, s, agentId, amountSats, chainId, recipient, transferId, now).1;
            var key := DedupKey(agentId, amountSats, recipient, chainId);
            RefusedEarlier(out) || (out == Err(DuplicateLock(t)) <==> key in s.dedup && s.dedup[key] == t)
  {
    hide DedupKey, EventId, Volume, Total, Day, RecordLock, Fee;
    forall fee: int ensures RecordLock(ResetDaily(s, now), agentId, amountSats, chainId, recipient, transferId, now, fee).1.Ok? {
      RecordedIsOk(ResetDaily(s, now), agentId, amountSats, chainId, recipient, transferId, now, fee);
    }
  }

  /** A request that reaches the check is answered as a duplicate of t exactly when t is a lock with its key. */
  lemma DuplicateByKey(cfg: Config, s: State, agentId: string, amountSats: int, chainId: int, recipient: string,
                       transferId: string, now: real, t: string)
    requires Inv(cfg, s)
    ensures var out := LockBait(cfg, s, agentId, amountSats, chainId, recipient, transferId, now).1;
            RefusedEarlier(out) ||
            (out == Err(DuplicateLock(t)) <==>
               t in s.transfers && s.transfers[t].lockEvent.Some? && KeyOf(s.transfers[t]) == DedupKey(agentId, amountSats, recipient, chainId))
  {
    assert LocksIndexed(s);
    hide Inv, LockBait, DedupKey, RefusedEarlier;
    AnswerFromTable(cfg, s, agentId, amountSats, chainId, recipient, transferId, now, t);
  }

  lemma RecordedIsOk(s: State, agentId: string, amountSats: int, chainId: int, recipient: string, transferId: string, now: real, fee: int)
    ensures RecordLock(s, agentId, amountSats, chainId, recipient, transferId, now, fee).1.Ok?
  {
  }

  // ---- clashing ids on a run ----

  predicate Admits(cfg: Config, chainId: int, amountSats: int) {
    && chainId in cfg.chains && cfg.chains[chainId].minLockSats <= amountSats <= cfg.chains[chainId].maxLockSats
    && amountSats <= cfg.dailyLimitSats && cfg.maxPending >= 1
  }

  /** The state after the first lock of all. */
  lemma FirstLock(cfg: Config, agentId: string, amountSats: int, chainId: int, recipient: string, transferId: string, now: real)
    requires Admits(cfg, chainId, amountSats)
    ensures var (s, out) := LockBait(cfg, INITIAL, agentId, amountSats, chainId, recipient, transferId, now);
            && out.Ok? && !s.paused && s.volumeDay == Some(Day(now)) && s.dailyVolume == map[agentId := amountSats]
            && s.dedup == map[DedupKey(agentId, amountSats, recipient, chainId) := transferId]
            && s.transfers.Keys == {transferId} && LocksRequest(s.transfers[transferId], agentId, amountSats, recipient, chainId)
            && s.transfers[transferId].createdAt == now
            && forall m :: Total(m, s.transfers) == Weight(m, s.transfers[transferId])
  {
    hide DedupKey, EventId, Direction, Path, Fee, Day;
    var s := LockBait(cfg, INITIAL, agentId, amountSats, chainId, recipient, transferId, now).0;
    forall m ensures Total(m, s.transfers) == Weight(m, s.transfers[transferId]) {
      TotalPut(m, map[], transferId, s.transfers[transferId]);
    }
  }

  /** The first lock of all refuses another agent's request with its key. */
  lemma SameKeyRefused(cfg: Config, a: string, k: int, rec: string, b: string, n: int, r: string, chainId: int, now: real)
    requires a != b && Admits(cfg, chainId, k) && Admits(cfg, chainId, n) && DedupKey(a, k, rec, chainId) == DedupKey(b, n, r, chainId)
    ensures var s := LockBait(cfg, INITIAL, a, k, chainId, rec, "x", now).0;
            && LockBait(cfg, s, b, n, chainId, r, "y", now).1 == Err(DuplicateLock("x"))
            && s.transfers.Keys == {"x"} && s.transfers["x"].agentId == a
  {
    hide DedupKey, EventId, Direction, Path, Fee, Day, RecordLock;
    FirstLock(cfg, a, k, chainId, rec, "x", now);
  }

  /** Whenever ids clash and the bridge admits the amounts, a lock of the shorter id refuses a request of the longer. */
  lemma ClashRefusesOther(cfg: Config, a: string, b: string, k: int, z: string, n: int, r: string, chainId: int, now: real)
    requires Extends(b, a, k, z) && Admits(cfg, chainId, k) && Admits(cfg, chainId, n)
    ensures var s := LockBait(cfg, INITIAL, a, k, chainId, CollidingRecipient(z, n, r), "x", now).0;
            && LockBait(cfg, s, b, n, chainId, r, "y", now).1 == Err(DuplicateLock("x"))
            && s.transfers.Keys == {"x"} && s.transfers["x"].agentId == a && a != b
  {
    hide DedupKey, DecimalInt, CollidingRecipient, LockBait;
    ClashShares(a, b, k, z, n, r, chainId);
    assert |b| > |a|;
    SameKeyRefused(cfg, a, k, CollidingRecipient(z, n, r), b, n, r, chainId, now);
  }
}
