/** When dropping idle clients changes no answer of the limiter, and when it does. */
module Pruning {
  import opened Wrappers
  import opened BanchoTypes
  import opened TokenBuckets
  import opened BucketLevels

  // ---------- pruning is invisible ----------

  // Two limiters no later request can tell apart.
  ghost predicate Alike(a: Limiter, b: Limiter, cfg: Config, now: real) {
    forall ip, tier, t :: now <= t ==> LevelOf(a, cfg, ip, tier, t) == LevelOf(b, cfg, ip, tier, t)
  }

  predicate Refills(cfg: Config) {
    cfg.generalRpm >= 1 && cfg.banchoRpm >= 1 && cfg.directRpm >= 1 && cfg.sensitiveRpm >= 1
  }

  // Only clients idle for at least a minute are pruned.
  predicate PatientPrunes(ops: seq<Op>) {
    forall i :: 0 <= i < |ops| && ops[i].Prune? ==> ops[i].maxIdle >= 60.0
  }

  // A prune never lowers a level. It leaves a tier that refills alone when it is patient, and every
  // client it does not remove.
  lemma PruneEffect(lim: Limiter, cfg: Config, now: real, maxIdle: real, ip: Ip, tier: Tier, t: real)
    requires LimiterOk(lim, cfg, now) && now <= t
    ensures LevelOf(PruneStale(lim, now, maxIdle), cfg, ip, tier, t) >= LevelOf(lim, cfg, ip, tier, t)
    ensures Rpm(cfg, tier) >= 1 && maxIdle >= 60.0 ==>
      LevelOf(PruneStale(lim, now, maxIdle), cfg, ip, tier, t) == LevelOf(lim, cfg, ip, tier, t)
    ensures ip in lim.clients && Elapsed(now, lim.clients[ip].lastSeen) < maxIdle ==>
      LevelOf(PruneStale(lim, now, maxIdle), cfg, ip, tier, t) == LevelOf(lim, cfg, ip, tier, t)
  {
    hide BucketOk; hide BucketOf; hide Level;
    if ip in lim.clients && ip !in PruneStale(lim, now, maxIdle).clients {
      var c := lim.clients[ip];
      var b := BucketOf(c, tier);
      assert BucketOk(b, Rpm(cfg, tier), c.lastSeen);
      LevelBounds(b, Rpm(cfg, tier), c.lastSeen, t);
      CapacityOf(b, Rpm(cfg, tier), c.lastSeen);
      if Rpm(cfg, tier) >= 1 && maxIdle >= 60.0 { IdleIsFull(b, Rpm(cfg, tier), c.lastSeen, t); }
    }
  }

  lemma CapacityOf(b: Bucket, rpm: u32, now: real)
    requires BucketOk(b, rpm, now)
    ensures b.capacity == Capacity(rpm)
  {
  }

  lemma PruneKeepsLevels(lim: Limiter, cfg: Config, now: real, maxIdle: real)
    requires LimiterOk(lim, cfg, now) && Refills(cfg) && maxIdle >= 60.0
    ensures Alike(PruneStale(lim, now, maxIdle), lim, cfg, now)
  {
    hide LimiterOk; hide LevelOf; hide PruneStale;
    forall ip, tier, t | now <= t
      ensures LevelOf(PruneStale(lim, now, maxIdle), cfg, ip, tier, t) == LevelOf(lim, cfg, ip, tier, t)
    {
      PruneEffect(lim, cfg, now, maxIdle, ip, tier, t);
    }
  }

  lemma AlikeAfterRequest(a: Limiter, b: Limiter, cfg: Config, op: Op)
    requires LimiterOk(a, cfg, op.now) && LimiterOk(b, cfg, op.now) && Alike(a, b, cfg, op.now) && op.Request?
    ensures Alike(After(a, cfg, op), After(b, cfg, op), cfg, op.now)
    ensures Check(a, cfg, op.ip, op.private, op.tier, op.now).1 == Check(b, cfg, op.ip, op.private, op.tier, op.now).1
  {
    if Exempt(cfg, op.private) {
      assert After(a, cfg, op) == a && After(b, cfg, op) == b;
    } else {
      hide After; hide LevelOf; hide LimiterOk; hide Check; hide Wait; hide Spent;
      CheckAnswer(a, cfg, op);
      CheckAnswer(b, cfg, op);
      forall ip, tier, t | op.now <= t
        ensures LevelOf(After(a, cfg, op), cfg, ip, tier, t) == LevelOf(After(b, cfg, op), cfg, ip, tier, t)
      {
        CheckLevels(a, cfg, op, ip, tier, t);
        CheckLevels(b, cfg, op, ip, tier, t);
        assert LevelOf(a, cfg, ip, tier, t) == LevelOf(b, cfg, ip, tier, t);
        assert LevelOf(a, cfg, ip, tier, op.now) == LevelOf(b, cfg, ip, tier, op.now);
      }
    }
  }

  lemma AlikeLater(a: Limiter, b: Limiter, c: Limiter, cfg: Config, now: real, later: real)
    requires Alike(a, b, cfg, now) && now <= later && Alike(c, a, cfg, later)
    ensures Alike(c, b, cfg, later)
  {
    forall ip, tier, t | later <= t ensures LevelOf(c, cfg, ip, tier, t) == LevelOf(b, cfg, ip, tier, t) {
      assert LevelOf(c, cfg, ip, tier, t) == LevelOf(a, cfg, ip, tier, t);
    }
  }

  lemma AlikeItself(a: Limiter, b: Limiter, cfg: Config, now: real, later: real)
    requires Alike(a, b, cfg, now) && now <= later
    ensures Alike(a, b, cfg, later)
  {
  }

  // A limiter that prunes answers every request of a run as one that never does.
  lemma {:induction false} PruningIsInvisible(a: Limiter, b: Limiter, cfg: Config, now: real, ops: seq<Op>)
    requires LimiterOk(a, cfg, now) && LimiterOk(b, cfg, now) && Alike(a, b, cfg, now)
    requires Refills(cfg) && PatientPrunes(ops) && Ordered(now, ops)
    ensures Answers(a, cfg, ops) == Answers(b, cfg, Requests(ops))
    decreases |ops|
  {
    hide LimiterOk; hide Alike; hide Check; hide PruneStale;
    if ops != [] {
      var op := ops[0];
      OkLater(a, cfg, now, op.now);
      OkLater(b, cfg, now, op.now);
      AlikeItself(a, b, cfg, now, op.now);
      StepOk(a, cfg, now, op);
      if op.Prune? {
        PruneKeepsLevels(a, cfg, op.now, op.maxIdle);
        AlikeLater(a, b, After(a, cfg, op), cfg, op.now, op.now);
        PruningIsInvisible(After(a, cfg, op), b, cfg, op.now, ops[1..]);
      } else {
        StepOk(b, cfg, now, op);
        AlikeAfterRequest(a, b, cfg, op);
        PruningIsInvisible(After(a, cfg, op), After(b, cfg, op), cfg, op.now, ops[1..]);
        assert Requests(ops)[1..] == Requests(ops[1..]);
      }
    }
  }

  lemma FreshLimiterPrunes(cfg: Config, now: real, ops: seq<Op>)
    requires Refills(cfg) && PatientPrunes(ops) && Ordered(now, ops)
    ensures Answers(NO_CLIENTS, cfg, ops) == Answers(NO_CLIENTS, cfg, Requests(ops))
  {
    PruningIsInvisible(NO_CLIENTS, NO_CLIENTS, cfg, now, ops);
  }

  // ---------- when pruning shows ----------

  // n requests at once.
  function Burst(ip: Ip, tier: Tier, t: real, n: nat): seq<Op> {
    if n == 0 then [] else [Request(ip, false, tier, t)] + Burst(ip, tier, t, n - 1)
  }

  function AllOk(n: nat): seq<Answer> {
    if n == 0 then [] else [Ok(())] + AllOk(n - 1)
  }

  // A burst is accepted whole exactly when the level covers it, and takes that much off.
  lemma {:induction false} BurstAccepted(lim: Limiter, cfg: Config, ip: Ip, tier: Tier, t: real, n: nat)
    requires LimiterOk(lim, cfg, t) && cfg.enabled
    ensures Answers(lim, cfg, Burst(ip, tier, t, n)) == AllOk(n) <==>
      n == 0 || LevelOf(lim, cfg, ip, tier, t) >= n as real
    ensures LevelOf(lim, cfg, ip, tier, t) >= n as real ==>
      LevelOf(AfterAll(lim, cfg, Burst(ip, tier, t, n)), cfg, ip, tier, t) == LevelOf(lim, cfg, ip, tier, t) - n as real
    ensures LimiterOk(AfterAll(lim, cfg, Burst(ip, tier, t, n)), cfg, t)
    ensures n > 0 ==>
      ip in AfterAll(lim, cfg, Burst(ip, tier, t, n)).clients &&
      AfterAll(lim, cfg, Burst(ip, tier, t, n)).clients[ip].lastSeen == t
    decreases n
  {
    hide LevelOf; hide LimiterOk; hide Check; hide Wait;
    if n > 0 {
      var op := Request(ip, false, tier, t);
      var lim1 := After(lim, cfg, op);
      var rest := Burst(ip, tier, t, n - 1);
      assert Burst(ip, tier, t, n)[1..] == rest;
      StepOk(lim, cfg, t, op);
      BurstAccepted(lim1, cfg, ip, tier, t, n - 1);
      CheckAnswer(lim, cfg, op);
      CheckLevels(lim, cfg, op, ip, tier, t);
      LevelGrows(lim, cfg, ip, tier, t, t);
      SeenNow(lim, cfg, ip, false, tier, t);
      assert Answers(lim, cfg, Burst(ip, tier, t, n)) ==
        [Check(lim, cfg, ip, false, tier, t).1] + Answers(lim1, cfg, rest);
      assert AllOk(n)[1..] == AllOk(n - 1);
    }
  }

  lemma SeenNow(lim: Limiter, cfg: Config, ip: Ip, private: bool, tier: Tier, t: real)
    requires !Exempt(cfg, private)
    ensures var lim' := Check(lim, cfg, ip, private, tier, t).0; ip in lim'.clients && lim'.clients[ip].lastSeen == t
  {
    hide Acquire; hide NewClient; hide WithBucket; hide BucketOf; hide RetryAfter;
  }

  lemma {:induction false} BurstIsRequests(ip: Ip, tier: Tier, t: real, n: nat)
    ensures forall op :: op in Burst(ip, tier, t, n) ==> op.Request?
    decreases n
  {
    if n > 0 { BurstIsRequests(ip, tier, t, n - 1); }
  }

  lemma {:induction false} BurstOrdered(ip: Ip, tier: Tier, t: real, n: nat, rest: seq<Op>)
    requires Ordered(t, rest)
    ensures Ordered(t, Burst(ip, tier, t, n) + rest)
    ensures Requests(Burst(ip, tier, t, n) + rest) == Burst(ip, tier, t, n) + Requests(rest)
    decreases n
  {
    var ops := Burst(ip, tier, t, n) + rest;
    if n == 0 {
      assert ops == rest;
      assert [] + Requests(rest) == Requests(rest);
    } else {
      var op := Request(ip, false, tier, t);
      var fewer := Burst(ip, tier, t, n - 1);
      BurstOrdered(ip, tier, t, n - 1, rest);
      assert ops[0] == op && ops[1..] == fewer + rest;
      assert [op] + (fewer + Requests(rest)) == ([op] + fewer) + Requests(rest);
    }
  }

  // A burst that empties a bucket, a prune after m seconds, and the same burst again.
  function Probe(ip: Ip, tier: Tier, m: real, n: nat): seq<Op> {
    Burst(ip, tier, 0.0, n) + ([Prune(m, m)] + Burst(ip, tier, m, n))
  }

  predicate PrunesAt(ops: seq<Op>, m: real) {
    forall i :: 0 <= i < |ops| && ops[i].Prune? ==> ops[i].maxIdle == m
  }

  lemma ProbeShape(ip: Ip, tier: Tier, m: real, n: nat)
    requires m >= 0.0
    ensures Ordered(0.0, Probe(ip, tier, m, n)) && PrunesAt(Probe(ip, tier, m, n), m)
    ensures Requests(Probe(ip, tier, m, n)) == Burst(ip, tier, 0.0, n) + Burst(ip, tier, m, n)
  {
    var second := Burst(ip, tier, m, n);
    BurstOrdered(ip, tier, m, n, []);
    BurstIsRequests(ip, tier, m, n);
    BurstIsRequests(ip, tier, 0.0, n);
    assert second + [] == second;
    var rest := [Prune(m, m)] + second;
    assert rest[1..] == second;
    BurstOrdered(ip, tier, 0.0, n, rest);
    var first := Burst(ip, tier, 0.0, n);
    assert forall i :: 0 <= i < |first| ==> first[i] in first;
    assert forall i :: 0 <= i < |second| ==> second[i] in second;
  }

  // A client gone from the table is served its whole burst; the same client remembered is not.
  lemma PruneShows(cfg: Config, ip: Ip, tier: Tier, m: real, n: nat)
    requires cfg.enabled && m >= 0.0 && (Rpm(cfg, tier) == 0 || m < 60.0)
    requires n as real == Capacity(Rpm(cfg, tier))
    ensures Answers(NO_CLIENTS, cfg, Probe(ip, tier, m, n)) != Answers(NO_CLIENTS, cfg, Requests(Probe(ip, tier, m, n)))
  {
    hide LimiterOk; hide Check; hide Flow;
    var (first, second) := (Burst(ip, tier, 0.0, n), Burst(ip, tier, m, n));
    ProbeShape(ip, tier, m, n);
    NobodyOk(cfg, 0.0);
    BurstAccepted(NO_CLIENTS, cfg, ip, tier, 0.0, n);
    var lim := AfterAll(NO_CLIENTS, cfg, first);
    var pruned := PruneStale(lim, m, m);
    assert ([Prune(m, m)] + second)[1..] == second;
    RunsJoin(NO_CLIENTS, cfg, first, [Prune(m, m)] + second);
    RunsJoin(NO_CLIENTS, cfg, first, second);
    StepOk(lim, cfg, 0.0, Prune(m, m));
    assert ip !in pruned.clients;
    BurstAccepted(pruned, cfg, ip, tier, m, n);
    OkLater(lim, cfg, 0.0, m);
    LevelGrows(lim, cfg, ip, tier, 0.0, m);
    FlowFacts(Rpm(cfg, tier), m);
    BurstAccepted(lim, cfg, ip, tier, m, n);
    assert Answers(lim, cfg, [Prune(m, m)] + second) == AllOk(n);
    assert Answers(lim, cfg, second) != AllOk(n);
    DifferentEnds(AllOk(n), AllOk(n), Answers(lim, cfg, second));
  }

  lemma DifferentEnds(a: seq<Answer>, b: seq<Answer>, c: seq<Answer>)
    ensures a + b == a + c <==> b == c
  {
    assert (a + b)[|a|..] == b && (a + c)[|a|..] == c;
  }

  ghost predicate Invisible(cfg: Config, m: real) {
    forall ops: seq<Op> :: Ordered(0.0, ops) && PrunesAt(ops, m) ==>
      Answers(NO_CLIENTS, cfg, ops) == Answers(NO_CLIENTS, cfg, Requests(ops))
  }

  // Pruning after m idle seconds changes no answer of any run exactly when every tier refills and
  // m is at least the minute a bucket takes to fill.
  lemma InvisibleIff(cfg: Config, m: real)
    requires cfg.enabled && m >= 0.0
    ensures Invisible(cfg, m) <==> Refills(cfg) && m >= 60.0
  {
    hide Answers; hide Requests;
    if Refills(cfg) && m >= 60.0 {
      forall ops | Ordered(0.0, ops) && PrunesAt(ops, m)
        ensures Answers(NO_CLIENTS, cfg, ops) == Answers(NO_CLIENTS, cfg, Requests(ops))
      {
        FreshLimiterPrunes(cfg, 0.0, ops);
      }
    } else {
      var tier := if cfg.banchoRpm == 0 then Bancho else if cfg.directRpm == 0 then Direct
                  else if cfg.sensitiveRpm == 0 then Sensitive else General;
      var n := if Rpm(cfg, tier) > 1 then Rpm(cfg, tier) else 1;
      ProbeShape([], tier, m, n);
      PruneShows(cfg, [], tier, m, n);
    }
  }
}
