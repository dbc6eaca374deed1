/** The level of a bucket: the tokens a request at a given time would find. Everything the limiter
    promises is stated through it. */
module BucketLevels {
  import opened Wrappers
  import opened BanchoTypes
  import opened TokenBuckets

  // The level of a client's bucket; a client not in the table has full buckets.
  function LevelOf(lim: Limiter, cfg: Config, ip: Ip, tier: Tier, t: real): real {
    if ip in lim.clients then Level(BucketOf(lim.clients[ip], tier), t) else Capacity(Rpm(cfg, tier))
  }

  // ---------- levels over time ----------

  // The tokens that flow in during d seconds.
  function Flow(d: real, rpm: u32): real {
    d * Rate(rpm)
  }

  lemma FlowFacts(rpm: u32, d: real)
    ensures d >= 0.0 ==> Flow(d, rpm) >= 0.0
    ensures d >= 60.0 && rpm >= 1 ==> Flow(d, rpm) >= Capacity(rpm)
    ensures rpm == 0 || d == 0.0 ==> Flow(d, rpm) == 0.0
    ensures rpm >= 1 && 0.0 <= d < 60.0 ==> Flow(d, rpm) < Capacity(rpm)
  {
    var x := rpm as real;
    assert Flow(d, rpm) == d * x / 60.0;
    if d >= 60.0 && rpm >= 1 { assert d * x >= 60.0 * x; }
    if rpm >= 1 && d < 60.0 { assert d * x < 60.0 * x; }
  }

  lemma FlowAdds(a: real, b: real, rpm: u32)
    ensures Flow(a + b, rpm) == Flow(a, rpm) + Flow(b, rpm)
    ensures a <= b ==> Flow(a, rpm) <= Flow(b, rpm)
  {
    assert Flow(b, rpm) - Flow(a, rpm) == (b - a) * Rate(rpm);
  }

  // The level at a later time follows from the level now.
  lemma LevelLater(b: Bucket, rpm: u32, now: real, t: real)
    requires BucketOk(b, rpm, now) && now <= t
    ensures Level(b, t) == Min(Level(b, now) + Flow(t - now, rpm), Capacity(rpm))
  {
    FlowAdds(Elapsed(now, b.last), t - now, rpm);
    FlowFacts(rpm, t - now);
    FlowFacts(rpm, Elapsed(now, b.last));
  }

  // A bucket idle for a minute is full.
  lemma IdleIsFull(b: Bucket, rpm: u32, seen: real, now: real)
    requires BucketOk(b, rpm, seen) && rpm >= 1 && now - seen >= 60.0
    ensures Level(b, now) == Capacity(rpm)
  {
    FlowFacts(rpm, Elapsed(now, b.last));
  }

  // A request at some level, and the level d seconds after it.
  function Spent(level: real, rpm: u32, d: real): real {
    Min(level - (if level >= 1.0 then 1.0 else 0.0) + Flow(d, rpm), Capacity(rpm))
  }

  // The level of the bucket after a request.
  lemma LevelAfterAcquire(b: Bucket, rpm: u32, now: real, t: real)
    requires BucketOk(b, rpm, now) && now <= t
    ensures var (b', ok) := Acquire(b, now);
      ok == (Level(b, now) >= 1.0) && Level(b', t) == Spent(Level(b, now), rpm, t - now)
  {
    LevelBounds(b, rpm, now, now);
    FlowFacts(rpm, t - now);
  }

  lemma NewLevel(cfg: Config, tier: Tier, now: real, t: real)
    ensures Level(BucketOf(NewClient(cfg, now), tier), t) == Capacity(Rpm(cfg, tier))
  {
    FlowFacts(Rpm(cfg, tier), Elapsed(t, now));
  }

  lemma ClientLevel(lim: Limiter, cfg: Config, ip: Ip, tier: Tier, now: real, t: real)
    ensures Level(BucketOf(ClientOf(lim, cfg, ip, now), tier), t) == LevelOf(lim, cfg, ip, tier, t)
  {
    NewLevel(cfg, tier, now, t);
  }

  // What a request does to the levels: its own loses a token if accepted, all others stay.
  lemma CheckLevels(lim: Limiter, cfg: Config, op: Op, ip: Ip, tier: Tier, t: real)
    requires LimiterOk(lim, cfg, op.now) && op.Request? && !Exempt(cfg, op.private) && op.now <= t
    ensures LevelOf(After(lim, cfg, op), cfg, ip, tier, t) ==
      if ip == op.ip && tier == op.tier then Spent(LevelOf(lim, cfg, ip, tier, op.now), Rpm(cfg, tier), t - op.now)
      else LevelOf(lim, cfg, ip, tier, t)
  {
    hide Acquire; hide Level; hide BucketOk; hide BucketOf; hide WithBucket; hide NewClient; hide RetryAfter;
    hide Spent;
    if ip == op.ip {
      var c := ClientOf(lim, cfg, op.ip, op.now);
      NewClientOk(cfg, op.now);
      ClientLevel(lim, cfg, ip, tier, op.now, t);
      ClientLevel(lim, cfg, ip, tier, op.now, op.now);
      WithBucketOf(c, op.tier, Acquire(BucketOf(c, op.tier), op.now).0, tier);
      SameBuckets(WithBucket(c, op.tier, Acquire(BucketOf(c, op.tier), op.now).0), op.now, tier);
      if tier == op.tier {
        assert BucketOk(BucketOf(c, tier), Rpm(cfg, tier), c.lastSeen);
        LaterOk(BucketOf(c, tier), Rpm(cfg, tier), c.lastSeen, op.now);
        LevelAfterAcquire(BucketOf(c, tier), Rpm(cfg, tier), op.now, t);
      }
    }
  }

  lemma SameBuckets(c: Client, now: real, tier: Tier)
    ensures BucketOf(c.(lastSeen := now), tier) == BucketOf(c, tier)
  {
  }

  // The answer to a request depends only on its level.
  lemma CheckAnswer(lim: Limiter, cfg: Config, op: Op)
    requires LimiterOk(lim, cfg, op.now) && op.Request? && !Exempt(cfg, op.private)
    ensures var level := LevelOf(lim, cfg, op.ip, op.tier, op.now);
      Check(lim, cfg, op.ip, op.private, op.tier, op.now).1 == if level >= 1.0 then Ok(())
        else Err(Wait(level, Rpm(cfg, op.tier)))
  {
    hide BucketOk; hide BucketOf; hide WithBucket; hide NewClient; hide Level; hide Rate; hide Ceil;
    var c := ClientOf(lim, cfg, op.ip, op.now);
    NewClientOk(cfg, op.now);
    ClientLevel(lim, cfg, op.ip, op.tier, op.now, op.now);
    RateOf(c, cfg, op.tier, op.now);
  }

  lemma RateOf(c: Client, cfg: Config, tier: Tier, now: real)
    requires ClientOk(c, cfg, now)
    ensures BucketOf(c, tier).rate == Rate(Rpm(cfg, tier))
  {
    assert BucketOk(BucketOf(c, tier), Rpm(cfg, tier), c.lastSeen);
  }

  // The seconds announced at a level below one token.
  function Wait(level: real, rpm: u32): nat {
    if Rate(rpm) <= 0.0 then 60
    else
      var wait := Ceil((1.0 - level) / Rate(rpm));
      if wait > 1 then wait else 1
  }

  lemma LevelGrows(lim: Limiter, cfg: Config, ip: Ip, tier: Tier, now: real, later: real)
    requires LimiterOk(lim, cfg, now) && now <= later
    ensures 0.0 <= LevelOf(lim, cfg, ip, tier, later) <= LevelOf(lim, cfg, ip, tier, now) +
      Flow(later - now, Rpm(cfg, tier))
    ensures LevelOf(lim, cfg, ip, tier, later) <= Capacity(Rpm(cfg, tier))
  {
    var rpm := Rpm(cfg, tier);
    FlowFacts(rpm, later - now);
    if ip in lim.clients {
      var c := lim.clients[ip];
      var b := BucketOf(c, tier);
      assert BucketOk(b, rpm, c.lastSeen);
      LaterOk(b, rpm, c.lastSeen, now);
      LevelLater(b, rpm, now, later);
      LevelBounds(b, rpm, now, later);
    }
  }

  lemma OkLater(lim: Limiter, cfg: Config, now: real, later: real)
    requires LimiterOk(lim, cfg, now) && now <= later
    ensures LimiterOk(lim, cfg, later)
  {
  }

  lemma NobodyOk(cfg: Config, now: real)
    ensures LimiterOk(NO_CLIENTS, cfg, now)
  {
  }

  // ---------- runs, one after another ----------

  lemma {:induction false} RunsJoin(lim: Limiter, cfg: Config, a: seq<Op>, b: seq<Op>)
    ensures AfterAll(lim, cfg, a + b) == AfterAll(AfterAll(lim, cfg, a), cfg, b)
    ensures Answers(lim, cfg, a + b) == Answers(lim, cfg, a) + Answers(AfterAll(lim, cfg, a), cfg, b)
    decreases |a|
  {
    hide After; hide Check;
    if a == [] {
      assert [] + b == b;
    } else {
      assert (a + b)[1..] == a[1..] + b;
      RunsJoin(After(lim, cfg, a[0]), cfg, a[1..], b);
    }
  }

  lemma {:induction false} OrderedParts(start: real, ops: seq<Op>, i: nat)
    requires Ordered(start, ops) && i < |ops|
    ensures Ordered(start, ops[..i]) && Ordered(ops[i].now, ops[i..]) && start <= ops[i].now
    ensures i > 0 ==> ops[i - 1].now <= ops[i].now
    decreases |ops|
  {
    if i > 0 {
      OrderedParts(ops[0].now, ops[1..], i - 1);
      assert ops[..i][1..] == ops[1..][..i - 1] && ops[1..][i - 1..] == ops[i..];
    } else {
      assert ops[0..] == ops;
    }
  }

  lemma {:induction false} OrderedFront(start: real, ops: seq<Op>, n: nat)
    requires Ordered(start, ops) && n <= |ops|
    ensures Ordered(start, ops[..n])
    decreases n
  {
    if n > 0 {
      OrderedFront(ops[0].now, ops[1..], n - 1);
      assert ops[..n][1..] == ops[1..][..n - 1];
    }
  }

  // ---------- who is limited, and how far ----------

  // Requests like this are always accepted and leave no trace.
  ghost predicate NeverLimited(cfg: Config, private: bool) {
    forall lim, ip, tier, now {:trigger Check(lim, cfg, ip, private, tier, now)} ::
      Check(lim, cfg, ip, private, tier, now) == (lim, Ok(()))
  }

  // That is so exactly when the limiter is off, or the address is private and private addresses are exempt.
  lemma NeverLimitedIff(cfg: Config, private: bool)
    ensures NeverLimited(cfg, private) <==> !cfg.enabled || (cfg.whitelistPrivate && private)
  {
    hide Acquire; hide WithBucket; hide BucketOf; hide NewClient; hide RetryAfter;
    if cfg.enabled && !(cfg.whitelistPrivate && private) {
      var (lim, _) := Check(NO_CLIENTS, cfg, [], private, General, 0.0);
      assert [] in lim.clients;
      assert lim != NO_CLIENTS;
    }
  }

  // A client the limiter does not know can send a minute's worth on each tier at once, and one at least.
  lemma FreshLevels(cfg: Config, ip: Ip, now: real)
    ensures LevelOf(NO_CLIENTS, cfg, ip, General, now) == (if cfg.generalRpm > 1 then cfg.generalRpm as real else 1.0)
    ensures LevelOf(NO_CLIENTS, cfg, ip, Bancho, now) == (if cfg.banchoRpm > 1 then cfg.banchoRpm as real else 1.0)
    ensures LevelOf(NO_CLIENTS, cfg, ip, Direct, now) == (if cfg.directRpm > 1 then cfg.directRpm as real else 1.0)
    ensures LevelOf(NO_CLIENTS, cfg, ip, Sensitive, now) ==
      (if cfg.sensitiveRpm > 1 then cfg.sensitiveRpm as real else 1.0)
  {
  }
}
