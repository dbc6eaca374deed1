/** What the limiter promises over runs: the requests accepted in a window are bounded, and the wait
    announced with a refusal is enough. */
module Throughput {
  import opened Wrappers
  import opened BanchoTypes
  import opened TokenBuckets
  import opened BucketLevels
  import opened Pruning

  // ---------- throughput ----------

  predicate Mine(cfg: Config, op: Op, ip: Ip, tier: Tier) {
    op.Request? && op.ip == ip && op.tier == tier && !Exempt(cfg, op.private)
  }

  // How many of a client's requests on a tier are accepted.
  function Accepted(lim: Limiter, cfg: Config, ops: seq<Op>, ip: Ip, tier: Tier): nat
    decreases |ops|
  {
    if ops == [] then 0 else
    Accepted(After(lim, cfg, ops[0]), cfg, ops[1..], ip, tier)
    + if Mine(cfg, ops[0], ip, tier) && Check(lim, cfg, ip, ops[0].private, tier, ops[0].now).1.Ok? then 1 else 0
  }

  // Prunes that change no level of a tier with this rate.
  predicate Harmless(rpm: u32, op: Op) {
    op.Prune? ==> rpm >= 1 && op.maxIdle >= 60.0
  }

  predicate HarmlessPrunes(rpm: u32, ops: seq<Op>) {
    forall i :: 0 <= i < |ops| ==> Harmless(rpm, ops[i])
  }

  function End(now: real, ops: seq<Op>): real {
    if ops == [] then now else ops[|ops| - 1].now
  }

  // One operation costs a token for each request of ours it accepts, and adds none.
  lemma LevelPays(lim: Limiter, cfg: Config, op: Op, ip: Ip, tier: Tier)
    requires LimiterOk(lim, cfg, op.now) && Harmless(Rpm(cfg, tier), op)
    ensures var paid := if Mine(cfg, op, ip, tier) && Check(lim, cfg, ip, op.private, tier, op.now).1.Ok?
        then 1.0 else 0.0;
      LevelOf(After(lim, cfg, op), cfg, ip, tier, op.now) + paid <= LevelOf(lim, cfg, ip, tier, op.now)
  {
    hide LevelOf; hide LimiterOk; hide Rate; hide Wait; hide Capacity;
    match op
    case Prune(now, maxIdle) => PruneEffect(lim, cfg, now, maxIdle, ip, tier, now);
    case Request(ip', private, tier', now) =>
      if !Exempt(cfg, private) {
        CheckLevels(lim, cfg, op, ip, tier, now);
        CheckAnswer(lim, cfg, op);
      }
  }

  // What is accepted and what is left never exceed what was there and what flowed in.
  lemma {:induction false} AcceptedBound(lim: Limiter, cfg: Config, now: real, ops: seq<Op>, ip: Ip, tier: Tier)
    requires LimiterOk(lim, cfg, now) && Ordered(now, ops) && HarmlessPrunes(Rpm(cfg, tier), ops)
    ensures Accepted(lim, cfg, ops, ip, tier) as real + LevelOf(AfterAll(lim, cfg, ops), cfg, ip, tier, End(now, ops))
      <= LevelOf(lim, cfg, ip, tier, now) + Flow(End(now, ops) - now, Rpm(cfg, tier))
    decreases |ops|
  {
    hide LevelOf; hide LimiterOk; hide After; hide Check; hide Flow;
    if ops != [] {
      var (op, rest) := (ops[0], ops[1..]);
      StepOk(lim, cfg, now, op);
      AcceptedBound(After(lim, cfg, op), cfg, op.now, rest, ip, tier);
      OkLater(lim, cfg, now, op.now);
      LevelPays(lim, cfg, op, ip, tier);
      LevelGrows(lim, cfg, ip, tier, now, op.now);
      assert End(op.now, rest) == End(now, ops);
      FlowAdds(op.now - now, End(now, ops) - op.now, Rpm(cfg, tier));
      assert (op.now - now) + (End(now, ops) - op.now) == End(now, ops) - now;
    } else {
      FlowFacts(Rpm(cfg, tier), 0.0);
    }
  }

  // In any window of a run, however the requests of other clients and tiers fall, a client gets at most
  // the capacity and what flows in during the window, as long as prunes leave the tier alone.
  lemma ThroughputBound(cfg: Config, start: real, ops: seq<Op>, i: nat, j: nat, ip: Ip, tier: Tier)
    requires Ordered(start, ops) && HarmlessPrunes(Rpm(cfg, tier), ops) && i < j <= |ops|
    ensures Accepted(AfterAll(NO_CLIENTS, cfg, ops[..i]), cfg, ops[i..j], ip, tier) as real
      <= Capacity(Rpm(cfg, tier)) + Flow(ops[j - 1].now - ops[i].now, Rpm(cfg, tier))
  {
    hide LimiterOk; hide Flow; hide Capacity; hide LevelOf; hide Accepted; hide AfterAll;
    var now := ops[i].now;
    OrderedParts(start, ops, i);
    OrderedFront(now, ops[i..], j - i);
    assert ops[i..][..j - i] == ops[i..j];
    NobodyOk(cfg, start);
    RunOk(NO_CLIENTS, cfg, start, ops[..i]);
    var lim := AfterAll(NO_CLIENTS, cfg, ops[..i]);
    if i > 0 { OkLater(lim, cfg, ops[i - 1].now, now); } else { OkLater(lim, cfg, start, now); }
    AcceptedBound(lim, cfg, now, ops[i..j], ip, tier);
    LevelGrows(lim, cfg, ip, tier, now, now);
    OrderedFront(now, ops[i..], j - i);
    RunOk(lim, cfg, now, ops[i..j]);
    LevelGrows(AfterAll(lim, cfg, ops[i..j]), cfg, ip, tier, ops[j - 1].now, ops[j - 1].now);
  }

  // ---------- when the bound holds ----------

  // The bound on every window of every run that prunes after m idle seconds.
  ghost predicate BoundHolds(cfg: Config, tier: Tier, m: real) {
    forall ops: seq<Op>, i: nat, j: nat, ip: Ip :: Ordered(0.0, ops) && PrunesAt(ops, m) && i < j <= |ops| ==>
      InBound(cfg, tier, ops, i, j, ip)
  }

  predicate InBound(cfg: Config, tier: Tier, ops: seq<Op>, i: nat, j: nat, ip: Ip)
    requires i < j <= |ops|
  {
    Accepted(AfterAll(NO_CLIENTS, cfg, ops[..i]), cfg, ops[i..j], ip, tier) as real
      <= Capacity(Rpm(cfg, tier)) + Flow(ops[j - 1].now - ops[i].now, Rpm(cfg, tier))
  }

  lemma {:induction false} AcceptedJoins(lim: Limiter, cfg: Config, a: seq<Op>, b: seq<Op>, ip: Ip, tier: Tier)
    ensures Accepted(lim, cfg, a + b, ip, tier) ==
      Accepted(lim, cfg, a, ip, tier) + Accepted(AfterAll(lim, cfg, a), cfg, b, ip, tier)
    decreases |a|
  {
    hide After; hide Check;
    if a == [] {
      assert [] + b == b;
    } else {
      assert (a + b)[1..] == a[1..] + b;
      AcceptedJoins(After(lim, cfg, a[0]), cfg, a[1..], b, ip, tier);
    }
  }

  // A burst the level covers is accepted whole.
  lemma {:induction false} BurstCounts(lim: Limiter, cfg: Config, ip: Ip, tier: Tier, t: real, n: nat)
    requires LimiterOk(lim, cfg, t) && cfg.enabled && LevelOf(lim, cfg, ip, tier, t) >= n as real
    ensures Accepted(lim, cfg, Burst(ip, tier, t, n), ip, tier) == n
    decreases n
  {
    hide LevelOf; hide LimiterOk; hide Check; hide Wait; hide Flow;
    if n > 0 {
      var op := Request(ip, false, tier, t);
      assert Burst(ip, tier, t, n)[1..] == Burst(ip, tier, t, n - 1);
      StepOk(lim, cfg, t, op);
      CheckAnswer(lim, cfg, op);
      CheckLevels(lim, cfg, op, ip, tier, t);
      LevelGrows(lim, cfg, ip, tier, t, t);
      FlowFacts(Rpm(cfg, tier), 0.0);
      BurstCounts(After(lim, cfg, op), cfg, ip, tier, t, n - 1);
    }
  }

  // The run of Pruning.PruneShows: twice the capacity within m seconds.
  lemma ProbeBreaksBound(cfg: Config, ip: Ip, tier: Tier, m: real, n: nat)
    requires cfg.enabled && m >= 0.0 && (Rpm(cfg, tier) == 0 || m < 60.0) && n as real == Capacity(Rpm(cfg, tier))
    ensures var ops := Probe(ip, tier, m, n);
      |ops| > 0 && ops[0].now == 0.0 && ops[|ops| - 1].now == m && !InBound(cfg, tier, ops, 0, |ops|, ip)
  {
    hide LimiterOk; hide Check; hide Flow; hide LevelOf;
    var (first, second) := (Burst(ip, tier, 0.0, n), Burst(ip, tier, m, n));
    var (ops, prune) := (Probe(ip, tier, m, n), [Prune(m, m)]);
    BurstEnds(ip, tier, 0.0, n);
    BurstEnds(ip, tier, m, n);
    NobodyOk(cfg, 0.0);
    assert LevelOf(NO_CLIENTS, cfg, ip, tier, 0.0) == Capacity(Rpm(cfg, tier)) by { NobodyIsFull(cfg, ip, tier, 0.0); }
    BurstAccepted(NO_CLIENTS, cfg, ip, tier, 0.0, n);
    BurstCounts(NO_CLIENTS, cfg, ip, tier, 0.0, n);
    var lim := AfterAll(NO_CLIENTS, cfg, first);
    var pruned := PruneStale(lim, m, m);
    assert prune[1..] == [];
    assert AfterAll(lim, cfg, prune) == AfterAll(pruned, cfg, []) == pruned;
    AcceptedJoins(NO_CLIENTS, cfg, first, prune + second, ip, tier);
    AcceptedJoins(lim, cfg, prune, second, ip, tier);
    StepOk(lim, cfg, 0.0, Prune(m, m));
    GoneIsFull(lim, cfg, ip, tier, m);
    BurstCounts(pruned, cfg, ip, tier, m, n);
    FlowFacts(Rpm(cfg, tier), m);
    assert ops[..0] == [] && ops[0..|ops|] == ops;
  }

  lemma BurstEnds(ip: Ip, tier: Tier, t: real, n: nat)
    requires n > 0
    ensures var b := Burst(ip, tier, t, n); |b| == n && b[0].now == t && b[n - 1].now == t
  {
    if n > 1 { BurstEnds(ip, tier, t, n - 1); }
  }

  lemma NobodyIsFull(cfg: Config, ip: Ip, tier: Tier, t: real)
    ensures LevelOf(NO_CLIENTS, cfg, ip, tier, t) == Capacity(Rpm(cfg, tier))
  {
  }

  lemma GoneIsFull(lim: Limiter, cfg: Config, ip: Ip, tier: Tier, m: real)
    requires m >= 0.0 && ip in lim.clients && lim.clients[ip].lastSeen == 0.0
    ensures LevelOf(PruneStale(lim, m, m), cfg, ip, tier, m) == Capacity(Rpm(cfg, tier))
  {
  }

  // Over all runs that prune after m idle seconds, the requests of a client on a tier stay within the
  // bound exactly when the tier refills and m is at least the minute its bucket takes to fill.
  lemma BoundHoldsIff(cfg: Config, tier: Tier, m: real)
    requires cfg.enabled && m >= 0.0
    ensures BoundHolds(cfg, tier, m) <==> Rpm(cfg, tier) >= 1 && m >= 60.0
  {
    hide InBound;
    if Rpm(cfg, tier) >= 1 && m >= 60.0 {
      forall ops: seq<Op>, i: nat, j: nat, ip: Ip | Ordered(0.0, ops) && PrunesAt(ops, m) && i < j <= |ops|
        ensures InBound(cfg, tier, ops, i, j, ip)
      {
        ThroughputBound(cfg, 0.0, ops, i, j, ip, tier);
        BoundIs(cfg, tier, ops, i, j, ip);
      }
    } else {
      var n := if Rpm(cfg, tier) > 1 then Rpm(cfg, tier) else 1;
      ProbeShape([], tier, m, n);
      ProbeBreaksBound(cfg, [], tier, m, n);
    }
  }

  lemma BoundIs(cfg: Config, tier: Tier, ops: seq<Op>, i: nat, j: nat, ip: Ip)
    requires i < j <= |ops|
    requires Accepted(AfterAll(NO_CLIENTS, cfg, ops[..i]), cfg, ops[i..j], ip, tier) as real
      <= Capacity(Rpm(cfg, tier)) + Flow(ops[j - 1].now - ops[i].now, Rpm(cfg, tier))
    ensures InBound(cfg, tier, ops, i, j, ip)
  {
  }

  // ---------- the announced wait ----------

  lemma CeilBounds(x: real)
    ensures x <= Ceil(x) as real < x + 1.0
  {
  }

  lemma WaitIsEnough(level: real, rpm: u32)
    requires 0.0 <= level < 1.0
    ensures rpm >= 1 ==> level + Flow(Wait(level, rpm) as real, rpm) >= 1.0
    ensures rpm >= 1 && Wait(level, rpm) >= 2 ==> level + Flow(Wait(level, rpm) as real - 1.0, rpm) < 1.0
  {
    if rpm >= 1 {
      hide Flow;
      var x := (1.0 - level) / Rate(rpm);
      CeilBounds(x);
      FlowOfQuotient(level, rpm);
      var w := Wait(level, rpm) as real;
      FlowAdds(x, w, rpm);
      if Wait(level, rpm) >= 2 { StrictFlow(w - 1.0, x, rpm); }
    }
  }

  lemma FlowOfQuotient(level: real, rpm: u32)
    requires rpm >= 1
    ensures Rate(rpm) > 0.0 && Flow((1.0 - level) / Rate(rpm), rpm) == 1.0 - level
  {
  }

  lemma StrictFlow(a: real, b: real, rpm: u32)
    requires rpm >= 1 && a < b
    ensures Flow(a, rpm) < Flow(b, rpm)
  {
    assert Flow(b, rpm) - Flow(a, rpm) == (b - a) * Rate(rpm);
  }

  lemma LevelAfterWait(level: real, rpm: u32, d: real)
    requires 0.0 <= level < 1.0 && d >= 0.0
    ensures Wait(level, rpm) >= 1
    ensures d >= Wait(level, rpm) as real ==> (Spent(level, rpm, d) >= 1.0 <==> rpm >= 1)
    ensures d <= Wait(level, rpm) as real - 1.0 && Wait(level, rpm) >= 2 ==> Spent(level, rpm, d) < 1.0
  {
    hide Wait; hide Flow;
    WaitPositive(level, rpm);
    WaitIsEnough(level, rpm);
    var w := Wait(level, rpm) as real;
    FlowAdds(w, d, rpm);
    FlowAdds(d, w - 1.0, rpm);
    FlowFacts(rpm, d);
  }

  lemma WaitPositive(level: real, rpm: u32)
    ensures Wait(level, rpm) >= 1
  {
  }

  lemma {:induction false} EndIsLast(now: real, ops: seq<Op>)
    requires Ordered(now, ops)
    ensures now <= End(now, ops) && (ops != [] ==> ops[0].now <= End(now, ops))
    decreases |ops|
  {
    if ops != [] { EndIsLast(ops[0].now, ops[1..]); }
  }

  // ---------- after a refusal ----------

  // first is refused; between come operations other than this client's requests on this tier; then
  // the client tries again.
  ghost predicate Refused(lim: Limiter, cfg: Config, first: Op, between: seq<Op>, again: Op) {
    && first.Request? && !Exempt(cfg, first.private) && LimiterOk(lim, cfg, first.now)
    && Check(lim, cfg, first.ip, first.private, first.tier, first.now).1.Err?
    && Ordered(first.now, between) && End(first.now, between) <= again.now
    && (forall i :: 0 <= i < |between| ==> !Mine(cfg, between[i], first.ip, first.tier))
    && Mine(cfg, again, first.ip, first.tier)
  }

  // The seconds announced.
  function Announced(lim: Limiter, cfg: Config, first: Op): nat
    requires first.Request? && Check(lim, cfg, first.ip, first.private, first.tier, first.now).1.Err?
  {
    Check(lim, cfg, first.ip, first.private, first.tier, first.now).1.error
  }

  // Whether the second try is accepted.
  predicate Served(lim: Limiter, cfg: Config, first: Op, between: seq<Op>, again: Op)
    requires again.Request?
  {
    Check(AfterAll(After(lim, cfg, first), cfg, between), cfg, again.ip, again.private, again.tier, again.now).1.Ok?
  }

  // Operations that are not this client's requests on this tier never lower its level, prunes included.
  lemma {:induction false} OthersRaiseLevel(lim: Limiter, cfg: Config, now: real, ops: seq<Op>, ip: Ip, tier: Tier,
    t: real)
    requires LimiterOk(lim, cfg, now) && Ordered(now, ops) && End(now, ops) <= t
    requires forall i :: 0 <= i < |ops| ==> !Mine(cfg, ops[i], ip, tier)
    ensures LevelOf(AfterAll(lim, cfg, ops), cfg, ip, tier, t) >= LevelOf(lim, cfg, ip, tier, t)
    decreases |ops|
  {
    hide LevelOf; hide LimiterOk; hide After; hide Spent;
    if ops != [] {
      var (op, rest) := (ops[0], ops[1..]);
      StepOk(lim, cfg, now, op);
      OkLater(lim, cfg, now, op.now);
      EndIsLast(now, ops);
      assert End(op.now, rest) == End(now, ops);
      OthersRaiseLevel(After(lim, cfg, op), cfg, op.now, rest, ip, tier, t);
      OneOtherRaisesLevel(lim, cfg, op, ip, tier, t);
    }
  }

  lemma OneOtherRaisesLevel(lim: Limiter, cfg: Config, op: Op, ip: Ip, tier: Tier, t: real)
    requires LimiterOk(lim, cfg, op.now) && op.now <= t && !Mine(cfg, op, ip, tier)
    ensures LevelOf(After(lim, cfg, op), cfg, ip, tier, t) >= LevelOf(lim, cfg, ip, tier, t)
  {
    hide LevelOf; hide LimiterOk; hide Spent;
    match op
    case Prune(now, maxIdle) => PruneEffect(lim, cfg, now, maxIdle, ip, tier, t);
    case Request(_, private, _, _) =>
      if !Exempt(cfg, private) { CheckLevels(lim, cfg, op, ip, tier, t); }
  }

  // They leave it alone, and the client in the table, while no prune can find the client idle enough.
  lemma {:induction false} OthersKeepLevel(lim: Limiter, cfg: Config, seen: real, now: real, ops: seq<Op>, ip: Ip,
    tier: Tier, t: real)
    requires LimiterOk(lim, cfg, now) && Ordered(now, ops) && End(now, ops) <= t
    requires ip in lim.clients && seen <= lim.clients[ip].lastSeen
    requires forall i :: 0 <= i < |ops| ==>
      !Mine(cfg, ops[i], ip, tier) && (ops[i].Prune? ==> ops[i].maxIdle > t - seen)
    ensures LevelOf(AfterAll(lim, cfg, ops), cfg, ip, tier, t) == LevelOf(lim, cfg, ip, tier, t)
    decreases |ops|
  {
    hide LevelOf; hide LimiterOk; hide After; hide Spent;
    if ops != [] {
      var (op, rest) := (ops[0], ops[1..]);
      StepOk(lim, cfg, now, op);
      OkLater(lim, cfg, now, op.now);
      EndIsLast(now, ops);
      assert End(op.now, rest) == End(now, ops);
      OneOtherKeepsLevel(lim, cfg, seen, op, ip, tier, t);
      OthersKeepLevel(After(lim, cfg, op), cfg, seen, op.now, rest, ip, tier, t);
    }
  }

  lemma OneOtherKeepsLevel(lim: Limiter, cfg: Config, seen: real, op: Op, ip: Ip, tier: Tier, t: real)
    requires LimiterOk(lim, cfg, op.now) && op.now <= t && !Mine(cfg, op, ip, tier)
    requires ip in lim.clients && seen <= lim.clients[ip].lastSeen && (op.Prune? ==> op.maxIdle > t - seen)
    ensures LevelOf(After(lim, cfg, op), cfg, ip, tier, t) == LevelOf(lim, cfg, ip, tier, t)
    ensures ip in After(lim, cfg, op).clients && seen <= After(lim, cfg, op).clients[ip].lastSeen
  {
    hide LevelOf; hide Spent; hide BucketOk; hide Acquire; hide BucketOf; hide WithBucket; hide NewClient;
    hide RetryAfter;
    assert lim.clients[ip].lastSeen <= op.now;
    match op
    case Prune(now, maxIdle) => PruneEffect(lim, cfg, now, maxIdle, ip, tier, t);
    case Request(_, private, _, _) =>
      if !Exempt(cfg, private) { CheckLevels(lim, cfg, op, ip, tier, t); }
  }

  // What the second try finds, and the wait announced by the first.
  lemma TryAgain(lim: Limiter, cfg: Config, first: Op, between: seq<Op>, again: Op)
    requires Refused(lim, cfg, first, between, again)
    ensures var (ip, tier, rpm) := (first.ip, first.tier, Rpm(cfg, first.tier));
      var level := LevelOf(lim, cfg, ip, tier, first.now);
      && 0.0 <= level < 1.0 && first.now <= again.now && Announced(lim, cfg, first) == Wait(level, rpm)
      && LevelOf(After(lim, cfg, first), cfg, ip, tier, again.now) == Spent(level, rpm, again.now - first.now)
      && (Served(lim, cfg, first, between, again) <==>
            LevelOf(AfterAll(After(lim, cfg, first), cfg, between), cfg, ip, tier, again.now) >= 1.0)
  {
    hide LevelOf; hide LimiterOk; hide After; hide Check; hide Wait; hide Rate; hide Spent;
    var (ip, tier) := (first.ip, first.tier);
    CheckAnswer(lim, cfg, first);
    LevelGrows(lim, cfg, ip, tier, first.now, first.now);
    StepOk(lim, cfg, first.now, first);
    var lim1 := After(lim, cfg, first);
    RunOk(lim1, cfg, first.now, between);
    EndIsLast(first.now, between);
    CheckLevels(lim, cfg, first, ip, tier, again.now);
    OkLater(AfterAll(lim1, cfg, between), cfg, End(first.now, between), again.now);
    CheckAnswer(AfterAll(lim1, cfg, between), cfg, again);
  }

  // On a tier that refills, a request is accepted once the announced seconds have passed, whatever
  // happens elsewhere in between and however clients are pruned.
  lemma WaitServes(lim: Limiter, cfg: Config, first: Op, between: seq<Op>, again: Op)
    requires Refused(lim, cfg, first, between, again) && Rpm(cfg, first.tier) >= 1
    requires again.now - first.now >= Announced(lim, cfg, first) as real
    ensures Served(lim, cfg, first, between, again)
  {
    hide LevelOf; hide LimiterOk; hide After; hide Check; hide Wait; hide Rate; hide Spent; hide Served; hide Announced;
    TryAgain(lim, cfg, first, between, again);
    StepOk(lim, cfg, first.now, first);
    OthersRaiseLevel(After(lim, cfg, first), cfg, first.now, between, first.ip, first.tier, again.now);
    LevelAfterWait(LevelOf(lim, cfg, first.ip, first.tier, first.now), Rpm(cfg, first.tier), again.now - first.now);
  }

  // A second earlier it is refused, as long as no prune comes after so few idle seconds.
  lemma WaitIsNotTooLong(lim: Limiter, cfg: Config, first: Op, between: seq<Op>, again: Op)
    requires Refused(lim, cfg, first, between, again)
    requires Announced(lim, cfg, first) >= 2 && again.now - first.now <= Announced(lim, cfg, first) as real - 1.0
    requires forall i :: 0 <= i < |between| && between[i].Prune? ==>
      between[i].maxIdle > Announced(lim, cfg, first) as real - 1.0
    ensures !Served(lim, cfg, first, between, again)
  {
    hide LevelOf; hide LimiterOk; hide After; hide Check; hide Wait; hide Rate; hide Spent; hide Served;
    TryAgain(lim, cfg, first, between, again);
    StepOk(lim, cfg, first.now, first);
    StillSeen(lim, cfg, first);
    OthersKeepLevel(After(lim, cfg, first), cfg, first.now, first.now, between, first.ip, first.tier, again.now);
    LevelAfterWait(LevelOf(lim, cfg, first.ip, first.tier, first.now), Rpm(cfg, first.tier), again.now - first.now);
  }

  lemma StillSeen(lim: Limiter, cfg: Config, op: Op)
    requires op.Request? && !Exempt(cfg, op.private)
    ensures op.ip in After(lim, cfg, op).clients && After(lim, cfg, op).clients[op.ip].lastSeen == op.now
  {
    hide Check;
    SeenNow(lim, cfg, op.ip, op.private, op.tier, op.now);
  }

  // ---------- when the announced wait holds ----------

  ghost predicate Waited(lim: Limiter, cfg: Config, tier: Tier, first: Op, between: seq<Op>, again: Op) {
    && Refused(lim, cfg, first, between, again) && first.tier == tier
    && again.now - first.now >= Announced(lim, cfg, first) as real
  }

  ghost predicate WaitSuffices(cfg: Config, tier: Tier) {
    forall lim, first, between, again :: Waited(lim, cfg, tier, first, between, again) ==>
      Served(lim, cfg, first, between, again)
  }

  // A fresh client's bucket, emptied at time 0.
  function Emptied(cfg: Config, tier: Tier): Limiter {
    AfterAll(NO_CLIENTS, cfg, Burst([], tier, 0.0, if Rpm(cfg, tier) > 1 then Rpm(cfg, tier) else 1))
  }

  lemma EmptiedFacts(cfg: Config, tier: Tier)
    requires cfg.enabled
    ensures var lim := Emptied(cfg, tier);
      && LimiterOk(lim, cfg, 0.0) && LevelOf(lim, cfg, [], tier, 0.0) == 0.0
      && Check(lim, cfg, [], false, tier, 0.0).1 == Err(Wait(0.0, Rpm(cfg, tier)))
  {
    hide LimiterOk; hide LevelOf; hide Check; hide Wait;
    var n := if Rpm(cfg, tier) > 1 then Rpm(cfg, tier) else 1;
    NobodyOk(cfg, 0.0);
    NobodyIsFull(cfg, [], tier, 0.0);
    BurstAccepted(NO_CLIENTS, cfg, [], tier, 0.0, n);
    CheckAnswer(Emptied(cfg, tier), cfg, Request([], false, tier, 0.0));
  }

  lemma OneInOrder(start: real, op: Op)
    requires start <= op.now
    ensures Ordered(start, [op]) && End(start, [op]) == op.now
  {
    assert [op][1..] == [];
  }

  // A second try on the emptied bucket after d seconds, with nothing or one prune in between.
  lemma EmptiedRefuses(cfg: Config, tier: Tier, between: seq<Op>, d: real)
    requires cfg.enabled && d >= 0.0 &&
      (between == [] || (|between| == 1 && between[0].Prune? && 0.0 <= between[0].now <= d))
    ensures var (first, again) := (Request([], false, tier, 0.0), Request([], false, tier, d));
      && Refused(Emptied(cfg, tier), cfg, first, between, again)
      && Announced(Emptied(cfg, tier), cfg, first) == Wait(0.0, Rpm(cfg, tier))
  {
    hide LimiterOk; hide LevelOf; hide Check; hide Wait; hide Emptied;
    EmptiedFacts(cfg, tier);
    if between != [] {
      OneInOrder(0.0, between[0]);
      assert between == [between[0]];
    }
  }

  lemma NeverServed(cfg: Config, tier: Tier)
    requires cfg.enabled && Rpm(cfg, tier) == 0
    ensures !Served(Emptied(cfg, tier), cfg, Request([], false, tier, 0.0), [], Request([], false, tier, 60.0))
    ensures Wait(0.0, Rpm(cfg, tier)) == 60
  {
    hide LimiterOk; hide Check; hide Emptied; hide Refused; hide Announced; hide Served; hide LevelOf; hide After;
    var (lim, first, again) := (Emptied(cfg, tier), Request([], false, tier, 0.0), Request([], false, tier, 60.0));
    EmptiedFacts(cfg, tier);
    EmptiedRefuses(cfg, tier, [], 60.0);
    TryAgain(lim, cfg, first, [], again);
    FlowFacts(0, 60.0);
  }

  // The announced wait is enough over all runs, pruned in any way, exactly when the tier refills.
  lemma WaitSufficesIff(cfg: Config, tier: Tier)
    requires cfg.enabled
    ensures WaitSuffices(cfg, tier) <==> Rpm(cfg, tier) >= 1
  {
    hide Served; hide LimiterOk; hide Emptied; hide Check; hide Wait; hide After;
    if Rpm(cfg, tier) >= 1 {
      forall lim, first, between, again | Waited(lim, cfg, tier, first, between, again)
        ensures Served(lim, cfg, first, between, again)
      {
        WaitServes(lim, cfg, first, between, again);
      }
    } else {
      NeverServed(cfg, tier);
      EmptiedRefuses(cfg, tier, [], 60.0);
      assert Waited(Emptied(cfg, tier), cfg, tier, Request([], false, tier, 0.0), [], Request([], false, tier, 60.0));
    }
  }

  // A second less than the announced wait is refused, over all runs that prune after m idle seconds.
  ghost predicate WaitIsLeast(cfg: Config, tier: Tier, m: real) {
    forall lim, first, between, again :: TooSoon(lim, cfg, tier, m, first, between, again) ==>
      !Served(lim, cfg, first, between, again)
  }

  ghost predicate TooSoon(lim: Limiter, cfg: Config, tier: Tier, m: real, first: Op, between: seq<Op>, again: Op) {
    && Refused(lim, cfg, first, between, again) && first.tier == tier && PrunesAt(between, m)
    && Announced(lim, cfg, first) >= 2 && again.now - first.now <= Announced(lim, cfg, first) as real - 1.0
  }

  // An empty bucket waits longest.
  lemma LongestWait(level: real, rpm: u32)
    requires 0.0 <= level < 1.0
    ensures Wait(level, rpm) <= Wait(0.0, rpm)
  {
    if rpm >= 1 {
      var (x, y) := ((1.0 - level) / Rate(rpm), 1.0 / Rate(rpm));
      Quotients(level, Rate(rpm));
      CeilGrows(x, y);
      assert (1.0 - 0.0) / Rate(rpm) == y;
    }
  }

  lemma Quotients(level: real, rate: real)
    requires level >= 0.0 && rate > 0.0
    ensures (1.0 - level) / rate <= 1.0 / rate
  {
    assert 1.0 / rate - (1.0 - level) / rate == level / rate;
  }

  lemma CeilGrows(x: real, y: real)
    requires x <= y
    ensures Ceil(x) <= Ceil(y)
  {
  }

  // The refused client pruned after m seconds is served at once, however long it was told to wait.
  lemma PrunedIsServed(cfg: Config, tier: Tier, m: real)
    requires cfg.enabled && m >= 0.0
    ensures Served(Emptied(cfg, tier), cfg, Request([], false, tier, 0.0), [Prune(m, m)], Request([], false, tier, m))
  {
    hide LimiterOk; hide Check; hide Emptied; hide Refused; hide Announced; hide Served; hide LevelOf;
    hide After; hide Wait;
    var (lim, first, again) := (Emptied(cfg, tier), Request([], false, tier, 0.0), Request([], false, tier, m));
    EmptiedRefuses(cfg, tier, [Prune(m, m)], m);
    TryAgain(lim, cfg, first, [Prune(m, m)], again);
    StillSeen(lim, cfg, first);
    GoneIsFull(After(lim, cfg, first), cfg, [], tier, m);
    OnePrune(After(lim, cfg, first), cfg, m);
  }

  lemma OnePrune(lim: Limiter, cfg: Config, m: real)
    ensures AfterAll(lim, cfg, [Prune(m, m)]) == PruneStale(lim, m, m)
  {
    assert [Prune(m, m)][1..] == [];
  }

  // The announced wait is the least, over all runs pruning after m idle seconds, exactly when no client
  // is pruned within a second of the longest wait of the tier (or that wait is the least one there is).
  lemma WaitIsLeastIff(cfg: Config, tier: Tier, m: real)
    requires cfg.enabled && m >= 0.0
    ensures WaitIsLeast(cfg, tier, m) <==>
      Wait(0.0, Rpm(cfg, tier)) < 2 || m > Wait(0.0, Rpm(cfg, tier)) as real - 1.0
  {
    hide Served; hide LimiterOk; hide Emptied; hide Check; hide Wait; hide After;
    var longest := Wait(0.0, Rpm(cfg, tier));
    if longest < 2 || m > longest as real - 1.0 {
      forall lim, first, between, again | TooSoon(lim, cfg, tier, m, first, between, again)
        ensures !Served(lim, cfg, first, between, again)
      {
        TryAgain(lim, cfg, first, between, again);
        LongestWait(LevelOf(lim, cfg, first.ip, tier, first.now), Rpm(cfg, tier));
        WaitIsNotTooLong(lim, cfg, first, between, again);
      }
    } else {
      EmptiedRefuses(cfg, tier, [Prune(m, m)], m);
      PrunedIsServed(cfg, tier, m);
      assert TooSoon(Emptied(cfg, tier), cfg, tier, m, Request([], false, tier, 0.0), [Prune(m, m)],
        Request([], false, tier, m));
    }
  }
}
