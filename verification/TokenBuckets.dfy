/** The token-bucket limiter of src/utils/ratelimit.rs as values: one bucket for each client and
    tier, over real arithmetic and real time in seconds. */
module TokenBuckets {
  import opened Wrappers
  import opened BanchoTypes

  type Ip = bytes

  datatype Tier = General | Bancho | Direct | Sensitive

  datatype Config = Config(enabled: bool, whitelistPrivate: bool, generalRpm: u32, banchoRpm: u32, directRpm: u32,
    sensitiveRpm: u32)

  function Rpm(cfg: Config, tier: Tier): u32 {
    match tier
    case General => cfg.generalRpm
    case Bancho => cfg.banchoRpm
    case Direct => cfg.directRpm
    case Sensitive => cfg.sensitiveRpm
  }

  // ---------- one bucket ----------

  datatype Bucket = Bucket(tokens: real, capacity: real, rate: real, last: real)

  function Min(a: real, b: real): real {
    if a < b then a else b
  }

  // duration_since never goes negative.
  function Elapsed(now: real, since: real): real {
    if now > since then now - since else 0.0
  }

  function Capacity(rpm: u32): real {
    if rpm > 1 then rpm as real else 1.0
  }

  function Rate(rpm: u32): real {
    rpm as real / 60.0
  }

  function FullBucket(rpm: u32, now: real): Bucket {
    Bucket(Capacity(rpm), Capacity(rpm), Rate(rpm), now)
  }

  // The tokens a request at time t would find.
  function Level(b: Bucket, t: real): real {
    Min(b.tokens + Elapsed(t, b.last) * b.rate, b.capacity)
  }

  function Refilled(b: Bucket, now: real): Bucket {
    b.(tokens := Level(b, now), last := now)
  }

  function Acquire(b: Bucket, now: real): (Bucket, bool) {
    var r := Refilled(b, now);
    if r.tokens >= 1.0 then (r.(tokens := r.tokens - 1.0), true) else (r, false)
  }

  function Ceil(x: real): int {
    -((-x).Floor)
  }

  function RetryAfter(b: Bucket): nat {
    if b.rate <= 0.0 then 60 else
    var needed := 1.0 - b.tokens;
    if needed <= 0.0 then 0
    else
      assert needed / b.rate > 0.0;
      Ceil(needed / b.rate)
  }

  // ---------- clients ----------

  datatype Client = Client(general: Bucket, bancho: Bucket, direct: Bucket, sensitive: Bucket, lastSeen: real)

  function NewClient(cfg: Config, now: real): Client {
    Client(FullBucket(cfg.generalRpm, now), FullBucket(cfg.banchoRpm, now), FullBucket(cfg.directRpm, now),
           FullBucket(cfg.sensitiveRpm, now), now)
  }

  function BucketOf(c: Client, tier: Tier): Bucket {
    match tier
    case General => c.general
    case Bancho => c.bancho
    case Direct => c.direct
    case Sensitive => c.sensitive
  }

  function WithBucket(c: Client, tier: Tier, b: Bucket): Client {
    match tier
    case General => c.(general := b)
    case Bancho => c.(bancho := b)
    case Direct => c.(direct := b)
    case Sensitive => c.(sensitive := b)
  }

  // ---------- the limiter ----------

  datatype Limiter = Limiter(clients: map<Ip, Client>, blocked: nat)

  const NO_CLIENTS := Limiter(map[], 0)

  // Err carries the seconds to wait.
  type Answer = Result<(), nat>

  // Requests from private addresses are marked by the caller.
  datatype Op = Request(ip: Ip, private: bool, tier: Tier, now: real) | Prune(now: real, maxIdle: real)

  predicate Exempt(cfg: Config, private: bool) {
    !cfg.enabled || (cfg.whitelistPrivate && private)
  }

  function ClientOf(lim: Limiter, cfg: Config, ip: Ip, now: real): Client {
    if ip in lim.clients then lim.clients[ip] else NewClient(cfg, now)
  }

  function Check(lim: Limiter, cfg: Config, ip: Ip, private: bool, tier: Tier, now: real): (Limiter, Answer) {
    if Exempt(cfg, private) then (lim, Ok(())) else
    var c := ClientOf(lim, cfg, ip, now);
    var (b, ok) := Acquire(BucketOf(c, tier), now);
    var clients := lim.clients[ip := WithBucket(c, tier, b).(lastSeen := now)];
    if ok then (Limiter(clients, lim.blocked), Ok(()))
    else (Limiter(clients, lim.blocked + 1), Err(if RetryAfter(b) > 1 then RetryAfter(b) else 1))
  }

  function PruneStale(lim: Limiter, now: real, maxIdle: real): Limiter {
    lim.(clients := map ip | ip in lim.clients && Elapsed(now, lim.clients[ip].lastSeen) < maxIdle :: lim.clients[ip])
  }

  function After(lim: Limiter, cfg: Config, op: Op): Limiter {
    match op
    case Request(ip, private, tier, now) => Check(lim, cfg, ip, private, tier, now).0
    case Prune(now, maxIdle) => PruneStale(lim, now, maxIdle)
  }

  function AfterAll(lim: Limiter, cfg: Config, ops: seq<Op>): Limiter
    decreases |ops|
  {
    if ops == [] then lim else AfterAll(After(lim, cfg, ops[0]), cfg, ops[1..])
  }

  // The answers to the requests of a run, in order.
  function Answers(lim: Limiter, cfg: Config, ops: seq<Op>): seq<Answer>
    decreases |ops|
  {
    if ops == [] then [] else
    var rest := Answers(After(lim, cfg, ops[0]), cfg, ops[1..]);
    match ops[0]
    case Request(ip, private, tier, now) => [Check(lim, cfg, ip, private, tier, now).1] + rest
    case Prune(_, _) => rest
  }

  function Requests(ops: seq<Op>): seq<Op> {
    if ops == [] then []
    else if ops[0].Prune? then Requests(ops[1..])
    else [ops[0]] + Requests(ops[1..])
  }

  // Time never goes back.
  predicate Ordered(start: real, ops: seq<Op>)
    decreases |ops|
  {
    ops == [] || (start <= ops[0].now && Ordered(ops[0].now, ops[1..]))
  }

  // ---------- invariant ----------

  predicate BucketOk(b: Bucket, rpm: u32, now: real) {
    0.0 <= b.tokens <= b.capacity && b.capacity == Capacity(rpm) && b.rate == Rate(rpm) && b.last <= now
  }

  // No bucket of a client is younger than its last request.
  predicate ClientOk(c: Client, cfg: Config, now: real) {
    c.lastSeen <= now && forall tier :: BucketOk(BucketOf(c, tier), Rpm(cfg, tier), c.lastSeen)
  }

  ghost predicate LimiterOk(lim: Limiter, cfg: Config, now: real) {
    forall ip :: ip in lim.clients ==> ClientOk(lim.clients[ip], cfg, now)
  }

  lemma LevelBounds(b: Bucket, rpm: u32, now: real, t: real)
    requires BucketOk(b, rpm, now)
    ensures 0.0 <= Level(b, t) <= b.capacity
  {
    assert Elapsed(t, b.last) * b.rate >= 0.0;
  }

  lemma NewClientOk(cfg: Config, now: real)
    ensures ClientOk(NewClient(cfg, now), cfg, now)
  {
  }

  lemma AcquireOk(b: Bucket, rpm: u32, now: real)
    requires BucketOk(b, rpm, now)
    ensures BucketOk(Acquire(b, now).0, rpm, now)
  {
    LevelBounds(b, rpm, now, now);
  }

  lemma WithBucketOf(c: Client, tier: Tier, b: Bucket, other: Tier)
    ensures BucketOf(WithBucket(c, tier, b), other) == if other == tier then b else BucketOf(c, other)
    ensures WithBucket(c, tier, b).lastSeen == c.lastSeen
  {
  }

  lemma LaterOk(b: Bucket, rpm: u32, now: real, later: real)
    requires BucketOk(b, rpm, now) && now <= later
    ensures BucketOk(b, rpm, later)
  {
  }

  lemma ClientAfter(c: Client, cfg: Config, tier: Tier, now: real)
    requires ClientOk(c, cfg, now)
    ensures ClientOk(WithBucket(c, tier, Acquire(BucketOf(c, tier), now).0).(lastSeen := now), cfg, now)
  {
    hide BucketOk; hide WithBucket; hide Acquire;
    var b := Acquire(BucketOf(c, tier), now).0;
    var c' := WithBucket(c, tier, b).(lastSeen := now);
    forall other ensures BucketOk(BucketOf(c', other), Rpm(cfg, other), now) {
      WithBucketOf(c, tier, b, other);
      assert BucketOk(BucketOf(c, other), Rpm(cfg, other), c.lastSeen);
      LaterOk(BucketOf(c, other), Rpm(cfg, other), c.lastSeen, now);
      if other == tier { AcquireOk(BucketOf(c, tier), Rpm(cfg, tier), now); }
    }
  }

  lemma StepOk(lim: Limiter, cfg: Config, now: real, op: Op)
    requires LimiterOk(lim, cfg, now) && now <= op.now
    ensures LimiterOk(After(lim, cfg, op), cfg, op.now)
  {
    hide BucketOk; hide Acquire; hide WithBucket; hide RetryAfter;
    if op.Request? && !Exempt(cfg, op.private) {
      NewClientOk(cfg, op.now);
      ClientAfter(ClientOf(lim, cfg, op.ip, op.now), cfg, op.tier, op.now);
    }
  }

  // Tokens stay between nothing and the capacity over every run.
  lemma {:induction false} RunOk(lim: Limiter, cfg: Config, now: real, ops: seq<Op>)
    requires LimiterOk(lim, cfg, now) && Ordered(now, ops)
    ensures LimiterOk(AfterAll(lim, cfg, ops), cfg, if ops == [] then now else ops[|ops| - 1].now)
    decreases |ops|
  {
    hide LimiterOk; hide After;
    if ops != [] {
      StepOk(lim, cfg, now, ops[0]);
      RunOk(After(lim, cfg, ops[0]), cfg, ops[0].now, ops[1..]);
    }
  }
}
