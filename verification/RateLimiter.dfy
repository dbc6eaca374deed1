/** The limiter of src/utils/ratelimit.rs with its buckets updated in place. Each method is proved to
    do what the corresponding function of TokenBuckets says. */
module RateLimiter {
  import opened Wrappers
  import opened TokenBuckets

  class TokenBucket {
    // Whose bucket this is; no two buckets in use are the same.
    ghost const owner: Ip
    ghost const tier: Tier
    var tokens: real
    var maxTokens: real
    var fillRate: real
    var lastUpdate: real

    ghost function Value(): Bucket
      reads this
    {
      Bucket(tokens, maxTokens, fillRate, lastUpdate)
    }

    constructor (capacity: real, rate: real, now: real, ghost owner: Ip, ghost tier: Tier)
      ensures Value() == Bucket(capacity, capacity, rate, now) && this.owner == owner && this.tier == tier
    {
      this.owner, this.tier := owner, tier;
      tokens, maxTokens, fillRate, lastUpdate := capacity, capacity, rate, now;
    }

    method TryAcquire(now: real) returns (ok: bool)
      modifies this
      ensures (Value(), ok) == Acquire(old(Value()), now)
    {
      var elapsed := Elapsed(now, lastUpdate);
      tokens := Min(tokens + elapsed * fillRate, maxTokens);
      lastUpdate := now;
      ok := tokens >= 1.0;
      if ok { tokens := tokens - 1.0; }
    }

    method RetryAfterSeconds() returns (n: nat)
      ensures n == RetryAfter(Value())
    {
      if fillRate <= 0.0 { return 60; }
      var needed := 1.0 - tokens;
      if needed <= 0.0 { return 0; }
      assert needed / fillRate > 0.0;
      return Ceil(needed / fillRate);
    }
  }

  class ClientBuckets {
    const general: TokenBucket
    const bancho: TokenBucket
    const direct: TokenBucket
    const sensitive: TokenBucket
    var lastSeen: real

    ghost const owner: Ip

    // The four buckets are the owner's, one for each tier.
    ghost predicate Valid() {
      && general.owner == bancho.owner == direct.owner == sensitive.owner == owner
      && general.tier == General && bancho.tier == Bancho && direct.tier == Direct && sensitive.tier == Sensitive
    }

    ghost function Objects(): set<object> {
      {this, general, bancho, direct, sensitive}
    }

    ghost function Value(): Client
      reads Objects()
    {
      Client(general.Value(), bancho.Value(), direct.Value(), sensitive.Value(), lastSeen)
    }

    constructor (cfg: Config, now: real, ghost owner: Ip)
      ensures Valid() && this.owner == owner && Value() == NewClient(cfg, now) && fresh(Objects())
    {
      this.owner := owner;
      general := new TokenBucket(Capacity(cfg.generalRpm), Rate(cfg.generalRpm), now, owner, General);
      bancho := new TokenBucket(Capacity(cfg.banchoRpm), Rate(cfg.banchoRpm), now, owner, Bancho);
      direct := new TokenBucket(Capacity(cfg.directRpm), Rate(cfg.directRpm), now, owner, Direct);
      sensitive := new TokenBucket(Capacity(cfg.sensitiveRpm), Rate(cfg.sensitiveRpm), now, owner, Sensitive);
      lastSeen := now;
    }

    ghost function Bucket(tier: Tier): TokenBucket {
      match tier
      case General => general
      case Bancho => bancho
      case Direct => direct
      case Sensitive => sensitive
    }

    method GetBucket(tier: Tier, now: real) returns (b: TokenBucket)
      modifies this`lastSeen
      ensures b == Bucket(tier) && lastSeen == now
    {
      lastSeen := now;
      b := match tier
        case General => general
        case Bancho => bancho
        case Direct => direct
        case Sensitive => sensitive;
    }

    // One request against one of the buckets.
    method Use(tier: Tier, now: real) returns (ok: bool, retry: nat)
      requires Valid()
      modifies Objects()
      ensures var (b, taken) := Acquire(BucketOf(old(Value()), tier), now);
        && ok == taken && (!ok ==> retry == RetryAfter(b))
        && Value() == WithBucket(old(Value()), tier, b).(lastSeen := now)
    {
      hide Acquire; hide RetryAfter;
      var b := GetBucket(tier, now);
      ok := b.TryAcquire(now);
      retry := 0;
      if !ok { retry := b.RetryAfterSeconds(); }
    }
  }

  // Every entry belongs to its key, so no two entries share an object.
  ghost predicate Separate(clients: map<Ip, ClientBuckets>) {
    forall ip :: ip in clients ==> clients[ip].Valid() && clients[ip].owner == ip
  }

  ghost function PartsOf(clients: map<Ip, ClientBuckets>): set<object> {
    set ip, o | ip in clients && o in clients[ip].Objects() :: o
  }

  lemma PartIn(clients: map<Ip, ClientBuckets>)
    ensures forall ip :: ip in clients ==> clients[ip].Objects() <= PartsOf(clients)
  {
  }

  lemma Added(clients: map<Ip, ClientBuckets>, ip: Ip, c: ClientBuckets)
    ensures PartsOf(clients[ip := c]) <= PartsOf(clients) + c.Objects()
  {
    forall o | o in PartsOf(clients[ip := c]) ensures o in PartsOf(clients) + c.Objects() {
      var k :| k in clients[ip := c] && o in clients[ip := c][k].Objects();
    }
  }

  lemma Apart(clients: map<Ip, ClientBuckets>, ip: Ip)
    requires Separate(clients) && ip in clients
    ensures forall k :: k in clients && k != ip ==> clients[k].Objects() !! clients[ip].Objects()
  {
  }

  lemma SameTable<T>(a: map<Ip, T>, b: map<Ip, T>)
    requires forall k :: k in a <==> k in b
    requires forall k :: k in a ==> a[k] == b[k]
    ensures a == b
  {
  }

  lemma OneValid(clients: map<Ip, ClientBuckets>, ip: Ip)
    requires Separate(clients) && ip in clients
    ensures clients[ip].Valid()
  {
  }

  lemma Fewer(kept: map<Ip, ClientBuckets>, clients: map<Ip, ClientBuckets>)
    requires Separate(clients) && forall ip :: ip in kept ==> ip in clients && kept[ip] == clients[ip]
    ensures Separate(kept) && PartsOf(kept) <= PartsOf(clients)
  {
  }

  class RateLimiter {
    var clients: map<Ip, ClientBuckets>
    var totalBlocked: nat

    ghost predicate Valid()
      reads this
    {
      Separate(clients)
    }

    ghost function Parts(): set<object>
      reads this
    {
      PartsOf(clients)
    }

    ghost function Table(): map<Ip, Client>
      reads this, Parts()
    {
      PartIn(clients);
      map ip | ip in clients :: clients[ip].Value()
    }

    ghost function Value(): Limiter
      reads this, Parts()
    {
      Limiter(Table(), totalBlocked)
    }

    constructor ()
      ensures Valid() && Value() == NO_CLIENTS
    {
      clients, totalBlocked := map[], 0;
    }

    method Check(ip: Ip, private: bool, tier: Tier, cfg: Config, now: real) returns (r: Answer)
      requires Valid()
      modifies this, Parts()
      ensures Valid() && fresh(Parts() - old(Parts()))
      ensures (Value(), r) == TokenBuckets.Check(old(Value()), cfg, ip, private, tier, now)
    {
      hide Acquire; hide RetryAfter; hide NewClient; hide BucketOf; hide WithBucket; hide Valid; hide Parts;
      if Exempt(cfg, private) { return Ok(()); }
      var ok, retry := Serve(ip, tier, cfg, now);
      if ok { return Ok(()); }
      CountBlocked();
      return Err(if retry > 1 then retry else 1);
    }

    method CountBlocked()
      requires Valid()
      modifies this`totalBlocked
      ensures Valid() && Parts() == old(Parts()) && Value() == old(Value()).(blocked := old(totalBlocked) + 1)
    {
      totalBlocked := totalBlocked + 1;
      assert forall k :: k in clients ==> clients[k].Value() == old(clients[k].Value());
    }

    method Serve(ip: Ip, tier: Tier, cfg: Config, now: real) returns (ok: bool, retry: nat)
      requires Valid()
      modifies this`clients, Parts()
      ensures Valid() && fresh(Parts() - old(Parts()))
      ensures var c := ClientOf(old(Value()), cfg, ip, now);
        var (b, taken) := Acquire(BucketOf(c, tier), now);
        && ok == taken && (!ok ==> retry == RetryAfter(b))
        && Value() == old(Value()).(clients := old(Table())[ip := WithBucket(c, tier, b).(lastSeen := now)])
    {
      hide Acquire; hide RetryAfter; hide NewClient; hide BucketOf; hide WithBucket; hide Separate; hide PartsOf;
      ghost var table := Table();
      AddClient(ip, cfg, now);
      ok, retry := UseClient(ip, tier, now);
      SameTable(Table(), table[ip := clients[ip].Value()]);
    }

    method UseClient(ip: Ip, tier: Tier, now: real) returns (ok: bool, retry: nat)
      requires Valid() && ip in clients
      modifies Parts()
      ensures clients == old(clients) && totalBlocked == old(totalBlocked)
      ensures forall k :: k in clients && k != ip ==> clients[k].Value() == old(clients[k].Value())
      ensures var c := old(clients[ip].Value());
        var (b, taken) := Acquire(BucketOf(c, tier), now);
        ok == taken && (!ok ==> retry == RetryAfter(b)) &&
          clients[ip].Value() == WithBucket(c, tier, b).(lastSeen := now)
    {
      hide Acquire; hide RetryAfter; hide BucketOf; hide WithBucket; hide PartsOf; hide Separate;
      PartIn(clients);
      Apart(clients, ip);
      OneValid(clients, ip);
      hide ClientBuckets.Valid;
      ok, retry := clients[ip].Use(tier, now);
    }

    // entry(ip).or_insert_with(...)
    method AddClient(ip: Ip, cfg: Config, now: real)
      requires Valid()
      modifies this`clients
      ensures Valid() && clients.Keys == old(clients.Keys) + {ip} && fresh(Parts() - old(Parts()))
      ensures forall k :: k in old(clients) ==>
        clients[k] == old(clients[k]) && clients[k].Value() == old(clients[k].Value())
      ensures ip !in old(clients) ==> clients[ip].Value() == NewClient(cfg, now)
    {
      hide NewClient; hide PartsOf;
      PartIn(clients);
      if ip !in clients {
        var c := new ClientBuckets(cfg, now, ip);
        Added(clients, ip, c);
        clients := clients[ip := c];
      }
    }

    method PruneStale(maxIdle: real, now: real) returns (removed: nat)
      requires Valid()
      modifies this`clients
      ensures Valid() && Parts() <= old(Parts())
      ensures Value() == TokenBuckets.PruneStale(old(Value()), now, maxIdle)
      ensures removed == |old(clients)| - |clients|
    {
      hide Separate; hide PartsOf; hide Elapsed; hide ClientBuckets.Objects;
      ghost var pruned := TokenBuckets.PruneStale(Value(), now, maxIdle);
      var kept := Retained(maxIdle, now);
      Fewer(kept, clients);
      FewerKeys(kept, clients);
      removed := |clients| - |kept|;
      assert forall k :: k in pruned.clients <==> k in kept;
      assert forall k :: k in kept ==> kept[k].Value() == pruned.clients[k];
      SetClients(kept);
      SameTable(Table(), pruned.clients);
    }

    method SetClients(kept: map<Ip, ClientBuckets>)
      modifies this`clients
      ensures clients == kept && forall k :: k in kept ==> kept[k].Value() == old(kept[k].Value())
    {
      clients := kept;
    }

    method Retained(maxIdle: real, now: real) returns (kept: map<Ip, ClientBuckets>)
      ensures forall ip :: ip in kept ==> ip in clients && kept[ip] == clients[ip]
      ensures forall ip :: ip in clients ==> (ip in kept <==> Elapsed(now, clients[ip].lastSeen) < maxIdle)
    {
      kept := map[];
      var rest := clients.Keys;
      while rest != {}
        invariant rest <= clients.Keys && kept.Keys !! rest
        invariant forall ip :: ip in kept ==> ip in clients && kept[ip] == clients[ip]
        invariant forall ip :: ip in clients && ip !in rest ==>
          (ip in kept <==> Elapsed(now, clients[ip].lastSeen) < maxIdle)
        decreases rest
      {
        var ip :| ip in rest;
        if Elapsed(now, clients[ip].lastSeen) < maxIdle { kept := kept[ip := clients[ip]]; }
        rest := rest - {ip};
      }
    }
  }

  lemma FewerKeys<T>(a: map<Ip, T>, b: map<Ip, T>)
    requires a.Keys <= b.Keys
    ensures |a| <= |b|
  {
    assert b.Keys == a.Keys + (b.Keys - a.Keys);
    assert |a| == |a.Keys| && |b| == |b.Keys|;
  }
}
