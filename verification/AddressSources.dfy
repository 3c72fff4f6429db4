/**
 Where the addresses to dial come from: every one is an address of its URL, with that
 URL's port, and a cache that keeps what it is given ends up with the latest answers.
 */
module AddressSources {
  import opened AddressProvider

  // ---------------------------------------------------------------------
  // Usable addresses

  /** The addresses without a zone, and only those, in order. */
  lemma {:induction false} UnzonedInOrder(a: seq<RawAddress>, b: seq<RawAddress>)
    ensures Unzoned(a + b) == Unzoned(a) + Unzoned(b)
    decreases |b|
  {
    if b == [] {
      assert a + b == a;
    } else {
      var n := |b| - 1;
      assert (a + b)[..|a| + n] == a + b[..n];
      UnzonedInOrder(a, b[..n]);
    }
  }

  lemma UnzonedOne(x: RawAddress)
    ensures Unzoned([x]) == if x.zone == "" then [x.ip] else []
  {
    assert [x][..0] == [];
  }

  // ---------------------------------------------------------------------
  // Provenance

  /** The resolver has found `ip` for `host`, or the cache had it from the start. */
  ghost predicate Known(env: Env, cache: DnsCache, host: Host, ip: Ip) {
    ip in Lookup(cache, host) || exists n: nat :: Answered(env, host, n, ip)
  }

  predicate Answered(env: Env, host: Host, n: nat, ip: Ip) {
    env.resolve(host, n).Found? && ip in Unzoned(env.resolve(host, n).addrs)
  }

  /** `a` is an address of one of the URLs given, with the port of that URL. */
  ghost predicate Sourced(env: Env, initial: seq<Url>, cache: DnsCache, a: Address) {
    && a.url in initial && a.port == a.url.port
    && ((env.numeric(a.url.host) && a.ip == a.url.host) || Known(env, cache, a.url.host, a.ip))
  }

  /** Adding an entry to the cache keeps it or not, and may evict others. */
  ghost predicate Honest(env: Env) {
    forall cache: DnsCache, host: Host, ips: seq<Ip>, other: Host ::
      Keeps(Lookup(env.add(cache, host, ips), other), Lookup(cache, other), if other == host then ips else [])
  }

  predicate Keeps(now: seq<Ip>, before: seq<Ip>, added: seq<Ip>) {
    now == before || now == added || now == []
  }

  ghost predicate SourcesOk(env: Env, initial: seq<Url>, cache: DnsCache, p: Provider) {
    && (forall u :: u in p.pool || u in p.cachedPool ==> u in initial)
    && (forall host, ip :: ip in Lookup(p.cache, host) ==> Known(env, cache, host, ip))
    && (forall a :: a in p.offered ==> Sourced(env, initial, cache, a))
  }

  lemma CacheKnown(env: Env, initial: seq<Url>, cache: DnsCache, p: Provider, host: Host, ip: Ip)
    requires Honest(env) && p.pool != [] && SourcesOk(env, initial, cache, p)
    requires ip in Lookup(Resolved(env, p).cache, host)
    ensures Known(env, cache, host, ip)
  {
    var h, n := p.pool[0].host, p.lookups;
    if ip !in Lookup(p.cache, host) {
      var ips := Unzoned(env.resolve(h, n).addrs);
      assert Keeps(Lookup(env.add(p.cache, h, ips), host), Lookup(p.cache, host), if host == h then ips else []);
      assert Answered(env, host, n, ip);
    }
  }

  /** The IPs that resolving the first URL of the pool yields. */
  function IpsOf(env: Env, p: Provider): seq<Ip>
    requires p.pool != []
  {
    var host := p.pool[0].host;
    if !p.bypass && Lookup(p.cache, host) != [] then Lookup(p.cache, host)
    else if env.numeric(host) then [host]
    else if env.resolve(host, p.lookups).Found? then Unzoned(env.resolve(host, p.lookups).addrs)
    else []
  }

  /** What a resolution offers: every IP found for the URL, in order, with its port. */
  lemma OffersIps(env: Env, p: Provider, i: nat)
    requires p.pool != [] && i < |IpsOf(env, p)|
    ensures var q := Resolved(env, p);
            && |q.offered| == |p.offered| + |IpsOf(env, p)| && p.offered <= q.offered
            && q.offered[|p.offered| + i] == Address(IpsOf(env, p)[i], p.pool[0].port, p.pool[0])
  {
  }

  lemma OfferedSourced(env: Env, initial: seq<Url>, cache: DnsCache, p: Provider, a: Address)
    requires p.pool != [] && SourcesOk(env, initial, cache, p) && a in Resolved(env, p).offered
    ensures Sourced(env, initial, cache, a)
  {
    var q := Resolved(env, p);
    if a !in p.offered {
      var k :| 0 <= k < |q.offered| && q.offered[k] == a;
      if IpsOf(env, p) != [] {
        OffersIps(env, p, 0);
        assert k >= |p.offered|;
        var i := k - |p.offered|;
        OffersIps(env, p, i);
        assert a.ip == IpsOf(env, p)[i] && a.ip in IpsOf(env, p);
        IpKnown(env, initial, cache, p, a.ip);
      }
    }
  }

  lemma IpKnown(env: Env, initial: seq<Url>, cache: DnsCache, p: Provider, ip: Ip)
    requires p.pool != [] && SourcesOk(env, initial, cache, p) && ip in IpsOf(env, p)
    ensures (env.numeric(p.pool[0].host) && ip == p.pool[0].host) || Known(env, cache, p.pool[0].host, ip)
  {
    var host := p.pool[0].host;
    if ip !in Lookup(p.cache, host) && !env.numeric(host) { assert Answered(env, host, p.lookups, ip); }
  }

  lemma SourcesResolved(env: Env, initial: seq<Url>, cache: DnsCache, p: Provider)
    requires Honest(env) && p.pool != [] && SourcesOk(env, initial, cache, p)
    ensures SourcesOk(env, initial, cache, Resolved(env, p))
  {
    var q := Resolved(env, p);
    PoolsShrink(env, p);
    forall host, ip | ip in Lookup(q.cache, host) ensures Known(env, cache, host, ip) {
      CacheKnown(env, initial, cache, p, host, ip);
    }
    forall a | a in q.offered ensures Sourced(env, initial, cache, a) {
      OfferedSourced(env, initial, cache, p, a);
    }
  }

  lemma PoolsShrink(env: Env, p: Provider)
    requires p.pool != []
    ensures var q := Resolved(env, p);
            forall u :: u in q.pool || u in q.cachedPool ==> u in p.pool || u in p.cachedPool
  {
  }

  /** One call keeps the addresses sourced. */
  lemma SourcesStep(env: Env, initial: seq<Url>, cache: DnsCache, p: Provider)
    requires Honest(env) && SourcesOk(env, initial, cache, p)
    ensures SourcesOk(env, initial, cache, After(env, p))
  {
    assert SourcesOk(env, initial, cache, Switched(p));
    if p.resolved == [] && Switched(p).pool != [] { SourcesResolved(env, initial, cache, Switched(p)); }
    assert After(env, p) == Refilled(env, p).(resolved := After(env, p).resolved);
  }

  // ---------------------------------------------------------------------
  // The cache

  /** The cache keeps what it is given, and everything else. */
  ghost predicate Retains(env: Env) {
    forall cache: DnsCache, host: Host, ips: seq<Ip> :: env.add(cache, host, ips) == cache[host := ips]
  }

  /** The latest answer for `host` among the lookups made for `urls`, or else what the
      cache had from the start. */
  function LatestAnswer(env: Env, urls: seq<Url>, cache: DnsCache, host: Host): seq<Ip> {
    if urls == [] then Lookup(cache, host)
    else
      var front, last := urls[..|urls| - 1], urls[|urls| - 1].host;
      var answer := env.resolve(last, Lookups(env, front));
      if last == host && !env.numeric(host) && answer.Found? then Unzoned(answer.addrs)
      else LatestAnswer(env, front, cache, host)
  }

  ghost predicate UpToDate(env: Env, cache: DnsCache, p: Provider) {
    Valid(env, p) && forall host :: Lookup(p.cache, host) == LatestAnswer(env, p.direct, cache, host)
  }

  lemma FreshResolved(env: Env, cache: DnsCache, p: Provider)
    requires Retains(env) && p.pool != [] && UpToDate(env, cache, p)
    ensures UpToDate(env, cache, Resolved(env, p))
  {
    ResolvedValid(env, p);
    var q := Resolved(env, p);
    CacheFields(env, p);
    forall host ensures Lookup(q.cache, host) == LatestAnswer(env, q.direct, cache, host) {
      assert Lookup(p.cache, host) == LatestAnswer(env, p.direct, cache, host);
      if q.direct != p.direct { LatestSnoc(env, p.direct, p.pool[0], cache, host); }
    }
  }

  /** What a resolution does to the cache. */
  lemma CacheFields(env: Env, p: Provider)
    requires p.pool != []
    ensures var q, host := Resolved(env, p), p.pool[0].host;
            if q.direct == p.direct || env.numeric(host) then
              q.cache == p.cache && (q.direct == p.direct || q.direct == p.direct + [p.pool[0]])
            else
              q.cache == CacheAfter(env, host, p.cache, p.lookups) && q.direct == p.direct + [p.pool[0]]
  {
  }

  lemma {:induction false} LatestSnoc(env: Env, urls: seq<Url>, u: Url, cache: DnsCache, host: Host)
    ensures var answer := env.resolve(u.host, Lookups(env, urls));
            LatestAnswer(env, urls + [u], cache, host)
            == if u.host == host && !env.numeric(host) && answer.Found? then Unzoned(answer.addrs)
               else LatestAnswer(env, urls, cache, host)
  {
    assert (urls + [u])[..|urls|] == urls;
  }

  /** One call keeps the cache fresh. */
  lemma FreshStep(env: Env, cache: DnsCache, p: Provider)
    requires Retains(env) && UpToDate(env, cache, p)
    ensures UpToDate(env, cache, After(env, p))
  {
    assert UpToDate(env, cache, Switched(p));
    if p.resolved == [] && Switched(p).pool != [] { FreshResolved(env, cache, Switched(p)); }
    assert After(env, p) == Refilled(env, p).(resolved := After(env, p).resolved);
  }
}
