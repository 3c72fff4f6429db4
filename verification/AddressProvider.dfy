/**
 Resolving controller URLs to addresses to dial. URLs are resolved one at a time;
 those answered by the DNS cache are kept for a second pass that bypasses it.
 */
module AddressProvider {
  type Host = string
  type Ip = string

  datatype Url = Url(host: Host, port: string)

  datatype Address = Address(ip: Ip, port: string, url: Url)

  /** An address as the resolver returns it. */
  datatype RawAddress = RawAddress(ip: Ip, zone: string)

  datatype Answer = Failed | Found(addrs: seq<RawAddress>)

  type DnsCache = map<Host, seq<Ip>>

  /** The outside world: which hosts are numeric, what the n-th lookup answers, and
      what the DNS cache holds after it was asked to add an entry. A cache may keep
      the entry, as a real one does, or drop it, as the default one does. */
  datatype Env = Env(
    numeric: Host -> bool,
    resolve: (Host, nat) -> Answer,
    add: (DnsCache, Host, seq<Ip>) -> DnsCache)

  /** A provider as a value. `direct`, `hits` and `offered` are histories: the URLs
      resolved without and with the cache, and all addresses they led to. */
  datatype Provider = Provider(
    pool: seq<Url>,
    cachedPool: seq<Url>,
    resolved: seq<Address>,
    cache: DnsCache,
    bypass: bool,
    lookups: nat,
    direct: seq<Url>,
    hits: seq<Url>,
    offered: seq<Address>)

  datatype Outcome = Next(address: Address) | LookupError | Eof

  function Lookup(cache: DnsCache, host: Host): seq<Ip> {
    if host in cache then cache[host] else []
  }

  function Addresses(url: Url, ips: seq<Ip>): seq<Address> {
    seq(|ips|, i requires 0 <= i < |ips| => Address(ips[i], url.port, url))
  }

  /** When the pool is exhausted the URLs answered by the cache get a second pass. */
  function Switched(p: Provider): Provider {
    if p.pool == [] && p.cachedPool != [] then p.(pool := p.cachedPool, cachedPool := [], bypass := true) else p
  }

  function Offer(p: Provider, addresses: seq<Address>): Provider {
    p.(resolved := p.resolved + addresses, offered := p.offered + addresses)
  }

  /** Resolves the first URL of the pool. */
  function Resolved(env: Env, p: Provider): Provider
    requires p.pool != []
  {
    var url := p.pool[0];
    var q := p.(pool := p.pool[1..]);
    var ips := if p.bypass then [] else Lookup(p.cache, url.host);
    if ips != [] then
      Offer(q.(cachedPool := p.cachedPool + [url], hits := p.hits + [url]), Addresses(url, ips))
    else if env.numeric(url.host) then
      Offer(q.(direct := p.direct + [url]), Addresses(url, [url.host]))
    else
      match env.resolve(url.host, p.lookups)
      case Failed => q.(direct := p.direct + [url], lookups := p.lookups + 1)
      case Found(found) =>
        var usable := Unzoned(found);
        Offer(q.(direct := p.direct + [url], lookups := p.lookups + 1, cache := env.add(p.cache, url.host, usable)),
              Addresses(url, usable))
  }

  /** Whether resolving the first URL of the pool ends in a lookup error. */
  predicate Fails(env: Env, p: Provider)
    requires p.pool != []
  {
    var host := p.pool[0].host;
    && (p.bypass || Lookup(p.cache, host) == [])
    && !env.numeric(host) && env.resolve(host, p.lookups) == Failed
  }

  /** The state after the resolving part of a call. */
  function Refilled(env: Env, p: Provider): Provider {
    if p.resolved != [] then p
    else if Switched(p).pool == [] then Switched(p)
    else Resolved(env, Switched(p))
  }

  predicate Errs(env: Env, p: Provider) {
    p.resolved == [] && Switched(p).pool != [] && Fails(env, Switched(p))
  }

  function OutcomeOf(env: Env, p: Provider): Outcome {
    if Errs(env, p) then LookupError
    else if Refilled(env, p).resolved == [] then Eof
    else Next(Refilled(env, p).resolved[0])
  }

  function After(env: Env, p: Provider): Provider {
    var q := Refilled(env, p);
    if Errs(env, p) || q.resolved == [] then q else q.(resolved := q.resolved[1..])
  }

  /** How many resolutions are still to come at most. */
  function ResolutionsLeft(p: Provider): nat {
    if p.bypass then |p.pool| + |p.cachedPool| else 2 * |p.pool| + |p.cachedPool|
  }

  /** The lookup of the original: addresses with a zone are ignored. */
  method LookupIPAddr(addrs: seq<RawAddress>) returns (ips: seq<Ip>)
    ensures ips == Unzoned(addrs)
  {
    ips := [];
    for i := 0 to |addrs|
      invariant ips == Unzoned(addrs[..i])
    {
      assert addrs[..i + 1][..i] == addrs[..i];
      if addrs[i].zone == "" {
        ips := ips + [addrs[i].ip];
      }
    }
    assert addrs[..|addrs|] == addrs;
  }

  function Unzoned(addrs: seq<RawAddress>): seq<Ip> {
    if addrs == [] then []
    else
      var last := addrs[|addrs| - 1];
      Unzoned(addrs[..|addrs| - 1]) + if last.zone == "" then [last.ip] else []
  }

  class Resolver {
    var addrPool: seq<Url>
    var cachedAddrPool: seq<Url>
    var resolvedAddrs: seq<Address>
    var dnsCache: DnsCache
    var bypass: bool
    var lookups: nat
    ghost var direct: seq<Url>
    ghost var hits: seq<Url>
    ghost var offered: seq<Address>

    ghost function View(): Provider
      reads this
    {
      Provider(addrPool, cachedAddrPool, resolvedAddrs, dnsCache, bypass, lookups, direct, hits, offered)
    }

    constructor (initial: seq<Url>, cache: DnsCache)
      ensures View() == Provider(initial, [], [], cache, false, 0, [], [], [])
    {
      addrPool, cachedAddrPool, resolvedAddrs, dnsCache, bypass, lookups := initial, [], [], cache, false, 0;
      direct, hits, offered := [], [], [];
    }

    method Append(url: Url, ips: seq<Ip>)
      modifies this`resolvedAddrs, this`offered
      ensures View() == Offer(old(View()), Addresses(url, ips))
    {
      offered := offered + Addresses(url, ips);
      for i := 0 to |ips|
        invariant resolvedAddrs == old(resolvedAddrs) + Addresses(url, ips[..i])
        invariant offered == old(offered) + Addresses(url, ips)
      {
        resolvedAddrs := resolvedAddrs + [Address(ips[i], url.port, url)];
        assert Addresses(url, ips[..i + 1]) == Addresses(url, ips[..i]) + [Address(ips[i], url.port, url)];
      }
      assert ips[..|ips|] == ips;
    }

    /** Resolves the first URL of the pool. */
    method ResolveOne(env: Env) returns (failed: bool)
      requires addrPool != []
      modifies this
      ensures View() == Resolved(env, old(View())) && failed == Fails(env, old(View()))
    {
      var url := addrPool[0];
      addrPool := addrPool[1..];
      var ips := if bypass then [] else Lookup(dnsCache, url.host);
      if |ips| > 0 {
        cachedAddrPool := cachedAddrPool + [url];
        hits := hits + [url];
      } else if env.numeric(url.host) {
        ips := [url.host];
        direct := direct + [url];
      } else {
        var answer := env.resolve(url.host, lookups);
        lookups := lookups + 1;
        direct := direct + [url];
        if answer.Failed? {
          return true;
        }
        ips := LookupIPAddr(answer.addrs);
        dnsCache := env.add(dnsCache, url.host, ips);
      }
      Append(url, ips);
      failed := false;
    }

    /** The next address to dial, an error, or the end of the addresses. */
    method Next(env: Env) returns (outcome: Outcome)
      modifies this
      ensures View() == After(env, old(View())) && outcome == OutcomeOf(env, old(View()))
    {
      if |resolvedAddrs| == 0 {
        if |addrPool| == 0 && |cachedAddrPool| > 0 {
          addrPool, cachedAddrPool, bypass := cachedAddrPool, [], true;
        }
        if |addrPool| != 0 {
          var failed := ResolveOne(env);
          if failed {
            return LookupError;
          }
        }
      }
      if |resolvedAddrs| == 0 {
        return Eof;
      }
      outcome := Outcome.Next(resolvedAddrs[0]);
      resolvedAddrs := resolvedAddrs[1..];
    }
  }

  // ---------------------------------------------------------------------
  // The order of resolutions

  /** The cache after the `n`-th lookup, which was for `host`. */
  function CacheAfter(env: Env, host: Host, cache: DnsCache, n: nat): DnsCache {
    var answer := env.resolve(host, n);
    if answer.Found? then env.add(cache, host, Unzoned(answer.addrs)) else cache
  }

  /** The URLs the first pass resolves without and with the cache, in order. */
  function FirstPass(env: Env, pool: seq<Url>, cache: DnsCache, n: nat): (seq<Url>, seq<Url>) {
    if pool == [] then ([], [])
    else
      var url, rest := pool[0], pool[1..];
      if Lookup(cache, url.host) != [] then
        var (direct, cached) := FirstPass(env, rest, cache, n);
        (direct, [url] + cached)
      else if env.numeric(url.host) then
        var (direct, cached) := FirstPass(env, rest, cache, n);
        ([url] + direct, cached)
      else
        var (direct, cached) := FirstPass(env, rest, CacheAfter(env, url.host, cache, n), n + 1);
        ([url] + direct, cached)
  }

  /** The URLs still to be resolved without the cache, in the order this happens. */
  function Remaining(env: Env, p: Provider): seq<Url> {
    if p.bypass then p.pool
    else
      var (direct, cached) := FirstPass(env, p.pool, p.cache, p.lookups);
      direct + (p.cachedPool + cached)
  }

  /** How many of the URLs need a lookup. */
  function Lookups(env: Env, urls: seq<Url>): nat {
    if urls == [] then 0
    else Lookups(env, urls[..|urls| - 1]) + if env.numeric(urls[|urls| - 1].host) then 0 else 1
  }

  ghost predicate Valid(env: Env, p: Provider) {
    (p.bypass ==> p.cachedPool == []) && p.lookups == Lookups(env, p.direct)
  }

  /** From `p` to `q` the next URL in order was resolved without the cache, or none was. */
  ghost predicate InOrder(env: Env, p: Provider, q: Provider) {
    || (q.direct == p.direct && Remaining(env, q) == Remaining(env, p))
    || (Remaining(env, p) != [] && q.direct == p.direct + [Remaining(env, p)[0]]
        && Remaining(env, q) == Remaining(env, p)[1..])
  }

  lemma ResolvedValid(env: Env, p: Provider)
    requires Valid(env, p) && p.pool != []
    ensures Valid(env, Resolved(env, p))
  {
    LookupsSnoc(env, p.direct, p.pool[0]);
  }

  lemma LookupsSnoc(env: Env, urls: seq<Url>, url: Url)
    ensures Lookups(env, urls + [url]) == Lookups(env, urls) + if env.numeric(url.host) then 0 else 1
  {
    assert (urls + [url])[..|urls|] == urls;
  }

  lemma CacheHitInOrder(env: Env, p: Provider)
    requires p.pool != [] && !p.bypass && Lookup(p.cache, p.pool[0].host) != []
    ensures InOrder(env, p, Resolved(env, p))
  {
    var q, url := Resolved(env, p), p.pool[0];
    var (d, c) := FirstPass(env, q.pool, q.cache, q.lookups);
    assert Remaining(env, p) == d + (p.cachedPool + ([url] + c));
    assert p.cachedPool + ([url] + c) == (p.cachedPool + [url]) + c;
  }

  lemma DirectInOrder(env: Env, p: Provider)
    requires p.pool != [] && !p.bypass && Lookup(p.cache, p.pool[0].host) == []
    ensures InOrder(env, p, Resolved(env, p))
  {
    var q, url := Resolved(env, p), p.pool[0];
    DirectFields(env, p);
    var (d, c) := FirstPass(env, q.pool, q.cache, q.lookups);
    DirectPass(env, p.pool, p.cache, p.lookups, d, c);
    assert [url] + d + (p.cachedPool + c) == [url] + (d + (p.cachedPool + c));
  }

  /** What a first-pass resolution without the cache does to the provider. */
  lemma DirectFields(env: Env, p: Provider)
    requires p.pool != [] && !p.bypass && Lookup(p.cache, p.pool[0].host) == []
    ensures var q, host := Resolved(env, p), p.pool[0].host;
            && q.pool == p.pool[1..] && q.cachedPool == p.cachedPool && !q.bypass
            && q.direct == p.direct + [p.pool[0]]
            && q.lookups == (if env.numeric(host) then p.lookups else p.lookups + 1)
            && q.cache == if env.numeric(host) then p.cache else CacheAfter(env, host, p.cache, p.lookups)
  {
  }

  lemma DirectPass(env: Env, pool: seq<Url>, cache: DnsCache, n: nat, d: seq<Url>, c: seq<Url>)
    requires pool != [] && Lookup(cache, pool[0].host) == []
    requires (d, c) == if env.numeric(pool[0].host) then FirstPass(env, pool[1..], cache, n)
                       else FirstPass(env, pool[1..], CacheAfter(env, pool[0].host, cache, n), n + 1)
    ensures FirstPass(env, pool, cache, n) == ([pool[0]] + d, c)
  {
  }

  lemma BypassInOrder(env: Env, p: Provider)
    requires p.pool != [] && p.bypass
    ensures InOrder(env, p, Resolved(env, p))
  {
  }

  lemma SwitchKeepsOrder(env: Env, p: Provider)
    requires Valid(env, p)
    ensures Valid(env, Switched(p)) && Switched(p).direct == p.direct
    ensures Remaining(env, Switched(p)) == Remaining(env, p)
  {
  }

  lemma ResolvedInOrder(env: Env, p: Provider)
    requires Valid(env, p) && p.pool != []
    ensures Valid(env, Resolved(env, p)) && InOrder(env, p, Resolved(env, p))
  {
    ResolvedValid(env, p);
    if p.bypass {
      BypassInOrder(env, p);
    } else if Lookup(p.cache, p.pool[0].host) != [] {
      CacheHitInOrder(env, p);
    } else {
      DirectInOrder(env, p);
    }
  }

  /** A call resolves at most the next URL in order, and leaves the rest of the order
      as it was. */
  lemma RefilledInOrder(env: Env, p: Provider)
    requires Valid(env, p)
    ensures Valid(env, Refilled(env, p)) && InOrder(env, p, Refilled(env, p))
  {
    SwitchKeepsOrder(env, p);
    if p.resolved == [] && Switched(p).pool != [] { ResolvedInOrder(env, Switched(p)); }
  }
}
