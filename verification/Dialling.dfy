/**
 Dialling every address a provider yields: the loop ends, resolves every URL once
 without the cache unless a lookup comes back empty too early, and never dials the
 same address twice.
 */
module Dialling {
  import opened AddressProvider
  import Src = AddressSources

  function Fresh(initial: seq<Url>, cache: DnsCache): Provider {
    Provider(initial, [], [], cache, false, 0, [], [], [])
  }

  /** Every call that does not report the end brings the provider closer to it. */
  lemma NextDecreases(env: Env, p: Provider)
    requires OutcomeOf(env, p) != Eof && (p.bypass ==> p.cachedPool == [])
    ensures var q := After(env, p);
            || ResolutionsLeft(q) < ResolutionsLeft(p)
            || (ResolutionsLeft(q) == ResolutionsLeft(p) && |q.resolved| < |p.resolved|)
  {
  }

  /** A lookup that succeeds with exactly the usable addresses `ips`. */
  predicate Yields(answer: Answer, ips: seq<Ip>) {
    answer.Found? && Unzoned(answer.addrs) == ips
  }

  /** The lookup for the `i`-th URL in order succeeds without any usable address. */
  predicate EmptyAt(env: Env, order: seq<Url>, i: nat)
    requires i < |order|
  {
    !env.numeric(order[i].host) && Yields(env.resolve(order[i].host, Lookups(env, order[..i])), [])
  }

  lemma EmptyAtPrefix(env: Env, a: seq<Url>, b: seq<Url>, i: nat)
    requires a <= b && i < |a|
    ensures EmptyAt(env, a, i) <==> EmptyAt(env, b, i)
  {
    assert a[..i] == b[..i];
  }

  /** Resolving the first URL of the pool yields nothing, and no error either. */
  predicate ComesBackEmpty(env: Env, p: Provider) {
    && p.pool != [] && (p.bypass || Lookup(p.cache, p.pool[0].host) == [])
    && !env.numeric(p.pool[0].host) && Yields(env.resolve(p.pool[0].host, p.lookups), [])
  }

  lemma EmptyResolution(env: Env, p: Provider)
    requires p.resolved == [] && p.pool != []
    ensures Resolved(env, p).resolved == [] && !Fails(env, p) <==> ComesBackEmpty(env, p)
  {
  }

  lemma EmptyInHistory(env: Env, p: Provider)
    requires Valid(env, p) && p.pool != []
    ensures var q := Resolved(env, p);
            ComesBackEmpty(env, p) <==>
              q.direct != p.direct && |p.direct| < |q.direct| && EmptyAt(env, q.direct, |p.direct|)
  {
    assert (p.direct + [p.pool[0]])[..|p.direct|] == p.direct;
  }

  /** Handing out an address changes nothing about the resolutions to come. */
  lemma AfterLike(env: Env, p: Provider)
    ensures var q, r := After(env, p), Refilled(env, p);
            q == r.(resolved := q.resolved) && Remaining(env, q) == Remaining(env, r)
  {
  }

  /** A call reports the end exactly when nothing is left to resolve or the lookup it
      made came back empty. */
  lemma EofExactly(env: Env, p: Provider)
    requires Valid(env, p)
    ensures var q := After(env, p);
            OutcomeOf(env, p) == Eof <==>
              || (p.resolved == [] && q.direct == p.direct && Remaining(env, p) == [])
              || (q.direct != p.direct && |p.direct| < |q.direct| && EmptyAt(env, q.direct, |p.direct|))
  {
    var p1 := Switched(p);
    assert Remaining(env, p1) == Remaining(env, p);
    AfterLike(env, p);
    if p.resolved == [] && p1.pool != [] {
      EmptyResolution(env, p1);
      EmptyInHistory(env, p1);
      HitKeepsRemaining(env, p1);
    }
  }

  /** No host is numeric, every lookup finds one address with a zone, nothing is cached. */
  function ZonedOnly(): Env {
    Env(host => false, (host, n) => Found([RawAddress("fe80::1", "eth0")]), (cache, host, ips) => cache)
  }

  /** A lookup that yields only addresses with a zone makes the provider report the
      end while another URL is still in its pool. */
  lemma EmptyLookupEndsEarly()
    ensures var env := ZonedOnly();
            var p := Fresh([Url("a.example", "17070"), Url("b.example", "17070")], map[]);
            OutcomeOf(env, p) == Eof && After(env, p).pool == [Url("b.example", "17070")]
  {
    var env := ZonedOnly();
    var p := Fresh([Url("a.example", "17070"), Url("b.example", "17070")], map[]);
    assert Unzoned([RawAddress("fe80::1", "eth0")]) == [];
    assert p.pool[1..] == [Url("b.example", "17070")];
    assert ComesBackEmpty(env, p);
    EmptyResolution(env, p);
  }

  /** A URL in the pool is a URL still to be resolved without the cache. */
  lemma HitKeepsRemaining(env: Env, p: Provider)
    requires p.pool != []
    ensures Remaining(env, p) != []
  {
    if !p.bypass {
      FirstPassPermutes(env, p.pool, p.cache, p.lookups);
      var (d, c) := FirstPass(env, p.pool, p.cache, p.lookups);
      assert |multiset(d) + multiset(c)| == |d| + |c|;
      assert |multiset(p.pool)| == |p.pool|;
    }
  }

  lemma {:induction false} FirstPassPermutes(env: Env, pool: seq<Url>, cache: DnsCache, n: nat)
    ensures var (d, c) := FirstPass(env, pool, cache, n); multiset(d) + multiset(c) == multiset(pool)
    decreases |pool|
  {
    if pool != [] {
      var url := pool[0];
      assert pool == [url] + pool[1..];
      FirstPassPermutes(env, pool[1..], cache, n);
      if Lookup(cache, url.host) == [] && !env.numeric(url.host) {
        FirstPassPermutes(env, pool[1..], CacheAfter(env, url.host, cache, n), n + 1);
      }
    }
  }

  /** The order of resolutions is a permutation of the URLs given. */
  lemma OrderPermutes(env: Env, initial: seq<Url>, cache: DnsCache)
    ensures multiset(Remaining(env, Fresh(initial, cache))) == multiset(initial)
  {
    FirstPassPermutes(env, initial, cache, 0);
    var (d, c) := FirstPass(env, initial, cache, 0);
    assert Remaining(env, Fresh(initial, cache)) == d + c;
  }

  /** In the first pass the cached URLs are those waiting for the second; after it
      the cache answers no more, so every URL was answered by it at most once. */
  ghost predicate HitsOnce(p: Provider, initial: seq<Url>) {
    if p.bypass then multiset(p.hits) <= multiset(initial)
    else p.hits == p.cachedPool && multiset(p.pool) + multiset(p.hits) + multiset(p.direct) == multiset(initial)
  }

  lemma HitsResolved(env: Env, p: Provider, initial: seq<Url>)
    requires HitsOnce(p, initial) && p.pool != []
    ensures HitsOnce(Resolved(env, p), initial) && Resolved(env, p).bypass == p.bypass
    ensures p.bypass ==> Resolved(env, p).hits == p.hits
  {
    ResolvedMoves(env, p);
    HitsMoved(p, Resolved(env, p), initial);
  }

  /** `q` differs from `p` in that the first URL of the pool has been resolved. */
  ghost predicate Moved(p: Provider, q: Provider)
    requires p.pool != []
  {
    && q.bypass == p.bypass && q.pool == p.pool[1..]
    && if q.direct == p.direct then
         !p.bypass && q.hits == p.hits + [p.pool[0]] && q.cachedPool == p.cachedPool + [p.pool[0]]
       else
         q.direct == p.direct + [p.pool[0]] && q.hits == p.hits && q.cachedPool == p.cachedPool
  }

  lemma ResolvedMoves(env: Env, p: Provider)
    requires p.pool != []
    ensures Moved(p, Resolved(env, p))
  {
  }

  lemma HitsMoved(p: Provider, q: Provider, initial: seq<Url>)
    requires HitsOnce(p, initial) && p.pool != [] && Moved(p, q)
    ensures HitsOnce(q, initial) && (p.bypass ==> q.hits == p.hits)
  {
    if !p.bypass { MoveOne(p.pool, p.hits, p.direct, initial); }
  }

  lemma MoveOne(pool: seq<Url>, hits: seq<Url>, direct: seq<Url>, initial: seq<Url>)
    requires pool != [] && multiset(pool) + multiset(hits) + multiset(direct) == multiset(initial)
    ensures multiset(pool[1..]) + multiset(hits + [pool[0]]) + multiset(direct) == multiset(initial)
    ensures multiset(pool[1..]) + multiset(hits) + multiset(direct + [pool[0]]) == multiset(initial)
  {
    assert pool == [pool[0]] + pool[1..];
  }

  lemma HitsStep(env: Env, p: Provider, initial: seq<Url>)
    requires HitsOnce(p, initial)
    ensures HitsOnce(After(env, p), initial)
    ensures p.bypass ==> After(env, p).bypass && After(env, p).hits == p.hits
  {
    HitsSwitched(p, initial);
    if p.resolved == [] && Switched(p).pool != [] { HitsResolved(env, Switched(p), initial); }
    AfterLike(env, p);
  }

  lemma HitsSwitched(p: Provider, initial: seq<Url>)
    requires HitsOnce(p, initial)
    ensures HitsOnce(Switched(p), initial) && Switched(p).hits == p.hits && (p.bypass ==> Switched(p).bypass)
  {
  }

  // ---------------------------------------------------------------------
  // The dial loop

  ghost predicate NoneEmpty(env: Env, order: seq<Url>, k: int) {
    forall i :: 0 <= i < k && i < |order| ==> !EmptyAt(env, order, i)
  }

  /** Between calls: the URLs resolved and those remaining make up the order, and no
      lookup so far came back empty. */
  ghost predicate OnCourse(env: Env, p: Provider, order: seq<Url>) {
    Valid(env, p) && p.direct + Remaining(env, p) == order && NoneEmpty(env, order, |p.direct|)
  }

  lemma CallInOrder(env: Env, p: Provider, order: seq<Url>)
    requires Valid(env, p) && p.direct + Remaining(env, p) == order
    ensures var q := After(env, p);
            && Valid(env, q) && q.direct + Remaining(env, q) == order
            && (q.direct == p.direct || |q.direct| == |p.direct| + 1)
  {
    RefilledInOrder(env, p);
    AfterLike(env, p);
    if After(env, p).direct != p.direct { TakeHead(p.direct, Remaining(env, p)); }
  }

  lemma TakeHead(done: seq<Url>, rest: seq<Url>)
    requires rest != []
    ensures done + [rest[0]] + rest[1..] == done + rest
  {
  }

  lemma StaysOnCourse(env: Env, p: Provider, order: seq<Url>)
    requires OnCourse(env, p, order) && OutcomeOf(env, p) != Eof
    ensures OnCourse(env, After(env, p), order)
  {
    CallInOrder(env, p, order);
    EofExactly(env, p);
    var q := After(env, p);
    if |q.direct| == |p.direct| + 1 { EmptyAtPrefix(env, q.direct, order, |p.direct|); }
  }

  /** At the end every URL has been resolved without the cache, unless a lookup for
      one that was not the last came back empty. */
  lemma CompleteIffNoneEmpty(env: Env, p: Provider, order: seq<Url>)
    requires OnCourse(env, p, order) && OutcomeOf(env, p) == Eof
    ensures After(env, p).direct <= order
    ensures After(env, p).direct == order <==> NoneEmpty(env, order, |order| - 1)
  {
    CallInOrder(env, p, order);
    EofExactly(env, p);
    var q := After(env, p);
    if |q.direct| == |p.direct| + 1 { EmptyAtPrefix(env, q.direct, order, |p.direct|); }
  }

  ghost predicate Bounded(p: Provider, order: seq<Url>, initial: seq<Url>) {
    p.direct <= order && multiset(p.hits) <= multiset(initial)
  }

  /** Where the dial loop stands after a call: still on course, or at the end with
      every URL resolved unless a lookup came back empty too early. */
  ghost predicate LoopState(env: Env, p: Provider, order: seq<Url>, initial: seq<Url>, ended: bool) {
    && Bounded(p, order, initial)
    && if ended then (p.direct == order <==> NoneEmpty(env, order, |order| - 1))
       else OnCourse(env, p, order) && HitsOnce(p, initial)
  }

  predicate Closer(q: Provider, p: Provider) {
    || ResolutionsLeft(q) < ResolutionsLeft(p)
    || (ResolutionsLeft(q) == ResolutionsLeft(p) && |q.resolved| < |p.resolved|)
  }

  /** What one call of the provider means for the dial loop. */
  lemma OneCall(env: Env, p: Provider, order: seq<Url>, initial: seq<Url>)
    requires OnCourse(env, p, order) && HitsOnce(p, initial)
    ensures LoopState(env, After(env, p), order, initial, OutcomeOf(env, p) == Eof)
    ensures OutcomeOf(env, p) == Eof || Closer(After(env, p), p)
  {
    HitsStep(env, p, initial);
    if OutcomeOf(env, p) == Eof {
      CompleteIffNoneEmpty(env, p, order);
    } else {
      StaysOnCourse(env, p, order);
      NextDecreases(env, p);
    }
  }

  function Key(a: Address): (Ip, string) { (a.ip, a.port) }

  /** The addresses in order of their first occurrence. */
  function Distinct(addresses: seq<Address>): seq<(Ip, string)> {
    if addresses == [] then []
    else
      var before, last := Distinct(addresses[..|addresses| - 1]), Key(addresses[|addresses| - 1]);
      if last in before then before else before + [last]
  }

  lemma {:induction false} DistinctOnce(addresses: seq<Address>, key: (Ip, string))
    ensures forall i, j :: 0 <= i < j < |Distinct(addresses)| ==> Distinct(addresses)[i] != Distinct(addresses)[j]
    ensures key in Distinct(addresses) <==> exists a :: a in addresses && Key(a) == key
    decreases |addresses|
  {
    if addresses != [] {
      var n := |addresses| - 1;
      DistinctOnce(addresses[..n], key);
      assert addresses == addresses[..n] + [addresses[n]];
    }
  }

  /** `handed` are the addresses handed out so far; what was dialled is those, each once
      and in order, and the others offered are still to come. */
  ghost predicate Accounted(p: Provider, handed: seq<Address>, dialled: seq<(Ip, string)>, tried: set<(Ip, string)>) {
    p.offered == handed + p.resolved && dialled == Distinct(handed) && forall k :: k in tried <==> k in dialled
  }

  lemma ResolvedOffers(env: Env, p: Provider) returns (more: seq<Address>)
    requires p.pool != []
    ensures var q := Resolved(env, p); q.resolved == p.resolved + more && q.offered == p.offered + more
  {
    var url := p.pool[0];
    if !p.bypass && Lookup(p.cache, url.host) != [] {
      more := Addresses(url, Lookup(p.cache, url.host));
    } else if env.numeric(url.host) {
      more := Addresses(url, [url.host]);
    } else {
      var answer := env.resolve(url.host, p.lookups);
      more := if answer.Found? then Addresses(url, Unzoned(answer.addrs)) else [];
    }
  }

  /** What a call adds to the addresses to hand out. */
  lemma Offers(env: Env, p: Provider) returns (more: seq<Address>)
    ensures var q := Refilled(env, p); q.resolved == p.resolved + more && q.offered == p.offered + more
  {
    more := [];
    if p.resolved == [] && Switched(p).pool != [] { more := ResolvedOffers(env, Switched(p)); }
  }

  lemma AccountedCall(env: Env, p: Provider, handed: seq<Address>)
    requires p.offered == handed + p.resolved
    ensures var outcome, q := OutcomeOf(env, p), After(env, p);
            && q.offered == (if outcome.Next? then handed + [outcome.address] else handed) + q.resolved
            && (outcome == Eof ==> q.resolved == [])
  {
    var more := Offers(env, p);
    var r := Refilled(env, p);
    assert handed + p.resolved + more == handed + r.resolved;
    if OutcomeOf(env, p).Next? {
      assert r.resolved == [r.resolved[0]] + r.resolved[1..];
      assert handed + r.resolved == handed + [r.resolved[0]] + r.resolved[1..];
    }
  }

  lemma DistinctSnoc(handed: seq<Address>, a: Address)
    ensures Distinct(handed + [a])
            == if Key(a) in Distinct(handed) then Distinct(handed) else Distinct(handed) + [Key(a)]
  {
    assert (handed + [a])[..|handed|] == handed;
  }

  /** Everything that holds between two rounds of the dial loop. */
  ghost predicate Round(env: Env, p: Provider, order: seq<Url>, initial: seq<Url>, ended: bool,
                        handed: seq<Address>, dialled: seq<(Ip, string)>, tried: set<(Ip, string)>) {
    LoopState(env, p, order, initial, ended) && Accounted(p, handed, dialled, tried) && (ended ==> p.resolved == [])
  }

  function HandedAfter(handed: seq<Address>, outcome: Outcome): seq<Address> {
    if outcome.Next? then handed + [outcome.address] else handed
  }

  /** The lemma behind one round: the provider was called in state `p`. */
  lemma RoundStep(env: Env, p: Provider, order: seq<Url>, initial: seq<Url>,
                  handed: seq<Address>, dialled: seq<(Ip, string)>, tried: set<(Ip, string)>)
    requires Round(env, p, order, initial, false, handed, dialled, tried)
    ensures var outcome, q, now := OutcomeOf(env, p), After(env, p), HandedAfter(handed, OutcomeOf(env, p));
            if outcome.Next? && Key(outcome.address) !in tried then
              var key := Key(outcome.address);
              Round(env, q, order, initial, false, now, dialled + [key], tried + {key})
            else
              Round(env, q, order, initial, outcome == Eof, now, dialled, tried)
    ensures OutcomeOf(env, p) == Eof || Closer(After(env, p), p)
  {
    OneCall(env, p, order, initial);
    AccountedCall(env, p, handed);
    if OutcomeOf(env, p).Next? { DistinctSnoc(handed, OutcomeOf(env, p).address); }
  }

  /** One round of the dial loop: an address is dialled unless it was tried before. */
  method DialNext(provider: Resolver, env: Env, dialled0: seq<(Ip, string)>, tried0: set<(Ip, string)>,
                  ghost order: seq<Url>, ghost initial: seq<Url>, ghost handed0: seq<Address>)
    returns (dialled: seq<(Ip, string)>, tried: set<(Ip, string)>, ended: bool, ghost handed: seq<Address>)
    requires Round(env, provider.View(), order, initial, false, handed0, dialled0, tried0)
    modifies provider
    ensures Round(env, provider.View(), order, initial, ended, handed, dialled, tried)
    ensures provider.View() == After(env, old(provider.View()))
    ensures ended || Closer(provider.View(), old(provider.View()))
  {
    RoundStep(env, provider.View(), order, initial, handed0, dialled0, tried0);
    dialled, tried := dialled0, tried0;
    var outcome := provider.Next(env);
    handed := HandedAfter(handed0, outcome);
    ended := outcome == Eof;
    if outcome.Next? && Key(outcome.address) !in tried {
      tried := tried + {Key(outcome.address)};
      dialled := dialled + [Key(outcome.address)];
    }
  }

  lemma StartState(env: Env, initial: seq<Url>, cache: DnsCache)
    ensures LoopState(env, Fresh(initial, cache), Remaining(env, Fresh(initial, cache)), initial, false)
  {
  }

  /** What the addresses offered are, and what the cache holds. */
  ghost predicate Honoured(env: Env, initial: seq<Url>, cache: DnsCache, p: Provider) {
    && (Src.Honest(env) ==> Src.SourcesOk(env, initial, cache, p))
    && (Src.Retains(env) ==> Src.UpToDate(env, cache, p))
  }

  lemma HonouredStep(env: Env, initial: seq<Url>, cache: DnsCache, p: Provider)
    requires Honoured(env, initial, cache, p)
    ensures Honoured(env, initial, cache, After(env, p))
  {
    if Src.Honest(env) { Src.SourcesStep(env, initial, cache, p); }
    if Src.Retains(env) { Src.FreshStep(env, cache, p); }
  }

  lemma HonouredStart(env: Env, initial: seq<Url>, cache: DnsCache)
    ensures Honoured(env, initial, cache, Fresh(initial, cache))
  {
  }

  /** The dial loop. `stops` says after which dial the attempt is over; otherwise the
      loop runs until no more addresses are available. What is dialled is the addresses
      offered, each once and in the order offered, up to where the attempt was stopped. */
  method DialAll(env: Env, initial: seq<Url>, cache: DnsCache, stops: nat -> bool)
    returns (dialled: seq<(Ip, string)>, stopped: bool, ghost end: Provider, ghost handed: seq<Address>)
    ensures dialled == Distinct(handed) && handed <= end.offered && (!stopped ==> handed == end.offered)
    ensures forall i, j :: 0 <= i < j < |dialled| ==> dialled[i] != dialled[j]
    ensures var order := Remaining(env, Fresh(initial, cache));
            && multiset(order) == multiset(initial) && Bounded(end, order, initial)
            && (!stopped ==> (end.direct == order <==> NoneEmpty(env, order, |order| - 1)))
    ensures Src.Honest(env) ==> forall a :: a in end.offered ==> Src.Sourced(env, initial, cache, a)
    ensures Src.Retains(env) ==>
              forall host :: Lookup(end.cache, host) == Src.LatestAnswer(env, end.direct, cache, host)
  {
    dialled, stopped, handed := [], false, [];
    var tried: set<(Ip, string)> := {};
    var provider := new Resolver(initial, cache);
    ghost var order := Remaining(env, Fresh(initial, cache));
    OrderPermutes(env, initial, cache);
    StartState(env, initial, cache);
    HonouredStart(env, initial, cache);
    var ended := false;
    while !ended && !stopped
      invariant fresh(provider) && Round(env, provider.View(), order, initial, ended, handed, dialled, tried)
      invariant Honoured(env, initial, cache, provider.View())
      decreases !ended, ResolutionsLeft(provider.View()), |provider.resolvedAddrs|
    {
      var before := |dialled|;
      HonouredStep(env, initial, cache, provider.View());
      dialled, tried, ended, handed := DialNext(provider, env, dialled, tried, order, initial, handed);
      stopped := |dialled| > before && stops(|dialled|);
    }
    end := provider.View();
    DistinctOnce(handed, ("", ""));
    assert !stopped ==> handed + end.resolved == handed;
  }
}
