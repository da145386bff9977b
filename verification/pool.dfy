/** The address the proxy's `/pool-api` endpoint forwards to
    (server.py:167-189): the wallet and pool come from the query string,
    and the pool's name picks one of two API layouts.

    The query is taken after `parse_qs`, which drops parameters with blank
    values, so `wallet=` counts as a missing wallet. */
module PoolApi {
  import opened Wrappers
  import opened Text

  /** The pool asked for when the query names none. */
  const DefaultPool := "public-pool.io:40557"

  /** The stratum port assumed for a NerdMiner pool given without one. */
  const StratumPort := ":3333"

  /** The first value of `wallet` and of `pool` in the parsed query. */
  datatype PoolQuery = PoolQuery(wallet: Option<string>, pool: Option<string>)

  /** The 400 answer for a query without a wallet. */
  datatype PoolError = MissingWallet

  /** `pool + ':3333'` unless the pool already names a port. */
  function WithDefaultPort(pool: string): (r: string)
    ensures ':' in r
    ensures ':' in pool ==> r == pool
    ensures ':' !in pool ==> r == pool + StratumPort
  {
    if ':' in pool then pool else pool + StratumPort
  }

  /** The pool is public-pool.io (tested on the name as written). */
  predicate IsPublicPool(pool: string) {
    Contains(pool, "public-pool.io")
  }

  /** The pool is a NerdMiner pool (tested case-insensitively). */
  predicate IsNerdMinerPool(pool: string) {
    Contains(Lower(pool), "nerdminer")
  }

  /** The pool API address for a wallet on a pool. */
  function PoolUrl(pool: string, wallet: string): (url: string)
    ensures IsPublicPool(pool) || !IsNerdMinerPool(pool) ==>
      url == "https://" + pool + "/api/client/" + wallet
    ensures !IsPublicPool(pool) && IsNerdMinerPool(pool) ==>
      url == "http://" + WithDefaultPort(pool) + "/api/stats/" + wallet
  {
    if IsPublicPool(pool) then "https://" + pool + "/api/client/" + wallet
    else if IsNerdMinerPool(pool) then "http://" + WithDefaultPort(pool) + "/api/stats/" + wallet
    else "https://" + pool + "/api/client/" + wallet
  }

  /** The `/pool-api` branch of `do_GET`, up to the request it makes. */
  function PoolRequest(q: PoolQuery): (r: Result<string, PoolError>)
    ensures r.Failure? <==> q.wallet.None?
    ensures q.wallet.Some? ==> r == Success(PoolUrl(q.pool.GetOr(DefaultPool), q.wallet.value))
  {
    match q.wallet
    case None => Failure(MissingWallet)
    case Some(w) => Success(PoolUrl(q.pool.GetOr(DefaultPool), w))
  }

  // ---------------------------------------------------------------------
  // Properties
  // ---------------------------------------------------------------------

  /** Appending the default port is done at most once. */
  lemma WithDefaultPortIdempotent(pool: string)
    ensures WithDefaultPort(WithDefaultPort(pool)) == WithDefaultPort(pool)
  {
  }

  /** The scheme is plain HTTP exactly for a NerdMiner pool that is not
      public-pool.io, and HTTPS otherwise. */
  lemma PlainHttpIffNerdMiner(pool: string, wallet: string)
    ensures IsPrefix("http://", PoolUrl(pool, wallet)) <==> !IsPublicPool(pool) && IsNerdMinerPool(pool)
    ensures IsPrefix("https://", PoolUrl(pool, wallet)) <==> !(!IsPublicPool(pool) && IsNerdMinerPool(pool))
  {
    var url := PoolUrl(pool, wallet);
    if !IsPublicPool(pool) && IsNerdMinerPool(pool) {
      assert url[4] == ':';
    } else {
      assert url[4] == 's';
    }
  }

  /** The address ends with the wallet after a part fixed by the pool, so
      different wallets on one pool never share an address. */
  lemma WalletDeterminesUrl(pool: string, w1: string, w2: string)
    requires PoolUrl(pool, w1) == PoolUrl(pool, w2)
    ensures w1 == w2
  {
    var base := if IsPublicPool(pool) || !IsNerdMinerPool(pool)
      then "https://" + pool + "/api/client/"
      else "http://" + WithDefaultPort(pool) + "/api/stats/";
    assert PoolUrl(pool, w1) == base + w1 && PoolUrl(pool, w2) == base + w2;
    assert w1 == (base + w1)[|base|..];
    assert w2 == (base + w2)[|base|..];
  }

  /** With no pool in the query the public pool's client API is used. */
  lemma DefaultPoolUrl(wallet: string)
    ensures PoolRequest(PoolQuery(Some(wallet), None))
      == Success("https://public-pool.io:40557/api/client/" + wallet)
  {
    assert IsPrefix("public-pool.io", DefaultPool);
    assert IsPublicPool(DefaultPool);
    assert "https://" + DefaultPool + "/api/client/" == "https://public-pool.io:40557/api/client/";
  }

  /** A NerdMiner pool named without a port is asked on the stratum port,
      over plain HTTP, for its stats API. */
  lemma NerdMinerUrl(pool: string, wallet: string)
    requires !IsPublicPool(pool) && IsNerdMinerPool(pool) && ':' !in pool
    ensures PoolUrl(pool, wallet) == "http://" + pool + ":3333" + "/api/stats/" + wallet
  {
    var host := WithDefaultPort(pool);
    assert host == pool + ":3333";
    assert "http://" + host == "http://" + pool + ":3333";
  }

  const SamplePool := "Pool.NerdMiners.org"

  /** `Pool.NerdMiners.org` is a NerdMiner pool: the name is matched in any
      case. */
  lemma SampleIsNerdMinerPool()
    ensures IsNerdMinerPool(SamplePool)
  {
    var lowered := Lower(SamplePool);
    assert lowered == "pool.nerdminers.org";
    assert lowered[5..14] == "nerdminer";
    ContainsAt(lowered, "nerdminer", 5);
  }

  /** `Pool.NerdMiners.org` does not contain `public-pool.io`: it has no
      hyphen. */
  lemma NoPublicPool(pool: string)
    requires pool == SamplePool
    ensures !IsPublicPool(pool)
  {
    var sub := "public-pool.io";
    assert sub[6] == '-';
    assert '-' !in pool;
    AbsentCharNotContained(pool, sub, '-');
  }
}
