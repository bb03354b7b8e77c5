/**
 The certificate cache of the Game Center verifier. A fetch takes the lock twice, to look a certificate
 up and to store one, so fetches interleave as steps of these two kinds. Times are in milliseconds.
 */
module CertCache {
  import opened GameTypes

  const MAX_CACHE_SIZE: nat := 100
  const TTL: int := 24 * 60 * 60 * 1000

  datatype Cert = Cert(bytes: string)

  datatype Entry = Entry(cert: Cert, expiresAt: int)

  type Cache = map<string, Entry>

  // ----- The two locked sections on plain values -----

  predicate Expired(e: Entry, now: int) {
    now > e.expiresAt
  }

  function Hit(c: Cache, url: string, now: int): Option<Cert> {
    if url in c && now < c[url].expiresAt then Some(c[url].cert) else None
  }

  function Live(c: Cache, now: int): (live: Cache) {
    map url | url in c && !Expired(c[url], now) :: c[url]
  }

  /** A full cache loses everything that has expired and, if that frees nothing, any one entry. */
  function Trimmed(c: Cache, now: int, victim: string): Cache {
    if |c| < MAX_CACHE_SIZE then c
    else if |Live(c, now)| < MAX_CACHE_SIZE then Live(c, now)
    else Live(c, now) - {victim}
  }

  predicate MayFall(c: Cache, now: int, victim: string) {
    |c| >= MAX_CACHE_SIZE && |Live(c, now)| >= MAX_CACHE_SIZE ==> victim in Live(c, now)
  }

  // ----- The verifier's cache -----

  class Verifier {
    var certCache: Cache

    constructor ()
      ensures certCache == map[]
    {
      certCache := map[];
    }

    method Lookup(url: string, now: int) returns (cert: Option<Cert>)
      ensures cert == Hit(certCache, url, now)
    {
      if url in certCache && now < certCache[url].expiresAt {
        return Some(certCache[url].cert);
      }
      return None;
    }

    /** evictAt and storeAt are the two readings of the clock. */
    method Store(url: string, cert: Cert, evictAt: int, storeAt: int) returns (ghost victim: string)
      modifies this
      ensures MayFall(old(certCache), evictAt, victim)
      ensures certCache == Trimmed(old(certCache), evictAt, victim)[url := Entry(cert, storeAt + TTL)]
    {
      victim := "";
      if |certCache| >= MAX_CACHE_SIZE {
        victim := EvictExpired(evictAt);
      }
      certCache := certCache[url := Entry(cert, storeAt + TTL)];
    }

    method EvictExpired(now: int) returns (ghost victim: string)
      requires |certCache| >= MAX_CACHE_SIZE
      modifies this
      ensures MayFall(old(certCache), now, victim) && certCache == Trimmed(old(certCache), now, victim)
    {
      var left := certCache.Keys;
      while left != {}
        invariant left <= certCache.Keys <= old(certCache).Keys
        invariant forall url :: url in certCache ==> certCache[url] == old(certCache)[url]
        invariant forall url :: url in certCache && url !in left ==> !Expired(certCache[url], now)
        invariant forall url :: url in old(certCache) && url !in certCache ==> Expired(old(certCache)[url], now)
        decreases |left|
      {
        var url :| url in left;
        if Expired(certCache[url], now) {
          certCache := certCache - {url};
        }
        left := left - {url};
      }
      assert certCache == Live(old(certCache), now);
      victim := "";
      if |certCache| >= MAX_CACHE_SIZE {
        assert certCache.Keys != {};
        var url :| url in certCache.Keys;
        victim := url;
        certCache := certCache - {url};
      }
    }

    /** One fetch on its own; served is what the key server answers, if it is asked. */
    method FetchCertificate(url: string, now: int, served: Option<Cert>, evictAt: int, storeAt: int)
      returns (cert: Option<Cert>, ghost victim: string)
      modifies this
      ensures Hit(old(certCache), url, now).Some? ==>
                cert == Hit(old(certCache), url, now) && certCache == old(certCache)
      ensures Hit(old(certCache), url, now).None? ==> cert == served
      ensures Hit(old(certCache), url, now).None? && served.None? ==> certCache == old(certCache)
      ensures Hit(old(certCache), url, now).None? && served.Some? ==>
                && MayFall(old(certCache), evictAt, victim)
                && certCache == Trimmed(old(certCache), evictAt, victim)[url := Entry(served.value, storeAt + TTL)]
    {
      victim := "";
      cert := Lookup(url, now);
      if cert.Some? || served.None? {
        cert := if cert.Some? then cert else served;
        return;
      }
      victim := Store(url, served.value, evictAt, storeAt);
      cert := served;
    }
  }

  // ----- Interleaved fetches -----

  datatype Step =
    | Look(url: string, now: int)
    | Keep(url: string, cert: Cert, evictAt: int, storeAt: int, victim: string)

  function Next(c: Cache, step: Step): Cache {
    match step
    case Look(_, _) => c
    case Keep(url, cert, evictAt, storeAt, victim) => Trimmed(c, evictAt, victim)[url := Entry(cert, storeAt + TTL)]
  }

  predicate Enabled(c: Cache, step: Step) {
    step.Keep? ==> MayFall(c, step.evictAt, step.victim)
  }

  ghost predicate Runs(run: seq<Cache>, steps: seq<Step>) {
    && |run| == |steps| + 1
    && run[0] == map[]
    && (forall k {:trigger steps[k]} :: 0 <= k < |steps| ==> Goes(run[k], steps[k], run[k + 1]))
  }

  predicate Goes(c: Cache, step: Step, d: Cache) {
    Enabled(c, step) && d == Next(c, step)
  }

  lemma TrimmedBound(c: Cache, now: int, victim: string)
    requires |c| <= MAX_CACHE_SIZE && MayFall(c, now, victim)
    ensures |Trimmed(c, now, victim)| < MAX_CACHE_SIZE
    ensures forall url :: url in Trimmed(c, now, victim) ==> url in c && Trimmed(c, now, victim)[url] == c[url]
  {
    var live := Live(c, now);
    SubsetSize(live.Keys, c.Keys);
    if |c| >= MAX_CACHE_SIZE && |live| >= MAX_CACHE_SIZE {
      assert (live - {victim}).Keys == live.Keys - {victim};
      assert |live.Keys - {victim}| == |live.Keys| - 1;
    }
  }

  /** The cache never holds more than a hundred certificates. */
  lemma {:induction false} NeverOverfull(run: seq<Cache>, steps: seq<Step>, k: nat)
    requires Runs(run, steps) && k <= |steps|
    ensures |run[k]| <= MAX_CACHE_SIZE
    decreases k
  {
    if k > 0 {
      NeverOverfull(run, steps, k - 1);
      var c, step := run[k - 1], steps[k - 1];
      assert Goes(c, step, run[k]);
      if step.Keep? {
        TrimmedBound(c, step.evictAt, step.victim);
        var t := Trimmed(c, step.evictAt, step.victim);
        assert run[k].Keys == t.Keys + {step.url};
      }
    }
  }

  /** The latest step before k that stored a certificate for the URL, or k if there is none. */
  function LastKeep(steps: seq<Step>, k: nat, url: string): (j: nat)
    requires k <= |steps|
    ensures j <= k
    ensures j < k ==> steps[j].Keep? && steps[j].url == url
    ensures forall i :: (if j < k then j < i else 0 <= i) && i < k ==> !(steps[i].Keep? && steps[i].url == url)
    decreases k
  {
    if k == 0 then 0
    else if steps[k - 1].Keep? && steps[k - 1].url == url then k - 1
    else
      var j := LastKeep(steps, k - 1, url);
      if j == k - 1 then k else j
  }

  /** Every entry is what the latest store for its URL left there. */
  lemma {:induction false} EntriesAreLatest(run: seq<Cache>, steps: seq<Step>, k: nat, url: string)
    requires Runs(run, steps) && k <= |steps| && url in run[k]
    ensures var j := LastKeep(steps, k, url);
            j < k && run[k][url] == Entry(steps[j].cert, steps[j].storeAt + TTL)
    decreases k
  {
    if k > 0 {
      var c, step := run[k - 1], steps[k - 1];
      assert Goes(c, step, run[k]);
      if step.Keep? && step.url == url {
      } else {
        NeverOverfull(run, steps, k - 1);
        if step.Keep? {
          TrimmedBound(c, step.evictAt, step.victim);
        }
        EntriesAreLatest(run, steps, k - 1, url);
      }
    }
  }

  /**
   Over all interleavings, a URL that is still cached hits if and only if less than 24 hours have passed
   since a certificate was last stored for that very URL, and then gives that certificate.
   */
  lemma HitsAreFresh(run: seq<Cache>, steps: seq<Step>, k: nat, url: string, now: int)
    requires Runs(run, steps) && k <= |steps|
    ensures var j := LastKeep(steps, k, url);
            if url in run[k] && j < k && now < steps[j].storeAt + TTL then Hit(run[k], url, now) == Some(steps[j].cert)
            else Hit(run[k], url, now) == None
  {
    if url in run[k] {
      EntriesAreLatest(run, steps, k, url);
    }
  }

  /** A store drops another entry only from a full cache, and one that has not expired only if none has. */
  lemma StoreDropsLittle(c: Cache, url: string, cert: Cert, evictAt: int, storeAt: int, victim: string, other: string)
    requires |c| <= MAX_CACHE_SIZE && MayFall(c, evictAt, victim) && other in c && other != url
    requires other !in Next(c, Keep(url, cert, evictAt, storeAt, victim))
    ensures |c| == MAX_CACHE_SIZE
    ensures Expired(c[other], evictAt) || (other == victim && forall u :: u in c ==> !Expired(c[u], evictAt))
  {
    var live := Live(c, evictAt);
    if !Expired(c[other], evictAt) {
      SubsetSize(live.Keys, c.Keys);
      if u :| u in c && Expired(c[u], evictAt) {
        SubsetSize(live.Keys, c.Keys - {u});
      }
    }
  }

  /** 24 hours in milliseconds. */
  const DAY: int := 86400000

  /** When the certificate that a run has in the cache for a URL was stored. */
  function StoredAt(steps: seq<Step>, k: nat, url: string): int
    requires k <= |steps|
  {
    var j := LastKeep(steps, k, url);
    if j < k && steps[j].Keep? then steps[j].storeAt else 0
  }

  /** A URL has a certificate for less than a day from its latest store. */
  lemma HitRule(run: seq<Cache>, steps: seq<Step>, k: nat, url: string, now: int)
    requires Runs(run, steps) && k <= |steps| && url in run[k]
    ensures Hit(run[k], url, now) != None <==> now - StoredAt(steps, k, url) < DAY
  {
    EntriesAreLatest(run, steps, k, url);
  }

  /** An entry counts as expired when its latest store is more than a day back. */
  lemma ExpiryRule(run: seq<Cache>, steps: seq<Step>, k: nat, url: string, now: int)
    requires Runs(run, steps) && k <= |steps| && url in run[k]
    ensures Expired(run[k][url], now) <==> now - StoredAt(steps, k, url) > DAY
  {
    EntriesAreLatest(run, steps, k, url);
  }

  /**
   A store drops the entry of another URL if and only if the cache holds a hundred and either that entry was
   stored more than a day ago, or none was and it is the one that falls; there is one then.
   */
  lemma EvictionRule(run: seq<Cache>, steps: seq<Step>, k: nat, url: string)
    requires Runs(run, steps) && k < |steps| && steps[k].Keep? && url in run[k] && url != steps[k].url
    ensures var now := steps[k].evictAt;
            url !in run[k + 1] <==>
            && |run[k]| == 100
            && (|| now - StoredAt(steps, k, url) > DAY
                || (url == steps[k].victim && forall u :: u in run[k] ==> now - StoredAt(steps, k, u) <= DAY))
    ensures (forall u :: u in run[k] ==> steps[k].evictAt - StoredAt(steps, k, u) <= DAY) && |run[k]| == 100 ==>
              steps[k].victim in run[k]
  {
    var c, now := run[k], steps[k].evictAt;
    NeverOverfull(run, steps, k);
    assert Goes(c, steps[k], run[k + 1]);
    forall u | u in c
      ensures Expired(c[u], now) <==> now - StoredAt(steps, k, u) > DAY
    {
      ExpiryRule(run, steps, k, u, now);
    }
    hide Expired, StoredAt;
    LiveCount(c, now);
  }

  /** A full cache keeps its size without its expired entries exactly if none has expired. */
  lemma LiveCount(c: Cache, now: int)
    requires |c| <= 100
    ensures |Live(c, now)| <= |c|
    ensures |Live(c, now)| == 100 <==> |c| == 100 && forall u :: u in c ==> !Expired(c[u], now)
  {
    var live := Live(c, now);
    SubsetSize(live.Keys, c.Keys);
    if u :| u in c && Expired(c[u], now) {
      SubsetSize(live.Keys, c.Keys - {u});
    } else {
      assert live == c;
    }
  }

  // ----- Which entry falls -----

  /** No entry of the cache expires before that one. */
  predicate Oldest(c: Cache, url: string) {
    url in c && forall u :: u in c ==> c[url].expiresAt <= c[u].expiresAt
  }

  /**
   The eviction is meant to remove the oldest entry of a cache that is full of live ones. Whatever entry
   falls is an oldest one if and only if all of them expire together.
   */
  lemma EvictsOldestIff(c: Cache, now: int)
    requires |c| >= MAX_CACHE_SIZE && forall u :: u in c ==> !Expired(c[u], now)
    ensures (forall victim :: victim in c && MayFall(c, now, victim) ==> Oldest(c, victim)) <==>
            (forall u, v :: u in c && v in c ==> c[u].expiresAt == c[v].expiresAt)
  {
    assert Live(c, now) == c;
    if forall victim :: victim in c && MayFall(c, now, victim) ==> Oldest(c, victim) {
      forall u, v | u in c && v in c
        ensures c[u].expiresAt == c[v].expiresAt
      {
        assert Oldest(c, u) && Oldest(c, v);
      }
    }
  }

  function Url(n: nat): string {
    if n == 0 then "" else Url(n - 1) + "a"
  }

  lemma {:induction false} UrlLength(n: nat)
    ensures |Url(n)| == n
  {
    if n > 0 {
      UrlLength(n - 1);
    }
  }

  /** n entries, the first of which was stored a millisecond before the others. */
  function Filled(n: nat): Cache {
    if n == 0 then map[] else Filled(n - 1)[Url(n - 1) := Entry(Cert(""), if n == 1 then TTL else TTL + 1)]
  }

  lemma {:induction false} FilledSize(n: nat)
    ensures |Filled(n)| == n
    ensures forall u :: u in Filled(n) ==> |u| < n && Filled(n)[u].expiresAt == if |u| == 0 then TTL else TTL + 1
    ensures forall i :: 0 <= i < n ==> Url(i) in Filled(n)
  {
    if n > 0 {
      FilledSize(n - 1);
      UrlLength(n - 1);
      assert Url(n - 1) !in Filled(n - 1);
    }
  }

  function FillStep(n: nat): Step {
    Keep(Url(n), Cert(""), 1, if n == 0 then 0 else 1, "")
  }

  lemma {:induction false} Fills(n: nat) returns (run: seq<Cache>, steps: seq<Step>)
    requires n <= MAX_CACHE_SIZE
    ensures Runs(run, steps) && |steps| == n && run[n] == Filled(n)
  {
    hide Goes, Url, Trimmed;
    if n == 0 {
      run, steps := [map[]], [];
    } else {
      run, steps := Fills(n - 1);
      FillGoes(n - 1);
      run, steps := run + [Filled(n)], steps + [FillStep(n - 1)];
    }
  }

  lemma FillGoes(n: nat)
    requires n < MAX_CACHE_SIZE
    ensures Goes(Filled(n), FillStep(n), Filled(n + 1))
  {
    FilledSize(n);
    hide Url;
  }

  /**
   A run from the empty cache: a hundred stores, the first a millisecond before the others, and at one more
   a younger entry falls while the oldest stays.
   */
  lemma AYoungerOneFalls() returns (run: seq<Cache>, steps: seq<Step>, younger: string, oldest: string)
    ensures Runs(run, steps) && |steps| == MAX_CACHE_SIZE + 1
    ensures var c, step, d := run[MAX_CACHE_SIZE], steps[MAX_CACHE_SIZE], run[MAX_CACHE_SIZE + 1];
            && |c| == MAX_CACHE_SIZE && step.Keep?
            && (forall u :: u in c ==> !Expired(c[u], step.evictAt))
            && younger in c && !Oldest(c, younger) && younger !in d
            && Oldest(c, oldest) && oldest in d
  {
    hide Filled, Url, Trimmed;
    run, steps := Fills(MAX_CACHE_SIZE);
    younger, oldest := Url(1), Url(0);
    FilledSize(MAX_CACHE_SIZE);
    UrlLength(0);
    UrlLength(1);
    UrlLength(MAX_CACHE_SIZE);
    var c, step := Filled(MAX_CACHE_SIZE), Keep(Url(MAX_CACHE_SIZE), Cert(""), 2, 2, younger);
    LosesOne(c, 2, younger);
    run, steps := run + [Next(c, step)], steps + [step];
  }

  lemma LosesOne(c: Cache, now: int, victim: string)
    requires |c| >= MAX_CACHE_SIZE && forall u :: u in c ==> !Expired(c[u], now)
    ensures Live(c, now) == c && Trimmed(c, now, victim) == c - {victim}
  {
    assert Live(c, now) == c;
  }
}
