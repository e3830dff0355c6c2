/** Ingesting seed products: normalising the requested IDs, looking up the
    ones not cached yet, and answering for one seed from the cache or from
    a fresh lookup. */
module SeedManagement {
  import opened Wrappers
  import opened Errors
  import opened Strings
  import opened Payload
  import opened Models
  import opened Utils
  import opened Catalog
  import opened Repository
  import opened Fetching

  /** `asin.strip().upper()`. */
  function Normal(asin: string): string
  {
    Upper(Strip(asin))
  }

  /** The IDs `ingest` works on: each one stripped and upper-cased, blank
      ones dropped, and only the first occurrence of each kept. */
  function Normalize(asins: seq<string>): (r: seq<string>)
    ensures forall i :: 0 <= i < |r| ==> r[i] != ""
  {
    if |asins| == 0 then []
    else
      var before := Normalize(asins[..|asins| - 1]);
      var a := asins[|asins| - 1];
      if Strip(a) == "" || Normal(a) in before then before else before + [Normal(a)]
  }

  /** The IDs still to look up: all of them when forced, otherwise those
      not in the seeds table, in order. */
  function ToFetch(seeds: map<string, ProductDetails>, ids: seq<string>, force: bool): (r: seq<string>)
  {
    if |ids| == 0 then []
    else
      var before := ToFetch(seeds, ids[..|ids| - 1], force);
      var id := ids[|ids| - 1];
      if id in seeds && !force then before else before + [id]
  }

  /** Every normalised ID is the normalised form of a non-blank input. */
  lemma {:induction false} NormalizeSound(asins: seq<string>, x: string)
    requires x in Normalize(asins)
    ensures exists i :: 0 <= i < |asins| && Strip(asins[i]) != "" && Normal(asins[i]) == x
    decreases |asins|
  {
    var last := |asins| - 1;
    var init := asins[..last];
    if x in Normalize(init) {
      NormalizeSound(init, x);
      var i :| 0 <= i < |init| && Strip(init[i]) != "" && Normal(init[i]) == x;
      assert asins[i] == init[i];
    } else {
      assert Strip(asins[last]) != "" && Normal(asins[last]) == x;
    }
  }

  /** The normalised form of every non-blank input is kept. */
  lemma {:induction false} NormalizeComplete(asins: seq<string>, i: int)
    requires 0 <= i < |asins| && Strip(asins[i]) != ""
    ensures Normal(asins[i]) in Normalize(asins)
    decreases |asins|
  {
    var last := |asins| - 1;
    var init := asins[..last];
    if i < last {
      assert init[i] == asins[i];
      NormalizeComplete(init, i);
    }
  }

  /** The normalised IDs are exactly the normalised forms of the non-blank
      inputs. */
  lemma NormalizeMembers(asins: seq<string>)
    ensures forall x :: x in Normalize(asins) <==>
      exists i :: 0 <= i < |asins| && Strip(asins[i]) != "" && Normal(asins[i]) == x
  {
    forall x | x in Normalize(asins)
      ensures exists i :: 0 <= i < |asins| && Strip(asins[i]) != "" && Normal(asins[i]) == x
    {
      NormalizeSound(asins, x);
    }
    forall i | 0 <= i < |asins| && Strip(asins[i]) != ""
      ensures Normal(asins[i]) in Normalize(asins)
    {
      NormalizeComplete(asins, i);
    }
  }

  /** No ID is kept twice. */
  lemma {:induction false} NormalizeDistinct(asins: seq<string>)
    ensures forall i, j :: 0 <= i < j < |Normalize(asins)| ==> Normalize(asins)[i] != Normalize(asins)[j]
    decreases |asins|
  {
    if |asins| > 0 {
      var init := asins[..|asins| - 1];
      NormalizeDistinct(init);
      var p := Normalize(init);
      var r := Normalize(asins);
      assert r == p || r == p + [Normal(asins[|asins| - 1])];
      forall i, j | 0 <= i < j < |r|
        ensures r[i] != r[j]
      {
        if j == |p| {
          var a := asins[|asins| - 1];
          assert init == asins[..|asins| - 1];
          assert r == p + [Normal(a)] && Normal(a) !in p;
          assert r[i] == p[i] && p[i] in p && r[j] == Normal(a);
        } else {
          assert r[i] == p[i] && r[j] == p[j];
        }
      }
    }
  }

  /** More input never reorders or drops an ID already kept: the IDs of a
      prefix of the input lead the IDs of the whole, so IDs stay in the
      order of their first occurrences. */
  lemma {:induction false} NormalizePrefix(xs: seq<string>, ys: seq<string>)
    ensures var p := Normalize(xs); var r := Normalize(xs + ys);
      |p| <= |r| && r[..|p|] == p
    decreases |ys|
  {
    if |ys| == 0 {
      assert xs + ys == xs;
    } else {
      var init := ys[..|ys| - 1];
      NormalizePrefix(xs, init);
      assert (xs + ys)[..|xs + ys| - 1] == xs + init;
    }
  }

  lemma UpperKeepsEnds(s: string)
    requires s != "" && !IsSpace(s[0]) && !IsSpace(s[|s| - 1])
    ensures Upper(s) != "" && !IsSpace(Upper(s)[0]) && !IsSpace(Upper(s)[|s| - 1])
  {
  }

  /** Normalising an ID twice changes nothing. */
  lemma NormalIdempotent(s: string)
    ensures Strip(Normal(s)) == Normal(s) && Normal(Normal(s)) == Normal(s)
  {
    var r := Strip(s);
    var u := Upper(r);
    StripSlice(s);
    if r != "" {
      UpperKeepsEnds(r);
      assert TrimStart(u) == u;
      assert TrimEnd(u) == u;
    }
    assert Upper(u) == u;
  }

  /** A single ID normalises to itself, or to nothing when it is blank. */
  lemma NormalizeOne(asin: string)
    ensures Normalize([Normal(asin)]) == if Normal(asin) == "" then [] else [Normal(asin)]
  {
    NormalIdempotent(asin);
    assert [Normal(asin)][..0] == [];
  }

  /** An ID is looked up exactly when the run is forced or the ID is not
      cached; forcing looks up every ID. */
  lemma {:induction false} ToFetchMembers(seeds: map<string, ProductDetails>, ids: seq<string>, force: bool)
    ensures forall x :: x in ToFetch(seeds, ids, force) <==> x in ids && (force || x !in seeds)
    ensures force ==> ToFetch(seeds, ids, force) == ids
    decreases |ids|
  {
    if |ids| > 0 {
      var init := ids[..|ids| - 1];
      ToFetchMembers(seeds, init, force);
      assert ids == init + [ids[|ids| - 1]];
    }
  }

  /** When every ID is cached and the run is not forced, nothing is asked
      for: no request, no change to the table, no products. */
  lemma AllCached(respond: (nat, Request) -> Result<Json, Fault>, base: nat,
                  seeds: map<string, ProductDetails>, ids: seq<string>, now: DateTime)
    requires forall x :: x in ids ==> x in seeds
    ensures ToFetch(seeds, ids, false) == []
    ensures Fetch(respond, base, Chunks(ToFetch(seeds, ids, false), 10), ParserAt(now)) == Outcome(0, [], None)
  {
    NothingToFetch(seeds, ids);
  }

  lemma {:induction false} NothingToFetch(seeds: map<string, ProductDetails>, ids: seq<string>)
    requires forall x :: x in ids ==> x in seeds
    ensures ToFetch(seeds, ids, false) == []
    decreases |ids|
  {
    if |ids| > 0 {
      var init := ids[..|ids| - 1];
      assert forall x :: x in init ==> x in ids;
      NothingToFetch(seeds, init);
      assert ids[|ids| - 1] in ids;
    }
  }

  /** The IDs go out in order, at most ten to a request, and each batch is
      non-empty. */
  lemma IngestBatches(ids: seq<string>)
    ensures var bs := Chunks(ids, 10);
      && Flatten(bs) == ids
      && (forall i :: 0 <= i < |bs| ==> 0 < |bs[i]| <= 10)
      && |bs| == (|ids| + 9) / 10
  {
    var bs := Chunks(ids, 10);
    ChunksFlatten(ids, 10);
    ChunksSizes(ids, 10);
    ChunksCount(ids, 10);
  }

  class SeedManager {
    const client: Client
    const repository: DataRepository

    constructor (client: Client, repository: DataRepository)
      ensures this.client == client && this.repository == repository
    {
      this.client := client;
      this.repository := repository;
    }

    /** `ingest(asins, force_refresh)`: looks up the normalised IDs that are
        not cached (all of them when forced), ten at a time, caches every
        product returned and answers them in batch order, then answer
        order. A failed request or a malformed answer is the result; the
        products of the batches before it stay cached. */
    method Ingest(asins: seq<string>, forceRefresh: bool, now: DateTime)
      returns (r: Result<seq<ProductDetails>, Fault>)
      requires repository.Valid()
      modifies client, repository
      ensures repository.Valid()
      ensures var ids := ToFetch(old(repository.seeds), Normalize(asins), forceRefresh);
        var o := Fetch(client.respond, |old(client.log)|, Chunks(ids, 10), ParserAt(now));
        && client.log == old(client.log) + Requests(Chunks(ids, 10)[..o.sent])
        && repository.seeds == CacheAll(old(repository.seeds), o.fetched, now)
        && r == (if o.fault.Some? then Err(o.fault.value) else Ok(o.fetched))
      ensures repository.scores == old(repository.scores) && repository.snapshots == old(repository.snapshots)
    {
      var ids := Normalize(asins);
      var toFetch: seq<string> := [];
      for i := 0 to |ids|
        invariant toFetch == ToFetch(repository.seeds, ids[..i], forceRefresh)
      {
        assert ids[..i + 1][..i] == ids[..i];
        var existing := repository.GetProduct(ids[i]);
        if existing.Some? && !forceRefresh {
          continue;
        }
        toFetch := toFetch + [ids[i]];
      }
      assert ids[..|ids|] == ids;
      r := FetchBatches(client, repository, toFetch, now);
    }

    /** `get_seed_details(asin, refresh)`: the cached product for the
        normalised ID without any request, unless refreshing or not cached;
        then a forced ingest of that ID, answering its first product, or
        nothing when the catalog has none. */
    method GetSeedDetails(asin: string, refresh: bool, now: DateTime)
      returns (r: Result<Option<ProductDetails>, Fault>)
      requires repository.Valid()
      modifies client, repository
      ensures repository.Valid()
      ensures var cached := old(repository.GetProduct(Normal(asin)));
        cached.Some? && !refresh ==>
          r == Ok(cached) && client.log == old(client.log) && repository.seeds == old(repository.seeds)
      ensures var cached := old(repository.GetProduct(Normal(asin)));
        var ids := Normalize([Normal(asin)]);
        var o := Fetch(client.respond, |old(client.log)|, Chunks(ids, 10), ParserAt(now));
        !(cached.Some? && !refresh) ==>
          && client.log == old(client.log) + Requests(Chunks(ids, 10)[..o.sent])
          && repository.seeds == CacheAll(old(repository.seeds), o.fetched, now)
          && r == (if o.fault.Some? then Err(o.fault.value)
                   else Ok(if |o.fetched| > 0 then Some(o.fetched[0]) else None))
      ensures repository.scores == old(repository.scores) && repository.snapshots == old(repository.snapshots)
    {
      var id := Normal(asin);
      var details := repository.GetProduct(id);
      if details.Some? && !refresh {
        return Ok(details);
      }
      ToFetchMembers(repository.seeds, Normalize([id]), true);
      var fetched := Ingest([id], true, now);
      if fetched.Err? {
        return Err(fetched.error);
      }
      r := Ok(if |fetched.value| > 0 then Some(fetched.value[0]) else None);
    }
  }

  /** A seed asked for with a blank ID is never looked up and is absent. */
  lemma BlankSeed(respond: (nat, Request) -> Result<Json, Fault>, base: nat, asin: string, now: DateTime)
    requires Strip(asin) == ""
    ensures Normalize([Normal(asin)]) == []
    ensures Fetch(respond, base, Chunks(Normalize([Normal(asin)]), 10), ParserAt(now)) == Outcome(0, [], None)
  {
    NormalizeOne(asin);
  }
}
