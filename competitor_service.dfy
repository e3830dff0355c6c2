/** Discovering and ranking the competitors of a seed product: gather
    candidate IDs from the seed's related products, a keyword search and a
    search of its browse nodes; look the IDs up and cache them; score the
    candidates against the seed and store the ranked records. */
module Competitors {
  import opened Wrappers
  import opened Errors
  import opened Strings
  import opened Payload
  import opened Models
  import opened Utils
  import opened Parsers
  import opened Catalog
  import opened Repository
  import opened Fetching

  type Respond = (nat, Request) -> Result<Json, Fault>

  /** Python's `xs[:n]`: a negative bound counts from the end. */
  function Head<T>(xs: seq<T>, n: int): (r: seq<T>)
    ensures |r| <= |xs| && r == xs[..|r|]
    ensures 0 <= n ==> |r| == if n < |xs| then n else |xs|
    ensures n < 0 ==> |r| == if |xs| + n > 0 then |xs| + n else 0
  {
    if 0 <= n then xs[..if n < |xs| then n else |xs|]
    else xs[..if |xs| + n > 0 then |xs| + n else 0]
  }

  function Min(a: int, b: int): int
  {
    if a < b then a else b
  }

  // ----- gathering candidate IDs -----

  /** Where a collection stands: the candidate IDs so far, the IDs search
      has seen, the client's request log, and the fault that ended the
      collection, if any. */
  datatype Gather = Gather(ids: seq<string>, seen: set<string>, log: seq<Request>, fault: Option<Fault>)

  /** `for item in items: ...`: each hit not seen yet is appended and marked
      seen; the loop breaks once the list holds `max` IDs. */
  function Absorb(ids: seq<string>, seen: set<string>, items: seq<ProductDetails>, max: int)
    : (seq<string>, set<string>)
    decreases |items|
  {
    if |items| == 0 then (ids, seen)
    else
      var a := items[0].asin;
      var ids', seen' := if a in seen then ids else ids + [a], seen + {a};
      if |ids'| >= max then (ids', seen') else Absorb(ids', seen', items[1..], max)
  }

  /** One search request and its hits. */
  function Page(respond: Respond, parse: Parser, g: Gather, req: Request, max: int): Gather
  {
    var log := g.log + [req];
    match Reply(respond, |g.log|, req, parse)
    case Err(e) => g.(log := log, fault := Some(e))
    case Ok(items) =>
      var (ids, seen) := Absorb(g.ids, g.seen, items, max);
      Gather(ids, seen, log, None)
  }

  /** Search pages `page..last` in order, stopping at a fault or once the
      list holds `max` IDs. */
  function Pages(respond: Respond, parse: Parser, g: Gather, keywords: Option<string>, node: Option<string>,
                 page: int, last: int, max: int): Gather
    decreases last - page
  {
    if page > last || g.fault.Some? then g
    else
      var g' := Page(respond, parse, g, Request.SearchItems(keywords, node, page), max);
      if g'.fault.Some? || |g'.ids| >= max then g'
      else Pages(respond, parse, g', keywords, node, page + 1, last, max)
  }

  /** The ID a browse node is searched by: its own `Id`, else its
      `Ancestor`'s, else none. A node or ancestor that is not a dict is
      malformed. */
  function NodeId(node: Json): Result<Option<Json>, Fault>
  {
    var n :- AsDict(node);
    var id := Get(n, "Id");
    if !Truthy(id) && Truthy(Get(n, "Ancestor")) then
      var ancestor :- AsDict(n["Ancestor"]);
      var id' := Get(ancestor, "Id");
      Ok(if Truthy(id') then Some(id') else None)
    else
      Ok(if Truthy(id) then Some(id) else None)
  }

  /** `(raw.get("BrowseNodeInfo") or {}).get("BrowseNodes") or []`. */
  function BrowseNodes(raw: map<string, Json>): Result<seq<Json>, Fault>
  {
    var info :- AsDict(Or(Get(raw, "BrowseNodeInfo"), EmptyDict));
    Elements(Or(Get(info, "BrowseNodes"), EmptyList))
  }

  /** The category search: for each node with an ID, pages
      `1..min(limit, 3)`, stopping at a fault or once the list is full. */
  function Nodes(respond: Respond, parse: Parser, g: Gather, nodes: seq<Json>, limit: int, max: int): Gather
    decreases |nodes|
  {
    if |nodes| == 0 || g.fault.Some? then g
    else
      match NodeId(nodes[0])
      case Err(e) => g.(fault := Some(e))
      case Ok(None) => Nodes(respond, parse, g, nodes[1..], limit, max)
      case Ok(Some(id)) =>
        var g' := Pages(respond, parse, g, None, Some(Str(id)), 1, Min(limit, 3), max);
        if g'.fault.Some? || |g'.ids| >= max then g'
        else Nodes(respond, parse, g', nodes[1..], limit, max)
  }

  /** The IDs `collect_candidates` gathers before looking them up: the
      related ASINs, then the keyword search on the first 200 characters of
      the title, then the category search. */
  function Gathered(respond: Respond, parse: Parser, seed: ProductDetails, log: seq<Request>,
                    limit: int, max: int): Gather
  {
    match Related(seed.raw)
    case Err(e) => Gather([], {seed.asin}, log, Some(e))
    case Ok(related) =>
      var g := Pages(respond, parse, Gather(related, {seed.asin}, log, None),
                     Some(Head(seed.title, 200)), None, 1, limit, max);
      if g.fault.Some? then g
      else
        match BrowseNodes(seed.raw)
        case Err(e) => g.(fault := Some(e))
        case Ok(nodes) => Nodes(respond, parse, g, nodes, limit, max)
  }

  /** What a collection leaves behind: its result, the client's request
      log and the seeds table. */
  datatype Collected = Collected(
    result: Result<CandidateCollection, Fault>,
    log: seq<Request>,
    seeds: map<string, ProductDetails>)

  /** `collect_candidates(seed)`: gather the IDs, then look up the first
      `max` of them ten at a time, caching every product returned. */
  function Collect(respond: Respond, seeds: map<string, ProductDetails>, log: seq<Request>,
                   seed: ProductDetails, now: DateTime, limit: int, max: int): Collected
  {
    var g := Gathered(respond, ParserAt(now), seed, log, limit, max);
    if g.fault.Some? then Collected(Err(g.fault.value), g.log, seeds)
    else
      var batches := Chunks(Head(g.ids, max), 10);
      var o := Fetch(respond, |g.log|, batches, ParserAt(now));
      Collected(
        if o.fault.Some? then Err(o.fault.value) else Ok(CandidateCollection(seed, o.fetched)),
        g.log + Requests(batches[..o.sent]),
        CacheAll(seeds, o.fetched, now))
  }

  // ----- what the gathering guarantees -----

  /** The list starts with the related ASINs; after them come the search
      hits, which are pairwise different, never the seed's ASIN, and
      exactly the seen IDs besides the seed's. */
  ghost predicate Clean(g: Gather, related: seq<string>, seedAsin: string)
  {
    && |related| <= |g.ids| && g.ids[..|related|] == related
    && (forall i, j :: |related| <= i < j < |g.ids| ==> g.ids[i] != g.ids[j])
    && (forall i :: |related| <= i < |g.ids| ==> g.ids[i] != seedAsin)
    && (forall x :: x in g.seen <==> x == seedAsin || x in g.ids[|related|..])
  }

  lemma {:induction false} AbsorbClean(g: Gather, items: seq<ProductDetails>, max: int,
                                       related: seq<string>, seedAsin: string)
    requires Clean(g, related, seedAsin)
    ensures var (ids, seen) := Absorb(g.ids, g.seen, items, max); Clean(g.(ids := ids, seen := seen), related, seedAsin)
    decreases |items|
  {
    if |items| > 0 {
      var a := items[0].asin;
      var ids', seen' := if a in g.seen then g.ids else g.ids + [a], g.seen + {a};
      var g' := g.(ids := ids', seen := seen');
      if a !in g.seen {
        assert ids'[..|related|] == g.ids[..|related|];
        assert ids'[|related|..] == g.ids[|related|..] + [a];
        forall x ensures x in g'.seen <==> x == seedAsin || x in g'.ids[|related|..] {
        }
        forall i, j | |related| <= i < j < |ids'| ensures ids'[i] != ids'[j] {
          if j == |g.ids| {
            assert ids'[i] == g.ids[i] && g.ids[i] in g.ids[|related|..];
          }
        }
      }
      assert Clean(g', related, seedAsin);
      if |ids'| < max {
        AbsorbClean(g', items[1..], max, related, seedAsin);
      }
    }
  }

  lemma PageClean(respond: Respond, parse: Parser, g: Gather, req: Request, max: int,
                  related: seq<string>, seedAsin: string)
    requires Clean(g, related, seedAsin)
    ensures Clean(Page(respond, parse, g, req, max), related, seedAsin)
  {
    var r := Reply(respond, |g.log|, req, parse);
    if r.Ok? {
      AbsorbClean(g, r.value, max, related, seedAsin);
    }
  }

  lemma {:induction false} PagesClean(respond: Respond, parse: Parser, g: Gather, keywords: Option<string>,
                                      node: Option<string>, page: int, last: int, max: int,
                                      related: seq<string>, seedAsin: string)
    requires Clean(g, related, seedAsin)
    ensures Clean(Pages(respond, parse, g, keywords, node, page, last, max), related, seedAsin)
    decreases last - page
  {
    if page <= last && g.fault.None? {
      var req := Request.SearchItems(keywords, node, page);
      PageClean(respond, parse, g, req, max, related, seedAsin);
      var g' := Page(respond, parse, g, req, max);
      if g'.fault.None? && |g'.ids| < max {
        PagesClean(respond, parse, g', keywords, node, page + 1, last, max, related, seedAsin);
      }
    }
  }

  lemma {:induction false} NodesClean(respond: Respond, parse: Parser, g: Gather, nodes: seq<Json>,
                                      limit: int, max: int, related: seq<string>, seedAsin: string)
    requires Clean(g, related, seedAsin)
    ensures Clean(Nodes(respond, parse, g, nodes, limit, max), related, seedAsin)
    decreases |nodes|
  {
    if |nodes| > 0 && g.fault.None? {
      var id := NodeId(nodes[0]);
      if id.Ok? && id.value.None? {
        NodesClean(respond, parse, g, nodes[1..], limit, max, related, seedAsin);
      } else if id.Ok? {
        var ref := Some(Str(id.value.value));
        PagesClean(respond, parse, g, None, ref, 1, Min(limit, 3), max, related, seedAsin);
        var g' := Pages(respond, parse, g, None, ref, 1, Min(limit, 3), max);
        if g'.fault.None? && |g'.ids| < max {
          NodesClean(respond, parse, g', nodes[1..], limit, max, related, seedAsin);
        }
      }
    }
  }

  /** The gathered list starts with the seed's related ASINs in payload
      order (repetitions and the seed's own ASIN included); every ID a
      search adds after them is new and is not the seed's ASIN. */
  lemma GatheredClean(respond: Respond, parse: Parser, seed: ProductDetails, log: seq<Request>,
                      limit: int, max: int)
    requires Related(seed.raw).Ok?
    ensures var g := Gathered(respond, parse, seed, log, limit, max);
      var related := Related(seed.raw).value;
      && |related| <= |g.ids| && g.ids[..|related|] == related
      && (forall i, j :: |related| <= i < j < |g.ids| ==> g.ids[i] != g.ids[j])
      && (forall i :: |related| <= i < |g.ids| ==> g.ids[i] != seed.asin)
  {
    var related := Related(seed.raw).value;
    var g0 := Gather(related, {seed.asin}, log, None);
    assert g0.ids[|related|..] == [];
    assert Clean(g0, related, seed.asin);
    var kw := Some(Head(seed.title, 200));
    PagesClean(respond, parse, g0, kw, None, 1, limit, max, related, seed.asin);
    var g := Pages(respond, parse, g0, kw, None, 1, limit, max);
    var nodes := BrowseNodes(seed.raw);
    if g.fault.None? && nodes.Ok? {
      NodesClean(respond, parse, g, nodes.value, limit, max, related, seed.asin);
    }
  }

  /** The search pages sent from `page` on: the same query for pages
      `page, page + 1, ...` in order, never beyond `last`; fewer than all
      of them only when a fault ended the search or the list is full. */
  lemma {:induction false} PagesRequests(respond: Respond, parse: Parser, g: Gather, keywords: Option<string>,
                                         node: Option<string>, page: int, last: int, max: int)
    requires g.fault.None?
    ensures var r := Pages(respond, parse, g, keywords, node, page, last, max);
      && |g.log| <= |r.log| && r.log[..|g.log|] == g.log
      && |r.log| - |g.log| <= (if page <= last then last - page + 1 else 0)
      && (forall i :: |g.log| <= i < |r.log| ==>
            r.log[i] == Request.SearchItems(keywords, node, page + i - |g.log|))
      && (r.fault.None? && |r.log| - |g.log| < last - page + 1 ==> |r.ids| >= max)
    decreases last - page
  {
    if page <= last {
      var req := Request.SearchItems(keywords, node, page);
      var g' := Page(respond, parse, g, req, max);
      assert g'.log == g.log + [req];
      if g'.fault.None? && |g'.ids| < max {
        PagesRequests(respond, parse, g', keywords, node, page + 1, last, max);
        var r := Pages(respond, parse, g', keywords, node, page + 1, last, max);
        assert r.log[..|g.log|] == r.log[..|g'.log|][..|g.log|];
      }
    }
  }

  /** The search is not skipped when the list is already full: the first
      page is still requested, and nothing after it. */
  lemma FullStillAsks(respond: Respond, parse: Parser, g: Gather, keywords: Option<string>,
                      node: Option<string>, last: int, max: int)
    requires g.fault.None? && |g.ids| >= max && 1 <= last
    ensures Pages(respond, parse, g, keywords, node, 1, last, max).log
      == g.log + [Request.SearchItems(keywords, node, 1)]
  {
    var req := Request.SearchItems(keywords, node, 1);
    var r := Reply(respond, |g.log|, req, parse);
    if r.Ok? && |r.value| > 0 {
      var items := r.value;
      var a := items[0].asin;
      var ids' := if a in g.seen then g.ids else g.ids + [a];
      assert |ids'| >= max;
    }
  }

  /** `ref` is the text of the ID of one of the nodes. */
  ghost predicate ForNode(nodes: seq<Json>, ref: Option<string>)
  {
    exists k :: 0 <= k < |nodes| && NodeId(nodes[k]).Ok? && NodeId(nodes[k]).value.Some?
      && ref == Some(Str(NodeId(nodes[k]).value.value))
  }

  lemma ForNodeTail(nodes: seq<Json>, ref: Option<string>)
    requires |nodes| > 0 && ForNode(nodes[1..], ref)
    ensures ForNode(nodes, ref)
  {
    var k :| 0 <= k < |nodes[1..]| && NodeId(nodes[1..][k]).Ok? && NodeId(nodes[1..][k]).value.Some?
      && ref == Some(Str(NodeId(nodes[1..][k]).value.value));
    assert nodes[1..][k] == nodes[k + 1];
  }

  /** Every request of the category search is for a node that has an ID,
      by that ID's text, for a page in `1..min(limit, 3)`. */
  lemma {:induction false} NodesRequests(respond: Respond, parse: Parser, g: Gather, nodes: seq<Json>,
                                         limit: int, max: int)
    requires g.fault.None?
    ensures var r := Nodes(respond, parse, g, nodes, limit, max);
      && |g.log| <= |r.log| && r.log[..|g.log|] == g.log
      && forall i :: |g.log| <= i < |r.log| ==>
           && r.log[i].SearchItems? && r.log[i].keywords.None?
           && 1 <= r.log[i].page <= Min(limit, 3)
           && ForNode(nodes, r.log[i].browseNodeId)
    decreases |nodes|
  {
    if |nodes| > 0 {
      var id := NodeId(nodes[0]);
      var r := Nodes(respond, parse, g, nodes, limit, max);
      if id.Ok? && id.value.None? {
        NodesRequests(respond, parse, g, nodes[1..], limit, max);
        forall i | |g.log| <= i < |r.log|
          ensures ForNode(nodes, r.log[i].browseNodeId)
        {
          ForNodeTail(nodes, r.log[i].browseNodeId);
        }
      } else if id.Ok? {
        var ref := Some(Str(id.value.value));
        assert ForNode(nodes, ref) by {
          assert NodeId(nodes[0]).Ok? && NodeId(nodes[0]).value.Some? && ref == Some(Str(NodeId(nodes[0]).value.value));
        }
        PagesRequests(respond, parse, g, None, ref, 1, Min(limit, 3), max);
        var g' := Pages(respond, parse, g, None, ref, 1, Min(limit, 3), max);
        if g'.fault.None? && |g'.ids| < max {
          NodesRequests(respond, parse, g', nodes[1..], limit, max);
          assert r.log[..|g.log|] == r.log[..|g'.log|][..|g.log|];
          forall i | |g.log| <= i < |r.log|
            ensures && r.log[i].SearchItems? && r.log[i].keywords.None?
                    && 1 <= r.log[i].page <= Min(limit, 3)
                    && ForNode(nodes, r.log[i].browseNodeId)
          {
            if i < |g'.log| {
              assert r.log[i] == g'.log[i];
            } else {
              ForNodeTail(nodes, r.log[i].browseNodeId);
            }
          }
        }
      }
    }
  }

  /** The IDs looked up are the first `max` gathered, in order, at most ten
      to a request. */
  lemma ResolvedIds(ids: seq<string>, max: int)
    requires 0 <= max
    ensures var batches := Chunks(Head(ids, max), 10);
      && Flatten(batches) == ids[..if max < |ids| then max else |ids|]
      && forall i :: 0 <= i < |batches| ==> 0 < |batches[i]| <= 10
  {
    ChunksFlatten(Head(ids, max), 10);
    ChunksSizes(Head(ids, max), 10);
  }

  // ----- the candidates from the cache -----

  /** The cached IDs in ascending order, which is the only order
      `list_seed_asins` can answer with. */
  ghost function KeyOrder(keys: set<string>): (r: seq<string>)
    ensures Ascending(r) && forall a :: a in r <==> a in keys
    decreases keys
  {
    if keys == {} then []
    else
      var a :| a in keys;
      InsertAscending(KeyOrder(keys - {a}), a)
  }

  /** The cached products of `asins`, in that order, leaving out the seed. */
  function FromCache(seeds: map<string, ProductDetails>, asins: seq<string>, seedAsin: string): seq<ProductDetails>
  {
    if |asins| == 0 then []
    else
      var before := FromCache(seeds, asins[..|asins| - 1], seedAsin);
      var a := asins[|asins| - 1];
      if a == seedAsin || a !in seeds then before else before + [Loaded(seeds[a])]
  }

  /** The candidates `analyse` takes from the cache when not refreshing. */
  ghost function CachedPool(seeds: map<string, ProductDetails>, seedAsin: string): seq<ProductDetails>
  {
    FromCache(seeds, KeyOrder(seeds.Keys), seedAsin)
  }

  function AsinsOf(ps: seq<ProductDetails>): (r: seq<string>)
    ensures |r| == |ps| && forall i :: 0 <= i < |ps| ==> r[i] == ps[i].asin
  {
    if |ps| == 0 then [] else AsinsOf(ps[..|ps| - 1]) + [ps[|ps| - 1].asin]
  }

  lemma {:induction false} FromCacheRows(seeds: map<string, ProductDetails>, asins: seq<string>, seedAsin: string)
    requires forall a :: a in seeds ==> seeds[a].asin == a
    ensures forall p :: p in FromCache(seeds, asins, seedAsin) ==>
      p.asin in seeds && p == Loaded(seeds[p.asin]) && p.asin != seedAsin
    decreases |asins|
  {
    if |asins| > 0 {
      var init := asins[..|asins| - 1];
      var last := asins[|asins| - 1];
      FromCacheRows(seeds, init, seedAsin);
      var before := FromCache(seeds, init, seedAsin);
      assert FromCache(seeds, asins, seedAsin) == before
        || FromCache(seeds, asins, seedAsin) == before + [Loaded(seeds[last])];
    }
  }

  lemma {:induction false} FromCacheMembers(seeds: map<string, ProductDetails>, asins: seq<string>, seedAsin: string)
    requires forall a :: a in seeds ==> seeds[a].asin == a
    ensures forall a :: a in AsinsOf(FromCache(seeds, asins, seedAsin)) <==> a in asins && a in seeds && a != seedAsin
    decreases |asins|
  {
    if |asins| > 0 {
      var init := asins[..|asins| - 1];
      var last := asins[|asins| - 1];
      FromCacheMembers(seeds, init, seedAsin);
      assert asins == init + [last];
      var before := FromCache(seeds, init, seedAsin);
      if !(last == seedAsin || last !in seeds) {
        assert AsinsOf(FromCache(seeds, asins, seedAsin)) == AsinsOf(before) + [last];
      }
    }
  }

  lemma {:induction false} FromCacheAscending(seeds: map<string, ProductDetails>, asins: seq<string>, seedAsin: string)
    requires forall a :: a in seeds ==> seeds[a].asin == a
    requires Ascending(asins)
    ensures Ascending(AsinsOf(FromCache(seeds, asins, seedAsin)))
    decreases |asins|
  {
    if |asins| > 0 {
      var init := asins[..|asins| - 1];
      var last := asins[|asins| - 1];
      FromCacheAscending(seeds, init, seedAsin);
      FromCacheMembers(seeds, init, seedAsin);
      var before := AsinsOf(FromCache(seeds, init, seedAsin));
      if !(last == seedAsin || last !in seeds) {
        var after := AsinsOf(FromCache(seeds, asins, seedAsin));
        assert after == before + [last];
        forall i | 0 <= i < |before| ensures Less(before[i], last) {
          assert before[i] in before;
          var k :| 0 <= k < |init| && init[k] == before[i];
          assert asins[k] == init[k];
        }
      }
    }
  }

  /** The cached candidates: one per cached product other than the seed,
      in ascending ID order. */
  lemma CachedPoolShape(seeds: map<string, ProductDetails>, seedAsin: string)
    requires forall a :: a in seeds ==> seeds[a].asin == a
    ensures var pool := CachedPool(seeds, seedAsin);
      && (forall p :: p in pool ==> p.asin in seeds && p == Loaded(seeds[p.asin]))
      && (forall a :: a in AsinsOf(pool) <==> a in seeds && a != seedAsin)
      && Ascending(AsinsOf(pool))
  {
    FromCacheRows(seeds, KeyOrder(seeds.Keys), seedAsin);
    FromCacheMembers(seeds, KeyOrder(seeds.Keys), seedAsin);
    FromCacheAscending(seeds, KeyOrder(seeds.Keys), seedAsin);
  }

  /** The candidates `analyse` scores, and what choosing them leaves
      behind: the cached ones unless refreshing or there are none, else a
      fresh collection. */
  ghost function Candidates(respond: Respond, seeds: map<string, ProductDetails>, log: seq<Request>,
                            seed: ProductDetails, refresh: bool, now: DateTime, limit: int, max: int): Collected
  {
    var pool := CachedPool(seeds, seed.asin);
    if !refresh && |pool| > 0 then Collected(Ok(CandidateCollection(seed, pool)), log, seeds)
    else Collect(respond, seeds, log, seed, now, limit, max)
  }

  // ----- scoring and ranking -----

  /** The documents the similarity engine compares: the seed's first. */
  function Documents(c: CandidateCollection): (r: seq<string>)
    ensures |r| == |c.competitors| + 1 && r[0] == MergedText(c.seedDetails)
    ensures forall i :: 0 <= i < |c.competitors| ==> r[i + 1] == MergedText(c.competitors[i])
    decreases |c.competitors|
  {
    if |c.competitors| == 0 then [MergedText(c.seedDetails)]
    else
      var init := c.competitors[..|c.competitors| - 1];
      Documents(c.(competitors := init)) + [MergedText(c.competitors[|c.competitors| - 1])]
  }

  /** The record `analyse` builds for a candidate and its score. */
  function Record(seedAsin: string, d: ProductDetails, score: real, at: DateTime): CompetitorRecord
  {
    CompetitorRecord(seedAsin, d.asin, score, d.price, d.reviewRating, d.reviewCount, d.bestSellerRank, at)
  }

  /** `zip(candidates, scores)`: one record per pair, as many as the shorter
      list has. */
  function Zip(seedAsin: string, ps: seq<ProductDetails>, scores: seq<real>, at: DateTime): (r: seq<CompetitorRecord>)
    ensures |r| == Min(|ps|, |scores|)
    ensures forall i :: 0 <= i < |r| ==> r[i] == Record(seedAsin, ps[i], scores[i], at)
  {
    if |ps| == 0 || |scores| == 0 then []
    else [Record(seedAsin, ps[0], scores[0], at)] + Zip(seedAsin, ps[1..], scores[1..], at)
  }

  /** `sort(key=score, reverse=True)`: each record in turn goes after every
      record already placed that scores at least as much. */
  function Ranked(rs: seq<CompetitorRecord>): (r: seq<CompetitorRecord>)
    ensures Descending(r) && |r| == |rs|
  {
    if |rs| == 0 then [] else InsertDescending(Ranked(rs[..|rs| - 1]), rs[|rs| - 1])
  }

  /** The records with score `v`, in order. */
  function Tied(rs: seq<CompetitorRecord>, v: real): seq<CompetitorRecord>
  {
    if |rs| == 0 then []
    else (if rs[0].similarityScore == v then [rs[0]] else []) + Tied(rs[1..], v)
  }

  lemma {:induction false} TiedAppend(a: seq<CompetitorRecord>, b: seq<CompetitorRecord>, v: real)
    ensures Tied(a + b, v) == Tied(a, v) + Tied(b, v)
    decreases |a|
  {
    if |a| == 0 {
      assert a + b == b;
    } else {
      TiedAppend(a[1..], b, v);
      assert (a + b)[0] == a[0] && (a + b)[1..] == a[1..] + b;
      var head := if a[0].similarityScore == v then [a[0]] else [];
      assert Tied(a + b, v) == head + Tied(a[1..] + b, v);
      assert Tied(a, v) == head + Tied(a[1..], v);
      assert head + (Tied(a[1..], v) + Tied(b, v)) == (head + Tied(a[1..], v)) + Tied(b, v);
    }
  }

  lemma {:induction false} TiedNone(rs: seq<CompetitorRecord>, v: real)
    requires forall i :: 0 <= i < |rs| ==> rs[i].similarityScore < v
    ensures Tied(rs, v) == []
    decreases |rs|
  {
    if |rs| > 0 {
      TiedNone(rs[1..], v);
    }
  }

  lemma TiedOne(x: CompetitorRecord, v: real)
    ensures Tied([x], v) == if x.similarityScore == v then [x] else []
  {
    assert Tied([x], v) == (if x.similarityScore == v then [x] else []) + Tied([], v);
  }

  lemma TiedThree(before: seq<CompetitorRecord>, x: CompetitorRecord, after: seq<CompetitorRecord>, v: real)
    ensures Tied(before + [x] + after, v) == Tied(before, v) + Tied([x], v) + Tied(after, v)
  {
    TiedAppend(before + [x], after, v);
    TiedAppend(before, [x], v);
  }

  /** Splicing a record in adds it to its score's records at the point of
      the splice: it comes last among them when nothing after it ties. */
  lemma TiedSplice(rows: seq<CompetitorRecord>, p: nat, x: CompetitorRecord, v: real)
    requires p <= |rows|
    requires x.similarityScore == v ==> forall i :: p <= i < |rows| ==> rows[i].similarityScore < v
    ensures Tied(rows[..p] + [x] + rows[p..], v) == Tied(rows, v) + Tied([x], v)
  {
    var before, after := rows[..p], rows[p..];
    TiedThree(before, x, after, v);
    assert rows == before + after;
    TiedAppend(before, after, v);
    if x.similarityScore == v {
      TiedNone(after, v);
    } else {
      TiedOne(x, v);
    }
    SwapEmpty(Tied(before, v), Tied([x], v), Tied(after, v));
  }

  lemma SwapEmpty<T>(a: seq<T>, b: seq<T>, c: seq<T>)
    requires b == [] || c == []
    ensures a + b + c == (a + c) + b
  {
  }

  /** Placing a record keeps the records of each score in order and puts
      the new one after those that tie with it. */
  lemma InsertStable(rows: seq<CompetitorRecord>, x: CompetitorRecord, v: real)
    requires Descending(rows)
    ensures Tied(InsertDescending(rows, x), v) == Tied(rows, v) + Tied([x], v)
  {
    var p := Slot(rows, x);
    assert InsertDescending(rows, x) == rows[..p] + [x] + rows[p..];
    if x.similarityScore == v && p < |rows| {
      forall i | p <= i < |rows| ensures rows[i].similarityScore < v {
        assert rows[p].similarityScore >= rows[i].similarityScore;
      }
    }
    TiedSplice(rows, p, x, v);
  }

  lemma SplicePermutation<T>(s: seq<T>, p: nat, x: T)
    requires p <= |s|
    ensures multiset(s[..p] + [x] + s[p..]) == multiset(s) + multiset{x}
  {
    assert s == s[..p] + s[p..];
  }

  lemma InsertPermutation(rows: seq<CompetitorRecord>, x: CompetitorRecord)
    requires Descending(rows)
    ensures multiset(InsertDescending(rows, x)) == multiset(rows) + multiset{x}
  {
    var p := Slot(rows, x);
    assert InsertDescending(rows, x) == rows[..p] + [x] + rows[p..];
    SplicePermutation(rows, p, x);
  }

  /** The ranking is a permutation of the records. */
  lemma {:induction false} RankedPermutation(rs: seq<CompetitorRecord>)
    ensures multiset(Ranked(rs)) == multiset(rs)
    decreases |rs|
  {
    if |rs| > 0 {
      var init := rs[..|rs| - 1];
      var last := rs[|rs| - 1];
      assert Ranked(rs) == InsertDescending(Ranked(init), last);
      RankedPermutation(init);
      InsertPermutation(Ranked(init), last);
      assert rs == init + [last];
      assert multiset(rs) == multiset(init) + multiset{last};
    }
  }

  /** The ranking is stable: records with equal scores keep their order. */
  lemma {:induction false} RankedStable(rs: seq<CompetitorRecord>, v: real)
    ensures Tied(Ranked(rs), v) == Tied(rs, v)
    decreases |rs|
  {
    if |rs| > 0 {
      var init := rs[..|rs| - 1];
      var last := rs[|rs| - 1];
      RankedStable(init, v);
      InsertStable(Ranked(init), last, v);
      assert rs == init + [last];
      TiedAppend(init, [last], v);
    }
  }

  /** What `analyse` answers once the candidates are chosen: the engine's
      refusal, or one record per scored candidate, ranked. */
  function Analysis(scorer: seq<string> -> Result<seq<real>, Fault>, c: Collected, seedAsin: string, now: DateTime)
    : Result<seq<CompetitorRecord>, Fault>
  {
    var collection :- c.result;
    var scores :- scorer(Documents(collection));
    Ok(Ranked(Zip(seedAsin, collection.competitors, scores, now)))
  }

  /** The records of an analysis are the zipped records ranked by
      descending score, stably; each names the seed and carries the one
      capture time of the run. */
  lemma AnalysisRecords(scorer: seq<string> -> Result<seq<real>, Fault>, c: Collected, seedAsin: string, now: DateTime)
    requires Analysis(scorer, c, seedAsin, now).Ok?
    ensures var rs := Analysis(scorer, c, seedAsin, now).value;
      var ps := c.result.value.competitors;
      var scores := scorer(Documents(c.result.value)).value;
      && Descending(rs)
      && |rs| == Min(|ps|, |scores|)
      && multiset(rs) == multiset(Zip(seedAsin, ps, scores, now))
      && (forall v: real :: Tied(rs, v) == Tied(Zip(seedAsin, ps, scores, now), v))
      && (forall i :: 0 <= i < |rs| ==> rs[i].seedAsin == seedAsin && rs[i].capturedAt == now)
  {
    var ps := c.result.value.competitors;
    var scores := scorer(Documents(c.result.value)).value;
    var zs := Zip(seedAsin, ps, scores, now);
    var rs := Ranked(zs);
    RankedPermutation(zs);
    forall v: real ensures Tied(rs, v) == Tied(zs, v) {
      RankedStable(zs, v);
    }
    forall i | 0 <= i < |rs| ensures rs[i].seedAsin == seedAsin && rs[i].capturedAt == now {
      assert rs[i] in multiset(zs);
    }
  }

  /** The inner loop over one page's hits. */
  method AbsorbItems(ids: seq<string>, seen: set<string>, items: seq<ProductDetails>, max: int)
    returns (ids': seq<string>, seen': set<string>)
    ensures (ids', seen') == Absorb(ids, seen, items, max)
  {
    ids', seen' := ids, seen;
    var i := 0;
    while i < |items|
      invariant 0 <= i <= |items|
      invariant Absorb(ids, seen, items, max) == Absorb(ids', seen', items[i..], max)
    {
      ghost var before := (ids', seen');
      var item := items[i];
      if item.asin !in seen' {
        ids' := ids' + [item.asin];
        seen' := seen' + {item.asin};
      }
      assert seen' == before.1 + {item.asin};
      assert items[i..][0] == item && items[i..][1..] == items[i + 1..];
      if |ids'| >= max {
        return;
      }
      i := i + 1;
    }
  }

  /** `for details, score in zip(candidates, scores): records.append(...)`. */
  method BuildRecords(seedAsin: string, ps: seq<ProductDetails>, scores: seq<real>, at: DateTime)
    returns (records: seq<CompetitorRecord>)
    ensures records == Zip(seedAsin, ps, scores, at)
  {
    records := [];
    for i := 0 to Min(|ps|, |scores|)
      invariant |records| == i
      invariant forall k :: 0 <= k < i ==> records[k] == Record(seedAsin, ps[k], scores[k], at)
    {
      var details := ps[i];
      var record := CompetitorRecord(seedAsin, details.asin, scores[i], details.price,
                                     details.reviewRating, details.reviewCount, details.bestSellerRank, at);
      records := records + [record];
    }
  }

  class CompetitorService {
    const client: Client
    const repository: DataRepository
    /** The similarity engine: the documents, the seed's first, to one
        score per competitor, or a refusal. */
    const scorer: seq<string> -> Result<seq<real>, Fault>
    const candidatePageLimit: int
    const maxCandidates: int

    constructor (client: Client, repository: DataRepository, scorer: seq<string> -> Result<seq<real>, Fault>,
                 candidatePageLimit: int := 5, maxCandidates: int := 70)
      ensures this.client == client && this.repository == repository && this.scorer == scorer
      ensures this.candidatePageLimit == candidatePageLimit && this.maxCandidates == maxCandidates
    {
      this.client := client;
      this.repository := repository;
      this.scorer := scorer;
      this.candidatePageLimit := candidatePageLimit;
      this.maxCandidates := maxCandidates;
    }

    /** `for page in range(1, last + 1): ...` with the search query given. */
    method SearchPages(keywords: Option<string>, node: Option<string>, last: int,
                       ids: seq<string>, seen: set<string>, now: DateTime, ghost parse: Parser)
      returns (ids': seq<string>, seen': set<string>, fault: Option<Fault>)
      requires forall j {:trigger ParsedResponse(j, now)} :: parse(j) == ParsedResponse(j, now)
      modifies client
      ensures Pages(client.respond, parse, Gather(ids, seen, old(client.log), None), keywords, node, 1, last, maxCandidates)
        == Gather(ids', seen', client.log, fault)
    {
      ids', seen', fault := ids, seen, None;
      var page := 1;
      while page <= last
        invariant 1 <= page
        invariant Pages(client.respond, parse, Gather(ids, seen, old(client.log), None), keywords, node, 1, last, maxCandidates)
          == Pages(client.respond, parse, Gather(ids', seen', client.log, None), keywords, node, page, last, maxCandidates)
        decreases last - page
      {
        ghost var g := Gather(ids', seen', client.log, None);
        var req := Request.SearchItems(keywords, node, page);
        var items := Ask(client, req, now, parse, |client.log|);
        if items.Err? {
          fault := Some(items.error);
          return;
        }
        ids', seen' := AbsorbItems(ids', seen', items.value, maxCandidates);
        assert Page(client.respond, parse, g, req, maxCandidates) == Gather(ids', seen', client.log, None);
        if |ids'| >= maxCandidates {
          return;
        }
        page := page + 1;
      }
    }

    /** `for node in browse_nodes: ...`. */
    method SearchNodes(nodes: seq<Json>, ids: seq<string>, seen: set<string>, now: DateTime, ghost parse: Parser)
      returns (ids': seq<string>, seen': set<string>, fault: Option<Fault>)
      requires forall j {:trigger ParsedResponse(j, now)} :: parse(j) == ParsedResponse(j, now)
      modifies client
      ensures Nodes(client.respond, parse, Gather(ids, seen, old(client.log), None), nodes, candidatePageLimit, maxCandidates)
        == Gather(ids', seen', client.log, fault)
    {
      ids', seen', fault := ids, seen, None;
      var i := 0;
      while i < |nodes|
        invariant 0 <= i <= |nodes| && fault.None?
        invariant Nodes(client.respond, parse, Gather(ids, seen, old(client.log), None), nodes, candidatePageLimit, maxCandidates)
          == Nodes(client.respond, parse, Gather(ids', seen', client.log, None), nodes[i..], candidatePageLimit, maxCandidates)
      {
        assert nodes[i..][0] == nodes[i] && nodes[i..][1..] == nodes[i + 1..];
        var node := AsDict(nodes[i]);
        if node.Err? {
          fault := Some(node.error);
          return;
        }
        var nodeId := Get(node.value, "Id");
        if !Truthy(nodeId) && Truthy(Get(node.value, "Ancestor")) {
          var ancestor := AsDict(node.value["Ancestor"]);
          if ancestor.Err? {
            fault := Some(ancestor.error);
            return;
          }
          nodeId := Get(ancestor.value, "Id");
        }
        if !Truthy(nodeId) {
          i := i + 1;
          continue;
        }
        assert NodeId(nodes[i]) == Ok(Some(nodeId));
        ids', seen', fault := SearchPages(None, Some(Str(nodeId)), Min(candidatePageLimit, 3), ids', seen', now, parse);
        if fault.Some? || |ids'| >= maxCandidates {
          return;
        }
        i := i + 1;
      }
      assert nodes[i..] == [];
    }

    /** `collect_candidates(seed)`: the requests sent, the products cached
        and the collection returned are those `Collect` describes. */
    method CollectCandidates(seed: ProductDetails, now: DateTime) returns (r: Result<CandidateCollection, Fault>)
      requires repository.Valid()
      modifies client, repository
      ensures repository.Valid()
      ensures Collected(r, client.log, repository.seeds)
        == Collect(client.respond, old(repository.seeds), old(client.log), seed, now, candidatePageLimit, maxCandidates)
      ensures repository.scores == old(repository.scores) && repository.snapshots == old(repository.snapshots)
    {
      ghost var parse := ParserAt(now);
      var seen: set<string> := {seed.asin};
      var relatedAsins: seq<string> := [];
      var rawItem := seed.raw;
      var related := ExtractRelatedAsins(rawItem);
      if related.Err? {
        return Err(related.error);
      }
      relatedAsins := relatedAsins + related.value;
      assert relatedAsins == related.value;
      var fault;
      relatedAsins, seen, fault := SearchPages(Some(Head(seed.title, 200)), None, candidatePageLimit,
                                               relatedAsins, seen, now, parse);
      if fault.Some? {
        return Err(fault.value);
      }
      var browseNodes := BrowseNodes(rawItem);
      if browseNodes.Err? {
        return Err(browseNodes.error);
      }
      relatedAsins, seen, fault := SearchNodes(browseNodes.value, relatedAsins, seen, now, parse);
      if fault.Some? {
        return Err(fault.value);
      }
      var candidates := FetchBatches(client, repository, Head(relatedAsins, maxCandidates), now);
      if candidates.Err? {
        return Err(candidates.error);
      }
      r := Ok(CandidateCollection(seed, candidates.value));
    }
    /** The candidates `analyse` takes from the cache: the cached product of
        each listed ID other than the seed's. */
    method CachedCandidates(seed: ProductDetails) returns (competitors: seq<ProductDetails>)
      ensures competitors == CachedPool(repository.seeds, seed.asin)
    {
      competitors := [];
      var asins := repository.ListSeedAsins();
      AscendingUnique(asins, KeyOrder(repository.seeds.Keys));
      for i := 0 to |asins|
        invariant competitors == FromCache(repository.seeds, asins[..i], seed.asin)
      {
        assert asins[..i + 1][..i] == asins[..i];
        if asins[i] == seed.asin {
          continue;
        }
        var product := repository.GetProduct(asins[i]);
        if product.Some? {
          competitors := competitors + [product.value];
        }
      }
      assert asins[..|asins|] == asins;
    }

    /** `analyse(seed, refresh_candidates)`: chooses the candidates as
        `Candidates` describes, scores them, stores the ranked records as
        current scores and then as snapshots, and answers them. */
    method Analyse(seed: ProductDetails, refreshCandidates: bool, now: DateTime)
      returns (r: Result<seq<CompetitorRecord>, Fault>)
      requires repository.Valid()
      modifies client, repository
      ensures repository.Valid()
      ensures var c := Candidates(client.respond, old(repository.seeds), old(client.log), seed, refreshCandidates,
                                  now, candidatePageLimit, maxCandidates);
        && client.log == c.log && repository.seeds == c.seeds
        && r == Analysis(scorer, c, seed.asin, now)
      ensures r.Ok? ==>
        repository.scores == Upserts(old(repository.scores), r.value)
        && repository.snapshots == InsertIgnore(old(repository.snapshots), r.value)
      ensures r.Err? ==> repository.scores == old(repository.scores) && repository.snapshots == old(repository.snapshots)
    {
      ghost var c: Collected;
      var collection: CandidateCollection;
      if refreshCandidates {
        var collected := CollectCandidates(seed, now);
        c := Collected(collected, client.log, repository.seeds);
        if collected.Err? {
          return Err(collected.error);
        }
        collection := collected.value;
      } else {
        var cached := CachedCandidates(seed);
        collection := CandidateCollection(seed, cached);
        c := Collected(Ok(collection), client.log, repository.seeds);
        if |collection.competitors| == 0 {
          var collected := CollectCandidates(seed, now);
          c := Collected(collected, client.log, repository.seeds);
          if collected.Err? {
            return Err(collected.error);
          }
          collection := collected.value;
        }
      }
      assert c.result == Ok(collection);
      var scores := scorer(Documents(collection));
      if scores.Err? {
        return Err(scores.error);
      }
      var timestamp := now;
      var records := BuildRecords(seed.asin, collection.competitors, scores.value, timestamp);
      records := Ranked(records);
      repository.StoreCompetitorScores(records);
      repository.AppendSnapshot(records);
      r := Ok(records);
    }

    /** `top_competitors(seed_asin, limit=10)`: the seed's stored rows by
        descending score; a positive limit keeps that many of the best. */
    method TopCompetitors(seedAsin: string, limit: int := 10) returns (rows: seq<CompetitorRecord>)
      requires repository.Valid()
      ensures Descending(rows) && DistinctKeys(rows)
      ensures forall i :: 0 <= i < |rows| ==>
        rows[i].seedAsin == seedAsin
        && ScoreKeyOf(rows[i]) in repository.scores && repository.scores[ScoreKeyOf(rows[i])] == rows[i]
      ensures limit <= 0 ==> RowKeys(rows) == SeedKeys(repository.scores, seedAsin)
      ensures 0 < limit ==> |rows| == Min(limit, |SeedKeys(repository.scores, seedAsin)|)
      ensures forall k :: k in SeedKeys(repository.scores, seedAsin) && k !in RowKeys(rows) ==>
        forall i :: 0 <= i < |rows| ==> rows[i].similarityScore >= repository.scores[k].similarityScore
    {
      rows := repository.CompetitorsForSeed(seedAsin, Some(limit));
    }
  }
}
