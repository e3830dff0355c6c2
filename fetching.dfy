/** The lookup loop that both seed ingestion and candidate collection run:
    cut the IDs into batches of ten, ask the catalog for each batch, parse
    the answer and cache every product it holds, in order. A transport
    error or a malformed answer ends the run; the batches before it stay
    cached. */
module Fetching {
  import opened Wrappers
  import opened Errors
  import opened Payload
  import opened Models
  import opened Utils
  import opened Parsers
  import opened Catalog
  import opened Repository

  /** How far a run of lookups got: the requests sent, the products parsed
      from the answers, and the fault that ended it early, if any. */
  datatype Outcome = Outcome(sent: nat, fetched: seq<ProductDetails>, fault: Option<Fault>)

  /** The lookup requests for a list of batches, one each, in order. */
  function Requests(batches: seq<seq<string>>): (r: seq<Request>)
    ensures |r| == |batches|
    ensures forall i :: 0 <= i < |r| ==> r[i] == Request.GetItems(batches[i])
  {
    if |batches| == 0 then []
    else Requests(batches[..|batches| - 1]) + [Request.GetItems(batches[|batches| - 1])]
  }

  lemma RequestsStep(log: seq<Request>, batches: seq<seq<string>>, b: nat)
    requires b < |batches|
    ensures log + Requests(batches[..b + 1]) == log + Requests(batches[..b]) + [Request.GetItems(batches[b])]
  {
    assert batches[..b + 1][..b] == batches[..b];
    assert Requests(batches[..b + 1]) == Requests(batches[..b]) + [Request.GetItems(batches[b])];
  }

  /** How a run reads an answer: `parse_items_response` at the run's time. */
  type Parser = Json -> Result<seq<ProductDetails>, Fault>

  function ParserAt(now: DateTime): Parser
  {
    response => ParsedResponse(response, now)
  }

  /** The products in the answer to the request numbered `n` of a client's
      run, or the fault that request or its answer produced. */
  function Reply(respond: (nat, Request) -> Result<Json, Fault>, n: nat, req: Request, parse: Parser)
    : Result<seq<ProductDetails>, Fault>
  {
    match respond(n, req)
    case Err(e) => Err(e)
    case Ok(response) => parse(response)
  }

  /** The answer to the lookup of one batch. */
  function Answer(respond: (nat, Request) -> Result<Json, Fault>, n: nat, batch: seq<string>, parse: Parser)
    : Result<seq<ProductDetails>, Fault>
  {
    Reply(respond, n, Request.GetItems(batch), parse)
  }

  /** The answers to `batches` when the first is the request numbered
      `base` of the client's run and no request before it failed. */
  function Answers(respond: (nat, Request) -> Result<Json, Fault>, base: nat,
                   batches: seq<seq<string>>, parse: Parser): (r: seq<Result<seq<ProductDetails>, Fault>>)
    ensures |r| == |batches|
    ensures forall i :: 0 <= i < |r| ==> r[i] == Answer(respond, base + i, batches[i], parse)
  {
    if |batches| == 0 then []
    else
      var init := Answers(respond, base, batches[..|batches| - 1], parse);
      init + [Answer(respond, base + |batches| - 1, batches[|batches| - 1], parse)]
  }

  /** A run over successive answers: it stops at the first fault and
      otherwise collects the products of every answer, in order. */
  function Run(answers: seq<Result<seq<ProductDetails>, Fault>>): (r: Outcome)
    ensures r.sent <= |answers|
    ensures r.fault.None? ==> r.sent == |answers|
    ensures r.sent < |answers| ==> r.fault.Some?
  {
    if |answers| == 0 then Outcome(0, [], None)
    else
      var o := Run(answers[..|answers| - 1]);
      if o.fault.Some? then o
      else
        match answers[|answers| - 1]
        case Err(e) => Outcome(o.sent + 1, o.fetched, Some(e))
        case Ok(ps) => Outcome(o.sent + 1, o.fetched + ps, None)
  }

  /** The lookups for `batches` when the first is the request numbered
      `base` of the client's run. */
  function Fetch(respond: (nat, Request) -> Result<Json, Fault>, base: nat,
                 batches: seq<seq<string>>, parse: Parser): (r: Outcome)
  {
    Run(Answers(respond, base, batches, parse))
  }

  /** The seeds table after caching `ps` one after the other. */
  function CacheAll(seeds: map<string, ProductDetails>, ps: seq<ProductDetails>, now: DateTime)
    : map<string, ProductDetails>
  {
    if |ps| == 0 then seeds
    else CacheAll(seeds, ps[..|ps| - 1], now)[ps[|ps| - 1].asin := Stored(ps[|ps| - 1], now)]
  }

  /** Once a fault ends a run, later batches are never asked for. */
  lemma {:induction false} RunStops(answers: seq<Result<seq<ProductDetails>, Fault>>, k: nat)
    requires k <= |answers|
    requires Run(answers[..k]).fault.Some?
    ensures Run(answers) == Run(answers[..k])
    decreases |answers|
  {
    if k < |answers| {
      var init := answers[..|answers| - 1];
      assert init[..k] == answers[..k];
      RunStops(init, k);
    } else {
      assert answers[..k] == answers;
    }
  }

  /** A fault-free run holds the products of all answers, in batch order
      and, within a batch, in answer order; a run that meets a fault ends
      there. */
  lemma RunStep(answers: seq<Result<seq<ProductDetails>, Fault>>, a: Result<seq<ProductDetails>, Fault>)
    requires Run(answers).fault.None?
    ensures a.Ok? ==> Run(answers + [a]) == Outcome(|answers| + 1, Run(answers).fetched + a.value, None)
    ensures a.Err? ==> Run(answers + [a]) == Outcome(|answers| + 1, Run(answers).fetched, Some(a.error))
  {
    assert (answers + [a])[..|answers|] == answers;
  }

  /** The products of the successful answers, in order. */
  function Gained(answers: seq<Result<seq<ProductDetails>, Fault>>): seq<ProductDetails>
  {
    if |answers| == 0 then []
    else (if answers[0].Ok? then answers[0].value else []) + Gained(answers[1..])
  }

  lemma {:induction false} GainedSnoc(answers: seq<Result<seq<ProductDetails>, Fault>>,
                                      a: Result<seq<ProductDetails>, Fault>)
    ensures Gained(answers + [a]) == Gained(answers) + (if a.Ok? then a.value else [])
    decreases |answers|
  {
    if |answers| == 0 {
      assert Gained([a]) == (if a.Ok? then a.value else []) + Gained([]);
    } else {
      assert (answers + [a])[1..] == answers[1..] + [a];
      GainedSnoc(answers[1..], a);
    }
  }

  /** What a run amounts to: a fault is the error of the last answer it
      read, after only successful answers, and the products are those of
      the successful answers read, in batch order. */
  lemma {:induction false} RunOutcome(answers: seq<Result<seq<ProductDetails>, Fault>>)
    ensures var r := Run(answers);
      && (r.fault.Some? ==> 1 <= r.sent && answers[r.sent - 1] == Err(r.fault.value))
      && (forall i :: 0 <= i < r.sent && (r.fault.None? || i < r.sent - 1) ==> answers[i].Ok?)
      && r.fetched == Gained(answers[..r.sent])
    decreases |answers|
  {
    if |answers| > 0 {
      var init := answers[..|answers| - 1];
      RunOutcome(init);
      var o := Run(init);
      forall i | 0 <= i < |init| ensures answers[i] == init[i] { }
      assert init[..o.sent] == answers[..o.sent];
      if o.fault.None? {
        var a := answers[|answers| - 1];
        assert answers[..o.sent + 1] == init[..o.sent] + [a];
        GainedSnoc(init[..o.sent], a);
      }
    }
  }

  /** The answers to a prefix of the batches are a prefix of the answers. */
  lemma {:induction false} AnswersPrefix(respond: (nat, Request) -> Result<Json, Fault>, base: nat,
                                         batches: seq<seq<string>>, k: nat, parse: Parser)
    requires k <= |batches|
    ensures Answers(respond, base, batches[..k], parse) == Answers(respond, base, batches, parse)[..k]
    decreases |batches|
  {
    if k < |batches| {
      var init := batches[..|batches| - 1];
      assert init[..k] == batches[..k];
      AnswersPrefix(respond, base, init, k, parse);
    } else {
      assert batches[..k] == batches;
    }
  }

  /** The run over one more batch: the batch's answer either adds its
      products or ends the run with its fault. */
  lemma FetchNext(respond: (nat, Request) -> Result<Json, Fault>, base: nat,
                  batches: seq<seq<string>>, b: nat, parse: Parser,
                  fetched: seq<ProductDetails>, a: Result<seq<ProductDetails>, Fault>)
    requires b < |batches|
    requires Fetch(respond, base, batches[..b], parse) == Outcome(b, fetched, None)
    requires a == Answer(respond, base + b, batches[b], parse)
    ensures Fetch(respond, base, batches[..b + 1], parse)
      == if a.Ok? then Outcome(b + 1, fetched + a.value, None) else Outcome(b + 1, fetched, Some(a.error))
  {
    var all := Answers(respond, base, batches, parse);
    AnswersPrefix(respond, base, batches, b, parse);
    AnswersPrefix(respond, base, batches, b + 1, parse);
    PrefixStep(all, b);
    assert Fetch(respond, base, batches[..b], parse) == Run(all[..b]);
    assert Fetch(respond, base, batches[..b + 1], parse) == Run(all[..b] + [all[b]]);
    assert all[b] == a;
    RunStep(all[..b], all[b]);
  }

  /** A run that has met a fault sends nothing more. */
  lemma FetchStops(respond: (nat, Request) -> Result<Json, Fault>, base: nat,
                   batches: seq<seq<string>>, k: nat, parse: Parser)
    requires k <= |batches|
    requires Fetch(respond, base, batches[..k], parse).fault.Some?
    ensures Fetch(respond, base, batches, parse) == Fetch(respond, base, batches[..k], parse)
  {
    AnswersPrefix(respond, base, batches, k, parse);
    RunStops(Answers(respond, base, batches, parse), k);
  }

  /** Caching two runs one after the other is caching their concatenation. */
  lemma {:induction false} CacheAllAppend(seeds: map<string, ProductDetails>, ps: seq<ProductDetails>,
                                          qs: seq<ProductDetails>, now: DateTime)
    ensures CacheAll(seeds, ps + qs, now) == CacheAll(CacheAll(seeds, ps, now), qs, now)
    decreases |qs|
  {
    if |qs| > 0 {
      var init := qs[..|qs| - 1];
      CacheAllAppend(seeds, ps, init, now);
      assert (ps + qs)[..|ps + qs| - 1] == ps + init;
    } else {
      assert ps + qs == ps;
    }
  }

  /** The products cached by a run, and nothing else, are added to the
      table's IDs. */
  lemma {:induction false} CacheAllKeys(seeds: map<string, ProductDetails>, ps: seq<ProductDetails>, now: DateTime)
    ensures CacheAll(seeds, ps, now).Keys == seeds.Keys + set i | 0 <= i < |ps| :: ps[i].asin
    decreases |ps|
  {
    if |ps| > 0 {
      var init := ps[..|ps| - 1];
      CacheAllKeys(seeds, init, now);
      assert (set i | 0 <= i < |ps| :: ps[i].asin)
        == (set i | 0 <= i < |init| :: init[i].asin) + {ps[|ps| - 1].asin};
    }
  }

  /** For an ID several cached products share, the last one is kept. */
  lemma {:induction false} CacheAllLastWins(seeds: map<string, ProductDetails>, ps: seq<ProductDetails>, i: nat, now: DateTime)
    requires i < |ps|
    requires forall j :: i < j < |ps| ==> ps[j].asin != ps[i].asin
    ensures ps[i].asin in CacheAll(seeds, ps, now) && CacheAll(seeds, ps, now)[ps[i].asin] == Stored(ps[i], now)
    decreases |ps|
  {
    if i < |ps| - 1 {
      var init := ps[..|ps| - 1];
      CacheAllLastWins(seeds, init, i, now);
    }
  }

  /** An ID none of the cached products has keeps its old row, or stays
      absent. */
  lemma {:induction false} CacheAllUntouched(seeds: map<string, ProductDetails>, ps: seq<ProductDetails>, a: string, now: DateTime)
    requires forall i :: 0 <= i < |ps| ==> ps[i].asin != a
    ensures a in CacheAll(seeds, ps, now) <==> a in seeds
    ensures a in seeds ==> CacheAll(seeds, ps, now)[a] == seeds[a]
    decreases |ps|
  {
    if |ps| > 0 {
      CacheAllUntouched(seeds, ps[..|ps| - 1], a, now);
    }
  }

  lemma CacheAllSnoc(seeds: map<string, ProductDetails>, ps: seq<ProductDetails>, p: ProductDetails, now: DateTime)
    ensures CacheAll(seeds, ps + [p], now) == CacheAll(seeds, ps, now)[p.asin := Stored(p, now)]
  {
    assert (ps + [p])[..|ps|] == ps;
  }

  lemma PrefixStep<T>(s: seq<T>, i: nat)
    requires i < |s|
    ensures s[..i + 1] == s[..i] + [s[i]]
  {
  }

  /** `for details in items: repository.cache_product(details)`. */
  method CacheEach(repository: DataRepository, ps: seq<ProductDetails>, now: DateTime)
    requires repository.Valid()
    modifies repository
    ensures repository.Valid()
    ensures repository.seeds == CacheAll(old(repository.seeds), ps, now)
    ensures repository.scores == old(repository.scores) && repository.snapshots == old(repository.snapshots)
  {
    var j := 0;
    while j < |ps|
      invariant 0 <= j <= |ps|
      invariant repository.Valid()
      invariant repository.seeds == CacheAll(old(repository.seeds), ps[..j], now)
      invariant repository.scores == old(repository.scores) && repository.snapshots == old(repository.snapshots)
    {
      CacheAllSnoc(old(repository.seeds), ps[..j], ps[j], now);
      assert ps[..j + 1] == ps[..j] + [ps[j]];
      repository.CacheProduct(ps[j], now);
      j := j + 1;
    }
    assert ps[..j] == ps;
  }

  /** Sends one request and parses the answer with `parse_items_response`. */
  method Ask(client: Client, req: Request, now: DateTime, ghost parse: Parser, ghost n: nat)
    returns (r: Result<seq<ProductDetails>, Fault>)
    requires forall j {:trigger ParsedResponse(j, now)} :: parse(j) == ParsedResponse(j, now)
    requires |client.log| == n
    modifies client
    ensures client.log == old(client.log) + [req]
    ensures r == Reply(client.respond, n, req, parse)
  {
    var response;
    match req {
      case GetItems(ids) =>
        response := client.GetItems(ids);
      case SearchItems(keywords, node, page) =>
        response := client.SearchItems(keywords, node, page);
    }
    if response.Err? {
      return Err(response.error);
    }
    r := ParseItemsResponse(response.value, now);
  }

  /** One lookup: request the batch, parse the answer, cache its products. */
  method FetchOne(client: Client, repository: DataRepository, batch: seq<string>, now: DateTime,
                  ghost parse: Parser, ghost n: nat)
    returns (r: Result<seq<ProductDetails>, Fault>)
    requires forall j {:trigger ParsedResponse(j, now)} :: parse(j) == ParsedResponse(j, now)
    requires repository.Valid() && |client.log| == n
    modifies client, repository
    ensures repository.Valid()
    ensures client.log == old(client.log) + [Request.GetItems(batch)]
    ensures r == Answer(client.respond, n, batch, parse)
    ensures repository.seeds == if r.Ok? then CacheAll(old(repository.seeds), r.value, now) else old(repository.seeds)
    ensures repository.scores == old(repository.scores) && repository.snapshots == old(repository.snapshots)
  {
    r := Ask(client, Request.GetItems(batch), now, parse, n);
    if r.Ok? {
      CacheEach(repository, r.value, now);
    }
  }

  /** Looks up `ids` ten at a time and caches every product returned, as
      `ingest` and `collect_candidates` both do. The result is the run's
      outcome as `Fetch` describes it: the requests sent, the seeds table
      with every fetched product cached, and the fetched products or the
      fault that ended the run. */
  method FetchBatches(client: Client, repository: DataRepository, ids: seq<string>, now: DateTime)
    returns (r: Result<seq<ProductDetails>, Fault>)
    requires repository.Valid()
    modifies client, repository
    ensures repository.Valid()
    ensures var o := Fetch(client.respond, |old(client.log)|, Chunks(ids, 10), ParserAt(now));
      && client.log == old(client.log) + Requests(Chunks(ids, 10)[..o.sent])
      && repository.seeds == CacheAll(old(repository.seeds), o.fetched, now)
      && r == (if o.fault.Some? then Err(o.fault.value) else Ok(o.fetched))
    ensures repository.scores == old(repository.scores) && repository.snapshots == old(repository.snapshots)
  {
    var chunked := ChunkedSequence(ids, 10);
    var batches := chunked.value;
    assert batches == Chunks(ids, 10);
    r := FetchEach(client, repository, batches, now, ParserAt(now));
  }

  /** One turn of the loop in `FetchEach`: the run over one more batch. */
  method FetchStep(client: Client, repository: DataRepository, batches: seq<seq<string>>, b: nat,
                   fetched: seq<ProductDetails>, now: DateTime, ghost parse: Parser,
                   ghost base: nat, ghost seeds0: map<string, ProductDetails>)
    returns (fetched': seq<ProductDetails>, fault: Option<Fault>)
    requires forall j {:trigger ParsedResponse(j, now)} :: parse(j) == ParsedResponse(j, now)
    requires repository.Valid() && b < |batches| && |client.log| == base + b
    requires Fetch(client.respond, base, batches[..b], parse) == Outcome(b, fetched, None)
    requires repository.seeds == CacheAll(seeds0, fetched, now)
    modifies client, repository
    ensures repository.Valid()
    ensures Fetch(client.respond, base, batches[..b + 1], parse) == Outcome(b + 1, fetched', fault)
    ensures client.log == old(client.log) + [Request.GetItems(batches[b])]
    ensures repository.seeds == CacheAll(seeds0, fetched', now)
    ensures repository.scores == old(repository.scores) && repository.snapshots == old(repository.snapshots)
  {
    var items := FetchOne(client, repository, batches[b], now, parse, base + b);
    FetchNext(client.respond, base, batches, b, parse, fetched, items);
    if items.Ok? {
      CacheAllAppend(seeds0, fetched, items.value, now);
      fetched', fault := fetched + items.value, None;
    } else {
      fetched', fault := fetched, Some(items.error);
    }
  }

  /** `for batch in batches: ...`: the lookups of a run, one batch at a time. */
  method FetchEach(client: Client, repository: DataRepository, batches: seq<seq<string>>, now: DateTime,
                   ghost parse: Parser)
    returns (r: Result<seq<ProductDetails>, Fault>)
    requires forall j {:trigger ParsedResponse(j, now)} :: parse(j) == ParsedResponse(j, now)
    requires repository.Valid()
    modifies client, repository
    ensures repository.Valid()
    ensures var o := Fetch(client.respond, |old(client.log)|, batches, parse);
      && client.log == old(client.log) + Requests(batches[..o.sent])
      && repository.seeds == CacheAll(old(repository.seeds), o.fetched, now)
      && r == (if o.fault.Some? then Err(o.fault.value) else Ok(o.fetched))
    ensures repository.scores == old(repository.scores) && repository.snapshots == old(repository.snapshots)
  {
    ghost var log0, seeds0 := client.log, repository.seeds;
    ghost var scores0, snapshots0 := repository.scores, repository.snapshots;
    ghost var base := |log0|;
    var fetched: seq<ProductDetails> := [];
    var fault: Option<Fault> := None;
    var b := 0;
    while b < |batches| && fault.None?
      invariant 0 <= b <= |batches|
      invariant repository.Valid()
      invariant Fetch(client.respond, base, batches[..b], parse) == Outcome(b, fetched, fault)
      invariant client.log == log0 + Requests(batches[..b]) && |client.log| == base + b
      invariant repository.seeds == CacheAll(seeds0, fetched, now)
      invariant repository.scores == scores0 && repository.snapshots == snapshots0
    {
      RequestsStep(log0, batches, b);
      fetched, fault := FetchStep(client, repository, batches, b, fetched, now, parse, base, seeds0);
      b := b + 1;
    }
    if fault.Some? {
      FetchStops(client.respond, base, batches, b, parse);
    } else {
      assert batches[..b] == batches;
    }
    r := if fault.Some? then Err(fault.value) else Ok(fetched);
  }
}
