# SA Matcher core, modelled in Dafny

SA Matcher starts from a *seed* product of the Amazon catalog and builds a
ranked list of its competitors:

1. Seed IDs (ASINs) are normalised (stripped, upper-cased, deduplicated).
   The ones not cached yet are looked up ten at a time through the Product
   Advertising API's `GetItems`, and every product parsed from an answer is
   cached.
2. For one seed, candidates are gathered from three places:
   - the related products in its raw payload;
   - a keyword search on its title, page by page;
   - a search of its browse nodes.

   The first 70 candidate IDs are looked up and cached. Without a refresh,
   the cached products other than the seed serve as the candidates instead.
3. The seed's text and each candidate's text go to a similarity engine. One
   record per scored candidate is built, ranked by descending score, stored
   as the current score of each (seed, competitor) pair and appended to the
   snapshot history.
4. The stored scores are read back best first (optionally capped) or written
   out as CSV.

The model follows the program file by file.

| module | what it models |
|---|---|
| `Models` | The records; `merged_text` (`MergedText`). |
| `Utils` | `chunked`, both of its paths, as the methods `ChunkedSequence` and `ChunkedIterable`. Both are specified by `Chunks`. |
| `Parsers` | `_get_nested`, `_ensure_list`, `_safe_int`, `_safe_float`, `extract_product_details`, `parse_items_response` and `extract_related_asins`. |
| `Catalog` | The client as seen by the pipeline: a request log plus an answer function of (request index, request). |
| `Repository` | The store as a class with three map-valued tables (`seeds`, `scores`, `snapshots`) keyed by their SQL primary keys. Its methods are the SQL statements; `dt_from_iso` and the CSV export are here too. |
| `Fetching` | The batch lookup loop that `ingest` and `collect_candidates` share. |
| `SeedManagement` | `SeedManager.ingest` and `get_seed_details`. |
| `Competitors` | `collect_candidates`, `analyse` and `top_competitors`. |

The helper modules `Strings`, `Numbers` and `Payload` give the Python
operations the core relies on, each defined once:
- `Strings`: `strip`, `upper`, `join` and `split`, and the code-point order of TEXT keys;
- `Numbers`: `int()`, `float()`, `str()` of numbers and the `:.4f` format;
- `Payload`: JSON values, truthiness, `x or y`, `d.get`, `d[k]`, `x[0]` and `str()`.

A Python exception raised by indexing a payload of the wrong shape becomes
`Err(Malformed)`, and a non-success HTTP status becomes `Err(Transport(..))`.
Either ends the operation, as the exception does.

The code runs imperatively: the loops of `ingest`, `collect_candidates`,
`analyse`, the parsers and the repository. It is modelled by methods, each
proved against a function that specifies the whole run (`Fetch`,
`Collect`, `Candidates`, `Analysis`, `ParsedResponse`, `Related`,
`Upserts`, `InsertIgnore`, `Chunks`). Lemmas then state what those
functions guarantee.

## Model

| member | source | states |
|---|---|---|
| Models.NonEmptyParts | src/sa_matcher/models.py:26-28 | The parts kept for the document are title, description and space-joined bullet points, in that order, each only when non-empty |
| Models.NewProductIsBlank | src/sa_matcher/models.py:10-24 | A product built from its ASIN alone has every field at its default and an empty document |
| Models.MergedTextEmpty | src/sa_matcher/models.py:26-28 | The document is empty exactly when title, description and joined bullet points are all empty |
| Models.MergedTextLines | src/sa_matcher/models.py:26-28 | When no part holds a line break, splitting the document on line breaks gives back the non-empty parts, and it holds one line break fewer than non-empty parts |
| Models.MergedTextTitleOnly | src/sa_matcher/models.py:26-28 | A product with only a title has the title as its document |
| Models.MergedTextOrder | src/sa_matcher/models.py:26-28 | The title leads the document and the joined bullet points end it |
| Utils.ChunkedSequence | src/sa_matcher/utils.py:13-22 | A size of at most 0 is an error; otherwise the result is the consecutive slices `Chunks(xs, size)` |
| Utils.ChunkedIterable | src/sa_matcher/utils.py:13-31 | The bucket-filling loop yields exactly the same batches as the slicing path, and the same error for a size of at most 0 |
| Utils.ChunksFlatten | src/sa_matcher/utils.py:20-21 | Concatenating the batches gives back the input: nothing is lost, repeated or reordered |
| Utils.ChunksSizes | src/sa_matcher/utils.py:20-21 | Every batch but the last holds exactly `size` items; the last holds between 1 and `size` |
| Utils.ChunksCount | src/sa_matcher/utils.py:20-21 | There are ceil(len / size) batches, and none for an empty input |
| Parsers.GetNested | src/sa_matcher/parsers.py:90-97 | The loop gives `Walk(data, keys)`: the value at the end of the path, or None once a value is not a dict or a key is missing |
| Parsers.WalkAppend | src/sa_matcher/parsers.py:90-97 | Walking a path in two legs is walking it at once |
| Parsers.WalkFound | src/sa_matcher/parsers.py:90-97 | A walk that finds a value passed through a dict holding each key with a non-None value |
| Parsers.EnsureListShape | src/sa_matcher/parsers.py:100-105 | False values give [], a list gives the `str()` of each element in order, any other value gives a one-item list of its `str()` |
| Parsers.EnsureListTexts | src/sa_matcher/parsers.py:100-105 | A list of texts comes back unchanged; a non-empty text comes back as a one-item list |
| Parsers.SafeNumbers | src/sa_matcher/parsers.py:108-119 | Apart from text, `_safe_int` and `_safe_float` accept the same values, and there the int is the float cut toward zero. None, lists and dicts give None. The text of an int and the `:.4f` text of a number read back |
| Payload.ReprEscapes | src/sa_matcher/parsers.py:104 | `str()` of a list shows a text element through `repr`, quoting it and writing a non-printable Latin-1 character such as the no-break space as a `\xNN` escape |
| Payload.StrRoundTrip | src/sa_matcher/parsers.py:104 | `str()` of an int reads back with `int()`, and `str()` of a text is the text |
| Parsers.ExtractProductDetails | src/sa_matcher/parsers.py:10-64 | It succeeds exactly when categories, rank, reviews and offer are well-shaped. Then asin, raw payload and fetch time are the item's, ASIN and time; title, description and bullet points come from their nested paths; price and currency come from the offer; review count comes from the reviews |
| Parsers.ExtractBare | src/sa_matcher/parsers.py:10-64 | An item holding only its ASIN gives the bare product of that ASIN, keeping the item as raw payload |
| Parsers.OfferFromListing | src/sa_matcher/parsers.py:34-41 | With listings, price and currency come from the first listing's `Price` |
| Parsers.OfferFromSummary | src/sa_matcher/parsers.py:42-46 | Without listings, price and currency come from the first summary's `LowestPrice` |
| Parsers.OfferAbsent | src/sa_matcher/parsers.py:34-36 | With no offers there is neither price nor currency |
| Parsers.ReviewCountFallback | src/sa_matcher/parsers.py:27-28 | The review count is the total when that is true, else the plain count |
| Parsers.ParseItemsResponse | src/sa_matcher/parsers.py:67-75 | The loop gives `ParsedResponse`: items without an ASIN are skipped and the others are extracted in order; the first malformed item fails the parse |
| Parsers.ParseItemsErr | src/sa_matcher/parsers.py:70-74 | Once a prefix of the items fails, the whole parse fails with the same fault |
| Parsers.ParseOneKeeps | src/sa_matcher/parsers.py:71-74 | An item yields a product exactly when it is a dict with a non-empty ASIN, and that product carries the dict and the ASIN |
| Parsers.ParseItemsKeeps | src/sa_matcher/parsers.py:67-75 | A successful parse keeps exactly the items with an ASIN, in order, each as its product's raw payload, so there are never more products than items |
| Parsers.ParseEmptyResponse | src/sa_matcher/parsers.py:68 | A response without `ItemsResult`, or whose `ItemsResult` has no `Items`, gives no products |
| Parsers.ExtractRelatedAsins | src/sa_matcher/parsers.py:78-87 | The loop gives `Related(item)`: the ASIN of each related product with identifiers, in order; a malformed entry fails |
| Parsers.RelatedErr | src/sa_matcher/parsers.py:82-86 | Once a prefix of the entries fails, the whole extraction fails with the same fault |
| Parsers.RelatedInOrder | src/sa_matcher/parsers.py:78-87 | Entries that all carry an ASIN give those ASINs in payload order, repetitions included |
| Parsers.RelatedBounds | src/sa_matcher/parsers.py:78-87 | Every related ASIN is non-empty, and there are never more of them than entries |
| Catalog.Client.GetItems | src/sa_matcher/paapi_client.py:91-100 | One `GetItems` request for the given IDs is logged, and the answer is the catalog's answer to it |
| Catalog.Client.SearchItems | src/sa_matcher/paapi_client.py:102-124 | One `SearchItems` request (keywords or browse node, page) is logged, and the answer is the catalog's answer to it |
| Repository.DataRepository.constructor | src/sa_matcher/repository.py:19-22 | A fresh store has three empty tables and satisfies the key invariant |
| Repository.DataRepository.CacheProduct | src/sa_matcher/repository.py:75-117 | Inserts or replaces the row under the product's ASIN, defaulting the fetch time to now. Then `get_product` of that ASIN answers the product without its fetch time, and every other ASIN answers as before |
| Repository.DataRepository.GetProduct | src/sa_matcher/repository.py:119-138 | Some exactly for a cached ASIN, and then the cached row without `fetched_at` |
| Repository.DataRepository.ListSeedAsins | src/sa_matcher/repository.py:140-143 | Every cached ASIN exactly once, in ascending code-point order |
| Repository.InsertAscending | src/sa_matcher/repository.py:142 | Putting a new key into an ascending list keeps it ascending, adds that key and nothing else |
| Repository.AscendingUnique | src/sa_matcher/repository.py:142 | Two ascending lists with the same elements are equal, so the order of the ASIN listing is fully determined |
| Repository.DataRepository.StoreCompetitorScores | src/sa_matcher/repository.py:145-174 | The score table becomes `Upserts(old, records)`: each record is upserted in order |
| Repository.UpsertsLastWins | src/sa_matcher/repository.py:153-159 | For a key the batch writes, the row is the last record with that key |
| Repository.UpsertsUntouched | src/sa_matcher/repository.py:145-174 | A key the batch does not write keeps its row, or stays absent |
| Repository.UpsertsOnKeys | src/sa_matcher/repository.py:153-159 | On the keys the batch writes, the old table does not matter |
| Repository.UpsertsKeys | src/sa_matcher/repository.py:145-174 | The table holds the old keys plus the batch's keys, and nothing else |
| Repository.UpsertsIdempotent | src/sa_matcher/repository.py:145-174 | Storing the same batch twice leaves the table as storing it once |
| Repository.DataRepository.AppendSnapshot | src/sa_matcher/repository.py:176-197 | The snapshot table becomes `InsertIgnore(old, records)`: each record's snapshot is inserted unless its key exists |
| Repository.InsertIgnoreKeeps | src/sa_matcher/repository.py:180 | A snapshot already present is never modified |
| Repository.InsertIgnoreFirstWins | src/sa_matcher/repository.py:180-196 | A new key gets the snapshot of the first record of the batch carrying it |
| Repository.InsertIgnoreAbsent | src/sa_matcher/repository.py:180-196 | A key neither present nor carried by a record stays absent |
| Repository.InsertIgnoreKeys | src/sa_matcher/repository.py:176-197 | The table holds the old keys plus the batch's keys |
| Repository.InsertIgnoreIdempotent | src/sa_matcher/repository.py:176-197 | Appending the same batch again changes nothing |
| Repository.InsertDescendingKeys | src/sa_matcher/repository.py:203 | Placing a row by score adds its key and only that, brings in no other row, and keeps keys distinct when the key is new |
| Repository.DistinctCount | src/sa_matcher/repository.py:59 | Rows with pairwise different keys have as many keys as rows |
| Repository.DataRepository.SelectBySeed | src/sa_matcher/repository.py:202-203 | Exactly the seed's rows of the score table, each once, by descending score |
| Repository.DataRepository.CompetitorsForSeed | src/sa_matcher/repository.py:199-222 | The seed's stored rows by descending score, each its table row. With no positive limit, all of them. With a positive limit, min(limit, count) of them, and every row left out scores no more than any row kept |
| Repository.DataRepository.ExportCompetitorsToCsv | src/sa_matcher/repository.py:224-248 | The header line, then one line per row of the seed by descending score, each from its table row |
| Repository.CsvRowCells | src/sa_matcher/repository.py:233-248 | When ASINs and capture time hold no comma, a line splits back into its eight cells. The similarity reads back as the score rounded to 4 decimals, and exactly the missing numbers are empty cells |
| Repository.CsvCellsExample | src/sa_matcher/repository.py:235-246 | A typical row is written with 4 decimals for the similarity, `str()` for the other numbers and empty cells for missing ones |
| Numbers.Fixed4Spec | src/sa_matcher/repository.py:239 | `:.4f` text has 4 digits after the point, reads back as the half-even rounding to 4 decimals, and that rounding is within 0.00005 of the score |
| Numbers.ParseIntText | src/sa_matcher/parsers.py:108-112 | `int()` reads the `str()` of an int back as that int |
| Repository.DtFromIso | src/sa_matcher/repository.py:251-254 | None exactly for empty text, otherwise the instant the text names |
| Fetching.Run | src/sa_matcher/seed_manager.py:28-34 | A run sends every batch unless a fault stopped it, and it stops early only on a fault |
| Fetching.RunOutcome | src/sa_matcher/seed_manager.py:28-34 | A fault is the error of the last answer read, and every answer before it succeeded; the products are those of the successful answers read, in batch order (`Gained`, defined independently) |
| Fetching.RunStops | src/sa_matcher/seed_manager.py:28-34 | Once a fault ends a run, later answers change nothing |
| Fetching.FetchStops | src/sa_matcher/competitor_service.py:66-71 | A run that has met a fault sends no further batch |
| Fetching.AnswersPrefix | src/sa_matcher/seed_manager.py:28-30 | The answers to a prefix of the batches are a prefix of the answers |
| Fetching.CacheAllAppend | src/sa_matcher/seed_manager.py:31-33 | Caching two runs one after the other is caching their concatenation |
| Fetching.CacheAllKeys | src/sa_matcher/seed_manager.py:31-33 | Caching adds exactly the products' ASINs to the table |
| Fetching.CacheAllLastWins | src/sa_matcher/seed_manager.py:31-33 | Of several cached products sharing an ASIN, the last is kept |
| Fetching.CacheAllUntouched | src/sa_matcher/seed_manager.py:31-33 | An ASIN none of the products has keeps its row, or stays absent |
| Fetching.CacheEach | src/sa_matcher/seed_manager.py:31-33 | Caching the products one by one leaves the seeds table as `CacheAll`, and the other tables unchanged |
| Fetching.FetchOne | src/sa_matcher/competitor_service.py:67-71 | One `GetItems` request for the batch is logged and its parsed answer returned; on success its products are cached |
| Fetching.FetchEach | src/sa_matcher/seed_manager.py:28-34 | The lookups leave the log, the seeds table and the result as `Fetch` describes: batches in order until the first fault, with every product before it cached |
| Fetching.FetchBatches | src/sa_matcher/seed_manager.py:28-34 | The same for `chunked(ids, 10)` |
| SeedManagement.NormalizeMembers | src/sa_matcher/seed_manager.py:19 | The normalised IDs are exactly the stripped and upper-cased forms of the non-blank inputs |
| SeedManagement.NormalizeSound | src/sa_matcher/seed_manager.py:19 | Every normalised ID comes from a non-blank input |
| SeedManagement.NormalizeComplete | src/sa_matcher/seed_manager.py:19 | Every non-blank input's normal form is kept |
| SeedManagement.NormalizeDistinct | src/sa_matcher/seed_manager.py:19 | No ID is kept twice |
| SeedManagement.NormalizePrefix | src/sa_matcher/seed_manager.py:19 | IDs stay in the order of their first occurrences: more input never reorders or drops an ID already kept |
| SeedManagement.NormalIdempotent | src/sa_matcher/seed_manager.py:19 | Normalising an ID twice changes nothing, and a normal ID has no surrounding blanks |
| SeedManagement.NormalizeOne | src/sa_matcher/seed_manager.py:37-41 | A single ID normalises to itself, or to nothing when blank |
| SeedManagement.ToFetchMembers | src/sa_matcher/seed_manager.py:22-26 | An ID is looked up exactly when the run is forced or the ID is not cached; a forced run looks up all IDs in order |
| SeedManagement.AllCached | src/sa_matcher/seed_manager.py:22-34 | When every ID is cached and the run is not forced, nothing is requested, cached or returned |
| SeedManagement.IngestBatches | src/sa_matcher/seed_manager.py:28 | The IDs go out in order, at most ten per request, and no batch is empty |
| SeedManagement.SeedManager.Ingest | src/sa_matcher/seed_manager.py:18-34 | The log, the seeds table and the result are those of `Fetch` over `chunked(ToFetch(Normalize(asins)), 10)`; the score tables are untouched |
| SeedManagement.SeedManager.GetSeedDetails | src/sa_matcher/seed_manager.py:36-42 | A cached seed is answered with no request unless refreshing. Otherwise the forced ingest of its normal ID runs, and the answer is its first product, nothing when there is none, or its fault |
| SeedManagement.BlankSeed | src/sa_matcher/seed_manager.py:36-42 | A blank ID is never requested, and the lookup it falls back to finds nothing |
| Competitors.Head | src/sa_matcher/competitor_service.py:33 | Python's `xs[:n]`: a prefix of min(n, len) items, with a negative n counting from the end |
| Competitors.AbsorbItems | src/sa_matcher/competitor_service.py:36-41 | The loop over one page's hits gives `Absorb`: unseen hits are appended and marked seen, until the list is full |
| Competitors.AbsorbClean | src/sa_matcher/competitor_service.py:36-41 | Absorbing hits keeps the search part of the list free of repetitions and of the seed's ASIN |
| Competitors.PagesClean | src/sa_matcher/competitor_service.py:34-43 | So does a run of search pages |
| Competitors.NodesClean | src/sa_matcher/competitor_service.py:45-63 | So does the browse-node search |
| Competitors.GatheredClean | src/sa_matcher/competitor_service.py:26-63 | The gathered IDs start with the related ASINs in payload order, repetitions and the seed's own ASIN included. Every ID a search adds after them is new and is not the seed's ASIN |
| Competitors.PagesRequests | src/sa_matcher/competitor_service.py:34-43 | The keyword search asks for pages 1, 2, ... in order with the same query, never beyond the limit, and stops early only on a fault or a full list |
| Competitors.FullStillAsks | src/sa_matcher/competitor_service.py:34-43 | When the list is already full, the first page is still requested and nothing after it |
| Competitors.NodesRequests | src/sa_matcher/competitor_service.py:45-63 | Every browse-node request names the ID text of a node that has one (its own or its ancestor's), has no keywords, and asks for a page in 1..min(limit, 3) |
| Competitors.ResolvedIds | src/sa_matcher/competitor_service.py:66 | The IDs looked up are the first `max_candidates` gathered, in order, at most ten per request |
| Competitors.CompetitorService.SearchPages | src/sa_matcher/competitor_service.py:34-43 | The page loop leaves the IDs, the seen set, the log and the fault as `Pages` describes |
| Competitors.CompetitorService.SearchNodes | src/sa_matcher/competitor_service.py:45-63 | The node loop leaves them as `Nodes` describes |
| Competitors.CompetitorService.CollectCandidates | src/sa_matcher/competitor_service.py:26-72 | The result, the log and the seeds table are those of `Collect`: gather the IDs, look up the first `max_candidates` ten at a time and cache every product; the score tables are untouched |
| Competitors.CompetitorService.CachedCandidates | src/sa_matcher/competitor_service.py:79-84 | The candidates are the cached products other than the seed, in listing order |
| Competitors.CachedPoolShape | src/sa_matcher/competitor_service.py:79-84 | That pool holds one row per cached product other than the seed, each as `get_product` answers it, in ascending ASIN order |
| Competitors.FromCacheMembers | src/sa_matcher/competitor_service.py:79-84 | The pool's ASINs are exactly the listed ASINs that are cached and are not the seed's |
| Competitors.FromCacheAscending | src/sa_matcher/competitor_service.py:79-84 | Taking the pool keeps the listing's ascending order |
| Competitors.Documents | src/sa_matcher/similarity.py:26 | The documents are the seed's merged text first, then each candidate's, in order |
| Competitors.Zip | src/sa_matcher/competitor_service.py:93-104 | One record per (candidate, score) pair, as many as the shorter list |
| Competitors.BuildRecords | src/sa_matcher/competitor_service.py:92-104 | The record loop gives `Zip` |
| Competitors.Ranked | src/sa_matcher/competitor_service.py:105 | The ranking is in descending score order and has as many records as its input |
| Competitors.RankedPermutation | src/sa_matcher/competitor_service.py:105 | The ranking is a permutation of the records |
| Competitors.RankedStable | src/sa_matcher/competitor_service.py:105 | The ranking is stable: records with equal scores keep their order |
| Competitors.InsertStable | src/sa_matcher/competitor_service.py:105 | Placing one record appends it after the records of its own score |
| Competitors.AnalysisRecords | src/sa_matcher/competitor_service.py:88-108 | The answered records are the zipped records, ranked by descending score stably and as a permutation. Each names the seed and carries the one capture time of the run |
| Competitors.CompetitorService.Analyse | src/sa_matcher/competitor_service.py:74-108 | The candidates, log and seeds table are those of `Candidates` (cached unless refreshing or none, else collected), and the answer is `Analysis`. On success the records are upserted into the scores and appended to the snapshots; on failure those tables are untouched |
| Competitors.CompetitorService.TopCompetitors | src/sa_matcher/competitor_service.py:110-111 | The seed's stored rows by descending score. With a positive limit there are min(limit, count) of them and none left out scores higher; otherwise all of them |

## Left out

- HTTP and request signing (`paapi_client.py`): the catalog's answer to the
  n-th request is a function parameter of the client, and a non-success
  status is `Transport`.
  - `get_variations` is not used by the core and is not modelled.
  - The request payload beyond IDs, keywords, browse node and page is not
    modelled (resources, partner tag, marketplace).
- The similarity engine (`similarity.py`) is TF-IDF with cosine similarity
  in scikit-learn. It is the parameter `scorer`, from the documents to a
  list of scores or a refusal. The scores it gives are not modelled, only
  which documents it gets and how its scores are used.
- `now_utc()` is the parameter `now`. `analyse` and a lookup run read the
  clock once each; `extract_product_details` and `cache_product` reading
  it again during the same run is taken to give the same instant.
- `datetime` values are the ISO text `isoformat()` writes, and
  `fromisoformat` reads that text back as the same instant; date
  arithmetic is not modelled.
- SQLite: connections, transactions, the schema script and the database
  path are not modelled. Each table is a map keyed by its primary key.
  - JSON encoding of bullet points and raw payloads is taken to read back
    exactly.
  - A statement that fails half-way is not modelled.
- Repository.DataRepository.CompetitorsForSeed: `ORDER BY similarity_score
  DESC` leaves the order of equal scores to SQLite. The contract states only
  descending order, the exact set of rows (or the best `limit` of them) and
  that each row is its table row, not which tied row comes first.
- Repository.DataRepository.ExportCompetitorsToCsv: the file is modelled by
  the text written to it. The directory creation, the encoding and a write
  that fails are not modelled.
- Repository.CsvRowCells: the round trip needs ASINs and capture time free
  of commas, because the source writes cells without CSV quoting.
- Numbers.FloatRepr: Python's shortest round-trip `repr` of a float is
  modelled as the exact decimal expansion of the value, cut at 17
  fractional digits. Floats are reals, so rounding of binary floating
  point is not modelled either.
- Numbers.ParseInt and Numbers.ParseReal: `int()` and `float()` of text
  accept optional surrounding white space, an optional sign and ASCII
  digits (with one point for floats). Underscores, exponents, `inf`, `nan`
  and non-ASCII digits are not modelled.
- Strings.Upper: `upper()` changes ASCII letters only.
- Parsers.ExtractProductDetails: an ASIN, title, description, category,
  currency or review text that holds a JSON value other than text is read
  as absent. Python would carry the foreign value into the record.
- Parsers.ExtractRelatedAsins: a related entry whose ASIN is truthy but not
  text (a number, say) is dropped. Python appends that value to the list.
- Parsers.ParseItemsResponse: an item whose ASIN is truthy but not text is
  skipped. Python keeps it and extracts a product with that value as ASIN.
- Repository.DtFromIso: the only non-empty text ever read is what
  `isoformat()` wrote, and that text is read as the instant it names. Other
  text makes `fromisoformat` raise `ValueError` in Python, and that error
  is not modelled.
- Payload.Repr: inside a text, `repr` escapes the backslash, the quote,
  `\n`, `\r`, `\t` and the non-printable Latin-1 characters (`\xNN`). Beyond
  U+00FF it copies every character unchanged, where Python writes a
  `\uNNNN` or `\UNNNNNNNN` escape for the ones its Unicode database does not
  count as printable (`\u200b`, for example). That database is not modelled,
  so for such characters in a nested text `Parsers.EnsureListShape`'s `str()`
  differs from Python's.
- Repository.DataRepository.CacheProduct: SQLite's INTEGER holds signed 64
  bits, and Python's `sqlite3` raises `OverflowError` when a `review_count`
  or `best_seller_rank` of at least 2^63 (or below -2^63) is bound. The
  model's integers are unbounded, so it caches such a product and `ingest`
  and `collect_candidates` go on; the overflow failure is not modelled.
- `_ensure_list`: `str()` of a dict element is modelled as `{}` when empty
  and as a fixed placeholder otherwise, because the key order of a printed
  dict is not modelled.
- `competitor_summary` (a pandas DataFrame of `top_competitors`),
  `export_to_csv`'s path conversion, the dashboard, the CLI, the
  configuration, `ensure_directory`, `dumps_json` and `load_json` are not
  part of this model.
