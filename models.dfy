/** The records the pipeline passes around: a product as fetched from the
    catalog, one scored competitor of a seed, one snapshot row, and the
    working set of one candidate collection. */
module Models {
  import opened Wrappers
  import opened Strings
  import opened Payload

  /** A point in time, kept as the ISO-8601 text `isoformat()` writes for it
      (never empty); the store keeps exactly this text. */
  type DateTime = s: string | s != "" witness "1970-01-01T00:00:00"

  datatype ProductDetails = ProductDetails(
    asin: string,
    title: string,
    description: string,
    bulletPoints: seq<string>,
    bestSellerRank: Option<int>,
    category: Option<string>,
    subcategory: Option<string>,
    reviewCount: Option<int>,
    reviewRating: Option<real>,
    latestReviewText: Option<string>,
    price: Option<real>,
    currency: Option<string>,
    raw: map<string, Json>,
    fetchedAt: Option<DateTime>)

  /** `ProductDetails(asin)`: every other field at its default. */
  function NewProduct(asin: string): ProductDetails
  {
    ProductDetails(asin, "", "", [], None, None, None, None, None, None, None, None, map[], None)
  }

  /** The non-empty parts, in order. */
  function NonEmpty(parts: seq<string>): (r: seq<string>)
    ensures |r| <= |parts|
    ensures forall i :: 0 <= i < |r| ==> r[i] != "" && r[i] in parts
  {
    if parts == [] then []
    else (if parts[0] == "" then [] else [parts[0]]) + NonEmpty(parts[1..])
  }

  /** The three parts of the similarity document: title, description, and
      the bullet points joined by single spaces. */
  function TextParts(p: ProductDetails): seq<string>
  {
    [p.title, p.description, Join(" ", p.bulletPoints)]
  }

  /** `merged_text()`: the non-empty parts, one per line. */
  function MergedText(p: ProductDetails): string
  {
    Join("\n", NonEmpty(TextParts(p)))
  }

  datatype CompetitorRecord = CompetitorRecord(
    seedAsin: string,
    competitorAsin: string,
    similarityScore: real,
    price: Option<real>,
    reviewRating: Option<real>,
    reviewCount: Option<int>,
    bestSellerRank: Option<int>,
    capturedAt: DateTime)

  datatype CompetitorSnapshot = CompetitorSnapshot(
    seedAsin: string,
    capturedAt: DateTime,
    competitorAsin: string,
    price: Option<real>,
    reviewRating: Option<real>,
    reviewCount: Option<int>,
    bestSellerRank: Option<int>)

  datatype CandidateCollection = CandidateCollection(
    seedDetails: ProductDetails,
    competitors: seq<ProductDetails>)

  function Keep(part: string): seq<string>
  {
    if part == "" then [] else [part]
  }

  lemma NonEmptyParts(p: ProductDetails)
    ensures NonEmpty(TextParts(p))
      == Keep(p.title) + Keep(p.description) + Keep(Join(" ", p.bulletPoints))
  {
    var parts := TextParts(p);
    var t, d, b := p.title, p.description, Join(" ", p.bulletPoints);
    assert parts[1..] == [d, b];
    assert parts[1..][1..] == [b];
    assert parts[1..][1..][1..] == [];
    assert NonEmpty([b]) == Keep(b) + NonEmpty([]);
    assert NonEmpty([d, b]) == Keep(d) + NonEmpty([b]);
    assert NonEmpty(parts) == Keep(t) + NonEmpty([d, b]);
    assert Keep(t) + (Keep(d) + Keep(b)) == Keep(t) + Keep(d) + Keep(b);
  }

  /** A product built from its ID alone has no text and an empty document. */
  lemma NewProductIsBlank(asin: string)
    ensures var p := NewProduct(asin);
      && p.asin == asin && p.title == "" && p.description == "" && p.bulletPoints == []
      && p.raw == map[] && p.fetchedAt == None
      && MergedText(p) == ""
  {
    NonEmptyParts(NewProduct(asin));
  }

  lemma {:induction false} JoinEmpty(sep: string, parts: seq<string>)
    requires forall i :: 0 <= i < |parts| ==> parts[i] != ""
    ensures Join(sep, parts) == "" <==> parts == []
  {
    if |parts| > 1 {
      JoinEmpty(sep, parts[1..]);
    }
  }

  /** The document is empty exactly when title, description and bullet
      points are all empty. */
  lemma MergedTextEmpty(p: ProductDetails)
    ensures MergedText(p) == "" <==> (p.title == "" && p.description == "" && Join(" ", p.bulletPoints) == "")
  {
    NonEmptyParts(p);
    JoinEmpty("\n", NonEmpty(TextParts(p)));
  }

  /** When no part holds a line break, the lines of the document are the
      non-empty parts in the order title, description, bullet points, so the
      document has one line break fewer than it has non-empty parts. */
  lemma MergedTextLines(p: ProductDetails)
    requires forall i :: 0 <= i < 3 ==> '\n' !in TextParts(p)[i]
    requires MergedText(p) != ""
    ensures Split('\n', MergedText(p)) == NonEmpty(TextParts(p))
    ensures Count('\n', MergedText(p)) == |NonEmpty(TextParts(p))| - 1
  {
    var parts := NonEmpty(TextParts(p));
    assert parts != [];
    SplitJoin('\n', parts);
    JoinCount('\n', parts);
  }

  /** A product with only a title has the title as its document. */
  lemma MergedTextTitleOnly(p: ProductDetails)
    requires p.description == "" && Join(" ", p.bulletPoints) == ""
    ensures MergedText(p) == p.title
  {
    NonEmptyParts(p);
  }

  /** The title leads the document, and the bullet points close it. */
  lemma MergedTextOrder(p: ProductDetails)
    ensures p.title != "" ==> |p.title| <= |MergedText(p)| && MergedText(p)[..|p.title|] == p.title
    ensures var b := Join(" ", p.bulletPoints);
      b != "" ==> |b| <= |MergedText(p)| && MergedText(p)[|MergedText(p)| - |b|..] == b
  {
    NonEmptyParts(p);
    var parts := NonEmpty(TextParts(p));
    if parts != [] {
      JoinEnds("\n", parts);
    }
  }
}
