/** Turning catalog answers into product records: walking nested keys,
    lenient number conversions, and the extraction of one item, of an item
    list and of the related product IDs.

    Every `x.get(...)`, `x[key]` and `x[0]` the Python code applies to a
    value of the wrong shape raises; here it is `Err(Malformed)`. */
module Parsers {
  import opened Wrappers
  import opened Strings
  import opened Numbers
  import opened Errors
  import opened Payload
  import opened Models

  const EmptyDict := JObj(map[])
  const EmptyList := JArr([])

  /** The value at the end of a key path, or None (JNull) as soon as the
      current value is not a dict or the key is missing or holds None. */
  function Walk(data: Json, keys: seq<string>): Json
  {
    if |keys| == 0 then data
    else if !data.JObj? then JNull
    else
      var next := Get(data.fields, keys[0]);
      if next == JNull then JNull else Walk(next, keys[1..])
  }

  /** Walking a path in two legs is walking it at once. */
  lemma {:induction false} WalkAppend(data: Json, a: seq<string>, b: seq<string>)
    ensures Walk(data, a + b) == Walk(Walk(data, a), b)
  {
    if |a| == 0 {
      assert a + b == b;
    } else if data.JObj? && Get(data.fields, a[0]) != JNull {
      assert (a + b)[0] == a[0];
      assert (a + b)[1..] == a[1..] + b;
      WalkAppend(Get(data.fields, a[0]), a[1..], b);
    }
  }

  /** A walk that finds something passed through a dict holding each key. */
  lemma {:induction false} WalkFound(data: Json, keys: seq<string>, i: nat)
    requires Walk(data, keys) != JNull && i < |keys|
    ensures var here := Walk(data, keys[..i]);
      here.JObj? && keys[i] in here.fields && here.fields[keys[i]] != JNull
  {
    var here := Walk(data, keys[..i]);
    WalkAppend(data, keys[..i], keys[i..]);
    assert keys[..i] + keys[i..] == keys;
    assert keys[i..][0] == keys[i];
  }

  /** `_get_nested(data, *keys)`. */
  method GetNested(data: Json, keys: seq<string>) returns (r: Json)
    ensures r == Walk(data, keys)
  {
    var cur := data;
    for i := 0 to |keys|
      invariant cur == Walk(data, keys[..i])
    {
      if !cur.JObj? {
        WalkAppend(data, keys[..i], keys[i..]);
        assert keys[..i] + keys[i..] == keys;
        return JNull;
      }
      WalkAppend(data, keys[..i], [keys[i]]);
      assert keys[..i + 1] == keys[..i] + [keys[i]];
      cur := Get(cur.fields, keys[i]);
      if cur == JNull {
        WalkAppend(data, keys[..i + 1], keys[i + 1..]);
        assert keys[..i + 1] + keys[i + 1..] == keys;
        return JNull;
      }
    }
    assert keys[..|keys|] == keys;
    return cur;
  }

  /** `_ensure_list(value)`: nothing for a false value, `str()` of each
      element of a list, otherwise `str()` of the value alone. */
  function EnsureList(value: Json): seq<string>
  {
    if !Truthy(value) then []
    else if value.JArr? then seq(|value.items|, i requires 0 <= i < |value.items| => Str(value.items[i]))
    else [Str(value)]
  }

  /** One entry per element for a list, one for any other true value, and
      each entry is the `str()` of its element, in order. */
  lemma EnsureListShape(value: Json)
    ensures var r := EnsureList(value);
      && |r| == (if !Truthy(value) then 0 else if value.JArr? then |value.items| else 1)
      && (Truthy(value) && value.JArr? ==> forall i :: 0 <= i < |r| ==> r[i] == Str(value.items[i]))
      && (Truthy(value) && !value.JArr? ==> r == [Str(value)])
  {
  }

  /** A list of texts comes back unchanged, and a lone text as a one-item list. */
  lemma EnsureListTexts(texts: seq<string>, s: string)
    requires s != ""
    ensures EnsureList(JArr(seq(|texts|, i requires 0 <= i < |texts| => JStr(texts[i])))) == texts
    ensures EnsureList(JStr(s)) == [s]
  {
    var value := JArr(seq(|texts|, i requires 0 <= i < |texts| => JStr(texts[i])));
    if texts == [] {
      assert !Truthy(value);
    } else {
      assert Truthy(value);
      assert EnsureList(value) == texts;
    }
  }

  /** `_safe_int(value)`: `int(value)`, with TypeError and ValueError read
      as None. A bool counts as 0 or 1 and a float is cut toward zero. */
  function SafeInt(value: Json): Option<int>
  {
    match value
    case JNull => None
    case JBool(b) => Some(if b then 1 else 0)
    case JInt(i) => Some(i)
    case JFloat(r) => Some(Truncate(r))
    case JStr(s) => ParseInt(s)
    case JArr(_) => None
    case JObj(_) => None
  }

  /** `_safe_float(value)`: `float(value)`, with TypeError and ValueError
      read as None. */
  function SafeFloat(value: Json): Option<real>
  {
    match value
    case JNull => None
    case JBool(b) => Some(if b then 1.0 else 0.0)
    case JInt(i) => Some(i as real)
    case JFloat(r) => Some(r)
    case JStr(s) => ParseReal(s)
    case JArr(_) => None
    case JObj(_) => None
  }

  /** The two conversions accept the same values apart from text, and on
      those `int()` is `float()` cut toward zero; the text of a number reads
      back as that number; None, lists and dicts are refused. */
  lemma SafeNumbers(value: Json, n: int, x: real)
    ensures !value.JStr? ==> (SafeInt(value).Some? <==> SafeFloat(value).Some?)
    ensures !value.JStr? && SafeInt(value).Some? ==> SafeInt(value).value == Truncate(SafeFloat(value).value)
    ensures value.JNull? || value.JArr? || value.JObj? ==> SafeInt(value) == None && SafeFloat(value) == None
    ensures SafeInt(JStr(IntText(n))) == Some(n)
    ensures SafeFloat(JStr(Fixed4(x))) == Some(Rounded4(x))
  {
    ParseIntText(n);
    Fixed4Spec(x);
  }

  /** The ASIN of an item; a value that is not text is read as absent. */
  function AsinOf(item: map<string, Json>): string
  {
    var v := Get(item, "ASIN");
    if v.JStr? then v.s else ""
  }

  /** `value or ""` for a text field. */
  function TextOr(value: Json): string
  {
    if value.JStr? then value.s else ""
  }

  /** Category and subcategory: the display name of the first browse node
      (which must be present once there is a node) and of that node's
      first child. */
  function Categories(item: map<string, Json>): Result<(Option<string>, Option<string>), Fault>
  {
    var info :- AsDict(Or(Get(item, "BrowseNodeInfo"), EmptyDict));
    var nodes := Or(Get(info, "BrowseNodes"), EmptyList);
    if !Truthy(nodes) then Ok((None, None))
    else
      var first :- First(nodes);
      var node :- AsDict(first);
      var name :- Index(node, "DisplayName");
      var children := Get(node, "Children");
      if !Truthy(children) then Ok((Text(name), None))
      else
        var child :- First(children);
        var c :- AsDict(child);
        Ok((Text(name), Text(Get(c, "DisplayName"))))
  }

  /** The amount and currency held under `key` in a listing or summary. */
  function PriceIn(holder: Json, key: string): Result<(Option<real>, Option<string>), Fault>
  {
    var h :- AsDict(holder);
    var info :- AsDict(Or(Get(h, key), EmptyDict));
    Ok((SafeFloat(Get(info, "Amount")), Text(Get(info, "Currency"))))
  }

  /** Price and currency: from the first listing when there are listings,
      else from the lowest price of the first summary, else none. */
  function Offer(item: map<string, Json>): Result<(Option<real>, Option<string>), Fault>
  {
    var offers :- AsDict(Or(Get(item, "Offers"), EmptyDict));
    var listings := Get(offers, "Listings");
    var summaries := Get(offers, "Summaries");
    if Truthy(listings) then
      var listing :- First(listings);
      PriceIn(listing, "Price")
    else if Truthy(summaries) then
      var summary :- First(summaries);
      PriceIn(summary, "LowestPrice")
    else Ok((None, None))
  }

  /** Review count (the total, or the plain count when the total is false),
      star rating and the body of the most recent review. */
  function Reviews(item: map<string, Json>): Result<(Option<int>, Option<real>, Option<string>), Fault>
  {
    var reviews :- AsDict(Or(Get(item, "CustomerReviews"), EmptyDict));
    var count := SafeInt(Or(Get(reviews, "TotalReviewCount"), Get(reviews, "Count")));
    var rating := SafeFloat(Get(reviews, "StarRating"));
    var latest := Get(reviews, "MostRecentReview");
    if Truthy(latest) then
      var review :- AsDict(latest);
      Ok((count, rating, Text(Get(review, "Body"))))
    else Ok((count, rating, None))
  }

  /** The best-seller rank; a false rank is None. */
  function Rank(info: Json): Result<Option<int>, Fault>
  {
    var itemInfo :- AsDict(info);
    var productInfo :- AsDict(Or(Get(itemInfo, "ProductInfo"), EmptyDict));
    Ok(SafeInt(Or(Get(productInfo, "BestSellerRank"), JNull)))
  }

  /** `extract_product_details(item)`, with the clock reading as `now`. */
  function ExtractProductDetails(item: map<string, Json>, now: DateTime): (r: Result<ProductDetails, Fault>)
    ensures r.Ok? ==> r.value.asin == AsinOf(item) && r.value.raw == item && r.value.fetchedAt == Some(now)
    ensures var info := Or(Get(item, "ItemInfo"), EmptyDict);
      r.Ok? ==> && r.value.title == TextOr(Walk(info, ["Title", "DisplayValue"]))
                && r.value.description == TextOr(Walk(info, ["ContentInfo", "ShortDescription"]))
                && r.value.bulletPoints == EnsureList(Walk(info, ["Features", "DisplayValues"]))
    ensures r.Ok? <==> Categories(item).Ok? && Rank(Or(Get(item, "ItemInfo"), EmptyDict)).Ok?
                       && Reviews(item).Ok? && Offer(item).Ok?
    ensures r.Ok? ==> (r.value.price, r.value.currency) == Offer(item).value
    ensures r.Ok? ==> r.value.reviewCount == Reviews(item).value.0
  {
    var info := Or(Get(item, "ItemInfo"), EmptyDict);
    var title := TextOr(Walk(info, ["Title", "DisplayValue"]));
    var features := EnsureList(Walk(info, ["Features", "DisplayValues"]));
    var description := TextOr(Walk(info, ["ContentInfo", "ShortDescription"]));
    var categories :- Categories(item);
    var rank :- Rank(info);
    var reviews :- Reviews(item);
    var offer :- Offer(item);
    Ok(ProductDetails(
      AsinOf(item), title, description, features, rank,
      categories.0, categories.1, reviews.0, reviews.1, reviews.2,
      offer.0, offer.1, item, Some(now)))
  }

  /** An item holding nothing but its ASIN gives the bare product of that
      ASIN, keeping the item as its raw payload. */
  lemma ExtractBare(asin: string, now: DateTime)
    ensures var item := map["ASIN" := JStr(asin)];
      ExtractProductDetails(item, now) == Ok(NewProduct(asin).(raw := item, fetchedAt := Some(now)))
  {
    var item := map["ASIN" := JStr(asin)];
    var info := Or(Get(item, "ItemInfo"), EmptyDict);
    assert info == EmptyDict;
    assert Walk(info, ["Title", "DisplayValue"]) == JNull;
    assert Walk(info, ["ContentInfo", "ShortDescription"]) == JNull;
    assert Walk(info, ["Features", "DisplayValues"]) == JNull;
  }

  /** A listing with a price wins over any summary. */
  lemma OfferFromListing(item: map<string, Json>, offers: map<string, Json>, listing: map<string, Json>,
                         rest: seq<Json>, amount: real, currency: string)
    requires Get(item, "Offers") == JObj(offers)
    requires Get(offers, "Listings") == JArr([JObj(listing)] + rest)
    requires Get(listing, "Price") == JObj(map["Amount" := JFloat(amount), "Currency" := JStr(currency)])
    ensures Offer(item) == Ok((Some(amount), Some(currency)))
  {
    assert offers != map[] by { assert "Listings" in offers; }
    var price := map["Amount" := JFloat(amount), "Currency" := JStr(currency)];
    assert Get(price, "Amount") == JFloat(amount);
  }

  /** Without listings, the lowest price of the first summary is used. */
  lemma OfferFromSummary(item: map<string, Json>, offers: map<string, Json>, summary: map<string, Json>,
                         rest: seq<Json>, amount: real, currency: string)
    requires Get(item, "Offers") == JObj(offers)
    requires !Truthy(Get(offers, "Listings"))
    requires Get(offers, "Summaries") == JArr([JObj(summary)] + rest)
    requires Get(summary, "LowestPrice") == JObj(map["Amount" := JFloat(amount), "Currency" := JStr(currency)])
    ensures Offer(item) == Ok((Some(amount), Some(currency)))
  {
    assert offers != map[] by { assert "Summaries" in offers; }
    var price := map["Amount" := JFloat(amount), "Currency" := JStr(currency)];
    assert Get(price, "Amount") == JFloat(amount);
  }

  /** With neither listings nor summaries there is no price and no currency. */
  lemma OfferAbsent(item: map<string, Json>)
    requires Get(item, "Offers") == JNull || Get(item, "Offers") == EmptyDict
    ensures Offer(item) == Ok((None, None))
  {
  }

  /** The review count is the total when that is true, else the plain count. */
  lemma ReviewCountFallback(item: map<string, Json>, reviews: map<string, Json>)
    requires Get(item, "CustomerReviews") == JObj(reviews)
    requires Reviews(item).Ok?
    ensures Truthy(Get(reviews, "TotalReviewCount")) ==> Reviews(item).value.0 == SafeInt(Get(reviews, "TotalReviewCount"))
    ensures !Truthy(Get(reviews, "TotalReviewCount")) ==> Reviews(item).value.0 == SafeInt(Get(reviews, "Count"))
  {
    if reviews == map[] {
      assert Or(Get(item, "CustomerReviews"), EmptyDict) == JObj(reviews);
    }
  }

  /** One element of the `Items` list: skipped without an ASIN, otherwise
      extracted. */
  function ParseOne(item: Json, now: DateTime): Result<Option<ProductDetails>, Fault>
  {
    var m :- AsDict(item);
    if AsinOf(m) == "" then Ok(None)
    else
      var d :- ExtractProductDetails(m, now);
      Ok(Some(d))
  }

  /** The products of an item list, in order; the first failing item stops
      the parse. */
  function ParseItems(items: seq<Json>, now: DateTime): Result<seq<ProductDetails>, Fault>
  {
    if |items| == 0 then Ok([])
    else
      var before :- ParseItems(items[..|items| - 1], now);
      var last :- ParseOne(items[|items| - 1], now);
      Ok(before + (if last.Some? then [last.value] else []))
  }

  /** `response.get("ItemsResult", {}).get("Items", [])`, iterated. */
  function ItemsOf(response: Json): Result<seq<Json>, Fault>
  {
    var r :- AsDict(response);
    var result :- AsDict(if "ItemsResult" in r then r["ItemsResult"] else EmptyDict);
    Elements(if "Items" in result then result["Items"] else EmptyList)
  }

  function ParsedResponse(response: Json, now: DateTime): Result<seq<ProductDetails>, Fault>
  {
    var items :- ItemsOf(response);
    ParseItems(items, now)
  }

  /** Once a prefix of the items fails, the whole parse fails the same way. */
  lemma {:induction false} ParseItemsErr(items: seq<Json>, j: nat, now: DateTime)
    requires j <= |items| && ParseItems(items[..j], now).Err?
    ensures ParseItems(items, now) == ParseItems(items[..j], now)
    decreases |items| - j
  {
    if j < |items| {
      var init := items[..|items| - 1];
      assert init[..j] == items[..j];
      ParseItemsErr(init, j, now);
    } else {
      assert items[..j] == items;
    }
  }

  /** `parse_items_response(response)`. */
  method ParseItemsResponse(response: Json, now: DateTime) returns (r: Result<seq<ProductDetails>, Fault>)
    ensures r == ParsedResponse(response, now)
  {
    var items :- ItemsOf(response);
    var details: seq<ProductDetails> := [];
    for i := 0 to |items|
      invariant ParseItems(items[..i], now) == Ok(details)
    {
      assert items[..i + 1][..i] == items[..i];
      var item := AsDict(items[i]);
      if item.Err? {
        ParseItemsErr(items, i + 1, now);
        return Err(item.error);
      }
      var m := item.value;
      var asin := Get(m, "ASIN");
      if !(asin.JStr? && asin.s != "") {
        assert ParseOne(items[i], now) == Ok(None);
        assert details + [] == details;
        continue;
      }
      var d := ExtractProductDetails(m, now);
      if d.Err? {
        ParseItemsErr(items, i + 1, now);
        return Err(d.error);
      }
      assert ParseOne(items[i], now) == Ok(Some(d.value));
      assert ParseItems(items[..i + 1], now) == Ok(details + [d.value]);
      details := details + [d.value];
    }
    assert items[..|items|] == items;
    return Ok(details);
  }

  /** What one item contributes: nothing unless it is a dict with an ASIN,
      and then a product carrying that dict and that ASIN. */
  lemma ParseOneKeeps(item: Json, now: DateTime)
    requires ParseOne(item, now).Ok?
    ensures var o := ParseOne(item, now).value;
      && (o.Some? <==> item.JObj? && AsinOf(item.fields) != "")
      && (o.Some? ==> o.value.raw == item.fields && o.value.asin == AsinOf(item.fields))
  {
  }

  /** The items that have an ASIN, as the dicts they are. */
  function Kept(items: seq<Json>): seq<map<string, Json>>
  {
    if |items| == 0 then []
    else
      var last := items[|items| - 1];
      Kept(items[..|items| - 1]) + (if last.JObj? && AsinOf(last.fields) != "" then [last.fields] else [])
  }

  function Raws(ps: seq<ProductDetails>): seq<map<string, Json>>
  {
    seq(|ps|, i requires 0 <= i < |ps| => ps[i].raw)
  }

  /** A successful parse keeps exactly the items with an ASIN, in order,
      each as its own raw payload with its ASIN, and never more products
      than items. */
  lemma {:induction false} ParseItemsKeeps(items: seq<Json>, now: DateTime)
    requires ParseItems(items, now).Ok?
    ensures var ps := ParseItems(items, now).value;
      && Raws(ps) == Kept(items) && |ps| <= |items|
      && forall k :: 0 <= k < |ps| ==> ps[k].asin == AsinOf(ps[k].raw) && ps[k].asin != ""
  {
    if |items| > 0 {
      var init := items[..|items| - 1];
      ParseItemsKeeps(init, now);
      var ps := ParseItems(items, now).value;
      var before := ParseItems(init, now).value;
      var last := items[|items| - 1];
      ParseOneKeeps(last, now);
      var o := ParseOne(last, now).value;
      if o.Some? {
        assert ps == before + [o.value];
        assert Raws(ps) == Raws(before) + [last.fields];
      } else {
        assert ps == before;
      }
    }
  }

  /** A dict without `ItemsResult`, or whose `ItemsResult` has no `Items`,
      gives no products. */
  lemma ParseEmptyResponse(response: map<string, Json>, now: DateTime)
    requires "ItemsResult" !in response
      || (response["ItemsResult"].JObj? && "Items" !in response["ItemsResult"].fields)
    ensures ParsedResponse(JObj(response), now) == Ok([])
  {
  }

  /** The entries of `Relationships.RelatedProducts`. */
  function RelatedProducts(item: map<string, Json>): Result<seq<Json>, Fault>
  {
    var relationships :- AsDict(Or(Get(item, "Relationships"), EmptyDict));
    Elements(Or(Get(relationships, "RelatedProducts"), EmptyList))
  }

  /** The ASIN under an entry's `Identifiers`, when both are there. */
  function RelatedAsin(product: Json): Result<Option<string>, Fault>
  {
    var p :- AsDict(product);
    if !Truthy(Get(p, "Identifiers")) then Ok(None)
    else
      var ids :- AsDict(p["Identifiers"]);
      var asin := Get(ids, "ASIN");
      if asin.JStr? && asin.s != "" then Ok(Some(asin.s)) else Ok(None)
  }

  function RelatedFrom(products: seq<Json>): Result<seq<string>, Fault>
  {
    if |products| == 0 then Ok([])
    else
      var before :- RelatedFrom(products[..|products| - 1]);
      var last :- RelatedAsin(products[|products| - 1]);
      Ok(before + (if last.Some? then [last.value] else []))
  }

  function Related(item: map<string, Json>): Result<seq<string>, Fault>
  {
    var products :- RelatedProducts(item);
    RelatedFrom(products)
  }

  lemma {:induction false} RelatedErr(products: seq<Json>, j: nat)
    requires j <= |products| && RelatedFrom(products[..j]).Err?
    ensures RelatedFrom(products) == RelatedFrom(products[..j])
    decreases |products| - j
  {
    if j < |products| {
      var init := products[..|products| - 1];
      assert init[..j] == products[..j];
      RelatedErr(init, j);
    } else {
      assert products[..j] == products;
    }
  }

  /** `extract_related_asins(item)`. */
  method ExtractRelatedAsins(item: map<string, Json>) returns (r: Result<seq<string>, Fault>)
    ensures r == Related(item)
  {
    var products :- RelatedProducts(item);
    var related: seq<string> := [];
    for i := 0 to |products|
      invariant RelatedFrom(products[..i]) == Ok(related)
    {
      assert products[..i + 1][..i] == products[..i];
      var product := AsDict(products[i]);
      if product.Err? {
        RelatedErr(products, i + 1);
        return Err(product.error);
      }
      var p := product.value;
      if Truthy(Get(p, "Identifiers")) {
        var identifiers := AsDict(p["Identifiers"]);
        if identifiers.Err? {
          RelatedErr(products, i + 1);
          return Err(identifiers.error);
        }
        var asin := Get(identifiers.value, "ASIN");
        if asin.JStr? && asin.s != "" {
          assert RelatedAsin(products[i]) == Ok(Some(asin.s));
          related := related + [asin.s];
        } else {
          assert RelatedAsin(products[i]) == Ok(None);
          assert related + [] == related;
        }
      } else {
        assert RelatedAsin(products[i]) == Ok(None);
        assert related + [] == related;
      }
    }
    assert products[..|products|] == products;
    return Ok(related);
  }

  /** A related-products entry that carries the given ASIN. */
  function Entry(asin: string): Json
  {
    JObj(map["Identifiers" := JObj(map["ASIN" := JStr(asin)])])
  }

  /** Entries that all carry an ASIN give those ASINs in payload order,
      repetitions included. */
  lemma {:induction false} RelatedInOrder(asins: seq<string>)
    requires forall i :: 0 <= i < |asins| ==> asins[i] != ""
    ensures RelatedFrom(seq(|asins|, i requires 0 <= i < |asins| => Entry(asins[i]))) == Ok(asins)
  {
    if |asins| > 0 {
      var products := seq(|asins|, i requires 0 <= i < |asins| => Entry(asins[i]));
      var init := asins[..|asins| - 1];
      RelatedInOrder(init);
      assert products[..|products| - 1] == seq(|init|, i requires 0 <= i < |init| => Entry(init[i]));
      var last := asins[|asins| - 1];
      assert Truthy(Get(Entry(last).fields, "Identifiers")) by {
        assert "ASIN" in Entry(last).fields["Identifiers"].fields;
      }
      assert RelatedAsin(products[|products| - 1]) == Ok(Some(last));
      assert init + [last] == asins;
    }
  }

  /** Whatever the entries, every related ASIN is non-empty and there are
      never more of them than entries. */
  lemma {:induction false} RelatedBounds(products: seq<Json>)
    requires RelatedFrom(products).Ok?
    ensures var r := RelatedFrom(products).value;
      |r| <= |products| && forall i :: 0 <= i < |r| ==> r[i] != ""
  {
    if |products| > 0 {
      RelatedBounds(products[..|products| - 1]);
    }
  }
}
