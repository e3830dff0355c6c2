/** The product catalog as the pipeline sees it: an item lookup by IDs and a
    search by keywords or browse node, page by page. Signing and HTTP are
    not modelled; the catalog's answer to the n-th request of a run is
    whatever `respond` gives for that index and request, and a non-success
    HTTP status is an error that propagates. */
module Catalog {
  import opened Wrappers
  import opened Errors
  import opened Payload

  datatype Request =
    | GetItems(ids: seq<string>)
    | SearchItems(keywords: Option<string>, browseNodeId: Option<string>, page: int)

  class Client {
    /** Every request sent so far, in order. */
    var log: seq<Request>
    /** The catalog's answer to the request with a given position in the log. */
    const respond: (nat, Request) -> Result<Json, Fault>

    constructor (respond: (nat, Request) -> Result<Json, Fault>)
      ensures this.respond == respond && log == []
    {
      this.respond := respond;
      log := [];
    }

    /** `get_items(asins)`: one request for the given IDs. */
    method GetItems(ids: seq<string>) returns (r: Result<Json, Fault>)
      modifies this
      ensures log == old(log) + [Request.GetItems(ids)]
      ensures r == respond(|old(log)|, Request.GetItems(ids))
    {
      r := respond(|log|, Request.GetItems(ids));
      log := log + [Request.GetItems(ids)];
    }

    /** `search_items(keywords=..., browse_node_id=..., item_page=page)`. */
    method SearchItems(keywords: Option<string>, browseNodeId: Option<string>, page: int)
      returns (r: Result<Json, Fault>)
      modifies this
      ensures log == old(log) + [Request.SearchItems(keywords, browseNodeId, page)]
      ensures r == respond(|old(log)|, Request.SearchItems(keywords, browseNodeId, page))
    {
      r := respond(|log|, Request.SearchItems(keywords, browseNodeId, page));
      log := log + [Request.SearchItems(keywords, browseNodeId, page)];
    }
  }
}
