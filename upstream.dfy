/**
 * fetch_external_page: one GET of the upstream history feed, reduced to
 * what the recorder does with the answer. The HTTP exchange itself is an
 * input: either it failed (a connection error, the 10 second timeout), or it
 * produced a status and a body that did or did not parse as JSON.
 */
module Upstream {
  import opened Wrappers
  import opened Json

  /** The query of every upstream request: 20 items per page, feed type 1. */
  const FeedPageSize: int := 20
  const FeedTypeId: int := 1

  datatype Request = Request(pageSize: int, pageNo: int, typeId: int)

  function RequestFor(page: int): Request
  {
    Request(FeedPageSize, page, FeedTypeId)
  }

  datatype Body = Unparseable | Parsed(doc: Json)

  datatype Reply = Failed | Answered(status: int, body: Body)

  /**
   * `data.get('data', {}).get('list', [])` on a 200 answer, and `[]` on every
   * other outcome. Each exception on the way (no answer, a body that is not
   * JSON, a document or `data` member that is not an object, so has no
   * `.get`) is caught and also gives `[]`. The `list` member is returned as
   * it is, whatever its type.
   */
  function PageItems(reply: Reply): (items: Json)
    ensures !(reply.Answered? && reply.status == 200 && reply.body.Parsed? && reply.body.doc.JObject?) ==> items == JArray([])
  {
    if reply.Answered? && reply.status == 200 && reply.body.Parsed? && reply.body.doc.JObject? then
      match Get(reply.body.doc.fields, "data", JObject([]))
      case JObject(data) => Get(data, "list", JArray([]))
      case _ => JArray([])
    else JArray([])
  }

  /**
   * A 200 answer whose document is not an object, such as an empty body that
   * `resp.json()` reads as None, or a top-level array, has no `.get`: `[]`.
   */
  lemma NonObjectDocIsEmpty(doc: Json)
    requires !doc.JObject?
    ensures PageItems(Answered(200, Parsed(doc))) == JArray([])
  {
  }

  /** A 200 answer shaped `{"data": {"list": items, ...}, ...}` yields exactly `items`. */
  lemma FeedPageItems(top: seq<(string, Json)>, data: seq<(string, Json)>, items: Json)
    requires Lookup(top, "data") == Some(JObject(data))
    requires Lookup(data, "list") == Some(items)
    ensures PageItems(Answered(200, Parsed(JObject(top)))) == items
  {
  }

  /** A 200 answer without a `data` object, or whose `data` has no `list`, yields `[]`. */
  lemma MissingListIsEmpty(top: seq<(string, Json)>)
    requires match Lookup(top, "data")
      case None => true
      case Some(d) => !d.JObject? || Lookup(d.fields, "list").None?
    ensures PageItems(Answered(200, Parsed(JObject(top)))) == JArray([])
  {
  }
}
