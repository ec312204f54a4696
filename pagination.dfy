/** `OzonSellerClient.get_product_items`: cursor pagination over the
    marketplace's price listing. The network is a script of responses, one
    per request, in request order. */
module Pagination {
  import opened Values

  /** What one request yields: a decoded page (its `last_id` and its
      `items`, `None` when the key is absent or null), or a caught error
      (transport error, non-success status, undecodable body). */
  datatype Response =
    | Page(lastId: Value, items: Option<seq<Item>>)
    | Failed

  /** The cursor of the first request. */
  const InitialCursor: Value := Str("")

  /** A response after which the client stops requesting. */
  predicate EndsListing(r: Response)
  {
    r.Failed? || r.items.None? || r.items.value == []
  }

  /** The listing ends at some point: without it the client never stops. */
  predicate HasEnd(rs: seq<Response>)
  {
    exists i :: 0 <= i < |rs| && EndsListing(rs[i])
  }

  /** The position of the first response that ends the listing. */
  function FirstEnd(rs: seq<Response>): (k: nat)
    requires HasEnd(rs)
    ensures k < |rs| && EndsListing(rs[k])
    ensures forall j :: 0 <= j < k ==> !EndsListing(rs[j])
    decreases |rs|
  {
    if EndsListing(rs[0]) then 0
    else
      var i :| 0 <= i < |rs| && EndsListing(rs[i]);
      assert EndsListing(rs[1..][i - 1]);
      1 + FirstEnd(rs[1..])
  }

  /** The concatenation, in order, of the item lists of pages that carry
      items. */
  function PageItems(rs: seq<Response>): seq<Item>
    requires forall j :: 0 <= j < |rs| ==> !EndsListing(rs[j])
  {
    if rs == [] then []
    else
      assert !EndsListing(rs[0]);
      rs[0].items.value + PageItems(rs[1..])
  }

  lemma {:induction false} PageItemsAppend(rs: seq<Response>, r: Response)
    requires forall j :: 0 <= j < |rs| ==> !EndsListing(rs[j])
    requires !EndsListing(r)
    ensures PageItems(rs + [r]) == PageItems(rs) + r.items.value
    decreases |rs|
  {
    if rs != [] {
      assert (rs + [r])[1..] == rs[1..] + [r];
      PageItemsAppend(rs[1..], r);
    }
  }

  /** The items the client collects from a script of responses. */
  function Collected(rs: seq<Response>): seq<Item>
    requires HasEnd(rs)
  {
    PageItems(rs[..FirstEnd(rs)])
  }

  /** Responses after the first one that ends the listing change nothing:
      they are never requested. */
  lemma StopsAtFirstEnd(rs: seq<Response>, later: seq<Response>)
    requires HasEnd(rs)
    ensures var prefix := rs[..FirstEnd(rs) + 1] + later;
            HasEnd(prefix) && FirstEnd(prefix) == FirstEnd(rs) && Collected(prefix) == Collected(rs)
  {
    var k := FirstEnd(rs);
    var prefix := rs[..k + 1] + later;
    assert EndsListing(prefix[k]);
    assert forall j :: 0 <= j < k ==> prefix[j] == rs[j];
    assert prefix[..k] == rs[..k];
  }

  /** Every collected item comes from a page before the first end. */
  lemma {:induction false} CollectedFromPages(rs: seq<Response>, x: Item)
    requires forall j :: 0 <= j < |rs| ==> !EndsListing(rs[j])
    requires x in PageItems(rs)
    ensures exists j :: 0 <= j < |rs| && x in rs[j].items.value
    decreases |rs|
  {
    if x !in rs[0].items.value {
      CollectedFromPages(rs[1..], x);
      var j :| 0 <= j < |rs[1..]| && x in rs[1..][j].items.value;
      assert rs[j + 1] == rs[1..][j];
    }
  }

  /** The pagination loop. Returns the items collected, the cursor sent with
      each request, and whether it stopped on a caught (and logged) error. */
  method GetProductItems(rs: seq<Response>) returns (items: seq<Item>, cursors: seq<Value>, failed: bool)
    requires HasEnd(rs)
    ensures items == Collected(rs)
    ensures |cursors| == FirstEnd(rs) + 1
    ensures cursors[0] == InitialCursor
    ensures forall i :: 0 < i < |cursors| ==> cursors[i] == rs[i - 1].lastId
    ensures failed <==> rs[FirstEnd(rs)].Failed?
  {
    var end := FirstEnd(rs);
    var lastId := InitialCursor;
    items, cursors, failed := [], [], false;
    var i := 0;
    while true
      invariant 0 <= i <= end
      invariant items == PageItems(rs[..i])
      invariant |cursors| == i
      invariant lastId == if i == 0 then InitialCursor else rs[i - 1].lastId
      invariant i > 0 ==> cursors[0] == InitialCursor
      invariant forall j :: 0 < j < i ==> cursors[j] == rs[j - 1].lastId
      decreases end - i
    {
      cursors := cursors + [lastId];
      var response := rs[i];
      if response.Failed? {
        failed := true;
        break;
      }
      lastId := response.lastId;
      var page := response.items;
      if page.None? || page.value == [] {
        break;
      }
      PageItemsAppend(rs[..i], response);
      assert rs[..i + 1] == rs[..i] + [response];
      items := items + page.value;
      i := i + 1;
    }
  }
}
