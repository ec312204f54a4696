/** `OzonSellerClient.get_prices`: fetch every item of one account, project
    them into rows and upload the rows in chunks. */
module Prices {
  import opened Values
  import opened Chunking
  import opened Projection
  import opened Pagination
  import opened Upload

  /** One synchronisation run for account `clientId` on `date`, against the
      marketplace responses `rs` and the storage answers `accepts`. */
  method GetPrices(clientId: int, date: string, rs: seq<Response>, accepts: nat -> bool)
    returns (cursors: seq<Value>, fetchFailed: bool, sent: seq<seq<Row>>, log: seq<UploadEvent>)
    requires HasEnd(rs)
    ensures |cursors| == FirstEnd(rs) + 1 && cursors[0] == InitialCursor
    ensures forall i :: 0 < i < |cursors| ==> cursors[i] == rs[i - 1].lastId
    ensures fetchFailed <==> rs[FirstEnd(rs)].Failed?
    ensures Collected(rs) == [] ==> sent == [] && log == []
    ensures sent == Chunks(Dataset(Collected(rs), clientId, date), ChunkSize)
    ensures Flatten(sent) == Dataset(Collected(rs), clientId, date)
    ensures |log| == |sent|
    ensures forall i :: 0 <= i < |log| ==>
              log[i] == EventFor(accepts(i + 1), i + 1, |sent|, sent[i], |Flatten(sent)|)
  {
    var productItems;
    productItems, cursors, fetchFailed := GetProductItems(rs);
    if productItems == [] {
      sent, log := [], [];
      return;
    }
    var data := BuildDataset(productItems, clientId, date);
    sent, log := SendPricesToDb(data, accepts);
    FlattenChunks(data, ChunkSize);
  }
}
