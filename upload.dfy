/** `OzonSellerClient.send_prices_to_db`: the dataset goes to the storage
    service in chunks of 1000 rows, one request per chunk. The service's
    answer to each request is a parameter. */
module Upload {
  import opened Chunking
  import opened Projection

  const ChunkSize := 1000

  /** `math.ceil(len(data) / chunk_size)`. */
  function Parts(total: nat): nat
  {
    (total + ChunkSize - 1) / ChunkSize
  }

  /** What the client logs for one chunk. */
  datatype UploadEvent =
    | Delivered(part: nat, parts: nat, size: nat, total: nat)
    | Rejected(part: nat, parts: nat)

  /** The number of chunks is the `parts` count the client logs, and no
      chunk is sent for an empty dataset. */
  lemma ChunkCountIsParts<T>(s: seq<T>)
    ensures |Chunks(s, ChunkSize)| == Parts(|s|)
    ensures |Chunks(s, ChunkSize)| == 0 <==> |s| == 0
  {
    ChunkCount(s, ChunkSize);
  }

  /** The event logged for part `part` with chunk `chunk`. */
  function EventFor(accepted: bool, part: nat, parts: nat, chunk: seq<Row>, total: nat): UploadEvent
  {
    if accepted then Delivered(part, parts, |chunk|, total) else Rejected(part, parts)
  }

  /** The upload loop. `accepts(p)` is whether the service accepts the
      request for part `p`. Every chunk is sent, in order, whatever the
      earlier answers; the part counter runs 1..parts. */
  method SendPricesToDb(data: seq<Row>, accepts: nat -> bool) returns (sent: seq<seq<Row>>, log: seq<UploadEvent>)
    ensures sent == Chunks(data, ChunkSize)
    ensures |sent| == Parts(|data|)
    ensures |log| == |sent|
    ensures forall i :: 0 <= i < |log| ==>
              log[i] == EventFor(accepts(i + 1), i + 1, Parts(|data|), sent[i], |data|)
  {
    var parts := Parts(|data|);
    var chunks := Chunks(data, ChunkSize);
    ChunkCountIsParts(data);
    var part := 0;
    sent, log := [], [];
    while part < |chunks|
      invariant 0 <= part <= |chunks|
      invariant sent == chunks[..part]
      invariant |log| == part
      invariant forall i :: 0 <= i < part ==>
                  log[i] == EventFor(accepts(i + 1), i + 1, parts, chunks[i], |data|)
    {
      var chunk := chunks[part];
      part := part + 1;
      sent := sent + [chunk];
      if accepts(part) {
        log := log + [Delivered(part, parts, |chunk|, |data|)];
      } else {
        log := log + [Rejected(part, parts)];
      }
    }
  }
}
