# Ozon price synchronisation client, modelled in Dafny

This project models the core of the Ozon Seller price client
(`app/ozon_seller.py`). For one seller account the client does four things:

1. It fetches every price item with cursor pagination (`get_product_items`).
2. It projects each raw item into a sparse flat row (`get_prices`).
3. It splits the rows into chunks of 1000 (`chunks`).
4. It posts the chunks to the storage service one by one, and carries on past
   a failed chunk (`send_prices_to_db`).

The network is abstracted:

- The marketplace is a script of responses, one per request, in request
  order. Each response is a decoded page (`last_id`, `items`) or a caught
  error.
- The storage service is a function from the part number to "accepted" or
  "rejected".
- The run date is a parameter.

The methods return what the client would observe: the cursor sent with each
request, whether pagination stopped on an error, the chunks posted in order,
and one log event per chunk.

Files, one module each:

- `values.dfy` (`Values`): raw JSON values, `dict.get`, and the inclusion
  rule (not `None`, and not an empty string).
- `projection.dfy` (`Projection`): the whitelists, the row as a function of the
  item (`ProjectItem`, `Dataset`), and the imperative builder proved against
  it (`CopyFields`, `BuildRow`, `BuildDataset`).
- `projection_facts.dfy` (`ProjectionFacts`): what every row satisfies, and
  the order of the rows.
- `chunking.dfy` (`Chunking`): `chunks` and its laws.
- `pagination.dfy` (`Pagination`): the pagination loop and its specification.
- `upload.dfy` (`Upload`): the chunked upload loop.
- `prices.dfy` (`Prices`): `get_prices`, the composition of the above.

Three points about the code itself (the first is modelled; the other two are
recorded under "## Left out"):

- Pagination stops only on an empty or absent `items` list, or on a caught
  error. A `None` or `""` `last_id` is sent on as the next cursor.
- Fetching can raise: a response without `"result"` raises a `KeyError` that
  app/ozon_seller.py:99 does not catch.
- The error log of a failed chunk names the part only in the fallback at
  app/ozon_seller.py:128. That form is used when there is no response at all
  (`response` is `None`, so the `AttributeError` is caught at line 127) or
  when the error body cannot be decoded.

The projection is a function, so it is deterministic: applying it twice to
the same item and stamps gives equal rows by construction.

## Model

| member | source | states |
|---|---|---|
| `ProjectionFacts.ProductIdRule` | app/ozon_seller.py:39-43 | An item yields no row exactly when its `product_id` is missing or `None`. Falsy ids such as 0, `False` or `""` still yield a row, and the row holds the item's own product id. |
| `ProjectionFacts.TopLevelFieldRule` | app/ozon_seller.py:44-51 | A top-level whitelisted name is in the row iff its raw value is not `None` and, when it is a string, is non-empty. When present, it holds the raw value. |
| `ProjectionFacts.PriceFieldRule` | app/ozon_seller.py:53-62 | A `price` whitelisted name is in the row iff `price` is a dict and the value under that name passes the inclusion rule. A non-dict `price` adds nothing. |
| `ProjectionFacts.CommissionFieldRule` | app/ozon_seller.py:64-73 | The same rule for the `commissions` whitelist and the `commissions` dict. |
| `ProjectionFacts.RowStampsAndKeys` | app/ozon_seller.py:43-76 | Every row has `api_id` = the client id, `shop_id` = 1 and `date` = the run date. It has no key outside `product_id`, the three whitelists and those three stamps. |
| `ProjectionFacts.TopLevelNameUnique` | app/ozon_seller.py:25-36 | A top-level name is on no other whitelist and is none of the keys the client sets itself. |
| `ProjectionFacts.PriceNameUnique` | app/ozon_seller.py:25-36 | A price name is on no other whitelist and is none of the keys the client sets itself. |
| `ProjectionFacts.CommissionNameUnique` | app/ozon_seller.py:25-36 | A commission name is on no other whitelist and is none of the keys the client sets itself. |
| `ProjectionFacts.EmptyPriceDropped` | app/ozon_seller.py:44-62 | Worked example: given `product_id` 42, `price_index` "ABC", `price.price` "" and `price.old_price` 10, the row is exactly product id, `price_index`, `old_price` and the three stamps. |
| `ProjectionFacts.DatasetLength` | app/ozon_seller.py:38-77 | The dataset has at most as many rows as there were items. |
| `ProjectionFacts.RowSourcesExact` | app/ozon_seller.py:39-42 | The positions of the items that yield rows ascend strictly, and they are exactly the items with a product id. |
| `ProjectionFacts.DatasetRows` | app/ozon_seller.py:38-77 | Row j of the dataset is the projection of the j-th item that has a product id. |
| `ProjectionFacts.DatasetOrder` | app/ozon_seller.py:38-77 | Rows keep item order: row j comes from item `RowSources[j]`, those positions ascend, and they are exactly the items with a product id. |
| `Projection.DatasetAppend` | app/ozon_seller.py:38-77 | Projecting two item lists one after the other gives the two datasets concatenated. |
| `Projection.CopyFields` | app/ozon_seller.py:44-51 | One whitelist loop adds to the row exactly the whitelisted names whose values pass the inclusion rule, and keeps the rest of the row. |
| `Projection.BuildRow` | app/ozon_seller.py:40-76 | The loop body builds, field by field, exactly the row `ProjectItem` specifies, or skips the item when it has no product id. |
| `Projection.BuildDataset` | app/ozon_seller.py:38-77 | The `for item in product_items` loop produces exactly `Dataset(items)`. |
| `Chunking.FlattenChunks` | app/ozon_seller.py:131-134 | Concatenating the chunks gives back the input sequence. |
| `Chunking.ChunkSizes` | app/ozon_seller.py:131-134 | Every chunk is non-empty and at most n long. All but the last are exactly n long. |
| `Chunking.ChunkCount` | app/ozon_seller.py:131-134 | The chunk count c satisfies c*n - n < len <= c*n, so it is ceil(len/n), and 0 for an empty input. |
| `Chunking.ChunkAt` | app/ozon_seller.py:133-134 | Chunk k starts at offset k*n < len and is `seq[k*n : (k+1)*n]`, clipped at the end. |
| `Upload.ChunkCountIsParts` | app/ozon_seller.py:112-115 | With chunk size 1000, the number of chunks equals `parts = ceil(len(data)/1000)`. It is zero exactly for empty data. |
| `Upload.SendPricesToDb` | app/ozon_seller.py:108-128 | Posts exactly the chunks of the data, in order, however the storage answers. Part numbers run 1..parts. There is one log event per part: delivered (with size and total) or rejected, as the storage answered. |
| `Pagination.FirstEnd` | app/ozon_seller.py:95-105 | Finds the first response that stops pagination: a caught error, or an empty or absent item list. Every earlier response is a page with items. |
| `Pagination.StopsAtFirstEnd` | app/ozon_seller.py:87-105 | Responses after the first stopping one change nothing: the stop point and the collected items stay the same. |
| `Pagination.PageItemsAppend` | app/ozon_seller.py:98 | Extending with one more page appends that page's items at the end. |
| `Pagination.CollectedFromPages` | app/ozon_seller.py:98 | Every collected item comes from the item list of a page before the stop. |
| `Pagination.GetProductItems` | app/ozon_seller.py:81-106 | Returns the in-order concatenation of the item lists of the pages before the first stop. It makes exactly stop+1 requests. The first carries cursor `""` and each later one the `last_id` of the previous response. It reports an error exactly when it stopped on a caught error, and never raises. |
| `Prices.GetPrices` | app/ozon_seller.py:20-79 | Sends nothing when no item was fetched. Otherwise it posts exactly the 1000-row chunks of the projected dataset; their concatenation is that dataset. There is one log event per part, numbered 1..parts. The cursors and the error flag are those of the pagination. |

## Left out

- HTTP is not modelled: `requests.post`, status checks, JSON decoding, headers, the URLs, and the constant request body (`filter`, `limit`). Each marketplace response is a given `Response`. Each storage answer is a given `accepts(part)`, so the model cannot express an answer that depends on the chunk's content.
- Three uncaught errors at app/ozon_seller.py:93-95 are not modelled, because no `Response` stands for them: the `KeyError` for a response without `"result"`, the `TypeError` for a decoded body that is not an object, and the `AttributeError` for a `result` that is not an object.
- A non-list, truthy `items` value and items that are not dicts are not modelled, because items are always maps. The source would raise on them.
- Pagination.GetProductItems requires that some response ends the listing, because the source keeps requesting forever otherwise.
- Log text is not modelled. The pagination error log is the `failed` flag. The upload log is one event per part, and the model does not distinguish the two error-message variants.
- The clock is not modelled: `date` is one parameter for the whole run, while the source reads the local clock once per row.
- Numbers are modelled as integers, with no arithmetic on them. `math.ceil(len(data) / 1000)` on floats is modelled as the integer ceiling, which agrees for any list shorter than 2^53.
- The `chunks` generator is evaluated eagerly as a sequence, since the order and the contents of the chunks are what matter.
- `OzonSellerClient.__init__` only stores the credentials and headers. The client id is passed as a parameter instead, and the API key is used only in headers.
- `parser.py` is not modelled: the thread-pool fan-out over accounts is concurrency, the account lookup calls a database module that is not part of this model, the credential loop is trivial, and the duplicate-deletion trigger is a single network call.
- `app/api.py` and `main.py` are web-framework routing and setup, and are not modelled.
