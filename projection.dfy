/** The dataset built by `OzonSellerClient.get_prices`: every raw item with
    a product id becomes one sparse flat row. */
module Projection {
  import opened Values

  /** One output row, as sent to the storage service. */
  type Row = map<string, Value>

  const ProductIdKey := "product_id"
  const PriceKey := "price"
  const CommissionsKey := "commissions"
  const ApiIdKey := "api_id"
  const ShopIdKey := "shop_id"
  const DateKey := "date"

  /** The shop id stamped on every row. */
  const ShopId := 1

  /** Names copied from the top level of an item. */
  const TopLevelFields: seq<string> := ["offer_id", "price_index", "volume_weight"]

  /** Names copied from the nested `price` object. */
  const PriceFields: seq<string> :=
    ["price", "old_price", "premium_price", "recommended_price",
     "retail_price", "vat", "min_ozon_price", "marketing_price",
     "marketing_seller_price"]

  /** Names copied from the nested `commissions` object. */
  const CommissionFields: seq<string> :=
    ["sales_percent", "fbo_fulfillment_amount", "fbo_direct_flow_trans_min_amount",
     "fbo_direct_flow_trans_max_amount", "fbo_deliv_to_customer_amount",
     "fbo_return_flow_amount", "fbo_return_flow_trans_min_amount",
     "fbo_return_flow_trans_max_amount", "fbs_first_mile_min_amount",
     "fbs_first_mile_max_amount", "fbs_direct_flow_trans_min_amount",
     "fbs_direct_flow_trans_max_amount", "fbs_deliv_to_customer_amount",
     "fbs_return_flow_amount", "fbs_return_flow_trans_min_amount",
     "fbs_return_flow_trans_max_amount"]

  /** The only keys a row may carry. */
  predicate AllowedKey(k: string)
  {
    || k == ProductIdKey
    || k in TopLevelFields || k in PriceFields || k in CommissionFields
    || k == ApiIdKey || k == ShopIdKey || k == DateKey
  }

  /** The whitelisted names of `src` whose values pass the inclusion rule. */
  function Section(src: map<string, Value>, names: seq<string>): map<string, Value>
  {
    map k | k in names && Kept(Get(src, k)) :: Get(src, k)
  }

  /** The fields taken from the nested object under `key`; nothing when that
      value is not an object. */
  function NestedSection(item: Item, key: string, names: seq<string>): map<string, Value>
  {
    match Get(item, key)
    case Obj(fields) => Section(fields, names)
    case _ => map[]
  }

  function Stamps(clientId: int, date: string): map<string, Value>
  {
    map[ApiIdKey := Num(clientId), ShopIdKey := Num(ShopId), DateKey := Str(date)]
  }

  /** The row built from one item, or nothing when it has no product id.
      Later writes win, in the order the client performs them. */
  function ProjectItem(item: Item, clientId: int, date: string): Option<Row>
  {
    var productId := Get(item, ProductIdKey);
    if productId == Null then None
    else
      Some(map[ProductIdKey := productId]
           + Section(item, TopLevelFields)
           + NestedSection(item, PriceKey, PriceFields)
           + NestedSection(item, CommissionsKey, CommissionFields)
           + Stamps(clientId, date))
  }

  /** The rows of all items that have a product id, in item order. */
  function Dataset(items: seq<Item>, clientId: int, date: string): seq<Row>
  {
    if items == [] then []
    else
      match ProjectItem(items[0], clientId, date)
      case None => Dataset(items[1..], clientId, date)
      case Some(row) => [row] + Dataset(items[1..], clientId, date)
  }

  // ---------------------------------------------------------------------
  // The imperative row builder

  lemma SectionExtend(src: map<string, Value>, names: seq<string>, i: nat)
    requires i < |names|
    ensures Section(src, names[..i + 1]) ==
            if Kept(Get(src, names[i])) then Section(src, names[..i])[names[i] := Get(src, names[i])]
            else Section(src, names[..i])
  {
    assert forall k :: k in names[..i + 1] <==> k in names[..i] || k == names[i];
  }

  /** One `for name in ...` loop of the client: copies every whitelisted name
      of `src` that passes the inclusion rule into `row`. */
  method CopyFields(row: Row, src: map<string, Value>, names: seq<string>) returns (out: Row)
    ensures out == row + Section(src, names)
  {
    out := row;
    for i := 0 to |names|
      invariant out == row + Section(src, names[..i])
    {
      var name := names[i];
      var value := Get(src, name);
      SectionExtend(src, names, i);
      if value != Null {
        if value.Str? {
          if |value.s| > 0 {
            out := out[name := value];
          }
        } else {
          out := out[name := value];
        }
      }
    }
    assert names[..|names|] == names;
  }

  lemma DatasetAppend(items: seq<Item>, extra: seq<Item>, clientId: int, date: string)
    ensures Dataset(items + extra, clientId, date) ==
            Dataset(items, clientId, date) + Dataset(extra, clientId, date)
    decreases |items|
  {
    if items != [] {
      assert (items + extra)[0] == items[0];
      assert (items + extra)[1..] == items[1..] + extra;
      DatasetAppend(items[1..], extra, clientId, date);
      var rest := Dataset(items[1..], clientId, date);
      var more := Dataset(extra, clientId, date);
      match ProjectItem(items[0], clientId, date)
      case None =>
        assert Dataset(items + extra, clientId, date) == Dataset(items[1..] + extra, clientId, date);
      case Some(row) =>
        assert Dataset(items + extra, clientId, date) == [row] + Dataset(items[1..] + extra, clientId, date);
        assert Dataset(items, clientId, date) == [row] + rest;
        assert [row] + (rest + more) == ([row] + rest) + more;
    } else {
      assert items + extra == extra;
    }
  }

  lemma StampRow(m: Row, clientId: int, date: string)
    ensures m[ApiIdKey := Num(clientId)][ShopIdKey := Num(ShopId)][DateKey := Str(date)]
            == m + Stamps(clientId, date)
  {
  }

  /** The body of the `get_prices` loop for one item: nothing when the item
      has no product id, else the row built field by field. */
  method BuildRow(item: Item, clientId: int, date: string) returns (result: Option<Row>)
    ensures result == ProjectItem(item, clientId, date)
  {
    var productId := Get(item, ProductIdKey);
    if productId == Null {
      return None;
    }
    var row: Row := map[ProductIdKey := productId];
    row := CopyFields(row, item, TopLevelFields);
    ghost var withTop := row;
    var prices := Get(item, PriceKey);
    if prices.Obj? {
      row := CopyFields(row, prices.fields, PriceFields);
    } else {
      assert row == row + map[];
    }
    assert row == withTop + NestedSection(item, PriceKey, PriceFields);
    ghost var withPrices := row;
    var commissions := Get(item, CommissionsKey);
    if commissions.Obj? {
      row := CopyFields(row, commissions.fields, CommissionFields);
    } else {
      assert row == row + map[];
    }
    assert row == withPrices + NestedSection(item, CommissionsKey, CommissionFields);
    ghost var unstamped := row;
    row := row[ApiIdKey := Num(clientId)];
    row := row[ShopIdKey := Num(ShopId)];
    row := row[DateKey := Str(date)];
    StampRow(unstamped, clientId, date);
    result := Some(row);
  }

  /** The loop of `get_prices` that turns the fetched items into the dataset. */
  method BuildDataset(items: seq<Item>, clientId: int, date: string) returns (data: seq<Row>)
    ensures data == Dataset(items, clientId, date)
  {
    data := [];
    for i := 0 to |items|
      invariant data == Dataset(items[..i], clientId, date)
    {
      var item := items[i];
      assert items[..i + 1] == items[..i] + [item];
      DatasetAppend(items[..i], [item], clientId, date);
      var row := BuildRow(item, clientId, date);
      if row.Some? {
        data := data + [row.value];
      }
    }
    assert items[..|items|] == items;
  }
}
