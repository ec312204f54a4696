/** What the projection promises about every row it emits. */
module ProjectionFacts {
  import opened Values
  import opened Projection

  predicate ReservedKey(k: string)
  {
    k == ProductIdKey || k == ApiIdKey || k == ShopIdKey || k == DateKey
  }

  /** No name is on two whitelists, and none is a key the client sets itself,
      so no write of the projection overwrites another. */
  lemma TopLevelNameUnique(k: string)
    requires k in TopLevelFields
    ensures k !in PriceFields && k !in CommissionFields && !ReservedKey(k)
  {
  }

  lemma PriceNameUnique(k: string)
    requires k in PriceFields
    ensures k !in TopLevelFields && k !in CommissionFields && !ReservedKey(k)
  {
  }

  lemma CommissionNameUnique(k: string)
    requires k in CommissionFields
    ensures k !in TopLevelFields && k !in PriceFields && !ReservedKey(k)
  {
  }

  lemma ReservedNotWhitelisted(k: string)
    requires ReservedKey(k)
    ensures k !in TopLevelFields && k !in PriceFields && k !in CommissionFields
  {
  }

  lemma NestedSectionKeys(item: Item, key: string, names: seq<string>, k: string)
    ensures k in NestedSection(item, key, names) ==> k in names
  {
  }

  lemma SectionKeys(src: map<string, Value>, names: seq<string>, k: string)
    ensures k in Section(src, names) <==> k in names && Kept(Get(src, k))
    ensures k in Section(src, names) ==> Section(src, names)[k] == Get(src, k)
  {
  }

  /** An item yields a row exactly when its product id is present and not
      `None`; the row carries that product id unchanged. Falsy ids such as
      `0`, `False` or `""` still yield a row. */
  lemma ProductIdRule(item: Item, clientId: int, date: string)
    ensures ProjectItem(item, clientId, date).None? <==> Get(item, ProductIdKey) == Null
    ensures ProjectItem(item, clientId, date).Some? ==>
              ProductIdKey in item && ProjectItem(item, clientId, date).value[ProductIdKey] == item[ProductIdKey]
  {
    ReservedNotWhitelisted(ProductIdKey);
    NestedSectionKeys(item, PriceKey, PriceFields, ProductIdKey);
    NestedSectionKeys(item, CommissionsKey, CommissionFields, ProductIdKey);
  }

  /** A top-level whitelisted name is in the row iff its raw value passes
      the inclusion rule, and then it holds that raw value. */
  lemma TopLevelFieldRule(item: Item, clientId: int, date: string, name: string)
    requires ProjectItem(item, clientId, date).Some? && name in TopLevelFields
    ensures var row := ProjectItem(item, clientId, date).value;
            && (name in row <==> Kept(Get(item, name)))
            && (name in row ==> row[name] == item[name])
  {
    TopLevelNameUnique(name);
    SectionKeys(item, TopLevelFields, name);
  }

  /** A `price` name is in the row iff `price` is an object and the value
      under that name passes the inclusion rule. */
  lemma PriceFieldRule(item: Item, clientId: int, date: string, name: string)
    requires ProjectItem(item, clientId, date).Some? && name in PriceFields
    ensures var row := ProjectItem(item, clientId, date).value;
            var prices := Get(item, PriceKey);
            && (name in row <==> prices.Obj? && Kept(Get(prices.fields, name)))
            && (name in row ==> prices.Obj? && row[name] == prices.fields[name])
  {
    PriceNameUnique(name);
    var prices := Get(item, PriceKey);
    if prices.Obj? {
      SectionKeys(prices.fields, PriceFields, name);
    }
  }

  /** A `commissions` name is in the row iff `commissions` is an object and
      the value under that name passes the inclusion rule. */
  lemma CommissionFieldRule(item: Item, clientId: int, date: string, name: string)
    requires ProjectItem(item, clientId, date).Some? && name in CommissionFields
    ensures var row := ProjectItem(item, clientId, date).value;
            var commissions := Get(item, CommissionsKey);
            && (name in row <==> commissions.Obj? && Kept(Get(commissions.fields, name)))
            && (name in row ==> commissions.Obj? && row[name] == commissions.fields[name])
  {
    CommissionNameUnique(name);
    var commissions := Get(item, CommissionsKey);
    if commissions.Obj? {
      SectionKeys(commissions.fields, CommissionFields, name);
    }
  }

  /** Every row carries the account id, shop id 1 and the run date, and no
      key outside the whitelists and those four. */
  lemma RowStampsAndKeys(item: Item, clientId: int, date: string)
    requires ProjectItem(item, clientId, date).Some?
    ensures var row := ProjectItem(item, clientId, date).value;
            && row[ApiIdKey] == Num(clientId)
            && row[ShopIdKey] == Num(ShopId)
            && row[DateKey] == Str(date)
            && forall k :: k in row ==> AllowedKey(k)
  {
  }

  /** The dataset never has more rows than there were items. */
  lemma {:induction false} DatasetLength(items: seq<Item>, clientId: int, date: string)
    ensures |Dataset(items, clientId, date)| <= |items|
    decreases |items|
  {
    if items != [] {
      DatasetLength(items[1..], clientId, date);
    }
  }

  /** Every position moved one place on. */
  function Shift(ks: seq<nat>): seq<nat>
  {
    seq(|ks|, j requires 0 <= j < |ks| => ks[j] + 1)
  }

  /** The positions, in ascending order, of the items that have a product id. */
  function RowSources(items: seq<Item>): seq<nat>
  {
    if items == [] then []
    else
      var rest := Shift(RowSources(items[1..]));
      if Get(items[0], ProductIdKey) == Null then rest else [0] + rest
  }

  /** The positions are in range, strictly ascending, and exactly the
      items that have a product id. */
  lemma {:induction false} RowSourcesExact(items: seq<Item>)
    ensures var ks := RowSources(items);
            && (forall j :: 0 <= j < |ks| ==> ks[j] < |items|)
            && (forall j, j' :: 0 <= j < j' < |ks| ==> ks[j] < ks[j'])
            && (forall i :: 0 <= i < |items| ==> (i in ks <==> Get(items[i], ProductIdKey) != Null))
    decreases |items|
  {
    if items != [] {
      var tail := items[1..];
      RowSourcesExact(tail);
      var ks0 := RowSources(tail);
      var rest := Shift(ks0);
      forall i | 1 <= i < |items|
        ensures i in rest <==> Get(items[i], ProductIdKey) != Null
      {
        assert items[i] == tail[i - 1];
        if i - 1 in ks0 {
          var j :| 0 <= j < |ks0| && ks0[j] == i - 1;
          assert rest[j] == i;
        }
        if i in rest {
          var j :| 0 <= j < |rest| && rest[j] == i;
          assert ks0[j] == i - 1;
        }
      }
      assert 0 !in rest;
    }
  }

  /** Row `j` of the dataset is the projection of item `RowSources[j]`. */
  lemma {:induction false} DatasetRows(items: seq<Item>, clientId: int, date: string)
    ensures var ks, data := RowSources(items), Dataset(items, clientId, date);
            && |ks| == |data|
            && forall j :: 0 <= j < |ks| ==>
                 ks[j] < |items| && ProjectItem(items[ks[j]], clientId, date) == Some(data[j])
    decreases |items|
  {
    if items != [] {
      var tail := items[1..];
      DatasetRows(tail, clientId, date);
      ProductIdRule(items[0], clientId, date);
      var ks0, data0 := RowSources(tail), Dataset(tail, clientId, date);
      var rest := Shift(ks0);
      forall j | 0 <= j < |rest|
        ensures rest[j] < |items| && ProjectItem(items[rest[j]], clientId, date) == Some(data0[j])
      {
        assert items[rest[j]] == tail[ks0[j]];
      }
      var ks, data := RowSources(items), Dataset(items, clientId, date);
      match ProjectItem(items[0], clientId, date)
      case None =>
        assert ks == rest && data == data0;
      case Some(row) =>
        assert ks == [0] + rest && data == [row] + data0;
        forall j | 0 < j < |ks|
          ensures ks[j] < |items| && ProjectItem(items[ks[j]], clientId, date) == Some(data[j])
        {
          assert ks[j] == rest[j - 1] && data[j] == data0[j - 1];
        }
    }
  }

  /** Rows keep item order: row `j` comes from item `RowSources[j]`, these
      positions ascend, and they are exactly the items with a product id. */
  lemma DatasetOrder(items: seq<Item>, clientId: int, date: string)
    ensures var ks, data := RowSources(items), Dataset(items, clientId, date);
            && |ks| == |data|
            && (forall j :: 0 <= j < |ks| ==>
                  ks[j] < |items| && ProjectItem(items[ks[j]], clientId, date) == Some(data[j]))
            && (forall j, j' :: 0 <= j < j' < |ks| ==> ks[j] < ks[j'])
            && (forall i :: 0 <= i < |items| ==> (i in ks <==> Get(items[i], ProductIdKey) != Null))
  {
    RowSourcesExact(items);
    DatasetRows(items, clientId, date);
  }

  // A worked example: an empty string inside `price` is dropped, a number
  // next to it and a non-empty top-level string are kept.

  const ExamplePrices: map<string, Value> := map["price" := Str(""), "old_price" := Num(10)]

  const ExampleItem: Item :=
    map[ProductIdKey := Num(42), "price_index" := Str("ABC"), PriceKey := Obj(ExamplePrices)]

  lemma ExampleTopSection()
    ensures Section(ExampleItem, TopLevelFields) == map["price_index" := Str("ABC")]
  {
  }

  lemma ExamplePriceSection()
    ensures NestedSection(ExampleItem, PriceKey, PriceFields) == map["old_price" := Num(10)]
  {
    assert Get(ExampleItem, PriceKey) == Obj(ExamplePrices);
    assert Section(ExamplePrices, PriceFields) == map["old_price" := Num(10)];
  }

  lemma ExampleCommissionSection()
    ensures NestedSection(ExampleItem, CommissionsKey, CommissionFields) == map[]
  {
  }

  lemma ExampleAssembly(clientId: int, date: string)
    ensures map[ProductIdKey := Num(42)] + map["price_index" := Str("ABC")] + map["old_price" := Num(10)]
            + map[] + Stamps(clientId, date)
            == map[ProductIdKey := Num(42), "price_index" := Str("ABC"), "old_price" := Num(10),
                   ApiIdKey := Num(clientId), ShopIdKey := Num(ShopId), DateKey := Str(date)]
  {
  }

  lemma EmptyPriceDropped(clientId: int, date: string)
    ensures ProjectItem(ExampleItem, clientId, date) ==
              Some(map[ProductIdKey := Num(42), "price_index" := Str("ABC"), "old_price" := Num(10),
                       ApiIdKey := Num(clientId), ShopIdKey := Num(ShopId), DateKey := Str(date)])
  {
    ExampleTopSection();
    ExamplePriceSection();
    ExampleCommissionSection();
    ExampleAssembly(clientId, date);
    assert Get(ExampleItem, ProductIdKey) == Num(42);
  }
}
