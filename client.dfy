/** The bookkeeping helpers of the web client: the tab filter, the counters,
    the per-row profit, and the checks and request bodies of the Add Item and
    Mark Sold forms. Form amounts arrive already parsed: None stands for a
    value Number() reads as NaN or an infinity. */
module Client {
  import opened Common
  import opened Text
  import opened Items
  import opened Analytics

  /** An item as the page holds it after GET /items: the keys the helpers
      read, each of which may be null or missing in the JSON. */
  datatype Row = Row(
    id: int,
    inStore: Field<bool>,
    purchasePrice: Field<int>,
    soldPrice: Field<int>,
    deliveryPrice: Field<int>)

  /** The JSON the API returns for a stored item. */
  function RowOf(it: Item): Row {
    Row(it.id, Present(it.inStore), Present(it.purchasePrice),
        if it.soldPrice.Some? then Present(it.soldPrice.value) else Null,
        Present(it.deliveryPrice))
  }

  function RowsOf(items: seq<Item>): (rows: seq<Row>)
    ensures |rows| == |items|
    ensures forall k :: 0 <= k < |items| ==> rows[k] == RowOf(items[k])
  {
    if items == [] then [] else [RowOf(items[0])] + RowsOf(items[1..])
  }

  /** it.in_store === false: a missing or null flag reads as in store. */
  predicate IsSold(r: Row) {
    r.inStore == Present(false)
  }

  /** items.filter(it => it.in_store === false) */
  function KeepSold(rows: seq<Row>): (v: seq<Row>)
    ensures forall k :: 0 <= k < |v| ==> IsSold(v[k]) && v[k] in rows
  {
    if rows == [] then []
    else if IsSold(rows[0]) then [rows[0]] + KeepSold(rows[1..])
    else KeepSold(rows[1..])
  }

  /** items.filter(it => it.in_store !== false) */
  function KeepInStock(rows: seq<Row>): (v: seq<Row>)
    ensures forall k :: 0 <= k < |v| ==> !IsSold(v[k]) && v[k] in rows
  {
    if rows == [] then []
    else if !IsSold(rows[0]) then [rows[0]] + KeepInStock(rows[1..])
    else KeepInStock(rows[1..])
  }

  /** The sold view keeps the rows in the order of the list: filtering a
      concatenation filters each part and keeps them in place. */
  lemma {:induction false} KeepSoldAppend(a: seq<Row>, b: seq<Row>)
    ensures KeepSold(a + b) == KeepSold(a) + KeepSold(b)
  {
    if a == [] {
      assert a + b == b;
    } else {
      assert (a + b)[0] == a[0];
      assert (a + b)[1..] == a[1..] + b;
      KeepSoldAppend(a[1..], b);
    }
  }

  /** The in-stock view keeps the rows in the order of the list as well. */
  lemma {:induction false} KeepInStockAppend(a: seq<Row>, b: seq<Row>)
    ensures KeepInStock(a + b) == KeepInStock(a) + KeepInStock(b)
  {
    if a == [] {
      assert a + b == b;
    } else {
      assert (a + b)[0] == a[0];
      assert (a + b)[1..] == a[1..] + b;
      KeepInStockAppend(a[1..], b);
    }
  }

  /** The two views split the list: every row lands in exactly one of them. */
  lemma {:induction false} Partition(rows: seq<Row>)
    ensures multiset(KeepSold(rows)) + multiset(KeepInStock(rows)) == multiset(rows)
    ensures |KeepSold(rows)| + |KeepInStock(rows)| == |rows|
  {
    if rows != [] {
      Partition(rows[1..]);
      assert rows == [rows[0]] + rows[1..];
    }
  }

  /** filteredItems: "all" shows the list as it is, "sold" the sold rows, any
      other tab the rest. */
  function FilteredItems(rows: seq<Row>, tab: string): (v: seq<Row>)
    ensures tab == "all" ==> v == rows
    ensures tab == "sold" ==> forall k :: 0 <= k < |v| ==> IsSold(v[k]) && v[k] in rows
    ensures tab != "all" && tab != "sold" ==> forall k :: 0 <= k < |v| ==> !IsSold(v[k]) && v[k] in rows
    ensures tab != "all" ==> |v| <= |rows|
  {
    Partition(rows);
    if tab == "all" then rows
    else if tab == "sold" then KeepSold(rows)
    else KeepInStock(rows)
  }

  datatype Counts = Counts(totalItems: nat, soldItems: nat, inStock: nat)

  /** computed: the three counters above the table. */
  function Computed(rows: seq<Row>): (c: Counts)
    ensures c.totalItems == |rows|
    ensures c.soldItems + c.inStock == c.totalItems
    ensures c.soldItems == |FilteredItems(rows, "sold")|
  {
    Partition(rows);
    Counts(|rows|, |KeepSold(rows)|, |KeepInStock(rows)|)
  }

  /** Number(x ?? 0): a null or missing amount reads as 0. */
  function AmountOr0(f: Field<int>): int {
    if f.Present? then f.value else 0
  }

  /** The profit column: sale less cost less delivery for a sold row, nothing
      for a row in store. */
  function RowProfit(r: Row): (p: Option<int>)
    ensures p.Some? <==> IsSold(r)
  {
    if IsSold(r) then Some(AmountOr0(r.soldPrice) - AmountOr0(r.purchasePrice) - AmountOr0(r.deliveryPrice))
    else None
  }

  /** The profit column of a stored row is that row's share of the summary's net profit. */
  lemma RowProfitOfStored(it: Item)
    ensures RowProfit(RowOf(it)) == if it.inStore then None else Some(RowNet(it.owner, it))
  {
  }

  /** The profit column summed over the page, less the cost of the rows in
      store, is the summary's net profit: the table and the summary agree. */
  function ProfitColumn(rows: seq<Row>): int {
    if rows == [] then 0 else RowProfit(rows[0]).GetOr(0) + ProfitColumn(rows[1..])
  }

  function StockCost(rows: seq<Row>): int {
    if rows == [] then 0
    else (if IsSold(rows[0]) then 0 else AmountOr0(rows[0].purchasePrice)) + StockCost(rows[1..])
  }

  lemma {:induction false} ColumnsMatchNet(owned: seq<Item>, owner: int)
    requires forall k :: 0 <= k < |owned| ==> owned[k].owner == owner
    ensures ProfitColumn(RowsOf(owned)) - StockCost(RowsOf(owned)) == NetByRow(owner, owned)
  {
    if owned != [] {
      ColumnsMatchNet(owned[1..], owner);
      assert RowsOf(owned)[1..] == RowsOf(owned[1..]);
    }
  }

  lemma TableAgreesWithSummary(items: seq<Item>, owner: int)
    ensures ProfitColumn(RowsOf(ListOwned(items, owner))) - StockCost(RowsOf(ListOwned(items, owner)))
            == Summarize(items, owner).netProfit
  {
    var listed := ListOwned(items, owner);
    forall k | 0 <= k < |listed| ensures listed[k].owner == owner {
      assert listed[k] in listed;
    }
    ColumnsMatchNet(listed, owner);
    NetProfitByRow(listed, owner);
    TotalOfListed(GrossSalesSum, owner, items);
    TotalOfListed(TotalCostSum, owner, items);
    TotalOfListed(TotalDeliverySum, owner, items);
  }

  /** What a form handler does: nothing, an error shown on the page, or a request sent. */
  datatype Submission<B> = Idle | Rejected(message: string) | Send(body: B)

  /** Number.isFinite(n) && n >= 0 */
  predicate UsableAmount(a: Option<int>) {
    a.Some? && a.value >= 0
  }

  /** The Add Item form's state, amounts already read through Number(). */
  datatype AddForm = AddForm(
    itemNumber: string,
    title: string,
    category: string,
    cost: Option<int>,
    inStore: bool,
    soldPrice: Option<int>,
    deliveryCost: Option<int>)

  /** addItem: the checks run before any request, then the POST /items body,
      which carries sold_price and delivery_price only for a sold item. */
  function AddItem(f: AddForm): (s: Submission<ItemInput>)
    ensures !s.Idle?
    ensures s.Rejected? <==> || Trim(f.itemNumber) == [] || Trim(f.title) == [] || !UsableAmount(f.cost)
                             || (!f.inStore && (!UsableAmount(f.soldPrice) || !UsableAmount(f.deliveryCost)))
    ensures Trim(f.itemNumber) == [] ==> s == Rejected("Item Number is required")
    ensures Trim(f.itemNumber) != [] && Trim(f.title) == [] ==> s == Rejected("Item Name is required")
    ensures s.Send? ==> && s.body.itemNumber == Trim(f.itemNumber) && s.body.title == Trim(f.title)
                        && s.body.category == f.category && s.body.cost == f.cost.value
                        && s.body.inStore == f.inStore
    ensures s.Send? ==> (s.body.soldPrice.Present? <==> !f.inStore) && (s.body.deliveryPrice.Present? <==> !f.inStore)
    ensures s.Send? && !f.inStore ==> s.body.soldPrice.value == f.soldPrice.value && s.body.deliveryPrice.value == f.deliveryCost.value
  {
    if Trim(f.itemNumber) == [] then Rejected("Item Number is required")
    else if Trim(f.title) == [] then Rejected("Item Name is required")
    else if !UsableAmount(f.cost) then Rejected("Cost must be a valid number")
    else if !f.inStore && !UsableAmount(f.soldPrice) then Rejected("Sold Price is required for sold items")
    else if !f.inStore && !UsableAmount(f.deliveryCost) then Rejected("Delivery Cost is required for sold items")
    else
      var body := ItemInput(Trim(f.itemNumber), Trim(f.title), f.category, f.cost.value, f.inStore, Absent, Absent);
      if f.inStore then Send(body)
      else Send(body.(soldPrice := Present(f.soldPrice.value), deliveryPrice := Present(f.deliveryCost.value)))
  }

  /** A body the form sends with a category from its list is accepted by the
      API: never the "sold_price is required" answer, and the stored row holds
      what the form held. */
  lemma AddItemAccepted(f: AddForm, owner: int, id: int, createdAt: int)
    requires AddItem(f).Send?
    requires ParseCategory(f.category).Some?
    ensures CreateRow(owner, id, createdAt, AddItem(f).body).Ok?
    ensures var row := CreateRow(owner, id, createdAt, AddItem(f).body).value;
            && row.inStore == f.inStore && row.purchasePrice == f.cost.value
            && (f.inStore ==> row.soldPrice == None && row.deliveryPrice == 0)
            && (!f.inStore ==> row.soldPrice == Some(f.soldPrice.value) && row.deliveryPrice == f.deliveryCost.value)
  {
    var b := AddItem(f).body;
    assert b.itemNumber == Trim(f.itemNumber) != [] && b.title == Trim(f.title) != [];
    assert b.cost == f.cost.value >= 0;
    assert OptionalAmount(b.soldPrice) && OptionalAmount(b.deliveryPrice);
    assert CreateSchema(b);
  }

  /** confirmSell: nothing without a chosen row; otherwise the sale price and
      delivery are checked, and the PATCH body carries in_store:false, both
      amounts and status "sold". */
  function ConfirmSell(sellItem: Option<Row>, sellPrice: Option<int>, sellDelivery: Option<int>): (s: Submission<(int, RawUpdate)>)
    ensures s.Idle? <==> sellItem.None?
    ensures sellItem.Some? ==> (s.Rejected? <==> !UsableAmount(sellPrice) || !UsableAmount(sellDelivery))
    ensures s.Send? ==> && s.body.0 == sellItem.value.id
                        && s.body.1 == RawUpdate(Present("sold"), Present(sellPrice.value), Present(false), Present(sellDelivery.value))
  {
    if sellItem.None? then Idle
    else if !UsableAmount(sellPrice) then Rejected("Enter a valid Sold Price")
    else if !UsableAmount(sellDelivery) then Rejected("Enter a valid Delivery Cost")
    else Send((sellItem.value.id,
               RawUpdate(Present("sold"), Present(sellPrice.value), Present(false), Present(sellDelivery.value))))
  }
}
