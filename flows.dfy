/** How the ledger operations move the profit summary, and what becomes of
    the web client's Mark Sold request on the server. */
module Flows {
  import opened Common
  import opened Items
  import opened Analytics
  import opened Client

  /** A created row enters the summary at once: an in-store row through its
      cost only, a sold row through its sale, cost and delivery. */
  lemma CreateMovesSummary(items: seq<Item>, owner: int, id: int, createdAt: int, b: ItemInput)
    requires CreateRow(owner, id, createdAt, b).Ok?
    ensures var row := CreateRow(owner, id, createdAt, b).value;
            var before := Summarize(items, owner);
            var after := Summarize(items + [row], owner);
            && after.totalCost == before.totalCost + b.cost
            && (b.inStore ==> && after.grossSales == before.grossSales
                              && after.totalDelivery == before.totalDelivery
                              && after.netProfit == before.netProfit - b.cost)
            && (!b.inStore ==> && after.grossSales == before.grossSales + b.soldPrice.value
                               && after.totalDelivery == before.totalDelivery + row.deliveryPrice
                               && after.netProfit == before.netProfit + b.soldPrice.value - b.cost - row.deliveryPrice)
  {
    SummaryAppend(items, CreateRow(owner, id, createdAt, b).value, owner);
  }

  /** A delete removes exactly the selected row, and with it that row's share
      of every sum. */
  lemma DeleteMovesSummary(items: seq<Item>, owner: int, id: Num)
    requires OldestFirst(items)
    requires DeleteSpec(items, owner, id).0.Ok?
    ensures var k := MatchIndex(items, id.n, owner).value;
            var out := DeleteSpec(items, owner, id);
            && out.1 == items[..k] + items[k + 1..]
            && Summarize(out.1, owner).totalCost == Summarize(items, owner).totalCost - items[k].purchasePrice
            && Summarize(out.1, owner).netProfit == Summarize(items, owner).netProfit - RowNet(owner, items[k])
  {
    var k := MatchIndex(items, id.n, owner).value;
    forall m | 0 <= m < |items| && m != k ensures items[m].id != id.n {
      if m < k { assert items[m].id < items[k].id; } else { assert items[k].id < items[m].id; }
    }
    DeleteOne(items, id.n, owner, k);
    TotalRemove(GrossSalesSum, owner, items, k);
    TotalRemove(TotalCostSum, owner, items, k);
    TotalRemove(TotalDeliverySum, owner, items, k);
  }

  /** A patch never moves cost or delivery; on an in-store row it moves nothing
      at all, whatever status or sale price it writes. */
  lemma PatchMovesOnlySales(items: seq<Item>, owner: int, id: Num, b: RawUpdate)
    requires PatchSpec(items, owner, id, b).0.Ok?
    ensures var k := MatchIndex(items, id.n, owner).value;
            var out := PatchSpec(items, owner, id, b);
            && Summarize(out.1, owner).totalCost == Summarize(items, owner).totalCost
            && Summarize(out.1, owner).totalDelivery == Summarize(items, owner).totalDelivery
            && (items[k].inStore ==> Summarize(out.1, owner) == Summarize(items, owner))
  {
    var k := MatchIndex(items, id.n, owner).value;
    var x := PatchSpec(items, owner, id, b).0.value;
    TotalUpdate(GrossSalesSum, owner, items, k, x);
    TotalUpdate(TotalCostSum, owner, items, k, x);
    TotalUpdate(TotalDeliverySum, owner, items, k, x);
  }

  /** The web client's Mark Sold request, as the API handles it: the patch
      schema drops in_store and delivery_price, so the row stays in store with
      a sale price beside it, and the summary does not move. */
  lemma MarkSoldIsDropped(items: seq<Item>, owner: int, k: nat, price: int, delivery: int)
    requires OldestFirst(items)
    requires k < |items| && items[k].owner == owner && items[k].inStore
    requires price >= 0 && delivery >= 0
    ensures ConfirmSell(Some(RowOf(items[k])), Some(price), Some(delivery)).Send?
    ensures var req := ConfirmSell(Some(RowOf(items[k])), Some(price), Some(delivery)).body;
            var out := PatchSpec(items, owner, Whole(req.0), req.1);
            && out.0.Ok? && out.0.value.inStore
            && out.0.value.soldPrice == Some(price) && out.0.value.status == Sold
            && out.0.value.deliveryPrice == items[k].deliveryPrice
            && !Consistent(out.0.value)
            && Summarize(out.1, owner) == Summarize(items, owner)
  {
    MatchOwnRow(items, k);
    var req := ConfirmSell(Some(RowOf(items[k])), Some(price), Some(delivery)).body;
    assert ParseItemUpdate(req.1) == Ok(ItemUpdate(Some(Sold), Some(price)));
    PatchMovesOnlySales(items, owner, Whole(req.0), req.1);
  }

  /** The same request through the sell transition: the row leaves the store
      in the shape a creation gives a sold row, and the summary gains the sale
      and the delivery. */
  lemma SellRecordsSale(items: seq<Item>, owner: int, k: nat, price: int, delivery: int)
    requires OldestFirst(items)
    requires k < |items| && items[k].owner == owner && items[k].inStore
    requires price >= 0 && delivery >= 0
    ensures ConfirmSell(Some(RowOf(items[k])), Some(price), Some(delivery)).Send?
    ensures var req := ConfirmSell(Some(RowOf(items[k])), Some(price), Some(delivery)).body;
            var out := SellSpec(items, owner, Whole(req.0), req.1);
            && out.0.Ok? && !out.0.value.inStore && Consistent(out.0.value)
            && out.0.value.soldPrice == Some(price) && out.0.value.deliveryPrice == delivery
            && Summarize(out.1, owner).grossSales == Summarize(items, owner).grossSales + price
            && Summarize(out.1, owner).totalDelivery == Summarize(items, owner).totalDelivery + delivery
            && Summarize(out.1, owner).totalCost == Summarize(items, owner).totalCost
            && Summarize(out.1, owner).netProfit == Summarize(items, owner).netProfit + price - delivery
  {
    MatchOwnRow(items, k);
    var req := ConfirmSell(Some(RowOf(items[k])), Some(price), Some(delivery)).body;
    var x := SoldItem(items[k], SellUpdate(price, delivery));
    assert SellSpec(items, owner, Whole(req.0), req.1) == (Ok(x), items[k := x]);
    TotalUpdate(GrossSalesSum, owner, items, k, x);
    TotalUpdate(TotalCostSum, owner, items, k, x);
    TotalUpdate(TotalDeliverySum, owner, items, k, x);
  }

  /** A patch can leave a row in a shape no creation produces: a sale price
      written on an in-store chair. */
  lemma PatchBreaksConsistency()
    ensures var chair := Item(1, 7, "A-1", "Chair", LivingRoom, 100, None, true, 0, InStore, 0);
            var out := PatchSpec([chair], 7, Whole(1), RawUpdate(Absent, Present(150), Absent, Absent));
            && Consistent(chair) && out.0.Ok? && !Consistent(out.0.value)
  {
    var chair := Item(1, 7, "A-1", "Chair", LivingRoom, 100, None, true, 0, InStore, 0);
    assert MatchIndex([chair], 1, 7) == Some(0);
  }

  /** The three worked summaries: one in-store item; one sold item; one of each. */
  lemma SummaryScenarios()
    ensures var a := CreateRow(1, 1, 0, ItemInput("A-1", "Chair", "Living Room", 100, true, Absent, Absent));
            a.Ok? && Summarize([a.value], 1) == Summary(0, 100, 0, -100)
    ensures var b := CreateRow(1, 1, 0, ItemInput("B-1", "Table", "Dining Room", 100, false, Present(150), Present(20)));
            b.Ok? && Summarize([b.value], 1) == Summary(150, 100, 20, 30)
    ensures var c1 := CreateRow(1, 1, 0, ItemInput("C-1", "Rug", "Rugs", 50, true, Absent, Absent));
            var c2 := CreateRow(1, 2, 1, ItemInput("C-2", "Bed", "Bedrooms", 80, false, Present(120), Present(10)));
            c1.Ok? && c2.Ok? && Summarize([c1.value, c2.value], 1) == Summary(120, 130, 10, -20)
  {
  }
}
