/** The profit summary of GET /analytics/summary: three sums over one owner's
    rows and the net profit they give. */
module Analytics {
  import opened Common
  import opened Items

  /** The three sums the summary runs. */
  datatype Metric = GrossSalesSum | TotalCostSum | TotalDeliverySum

  /** What one row adds to a sum for `owner`. The sales and delivery sums only
      look at rows with in_store=false; SUM skips a NULL sold_price, which is
      the same as adding 0. */
  function Term(m: Metric, owner: int, it: Item): (t: int)
    ensures it.owner != owner ==> t == 0
    ensures it.inStore && m != TotalCostSum ==> t == 0
    ensures NonNegative(it) ==> t >= 0
  {
    if it.owner != owner then 0
    else match m
      case GrossSalesSum => if !it.inStore then it.soldPrice.GetOr(0) else 0
      case TotalCostSum => it.purchasePrice
      case TotalDeliverySum => if !it.inStore then it.deliveryPrice else 0
  }

  /** COALESCE(SUM(..), 0) over the table: 0 when no row takes part. */
  function Total(m: Metric, owner: int, items: seq<Item>): (t: int)
    ensures (forall k :: 0 <= k < |items| ==> items[k].owner != owner) ==> t == 0
    ensures (forall k :: 0 <= k < |items| ==> NonNegative(items[k])) ==> t >= 0
  {
    if items == [] then 0 else Term(m, owner, items[0]) + Total(m, owner, items[1..])
  }

  datatype Summary = Summary(grossSales: int, totalCost: int, totalDelivery: int, netProfit: int)

  /** The four figures: net profit is sales less cost less delivery; an owner
      without rows gets four zeros, never a missing value; non-negative rows
      give non-negative sums. */
  function Summarize(items: seq<Item>, owner: int): (s: Summary)
    ensures s.netProfit == s.grossSales - s.totalCost - s.totalDelivery
    ensures (forall k :: 0 <= k < |items| ==> items[k].owner != owner) ==> s == Summary(0, 0, 0, 0)
    ensures (forall k :: 0 <= k < |items| ==> NonNegative(items[k]))
            ==> s.grossSales >= 0 && s.totalCost >= 0 && s.totalDelivery >= 0
  {
    var gross := Total(GrossSalesSum, owner, items);
    var cost := Total(TotalCostSum, owner, items);
    var delivery := Total(TotalDeliverySum, owner, items);
    Summary(gross, cost, delivery, gross - cost - delivery)
  }

  lemma {:induction false} TotalAppend(m: Metric, owner: int, a: seq<Item>, b: seq<Item>)
    ensures Total(m, owner, a + b) == Total(m, owner, a) + Total(m, owner, b)
  {
    if a == [] {
      assert a + b == b;
    } else {
      assert (a + b)[1..] == a[1..] + b;
      TotalAppend(m, owner, a[1..], b);
    }
  }

  /** Replacing one row changes each sum by the difference of the two rows' terms. */
  lemma TotalUpdate(m: Metric, owner: int, items: seq<Item>, k: nat, x: Item)
    requires k < |items|
    ensures Total(m, owner, items[k := x]) == Total(m, owner, items) - Term(m, owner, items[k]) + Term(m, owner, x)
  {
    assert items == items[..k] + ([items[k]] + items[k + 1..]);
    assert items[k := x] == items[..k] + ([x] + items[k + 1..]);
    TotalAppend(m, owner, items[..k], [items[k]] + items[k + 1..]);
    TotalAppend(m, owner, items[..k], [x] + items[k + 1..]);
    TotalAppend(m, owner, [items[k]], items[k + 1..]);
    TotalAppend(m, owner, [x], items[k + 1..]);
  }

  /** Removing one row takes its term out of each sum. */
  lemma TotalRemove(m: Metric, owner: int, items: seq<Item>, k: nat)
    requires k < |items|
    ensures Total(m, owner, items[..k] + items[k + 1..]) == Total(m, owner, items) - Term(m, owner, items[k])
  {
    assert items == items[..k] + ([items[k]] + items[k + 1..]);
    TotalAppend(m, owner, items[..k], [items[k]] + items[k + 1..]);
    TotalAppend(m, owner, [items[k]], items[k + 1..]);
    TotalAppend(m, owner, items[..k], items[k + 1..]);
  }

  /** Each sum only sees the owner's rows, which are the rows GET /items
      shows that owner, in whatever order. */
  lemma {:induction false} TotalOfListed(m: Metric, owner: int, items: seq<Item>)
    ensures Total(m, owner, items) == Total(m, owner, ListOwned(items, owner))
  {
    if items != [] {
      TotalOfListed(m, owner, items[1..]);
      var rest := ListOwned(items[1..], owner);
      if items[0].owner == owner {
        TotalAppend(m, owner, rest, [items[0]]);
      }
    }
  }

  /** Rows of other users do not affect the summary: two tables that show the
      owner the same list give the owner the same summary. */
  lemma SummaryIgnoresOthers(a: seq<Item>, b: seq<Item>, owner: int)
    requires ListOwned(a, owner) == ListOwned(b, owner)
    ensures Summarize(a, owner) == Summarize(b, owner)
  {
    TotalOfListed(GrossSalesSum, owner, a);
    TotalOfListed(GrossSalesSum, owner, b);
    TotalOfListed(TotalCostSum, owner, a);
    TotalOfListed(TotalCostSum, owner, b);
    TotalOfListed(TotalDeliverySum, owner, a);
    TotalOfListed(TotalDeliverySum, owner, b);
  }

  /** Adding one row of the owner adds its terms to the sums. */
  lemma SummaryAppend(items: seq<Item>, x: Item, owner: int)
    ensures Summarize(items + [x], owner) == Summary(
      Summarize(items, owner).grossSales + Term(GrossSalesSum, owner, x),
      Summarize(items, owner).totalCost + Term(TotalCostSum, owner, x),
      Summarize(items, owner).totalDelivery + Term(TotalDeliverySum, owner, x),
      Summarize(items, owner).netProfit + Term(GrossSalesSum, owner, x)
        - Term(TotalCostSum, owner, x) - Term(TotalDeliverySum, owner, x))
  {
    TotalAppend(GrossSalesSum, owner, items, [x]);
    TotalAppend(TotalCostSum, owner, items, [x]);
    TotalAppend(TotalDeliverySum, owner, items, [x]);
  }

  /** Unsold stock counts against profit at once: adding an in-store item of
      cost c lowers the net profit by c and leaves sales and delivery alone. */
  lemma AddInStoreItem(items: seq<Item>, x: Item, owner: int)
    requires x.owner == owner && x.inStore
    ensures Summarize(items + [x], owner).grossSales == Summarize(items, owner).grossSales
    ensures Summarize(items + [x], owner).totalDelivery == Summarize(items, owner).totalDelivery
    ensures Summarize(items + [x], owner).totalCost == Summarize(items, owner).totalCost + x.purchasePrice
    ensures Summarize(items + [x], owner).netProfit == Summarize(items, owner).netProfit - x.purchasePrice
  {
    SummaryAppend(items, x, owner);
  }

  /** Adding a sold item moves the net profit by its sale price less its cost
      and its delivery. */
  lemma AddSoldItem(items: seq<Item>, x: Item, owner: int)
    requires x.owner == owner && !x.inStore && x.soldPrice.Some?
    ensures Summarize(items + [x], owner).grossSales == Summarize(items, owner).grossSales + x.soldPrice.value
    ensures Summarize(items + [x], owner).totalDelivery == Summarize(items, owner).totalDelivery + x.deliveryPrice
    ensures Summarize(items + [x], owner).netProfit
            == Summarize(items, owner).netProfit + x.soldPrice.value - x.purchasePrice - x.deliveryPrice
  {
    SummaryAppend(items, x, owner);
  }

  /** The net profit, row by row: what each sold row earned (sale less cost
      less delivery) minus the cost of every unsold row. */
  function RowNet(owner: int, it: Item): int {
    Term(GrossSalesSum, owner, it) - Term(TotalCostSum, owner, it) - Term(TotalDeliverySum, owner, it)
  }

  function NetByRow(owner: int, items: seq<Item>): int {
    if items == [] then 0 else RowNet(owner, items[0]) + NetByRow(owner, items[1..])
  }

  lemma {:induction false} NetProfitByRow(items: seq<Item>, owner: int)
    ensures Summarize(items, owner).netProfit == NetByRow(owner, items)
  {
    if items != [] {
      NetProfitByRow(items[1..], owner);
    }
  }
}
