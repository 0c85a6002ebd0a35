/** The item ledger of the /items routes: the ItemCreate and ItemUpdate
    schemas, the row a creation stores, and the list, create, patch and delete
    handlers as methods of a Ledger that owns the items table. */
module Items {
  import opened Common

  datatype Category = LivingRoom | DiningRoom | Bedrooms | Mattresses | Rugs

  function CategoryName(c: Category): string {
    match c
    case LivingRoom => "Living Room"
    case DiningRoom => "Dining Room"
    case Bedrooms => "Bedrooms"
    case Mattresses => "Mattresses"
    case Rugs => "Rugs"
  }

  /** z.enum over the five category names. */
  function ParseCategory(s: string): (r: Option<Category>)
    ensures r.Some? ==> CategoryName(r.value) == s
    ensures forall c :: CategoryName(c) == s ==> r == Some(c)
  {
    if s == "Living Room" then Some(LivingRoom)
    else if s == "Dining Room" then Some(DiningRoom)
    else if s == "Bedrooms" then Some(Bedrooms)
    else if s == "Mattresses" then Some(Mattresses)
    else if s == "Rugs" then Some(Rugs)
    else None
  }

  datatype Status = InStore | Listed | Sold | Shipped | Returned

  function StatusName(s: Status): string {
    match s
    case InStore => "in_store"
    case Listed => "listed"
    case Sold => "sold"
    case Shipped => "shipped"
    case Returned => "returned"
  }

  /** The status enum of ItemUpdate, which leaves "in_store" out. */
  function ParsePatchStatus(s: string): (r: Option<Status>)
    ensures r.Some? ==> StatusName(r.value) == s && r.value != InStore
    ensures forall st :: st != InStore && StatusName(st) == s ==> r == Some(st)
  {
    if s == "listed" then Some(Listed)
    else if s == "sold" then Some(Sold)
    else if s == "shipped" then Some(Shipped)
    else if s == "returned" then Some(Returned)
    else None
  }

  /** One row of the items table; amounts are in minor units. */
  datatype Item = Item(
    id: int,
    owner: int,
    itemNumber: string,
    title: string,
    category: Category,
    purchasePrice: int,
    soldPrice: Option<int>,
    inStore: bool,
    deliveryPrice: int,
    status: Status,
    createdAt: int)

  /** Every amount the row holds is non-negative. */
  predicate NonNegative(it: Item) {
    it.purchasePrice >= 0 && it.deliveryPrice >= 0 && (it.soldPrice.Some? ==> it.soldPrice.value >= 0)
  }

  /** The shape a creation gives a row: an in-store item carries no sale price,
      no delivery and status "in_store"; a sold item carries a sale price and
      status "sold". */
  predicate Consistent(it: Item) {
    if it.inStore then it.soldPrice.None? && it.deliveryPrice == 0 && it.status == InStore
    else it.soldPrice.Some? && it.status == Sold
  }

  /** The JSON body of POST /items, its required keys present with their JSON types. */
  datatype ItemInput = ItemInput(
    itemNumber: string,
    title: string,
    category: string,
    cost: int,
    inStore: bool,
    soldPrice: Field<int>,
    deliveryPrice: Field<int>)

  /** z.number().nonnegative().optional(): a missing key, or a non-negative number. */
  predicate OptionalAmount(f: Field<int>) {
    f.Absent? || (f.Present? && f.value >= 0)
  }

  /** ItemCreate.parse accepts the body. */
  predicate CreateSchema(b: ItemInput) {
    && b.itemNumber != []
    && b.title != []
    && ParseCategory(b.category).Some?
    && b.cost >= 0
    && OptionalAmount(b.soldPrice)
    && OptionalAmount(b.deliveryPrice)
  }

  /** The POST /items handler up to the INSERT: the schema check, the rule that
      a sold item needs a sale price, and the row the INSERT stores under the
      id and created_at the store assigns. */
  function CreateRow(owner: int, id: int, createdAt: int, b: ItemInput): (r: Result<Item>)
    ensures r.Ok? <==> CreateSchema(b) && (b.inStore || b.soldPrice.Present?)
    ensures !CreateSchema(b) ==> r == Err(InvalidInput)
    ensures CreateSchema(b) && !b.inStore && !b.soldPrice.Present? ==>
              r == Err(BadRequest("sold_price is required when item is sold"))
    ensures r.Ok? ==> Consistent(r.value) && NonNegative(r.value)
    ensures r.Ok? ==> && r.value.id == id && r.value.owner == owner && r.value.createdAt == createdAt
                      && r.value.itemNumber == b.itemNumber && r.value.title == b.title
                      && CategoryName(r.value.category) == b.category
                      && r.value.purchasePrice == b.cost && r.value.inStore == b.inStore
    ensures r.Ok? && b.inStore ==> r.value.soldPrice == None && r.value.deliveryPrice == 0
    ensures r.Ok? && !b.inStore ==> && r.value.soldPrice == Some(b.soldPrice.value)
                                    && r.value.deliveryPrice == (if b.deliveryPrice.Present? then b.deliveryPrice.value else 0)
  {
    if !CreateSchema(b) then Err(InvalidInput)
    else if !b.inStore && !b.soldPrice.Present? then Err(BadRequest("sold_price is required when item is sold"))
    else
      var sold := if b.soldPrice.Present? then b.soldPrice.value else 0;
      var delivery := if b.deliveryPrice.Present? then b.deliveryPrice.value else 0;
      Ok(Item(
        id, owner, b.itemNumber, b.title, ParseCategory(b.category).value, b.cost,
        if b.inStore then None else Some(sold),
        b.inStore,
        if b.inStore then 0 else delivery,
        if b.inStore then InStore else Sold,
        createdAt))
  }

  /** Items ordered newest first. */
  predicate NewestFirst(items: seq<Item>) {
    forall j, k :: 0 <= j < k < |items| ==> items[j].createdAt > items[k].createdAt
  }

  /** Items in the order the store created them. */
  predicate OldestFirst(items: seq<Item>) {
    forall j, k :: 0 <= j < k < |items| ==> items[j].id < items[k].id && items[j].createdAt < items[k].createdAt
  }

  /** SELECT * FROM items WHERE user_id=$1 ORDER BY created_at DESC, over a
      table kept in creation order: the owner's rows, newest first. */
  function ListOwned(items: seq<Item>, owner: int): (r: seq<Item>)
    ensures forall k :: 0 <= k < |r| ==> r[k] in items && r[k].owner == owner
    ensures |r| <= |items|
    ensures OldestFirst(items) ==> NewestFirst(r)
  {
    if items == [] then []
    else
      var rest := ListOwned(items[1..], owner);
      OldestFirstTail(items);
      if items[0].owner == owner then
        NewestFirstAppend(items, rest);
        rest + [items[0]]
      else rest
  }

  /** Creation order survives dropping the oldest row. */
  lemma OldestFirstTail(items: seq<Item>)
    requires items != []
    ensures OldestFirst(items) ==> OldestFirst(items[1..])
  {
    if OldestFirst(items) {
      var tail := items[1..];
      forall j, k | 0 <= j < k < |tail| ensures tail[j].id < tail[k].id && tail[j].createdAt < tail[k].createdAt {
        assert tail[j] == items[j + 1] && tail[k] == items[k + 1];
      }
    }
  }

  /** Every row of the owner is listed. */
  lemma {:induction false} ListOwnedComplete(items: seq<Item>, owner: int, it: Item)
    requires it in items && it.owner == owner
    ensures it in ListOwned(items, owner)
  {
    if items[0] != it {
      assert it in items[1..];
      ListOwnedComplete(items[1..], owner, it);
    }
  }

  lemma NewestFirstAppend(items: seq<Item>, rest: seq<Item>)
    requires items != []
    requires forall k :: 0 <= k < |rest| ==> rest[k] in items[1..]
    requires OldestFirst(items) ==> NewestFirst(rest)
    ensures OldestFirst(items) ==> NewestFirst(rest + [items[0]])
  {
    if OldestFirst(items) {
      var r := rest + [items[0]];
      forall j, k | 0 <= j < k < |r| ensures r[j].createdAt > r[k].createdAt {
        if k < |rest| {
          assert r[j] == rest[j] && r[k] == rest[k];
        } else {
          assert r[j] == rest[j] && r[j] in items[1..];
          var m :| 0 <= m < |items[1..]| && items[1..][m] == r[j];
          assert items[m + 1] == r[j];
        }
      }
    }
  }

  /** The position of the row a `WHERE id=.. AND user_id=..` clause selects. */
  function MatchIndex(items: seq<Item>, id: int, owner: int): (r: Option<nat>)
    ensures r.Some? ==> r.value < |items| && items[r.value].id == id && items[r.value].owner == owner
    ensures r.None? ==> forall k :: 0 <= k < |items| ==> !(items[k].id == id && items[k].owner == owner)
  {
    if items == [] then None
    else if items[0].id == id && items[0].owner == owner then Some(0)
    else match MatchIndex(items[1..], id, owner)
      case None => None
      case Some(k) => Some(k + 1)
  }

  /** With ids growing in creation order, a row's own id and owner select that row. */
  lemma {:induction false} MatchOwnRow(items: seq<Item>, k: nat)
    requires OldestFirst(items)
    requires k < |items|
    ensures MatchIndex(items, items[k].id, items[k].owner) == Some(k)
  {
    if k > 0 {
      assert items[0].id < items[k].id;
      OldestFirstTail(items);
      MatchOwnRow(items[1..], k - 1);
    }
  }

  /** The body of PATCH /items/:id with the keys the web client may send. */
  datatype RawUpdate = RawUpdate(
    status: Field<string>,
    soldPrice: Field<int>,
    inStore: Field<bool>,
    deliveryPrice: Field<int>)

  /** What ItemUpdate.parse returns: only the keys the schema declares. */
  datatype ItemUpdate = ItemUpdate(status: Option<Status>, soldPrice: Option<int>)

  /** ItemUpdate.parse. A zod object strips the keys it does not declare, so
      in_store and delivery_price are dropped without being looked at. */
  function ParseItemUpdate(b: RawUpdate): (r: Result<ItemUpdate>)
    ensures r.Ok? <==> (b.status.Absent? || (b.status.Present? && ParsePatchStatus(b.status.value).Some?))
                       && OptionalAmount(b.soldPrice)
    ensures r.Err? ==> r.failure == InvalidInput
    ensures r.Ok? ==> r.value.status.Some? == b.status.Present? && r.value.soldPrice.Some? == b.soldPrice.Present?
    ensures r.Ok? && r.value.status.Some? ==> StatusName(r.value.status.value) == b.status.value && r.value.status.value != InStore
    ensures r.Ok? && r.value.soldPrice.Some? ==> r.value.soldPrice.value == b.soldPrice.value >= 0
  {
    if b.status.Null? || (b.status.Present? && ParsePatchStatus(b.status.value).None?) then Err(InvalidInput)
    else if !OptionalAmount(b.soldPrice) then Err(InvalidInput)
    else
      Ok(ItemUpdate(
        if b.status.Present? then ParsePatchStatus(b.status.value) else None,
        if b.soldPrice.Present? then Some(b.soldPrice.value) else None))
  }

  /** The row as the patch leaves it: the given keys written, everything else as it was. */
  function Patched(it: Item, u: ItemUpdate): (r: Item)
    ensures r == it.(status := r.status, soldPrice := r.soldPrice)
    ensures u.status.Some? ==> r.status == u.status.value
    ensures u.status.None? ==> r.status == it.status
    ensures u.soldPrice.Some? ==> r.soldPrice == u.soldPrice
    ensures u.soldPrice.None? ==> r.soldPrice == it.soldPrice
    ensures NonNegative(it) && (u.soldPrice.Some? ==> u.soldPrice.value >= 0) ==> NonNegative(r)
  {
    it.(status := u.status.GetOr(it.status),
        soldPrice := if u.soldPrice.Some? then u.soldPrice else it.soldPrice)
  }

  /** The columns the UPDATE may set, and the parameters bound to placeholders. */
  datatype Column = StatusColumn | SoldPriceColumn
  datatype Param = StatusParam(status: Status) | AmountParam(amount: int) | KeyParam(key: int)

  /** One `column=$placeholder` of the SET list. */
  datatype Setter = Setter(column: Column, placeholder: int)

  /** Object.entries of the parsed update, in the schema's key order. */
  function UpdateEntries(u: ItemUpdate): (es: seq<(Column, Param)>)
    ensures es == [] <==> u.status.None? && u.soldPrice.None?
  {
    (if u.status.Some? then [(StatusColumn, StatusParam(u.status.value))] else [])
    + (if u.soldPrice.Some? then [(SoldPriceColumn, AmountParam(u.soldPrice.value))] else [])
  }

  predicate Fits(c: Column, p: Param) {
    match c
    case StatusColumn => p.StatusParam?
    case SoldPriceColumn => p.AmountParam?
  }

  /** Every placeholder of the SET list names a parameter of its column's kind. */
  predicate WellBound(setters: seq<Setter>, vals: seq<Param>) {
    forall j :: 0 <= j < |setters| ==>
      1 <= setters[j].placeholder <= |vals| && Fits(setters[j].column, vals[setters[j].placeholder - 1])
  }

  /** The store executing the SET list on one row. */
  function ApplySetters(it: Item, setters: seq<Setter>, vals: seq<Param>): (r: Item)
    requires WellBound(setters, vals)
    ensures r == it.(status := r.status, soldPrice := r.soldPrice)
    decreases |setters|
  {
    if setters == [] then it
    else
      var p := vals[setters[0].placeholder - 1];
      var it' := match setters[0].column
        case StatusColumn => it.(status := p.status)
        case SoldPriceColumn => it.(soldPrice := Some(p.amount));
      ApplySetters(it', setters[1..], vals)
  }

  /** Setters and parameters as the handler's loop builds them: the j-th entry
      becomes `column=$(j+1)` bound to the j-th parameter. */
  predicate BuiltFrom(entries: seq<(Column, Param)>, setters: seq<Setter>, vals: seq<Param>) {
    && |setters| == |entries| <= |vals|
    && forall j :: 0 <= j < |entries| ==>
         setters[j] == Setter(entries[j].0, j + 1) && vals[j] == entries[j].1
  }

  /** Binding correctness: the statement the loop builds writes exactly the
      parsed update into the row. */
  lemma BuiltStatementApplies(it: Item, u: ItemUpdate, setters: seq<Setter>, vals: seq<Param>)
    requires BuiltFrom(UpdateEntries(u), setters, vals)
    ensures WellBound(setters, vals)
    ensures ApplySetters(it, setters, vals) == Patched(it, u)
  {
    var es := UpdateEntries(u);
    forall j | 0 <= j < |setters|
      ensures 1 <= setters[j].placeholder <= |vals| && Fits(setters[j].column, vals[setters[j].placeholder - 1])
    {
      assert setters[j] == Setter(es[j].0, j + 1) && vals[j] == es[j].1;
    }
    if u.status.Some? && u.soldPrice.Some? {
      var it1 := it.(status := u.status.value);
      assert ApplySetters(it, setters, vals) == ApplySetters(it1, setters[1..], vals);
      assert ApplySetters(it1, setters[1..], vals) == ApplySetters(it1.(soldPrice := u.soldPrice), setters[2..], vals);
      assert setters[2..] == [];
    } else if u.status.Some? {
      assert ApplySetters(it, setters, vals) == ApplySetters(it.(status := u.status.value), setters[1..], vals);
      assert setters[1..] == [];
    } else if u.soldPrice.Some? {
      assert ApplySetters(it, setters, vals) == ApplySetters(it.(soldPrice := u.soldPrice), setters[1..], vals);
      assert setters[1..] == [];
    }
  }

  /** PATCH /items/:id as a function of the table before the request: the
      response and the table after it. */
  function PatchSpec(items: seq<Item>, owner: int, id: Num, b: RawUpdate): (out: (Result<Item>, seq<Item>))
    ensures out.0.Err? ==> out.1 == items
    ensures ParseItemUpdate(b).Err? ==> out.0 == Err(InvalidInput)
    ensures b.status.Absent? && b.soldPrice.Absent? ==> out.0 == Err(BadRequest("No fields"))
    ensures (&& ParseItemUpdate(b).Ok? && UpdateEntries(ParseItemUpdate(b).value) != []
             && id.Whole? && MatchIndex(items, id.n, owner).None?) ==> out.0 == Err(NotFound("Not found"))
    ensures out.0.Ok? ==> id.Whole? && MatchIndex(items, id.n, owner).Some?
    ensures out.0.Ok? ==> var k := MatchIndex(items, id.n, owner).value;
                          && out.1 == items[k := out.0.value]
                          && out.0.value == items[k].(status := out.0.value.status, soldPrice := out.0.value.soldPrice)
                          && (out.0.value.status == items[k].status || out.0.value.status != InStore)
    ensures out.0.Ok? ==> var k := MatchIndex(items, id.n, owner).value;
                          && (b.status.Present? ==> StatusName(out.0.value.status) == b.status.value)
                          && (b.status.Absent? ==> out.0.value.status == items[k].status)
                          && (b.soldPrice.Present? ==> out.0.value.soldPrice == Some(b.soldPrice.value))
                          && (b.soldPrice.Absent? ==> out.0.value.soldPrice == items[k].soldPrice)
    ensures (&& ParseItemUpdate(b).Ok? && !(b.status.Absent? && b.soldPrice.Absent?)
             && id.Whole? && MatchIndex(items, id.n, owner).Some?) ==> out.0.Ok?
  {
    match ParseItemUpdate(b)
    case Err(f) => (Err(f), items)
    case Ok(u) =>
      if UpdateEntries(u) == [] then (Err(BadRequest("No fields")), items)
      else if !id.Whole? then (Err(ServerError), items)
      else match MatchIndex(items, id.n, owner)
        case None => (Err(NotFound("Not found")), items)
        case Some(k) => (Ok(Patched(items[k], u)), items[k := Patched(items[k], u)])
  }

  /** DELETE FROM items WHERE id=$1 AND user_id=$2: drops the matching rows,
      keeps every other row in its order. */
  function DeleteRows(items: seq<Item>, id: int, owner: int): (r: seq<Item>)
    ensures forall j :: 0 <= j < |r| ==> r[j] in items && !(r[j].id == id && r[j].owner == owner)
    ensures |r| <= |items|
    ensures |r| == |items| <==> MatchIndex(items, id, owner).None?
  {
    if items == [] then []
    else
      var rest := DeleteRows(items[1..], id, owner);
      if items[0].id == id && items[0].owner == owner then rest else [items[0]] + rest
  }

  /** Every row that does not match both the id and the owner survives the delete. */
  lemma {:induction false} DeleteKeepsOthers(items: seq<Item>, id: int, owner: int, it: Item)
    requires it in items && !(it.id == id && it.owner == owner)
    ensures it in DeleteRows(items, id, owner)
  {
    if items[0] != it {
      assert it in items[1..];
      DeleteKeepsOthers(items[1..], id, owner, it);
    }
  }

  /** With unique ids, the delete removes the one matching row and nothing else. */
  lemma {:induction false} DeleteOne(items: seq<Item>, id: int, owner: int, k: nat)
    requires MatchIndex(items, id, owner) == Some(k)
    requires forall m :: 0 <= m < |items| && m != k ==> items[m].id != id
    ensures DeleteRows(items, id, owner) == items[..k] + items[k + 1..]
  {
    var tail := items[1..];
    if k == 0 {
      NoMatch(tail, id, owner);
    } else {
      assert MatchIndex(tail, id, owner) == Some(k - 1);
      DeleteOne(tail, id, owner, k - 1);
      assert items[..k] == [items[0]] + tail[..k - 1];
      assert items[k + 1..] == tail[k..];
    }
  }

  lemma {:induction false} NoMatch(items: seq<Item>, id: int, owner: int)
    requires forall k :: 0 <= k < |items| ==> items[k].id != id
    ensures DeleteRows(items, id, owner) == items
  {
    if items != [] {
      NoMatch(items[1..], id, owner);
    }
  }

  /** DELETE /items/:id as a function of the table before the request. */
  function DeleteSpec(items: seq<Item>, owner: int, id: Num): (out: (Result<()>, seq<Item>))
    ensures id.NotFinite? ==> out.0 == Err(BadRequest("Invalid id"))
    ensures out.0.Err? ==> out.1 == items
    ensures out.0.Ok? <==> id.Whole? && MatchIndex(items, id.n, owner).Some?
    ensures id.Whole? && MatchIndex(items, id.n, owner).None? ==> out.0 == Err(NotFound("Not found"))
    ensures out.0.Ok? ==> && |out.1| < |items|
                          && forall j :: 0 <= j < |out.1| ==> out.1[j] in items && !(out.1[j].id == id.n && out.1[j].owner == owner)
  {
    match id
    case NotFinite => (Err(BadRequest("Invalid id")), items)
    case Fraction => (Err(ServerError), items)
    case Whole(n) =>
      var rest := DeleteRows(items, n, owner);
      if |rest| == |items| then (Err(NotFound("Not found")), items) else (Ok(()), rest)
  }

  /** The sell transition: a body carrying in_store:false, the sale price and
      the delivery cost together, with status "sold" or no status. */
  datatype SellUpdate = SellUpdate(soldPrice: int, deliveryPrice: int)

  function ParseSellUpdate(b: RawUpdate): (r: Result<SellUpdate>)
    ensures r.Ok? <==> (&& b.inStore == Present(false)
                        && b.soldPrice.Present? && b.soldPrice.value >= 0
                        && b.deliveryPrice.Present? && b.deliveryPrice.value >= 0
                        && (b.status.Absent? || b.status == Present("sold")))
    ensures r.Ok? ==> r.value == SellUpdate(b.soldPrice.value, b.deliveryPrice.value)
    ensures r.Err? ==> r.failure == InvalidInput
  {
    if b.inStore != Present(false) then Err(InvalidInput)
    else if !(b.soldPrice.Present? && b.soldPrice.value >= 0) then Err(InvalidInput)
    else if !(b.deliveryPrice.Present? && b.deliveryPrice.value >= 0) then Err(InvalidInput)
    else if !(b.status.Absent? || b.status == Present("sold")) then Err(InvalidInput)
    else Ok(SellUpdate(b.soldPrice.value, b.deliveryPrice.value))
  }

  function SoldItem(it: Item, s: SellUpdate): Item {
    it.(inStore := false, soldPrice := Some(s.soldPrice), deliveryPrice := s.deliveryPrice, status := Sold)
  }

  /** The sell transition as a function of the table before the request. */
  function SellSpec(items: seq<Item>, owner: int, id: Num, b: RawUpdate): (out: (Result<Item>, seq<Item>))
    ensures out.0.Err? ==> out.1 == items
    ensures out.0.Ok? ==> id.Whole? && MatchIndex(items, id.n, owner).Some? && ParseSellUpdate(b).Ok?
    ensures out.0.Ok? ==> var k := MatchIndex(items, id.n, owner).value;
                          && out.1 == items[k := out.0.value]
                          && Consistent(out.0.value) && !out.0.value.inStore
                          && out.0.value.soldPrice == Some(b.soldPrice.value)
                          && out.0.value.deliveryPrice == b.deliveryPrice.value
                          && out.0.value == items[k].(inStore := false, soldPrice := out.0.value.soldPrice,
                                                      deliveryPrice := out.0.value.deliveryPrice, status := Sold)
    ensures ParseSellUpdate(b).Err? ==> out.0 == Err(InvalidInput)
    ensures ParseSellUpdate(b).Ok? && id.Whole? && MatchIndex(items, id.n, owner).None?
            ==> out.0 == Err(NotFound("Not found"))
    ensures ParseSellUpdate(b).Ok? && id.Whole? && MatchIndex(items, id.n, owner).Some? ==> out.0.Ok?
  {
    match ParseSellUpdate(b)
    case Err(f) => (Err(f), items)
    case Ok(s) =>
      if !id.Whole? then (Err(ServerError), items)
      else match MatchIndex(items, id.n, owner)
        case None => (Err(NotFound("Not found")), items)
        case Some(k) => (Ok(SoldItem(items[k], s)), items[k := SoldItem(items[k], s)])
  }

  /** The ledger invariant: ids and timestamps grow with creation and stay
      below the next ones to be handed out, every amount is non-negative, and
      a sold row has a sale price. */
  predicate Stored(items: seq<Item>, nextId: int, clock: int) {
    && OldestFirst(items)
    && forall k :: 0 <= k < |items| ==>
         && items[k].id < nextId && items[k].createdAt < clock
         && NonNegative(items[k]) && (!items[k].inStore ==> items[k].soldPrice.Some?)
  }

  /** A row stored under the next id and timestamp keeps the invariant. */
  lemma AppendKeepsStored(items: seq<Item>, nextId: int, clock: int, x: Item)
    requires Stored(items, nextId, clock)
    requires x.id == nextId && x.createdAt == clock
    requires NonNegative(x) && (!x.inStore ==> x.soldPrice.Some?)
    ensures Stored(items + [x], nextId + 1, clock + 1)
  {
    var r := items + [x];
    forall j, k | 0 <= j < k < |r| ensures r[j].id < r[k].id && r[j].createdAt < r[k].createdAt {
      assert r[j] == items[j];
    }
  }

  /** Rewriting a row in place, under its own id and timestamp, keeps the invariant. */
  lemma ReplaceKeepsStored(items: seq<Item>, nextId: int, clock: int, k: nat, x: Item)
    requires Stored(items, nextId, clock) && k < |items|
    requires x.id == items[k].id && x.createdAt == items[k].createdAt
    requires NonNegative(x) && (!x.inStore ==> x.soldPrice.Some?)
    ensures Stored(items[k := x], nextId, clock)
  {
    var r := items[k := x];
    forall i, j | 0 <= i < j < |r| ensures r[i].id < r[j].id && r[i].createdAt < r[j].createdAt {
      assert r[i].id == items[i].id && r[i].createdAt == items[i].createdAt;
      assert r[j].id == items[j].id && r[j].createdAt == items[j].createdAt;
    }
  }

  /** Removing a row keeps the invariant. */
  lemma RemoveKeepsStored(items: seq<Item>, nextId: int, clock: int, k: nat)
    requires Stored(items, nextId, clock) && k < |items|
    ensures Stored(items[..k] + items[k + 1..], nextId, clock)
  {
    var r := items[..k] + items[k + 1..];
    forall j | 0 <= j < |r| ensures r[j] == items[if j < k then j else j + 1] {
    }
    forall i, j | 0 <= i < j < |r| ensures r[i].id < r[j].id && r[i].createdAt < r[j].createdAt {
      assert r[i] == items[if i < k then i else i + 1];
      assert r[j] == items[if j < k then j else j + 1];
    }
  }

  /** The items table, owned by one object; `nextId` and `clock` stand for the
      id sequence and the creation timestamps. */
  class Ledger {
    var items: seq<Item>
    var nextId: int
    var clock: int

    ghost predicate Valid()
      reads this
    {
      Stored(items, nextId, clock)
    }

    constructor ()
      ensures Valid() && items == []
    {
      items, nextId, clock := [], 1, 0;
    }

    /** GET /items. */
    method List(owner: int) returns (r: seq<Item>)
      requires Valid()
      ensures r == ListOwned(items, owner)
      ensures forall it :: it in r <==> it in items && it.owner == owner
      ensures NewestFirst(r)
    {
      r := ListOwned(items, owner);
      forall it | it in items && it.owner == owner ensures it in r {
        ListOwnedComplete(items, owner, it);
      }
    }

    /** POST /items. */
    method Create(owner: int, b: ItemInput) returns (r: Result<Item>)
      requires Valid()
      modifies this
      ensures Valid()
      ensures r == CreateRow(owner, old(nextId), old(clock), b)
      ensures r.Ok? ==> items == old(items) + [r.value]
      ensures r.Err? ==> items == old(items)
      ensures r.Ok? ==> nextId == old(nextId) + 1 && clock == old(clock) + 1
      ensures r.Err? ==> nextId == old(nextId) && clock == old(clock)
    {
      r := CreateRow(owner, nextId, clock, b);
      if r.Ok? {
        AppendKeepsStored(items, nextId, clock, r.value);
        items := items + [r.value];
        nextId, clock := nextId + 1, clock + 1;
      }
    }

    /** PATCH /items/:id, building the SET list and its parameters in a loop. */
    method Patch(owner: int, id: Num, b: RawUpdate) returns (r: Result<Item>)
      requires Valid()
      modifies this
      ensures Valid()
      ensures (r, items) == PatchSpec(old(items), owner, id, b)
      ensures nextId == old(nextId) && clock == old(clock)
    {
      var parsed := ParseItemUpdate(b);
      if parsed.Err? {
        return Err(parsed.failure);
      }
      var u := parsed.value;
      var entries := UpdateEntries(u);
      var fields: seq<Setter> := [];
      var vals: seq<Param> := [];
      var i := 1;
      for k := 0 to |entries|
        invariant i == k + 1
        invariant BuiltFrom(entries[..k], fields, vals) && |vals| == k
      {
        fields := fields + [Setter(entries[k].0, i)];
        i := i + 1;
        vals := vals + [entries[k].1];
      }
      assert entries[..|entries|] == entries;
      if |fields| == 0 {
        return Err(BadRequest("No fields"));
      }
      if !id.Whole? {
        return Err(ServerError);
      }
      vals := vals + [KeyParam(id.n), KeyParam(owner)];
      // WHERE id=$i AND user_id=$(i+1)
      assert vals[i - 1] == KeyParam(id.n) && vals[i] == KeyParam(owner);
      var m := MatchIndex(items, vals[i - 1].key, vals[i].key);
      if m.None? {
        return Err(NotFound("Not found"));
      }
      BuiltStatementApplies(items[m.value], u, fields, vals);
      var row := ApplySetters(items[m.value], fields, vals);
      ReplaceKeepsStored(items, nextId, clock, m.value, row);
      items := items[m.value := row];
      r := Ok(row);
    }

    /** DELETE /items/:id. */
    method Delete(owner: int, id: Num) returns (r: Result<()>)
      requires Valid()
      modifies this
      ensures Valid()
      ensures (r, items) == DeleteSpec(old(items), owner, id)
      ensures nextId == old(nextId) && clock == old(clock)
    {
      if id.NotFinite? {
        return Err(BadRequest("Invalid id"));
      }
      if id.Fraction? {
        return Err(ServerError);
      }
      var rest := DeleteRows(items, id.n, owner);
      if |rest| == |items| {
        return Err(NotFound("Not found"));
      }
      var k := MatchIndex(items, id.n, owner).value;
      assert forall m :: 0 <= m < |items| && m != k ==> items[m].id != id.n by {
        forall m | 0 <= m < |items| && m != k ensures items[m].id != id.n {
          if m < k { assert items[m].id < items[k].id; } else { assert items[k].id < items[m].id; }
        }
      }
      DeleteOne(items, id.n, owner, k);
      RemoveKeepsStored(items, nextId, clock, k);
      items := rest;
      r := Ok(());
    }

    /** The sell transition the web client's Mark Sold request asks for. */
    method Sell(owner: int, id: Num, b: RawUpdate) returns (r: Result<Item>)
      requires Valid()
      modifies this
      ensures Valid()
      ensures (r, items) == SellSpec(old(items), owner, id, b)
      ensures nextId == old(nextId) && clock == old(clock)
    {
      var parsed := ParseSellUpdate(b);
      if parsed.Err? {
        return Err(parsed.failure);
      }
      if !id.Whole? {
        return Err(ServerError);
      }
      var m := MatchIndex(items, id.n, owner);
      if m.None? {
        return Err(NotFound("Not found"));
      }
      var row := SoldItem(items[m.value], parsed.value);
      ReplaceKeepsStored(items, nextId, clock, m.value, row);
      items := items[m.value := row];
      r := Ok(row);
    }
  }
}
