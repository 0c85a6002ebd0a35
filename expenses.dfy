/** The expense recorder of POST /expenses: the ExpenseCreate schema, the
    ownership check against the items table, and the append to the expenses
    table. */
module Expenses {
  import opened Common
  import opened Items

  datatype ExpenseType = Shipping | PlatformFee | Supplies | Tax | Other

  function TypeName(t: ExpenseType): string {
    match t
    case Shipping => "shipping"
    case PlatformFee => "platform_fee"
    case Supplies => "supplies"
    case Tax => "tax"
    case Other => "other"
  }

  /** z.enum over the five expense types. */
  function ParseExpenseType(s: string): (r: Option<ExpenseType>)
    ensures r.Some? ==> TypeName(r.value) == s
    ensures forall t :: TypeName(t) == s ==> r == Some(t)
  {
    if s == "shipping" then Some(Shipping)
    else if s == "platform_fee" then Some(PlatformFee)
    else if s == "supplies" then Some(Supplies)
    else if s == "tax" then Some(Tax)
    else if s == "other" then Some(Other)
    else None
  }

  /** The JSON body of POST /expenses; amounts are in minor units. */
  datatype ExpenseInput = ExpenseInput(itemId: Num, kind: string, amount: int)

  datatype Expense = Expense(id: int, itemId: int, kind: ExpenseType, amount: int)

  /** ExpenseCreate.parse accepts the body: an integer item id, a known type,
      a positive amount. */
  predicate ExpenseSchema(b: ExpenseInput) {
    b.itemId.Whole? && ParseExpenseType(b.kind).Some? && b.amount > 0
  }

  /** The handler as a function of the items table and of the id the store
      gives the new expense: the expense it appends, or why it appends none. */
  function RecordExpense(items: seq<Item>, owner: int, id: int, b: ExpenseInput): (r: Result<Expense>)
    ensures !ExpenseSchema(b) ==> r == Err(InvalidInput)
    ensures ExpenseSchema(b) && MatchIndex(items, b.itemId.n, owner).None? ==> r == Err(NotFound("Item not found"))
    ensures r.Ok? <==> ExpenseSchema(b) && exists k :: 0 <= k < |items| && items[k].id == b.itemId.n && items[k].owner == owner
    ensures r.Ok? ==> && r.value.id == id && r.value.itemId == b.itemId.n
                      && TypeName(r.value.kind) == b.kind && r.value.amount == b.amount > 0
  {
    if !ExpenseSchema(b) then Err(InvalidInput)
    else match MatchIndex(items, b.itemId.n, owner)
      case None => Err(NotFound("Item not found"))
      case Some(_) => Ok(Expense(id, b.itemId.n, ParseExpenseType(b.kind).value, b.amount))
  }

  /** The expenses table. Its rows are never updated or removed here. */
  class ExpenseLog {
    var expenses: seq<Expense>
    var nextId: int

    ghost predicate Valid()
      reads this
    {
      forall k :: 0 <= k < |expenses| ==> expenses[k].id < nextId && expenses[k].amount > 0
    }

    constructor ()
      ensures Valid() && expenses == []
    {
      expenses, nextId := [], 1;
    }

    /** POST /expenses. The items table is only read. */
    method Create(ledger: Ledger, owner: int, b: ExpenseInput) returns (r: Result<Expense>)
      requires Valid()
      modifies this
      ensures Valid()
      ensures r == RecordExpense(ledger.items, owner, old(nextId), b)
      ensures r.Ok? ==> expenses == old(expenses) + [r.value]
      ensures r.Err? ==> expenses == old(expenses)
      ensures r.Ok? ==> nextId == old(nextId) + 1
      ensures r.Err? ==> nextId == old(nextId)
      ensures ledger.items == old(ledger.items)
    {
      r := RecordExpense(ledger.items, owner, nextId, b);
      if r.Ok? {
        expenses := expenses + [r.value];
        nextId := nextId + 1;
      }
    }
  }
}
