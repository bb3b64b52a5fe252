/** The inventory page: the stock filter, the two alert lists and their
    cards, the colour tone of each item card, and the add/edit form
    (src/pages/InventoryManagement.tsx). */
module Inventory {
  import opened Common
  import opened Rows
  import opened Aggregate

  /** Whether the filter select keeps an item: "low-stock", "out-of-stock",
      "all", or otherwise a category name. */
  predicate Keeps(filter: string, item: InventoryItem)
  {
    if filter == "low-stock" then IsLowStock(item)
    else if filter == "out-of-stock" then item.currentStock == 0.0
    else if filter != "all" then item.category == filter
    else true
  }

  function Keeper(filter: string): InventoryItem -> bool
  {
    item => Keeps(filter, item)
  }

  /** The items the grid shows for the selected filter. */
  function FilteredItems(items: seq<InventoryItem>, filter: string): (r: seq<InventoryItem>)
    ensures IsSubsequence(r, items)
    ensures forall x :: multiset(r)[x] == if Keeps(filter, x) then multiset(items)[x] else 0
    ensures filter == "all" ==> r == items
    ensures filter == "low-stock" ==>
      forall x :: x in r <==> x in items && x.currentStock <= x.minimumStock
    ensures filter == "out-of-stock" ==>
      forall x :: x in r <==> x in items && x.currentStock == 0.0
    ensures filter !in {"all", "low-stock", "out-of-stock"} ==>
      forall x :: x in r <==> x in items && x.category == filter
  {
    FilterIsSubsequence(items, Keeper(filter));
    FilterCount(items, Keeper(filter));
    FilterMembership(items, Keeper(filter));
    if filter == "all" then FilterAll(items, Keeper(filter)); Filter(items, Keeper(filter))
    else Filter(items, Keeper(filter))
  }

  predicate InLowStockAlert(item: InventoryItem)
  {
    item.currentStock <= item.minimumStock && item.currentStock > 0.0
  }

  predicate InOutOfStockAlert(item: InventoryItem)
  {
    item.currentStock == 0.0
  }

  /** The items of the "Low Stock" alert card: low, but not empty. */
  function LowStockItems(items: seq<InventoryItem>): seq<InventoryItem>
  {
    Filter(items, InLowStockAlert)
  }

  /** The items of the "Out of Stock" alert card. */
  function OutOfStockItems(items: seq<InventoryItem>): seq<InventoryItem>
  {
    Filter(items, InOutOfStockAlert)
  }

  ghost predicate StockNonNegative(items: seq<InventoryItem>)
  {
    forall x :: x in items ==> x.currentStock >= 0.0 && x.minimumStock >= 0.0
  }

  /** No item is on both alert cards. */
  lemma AlertListsDisjoint(items: seq<InventoryItem>)
    ensures multiset(LowStockItems(items)) * multiset(OutOfStockItems(items)) == multiset{}
  {
    FilterCount(items, InLowStockAlert);
    FilterCount(items, InOutOfStockAlert);
    var both := multiset(LowStockItems(items)) * multiset(OutOfStockItems(items));
    forall x ensures both[x] == 0 {
      assert !(InLowStockAlert(x) && InOutOfStockAlert(x));
    }
  }

  /** With non-negative stock levels the two alert cards together show
      exactly the items of the "low-stock" filter, order aside. */
  lemma AlertListsCoverLowStock(items: seq<InventoryItem>)
    requires StockNonNegative(items)
    ensures multiset(LowStockItems(items)) + multiset(OutOfStockItems(items))
         == multiset(FilteredItems(items, "low-stock"))
  {
    FilterCount(items, InLowStockAlert);
    FilterCount(items, InOutOfStockAlert);
    var lhs := multiset(LowStockItems(items)) + multiset(OutOfStockItems(items));
    var rhs := multiset(FilteredItems(items, "low-stock"));
    forall x ensures lhs[x] == rhs[x] {
      if x !in items {
        assert multiset(items)[x] == 0;
      }
    }
    assert lhs == rhs;
  }

  /** Without the non-negativity the cover fails: an item with negative
      stock passes the "low-stock" filter but is on neither alert card. */
  lemma NegativeStockEscapesAlerts()
    ensures var item := InventoryItem("1", "rice", "groceries", "kg", -1.0, 5.0, 10.0, None);
      item in FilteredItems([item], "low-stock")
      && item !in LowStockItems([item]) && item !in OutOfStockItems([item])
  {
    var item := InventoryItem("1", "rice", "groceries", "kg", -1.0, 5.0, 10.0, None);
    assert [item][..0] == [];
  }

  /** The border and stock colour of an item card. */
  datatype CardTone = Destructive | Warning | Plain

  function ToneOf(item: InventoryItem): CardTone
  {
    if item.currentStock == 0.0 then Destructive
    else if item.currentStock <= item.minimumStock then Warning
    else Plain
  }

  /** Each card has exactly one tone, and it agrees with the alert cards:
      red for the out-of-stock items, yellow for the low-stock ones, plain
      for the items the "low-stock" filter leaves out. */
  lemma ToneAgreesWithAlerts(items: seq<InventoryItem>, x: InventoryItem)
    requires x in items
    requires x.currentStock >= 0.0 && x.minimumStock >= 0.0
    ensures ToneOf(x) == Destructive <==> x in OutOfStockItems(items)
    ensures ToneOf(x) == Warning <==> x in LowStockItems(items)
    ensures ToneOf(x) == Plain <==> x !in FilteredItems(items, "low-stock")
  {
    FilterMembership(items, InLowStockAlert);
    FilterMembership(items, InOutOfStockAlert);
  }

  /** What an alert card shows: the number of items, the first three of
      them, and a "+n more items" line when there are more than three. */
  datatype AlertCard = AlertCard(count: nat, shown: seq<InventoryItem>, more: Option<nat>)

  /** The alert card for a list, or no card when the list is empty. */
  function AlertCardOf(list: seq<InventoryItem>): (r: Option<AlertCard>)
    ensures r.None? <==> list == []
    ensures r.Some? ==> r.value.count == |list|
    ensures r.Some? ==> |r.value.shown| == Min(3, |list|) && r.value.shown == list[..|r.value.shown|]
    ensures r.Some? ==> (r.value.more.Some? <==> |list| > 3)
    ensures r.Some? ==> |r.value.shown| + (if r.value.more.Some? then r.value.more.value else 0) == |list|
  {
    if list == [] then None
    else
      var shown := if |list| <= 3 then list else list[..3];
      Some(AlertCard(|list|, shown, if |list| > 3 then Some(|list| - 3) else None))
  }

  /** The add/edit dialog's fields; the supplier is free text. */
  datatype ItemForm = ItemForm(
    name: string,
    category: string,
    unit: string,
    currentStock: real,
    minimumStock: real,
    costPerUnit: real,
    supplier: string)

  /** The column values the dialog writes. */
  datatype ItemFields = ItemFields(
    name: string,
    category: string,
    unit: string,
    currentStock: real,
    minimumStock: real,
    costPerUnit: real,
    supplier: Option<string>)

  /** The blank dialog, and what the dialog resets to after a save. */
  const BlankForm := ItemForm("", "groceries", "kg", 0.0, 0.0, 0.0, "")

  /** Opening an item for editing copies its columns into the dialog. */
  function StartEdit(item: InventoryItem): ItemForm
  {
    ItemForm(item.name, item.category, item.unit, item.currentStock, item.minimumStock,
             item.costPerUnit, EmptyIfNull(item.supplier))
  }

  /** The values written on save; an empty supplier is stored as null. */
  function Payload(form: ItemForm): ItemFields
  {
    ItemFields(form.name, form.category, form.unit, form.currentStock, form.minimumStock,
               form.costPerUnit, NullIfEmpty(form.supplier))
  }

  /** Saving an item right after opening it writes back its own columns:
      a null supplier stays null and only an empty supplier turns into null. */
  lemma EditRoundTrip(item: InventoryItem)
    ensures var f := Payload(StartEdit(item));
      f.name == item.name && f.category == item.category && f.unit == item.unit
      && f.currentStock == item.currentStock && f.minimumStock == item.minimumStock
      && f.costPerUnit == item.costPerUnit
      && f.supplier == (if item.supplier == Some("") then None else item.supplier)
  {
    NullRoundTrip(item.supplier);
  }

  /** Saving the dialog: the write it sends, and the dialog afterwards,
      blank after a successful save and unchanged after a failure. */
  function SubmitItem(messId: Option<string>, editing: Option<InventoryItem>, form: ItemForm)
    : (r: (Result<Write<ItemFields>>, ItemForm))
    ensures r.0.Failure? <==> messId.None?
    ensures r.0.Failure? ==> r.0.error == "No mess found"
    ensures r.0.Success? ==> r.0.value.payload == Payload(form)
    ensures r.0.Success? ==> (r.0.value.Update? <==> editing.Some?)
    ensures r.0.Success? && editing.Some? ==> r.0.value.id == editing.value.id
    ensures r.0.Success? && editing.None? ==> r.0.value.messId == messId.value
    ensures r.1 == if r.0.Success? then BlankForm else form
  {
    var write := Submit(messId, if editing.Some? then Some(editing.value.id) else None, Payload(form));
    (write, if write.Success? then BlankForm else form)
  }
}
