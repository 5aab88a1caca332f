/** The stock screen of InventoryManager.tsx. The list itself belongs to
    the caller, which receives every new list through `onUpdate`; the
    component keeps only the text of its "new item" form. `parseInt` and
    `parseFloat` are the caller's functions, the latter giving whole cents,
    and `NaN` is `None`. */
module InventoryManager {
  import opened Types
  import opened Seqs

  /** The text fields of the "new item" form, as typed. */
  datatype ItemForm = ItemForm(name: string, quantity: string, minQuantity: string, price: string)

  /** The form's initial and reset state: every field empty. */
  const EmptyItemForm := ItemForm("", "", "", "")

  /** The `onChange` handlers: each input replaces its own field. No input
      edits `price`. */
  datatype ItemEdit = EditName(name: string) | EditQuantity(quantity: string) | EditMinQuantity(minQuantity: string)

  function ApplyEdit(form: ItemForm, e: ItemEdit): (r: ItemForm)
    ensures r.name == if e.EditName? then e.name else form.name
    ensures r.quantity == if e.EditQuantity? then e.quantity else form.quantity
    ensures r.minQuantity == if e.EditMinQuantity? then e.minQuantity else form.minQuantity
    ensures r.price == form.price
  {
    match e
    case EditName(v) => form.(name := v)
    case EditQuantity(v) => form.(quantity := v)
    case EditMinQuantity(v) => form.(minQuantity := v)
  }

  /** The form after a run of edits, oldest first. */
  function ApplyEdits(form: ItemForm, edits: seq<ItemEdit>): ItemForm
    decreases |edits|
  {
    if edits == [] then form
    else ApplyEdit(ApplyEdits(form, edits[..|edits| - 1]), edits[|edits| - 1])
  }

  /** Whatever is typed, the price field keeps the text it started with. */
  lemma {:induction false} EditsKeepPrice(form: ItemForm, edits: seq<ItemEdit>)
    ensures ApplyEdits(form, edits).price == form.price
    decreases |edits|
  {
    if edits != [] {
      EditsKeepPrice(form, edits[..|edits| - 1]);
    }
  }

  /** What `addItem` leaves: the new list handed to `onUpdate` and the
      form's next state. */
  datatype Added = Added(items: seq<InventoryItem>, form: ItemForm)

  /** `x || d` on a parsed number: `NaN` and 0 are falsy. */
  function OrDefault(n: Option<int>, d: int): (r: int)
    ensures n.Some? && n.value != 0 ==> r == n.value
    ensures n.None? || n.value == 0 ==> r == d
  {
    if n.Some? && n.value != 0 then n.value else d
  }

  /** `addItem`: with a name and a quantity typed, the new item goes after
      the existing ones and the form is cleared; otherwise nothing
      changes. The minimum defaults to 5 and the price to 0. */
  function AddItem(items: seq<InventoryItem>, form: ItemForm, freshId: string,
                   parseInt: string -> Option<int>, parseFloat: string -> Option<int>): (r: Added)
    requires form.quantity != "" ==> parseInt(form.quantity).Some?
    ensures form.name == "" || form.quantity == "" ==> r == Added(items, form)
    ensures form.name != "" && form.quantity != "" ==>
      && r.form == EmptyItemForm
      && |r.items| == |items| + 1
      && r.items[..|items|] == items
      && r.items[|items|] == InventoryItem(freshId, form.name, parseInt(form.quantity).value,
                                           OrDefault(parseInt(form.minQuantity), 5),
                                           OrDefault(parseFloat(form.price), 0))
  {
    if form.name == "" || form.quantity == "" then Added(items, form)
    else
      var item := InventoryItem(freshId, form.name, parseInt(form.quantity).value,
                                OrDefault(parseInt(form.minQuantity), 5),
                                OrDefault(parseFloat(form.price), 0));
      Added(items + [item], EmptyItemForm)
  }

  /** An item added through the form costs 0: the price field is never
      edited, so `parseFloat` sees the empty text, which is `NaN`. */
  lemma FormItemsCostNothing(items: seq<InventoryItem>, edits: seq<ItemEdit>, freshId: string,
                             parseInt: string -> Option<int>, parseFloat: string -> Option<int>)
    requires parseFloat("") == None
    requires var form := ApplyEdits(EmptyItemForm, edits);
      form.quantity != "" ==> parseInt(form.quantity).Some?
    ensures var form := ApplyEdits(EmptyItemForm, edits);
      forall it | it in AddItem(items, form, freshId, parseInt, parseFloat).items :: it in items || it.price == 0
  {
    EditsKeepPrice(EmptyItemForm, edits);
  }

  function OtherItem(id: string): InventoryItem -> bool {
    (i: InventoryItem) => i.id != id
  }

  /** `deleteItem`: the items whose id is not `id`, in their order. */
  function DeleteItem(items: seq<InventoryItem>, id: string): (r: seq<InventoryItem>)
    ensures IsSubsequence(r, items)
    ensures forall i | i in r :: i.id != id
    ensures forall i :: multiset(r)[i] == if i.id != id then multiset(items)[i] else 0
  {
    FilterSatisfies(items, OtherItem(id));
    Filter(items, OtherItem(id))
  }

  /** Deleting the item just added under a fresh id gives back the list. */
  lemma DeleteUndoesAddItem(items: seq<InventoryItem>, form: ItemForm, freshId: string,
                            parseInt: string -> Option<int>, parseFloat: string -> Option<int>)
    requires form.quantity != "" ==> parseInt(form.quantity).Some?
    requires forall i | i in items :: i.id != freshId
    ensures DeleteItem(AddItem(items, form, freshId, parseInt, parseFloat).items, freshId) == items
  {
    var added := AddItem(items, form, freshId, parseInt, parseFloat).items;
    FilterKeepsAll(items, OtherItem(freshId));
    if added != items {
      assert added == items + [added[|items|]];
      FilterSnoc(items, added[|items|], OtherItem(freshId));
    }
  }

  function Max(a: int, b: int): int { if a < b then b else a }

  /** `updateQuantity(id, delta)`: the items with that id get their
      quantity moved by `delta` but not below 0; nothing else changes. */
  function UpdateQuantity(items: seq<InventoryItem>, id: string, delta: int): (r: seq<InventoryItem>)
    ensures |r| == |items|
    ensures forall i | 0 <= i < |items| && items[i].id != id :: r[i] == items[i]
    ensures forall i | 0 <= i < |items| && items[i].id == id ::
      && r[i] == items[i].(quantity := r[i].quantity)
      && r[i].quantity >= 0
      && r[i].quantity >= items[i].quantity + delta
      && (r[i].quantity == 0 || r[i].quantity == items[i].quantity + delta)
  {
    seq(|items|, i requires 0 <= i < |items| =>
      if items[i].id == id then items[i].(quantity := Max(0, items[i].quantity + delta)) else items[i])
  }

  /** No item's quantity is negative. */
  predicate StockNonNegative(items: seq<InventoryItem>) {
    forall i | 0 <= i < |items| :: items[i].quantity >= 0
  }

  /** The buttons never take a quantity below 0. */
  lemma UpdateKeepsStockNonNegative(items: seq<InventoryItem>, id: string, delta: int)
    requires StockNonNegative(items)
    ensures StockNonNegative(UpdateQuantity(items, id, delta))
  {
  }

  /** The minus button on an empty item leaves it at 0. */
  lemma DecrementAtZero(items: seq<InventoryItem>, k: nat)
    requires k < |items| && items[k].quantity == 0
    ensures UpdateQuantity(items, items[k].id, -1)[k] == items[k]
  {
  }

  /** Plus then minus gives back a list whose quantities were not negative. */
  lemma IncrementThenDecrement(items: seq<InventoryItem>, id: string)
    requires StockNonNegative(items)
    ensures UpdateQuantity(UpdateQuantity(items, id, 1), id, -1) == items
  {
    var once := UpdateQuantity(items, id, 1);
    var twice := UpdateQuantity(once, id, -1);
    forall i | 0 <= i < |items|
      ensures twice[i] == items[i]
    {
      if items[i].id == id {
        assert once[i].quantity == items[i].quantity + 1;
      }
    }
  }

  /** The "Estoque Baixo" badge: the quantity is at or below the minimum. */
  predicate IsLowStock(item: InventoryItem) {
    item.quantity <= item.minQuantity
  }

  /** An item added with no minimum typed gets the default of 5, so its
      badge shows exactly when its quantity is at most 5. */
  lemma DefaultMinimumLowStock(items: seq<InventoryItem>, form: ItemForm, freshId: string,
                               parseInt: string -> Option<int>, parseFloat: string -> Option<int>)
    requires form.name != "" && form.quantity != "" && parseInt(form.quantity).Some?
    requires form.minQuantity == "" && parseInt("") == None
    ensures var added := AddItem(items, form, freshId, parseInt, parseFloat).items;
      IsLowStock(added[|items|]) <==> parseInt(form.quantity).value <= 5
  {
  }

  /** Taking stock out of a low item leaves it low. */
  lemma LowStockStaysLow(items: seq<InventoryItem>, id: string, k: nat)
    requires k < |items| && items[k].quantity >= 0 && IsLowStock(items[k])
    ensures IsLowStock(UpdateQuantity(items, id, -1)[k])
  {
  }
}
