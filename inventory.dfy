/** The inventory registry: the item list with add, update-by-id, delete-by-id,
    and the category list that only grows by categories not yet present. */
module Inventory {
  import opened Wrappers
  import opened Seqs
  import opened Storage

  /** An inventory item. Times are milliseconds since the epoch. */
  datatype InventoryItem = InventoryItem(
    id: string,
    name: string,
    quantity: int,
    category: string,
    price: real,
    createdAt: int,
    updatedAt: int)

  /** The fields a caller supplies to `addItem` (an item without id and times). */
  datatype ItemFields = ItemFields(name: string, quantity: int, category: string, price: real)

  /** The fields a caller may supply to `updateItem`; `None` means "not supplied". */
  datatype ItemPatch = ItemPatch(name: Option<string>, quantity: Option<int>, category: Option<string>,
                                 price: Option<real>)

  const DefaultCategories: seq<string> := ["Electronics", "Clothing", "Food", "Furniture", "Office Supplies", "Other"]

  /** At or below this quantity an item counts as low on stock. */
  const LowStockThreshold: int := 5

  predicate NoDuplicates(s: seq<string>) {
    forall i, j :: 0 <= i < j < |s| ==> s[i] != s[j]
  }

  /** The default categories: six of them, all different, "Other" last. */
  lemma DefaultCategoriesShape()
    ensures |DefaultCategories| == 6
    ensures DefaultCategories[|DefaultCategories| - 1] == "Other"
    ensures NoDuplicates(DefaultCategories)
  {
  }

  /** The fields of an item that a caller can supply. */
  function FieldsOf(item: InventoryItem): ItemFields {
    ItemFields(item.name, item.quantity, item.category, item.price)
  }

  /** The item `addItem` builds from the supplied fields, a fresh id and the
      current time. */
  function NewItem(fields: ItemFields, id: string, now: int): (r: InventoryItem)
    ensures FieldsOf(r) == fields
    ensures r.id == id
    ensures r.createdAt == r.updatedAt == now
  {
    InventoryItem(id, fields.name, fields.quantity, fields.category, fields.price, now, now)
  }

  function Pick<T>(supplied: Option<T>, current: T): T {
    if supplied.Some? then supplied.value else current
  }

  /** `{ ...item, ...updatedFields, updatedAt: now }`. */
  function Merge(item: InventoryItem, patch: ItemPatch, now: int): (r: InventoryItem)
    ensures r.id == item.id && r.createdAt == item.createdAt && r.updatedAt == now
    ensures r.name == (if patch.name.Some? then patch.name.value else item.name)
    ensures r.quantity == (if patch.quantity.Some? then patch.quantity.value else item.quantity)
    ensures r.category == (if patch.category.Some? then patch.category.value else item.category)
    ensures r.price == (if patch.price.Some? then patch.price.value else item.price)
  {
    item.(name := Pick(patch.name, item.name), quantity := Pick(patch.quantity, item.quantity),
          category := Pick(patch.category, item.category), price := Pick(patch.price, item.price),
          updatedAt := now)
  }

  /** Two patches applied one after the other, the later one winning field by field. */
  function Then(first: ItemPatch, second: ItemPatch): ItemPatch {
    ItemPatch(if second.name.Some? then second.name else first.name,
              if second.quantity.Some? then second.quantity else first.quantity,
              if second.category.Some? then second.category else first.category,
              if second.price.Some? then second.price else first.price)
  }

  const EmptyPatch := ItemPatch(None, None, None, None)

  /** Two updates in a row amount to one update with the combined patch, and
      an update that supplies nothing only refreshes `updatedAt`. */
  lemma MergeComposes(item: InventoryItem, first: ItemPatch, second: ItemPatch, t1: int, t2: int)
    ensures Merge(Merge(item, first, t1), second, t2) == Merge(item, Then(first, second), t2)
    ensures Merge(item, EmptyPatch, t1) == item.(updatedAt := t1)
  {
  }

  /** Applying a patch again changes nothing but the time. */
  lemma MergeIdempotent(item: InventoryItem, patch: ItemPatch, t1: int, t2: int)
    ensures Merge(Merge(item, patch, t1), patch, t2) == Merge(item, patch, t2)
  {
    MergeComposes(item, patch, patch, t1, t2);
    assert Then(patch, patch) == patch;
  }

  function MergeIfId(id: string, patch: ItemPatch, now: int): InventoryItem -> InventoryItem {
    (item: InventoryItem) => if item.id == id then Merge(item, patch, now) else item
  }

  /** The list after `updateItem(id, patch)` at time `now`. */
  function Updated(items: seq<InventoryItem>, id: string, patch: ItemPatch, now: int): (r: seq<InventoryItem>)
    ensures |r| == |items|
    ensures forall i :: 0 <= i < |items| && items[i].id == id ==> r[i] == Merge(items[i], patch, now)
    ensures forall i :: 0 <= i < |items| && items[i].id != id ==> r[i] == items[i]
  {
    Map(items, MergeIfId(id, patch, now))
  }

  /** Updating keeps every item's id and creation time in place, so the set of
      ids, and the items' positions, are unchanged. */
  lemma UpdateKeepsIdentity(items: seq<InventoryItem>, id: string, patch: ItemPatch, now: int)
    ensures forall i :: 0 <= i < |items| ==>
              Updated(items, id, patch, now)[i].id == items[i].id &&
              Updated(items, id, patch, now)[i].createdAt == items[i].createdAt
    ensures (forall i :: 0 <= i < |items| ==> items[i].id != id) ==> Updated(items, id, patch, now) == items
  {
  }

  function ItemIdIsNot(id: string): InventoryItem -> bool {
    (item: InventoryItem) => item.id != id
  }

  /** The list after `deleteItem(id)`. */
  function WithoutItem(items: seq<InventoryItem>, id: string): seq<InventoryItem> {
    Filter(items, ItemIdIsNot(id))
  }

  /** Deleting removes exactly the items with that id, keeps the others in
      order and with their multiplicities, and is a no-op for an absent id. */
  lemma DeleteItemRemovesExactlyThatId(items: seq<InventoryItem>, id: string)
    ensures forall x :: x in WithoutItem(items, id) <==> x in items && x.id != id
    ensures forall x: InventoryItem :: x.id != id ==> multiset(WithoutItem(items, id))[x] == multiset(items)[x]
    ensures IsSubsequence(WithoutItem(items, id), items)
    ensures (forall i :: 0 <= i < |items| ==> items[i].id != id) ==> WithoutItem(items, id) == items
  {
    FilterMultiset(items, ItemIdIsNot(id));
    FilterIsSubsequence(items, ItemIdIsNot(id));
    if forall i :: 0 <= i < |items| ==> items[i].id != id {
      FilterKeepsAll(items, ItemIdIsNot(id));
    }
  }

  /** The inventory's state: the items in insertion order and the category names. */
  class InventoryStore {
    var items: seq<InventoryItem>
    var categories: seq<string>

    /** The initial state: the saved items or none, the saved categories or
        the default ones, whenever nothing is saved or the saved value does
        not parse. */
    constructor (savedItems: Stored<seq<InventoryItem>>, savedCategories: Stored<seq<string>>)
      ensures items == Restore(savedItems, [])
      ensures categories == Restore(savedCategories, DefaultCategories)
    {
      items := Restore(savedItems, []);
      categories := Restore(savedCategories, DefaultCategories);
    }

    /** `addItem`: `id` and `now` stand for `uuidv4()` and `new Date()`. */
    method AddItem(fields: ItemFields, id: string, now: int)
      modifies this
      ensures items == old(items) + [NewItem(fields, id, now)]
      ensures categories == old(categories)
    {
      items := items + [NewItem(fields, id, now)];
    }

    /** `updateItem`. */
    method UpdateItem(id: string, patch: ItemPatch, now: int)
      modifies this
      ensures items == Updated(old(items), id, patch, now)
      ensures categories == old(categories)
    {
      items := Updated(items, id, patch, now);
    }

    /** `deleteItem`. */
    method DeleteItem(id: string)
      modifies this
      ensures items == WithoutItem(old(items), id)
      ensures categories == old(categories)
    {
      items := WithoutItem(items, id);
    }

    /** `addCategory`: appends a category only when it is not present yet;
        `added` tells which of the two messages is shown. */
    method AddCategory(category: string) returns (added: bool)
      modifies this
      ensures added <==> category !in old(categories)
      ensures categories == if added then old(categories) + [category] else old(categories)
      ensures items == old(items)
      ensures NoDuplicates(old(categories)) ==> NoDuplicates(categories)
    {
      added := category !in categories;
      if added {
        categories := categories + [category];
      }
    }
  }
}
