/** The inventory page's views: the searchable table with its low-stock
    badge, the low-stock alert, the top-stocked chart and the per-category
    chart. */
module InventoryViews {
  import opened Seqs
  import opened Strings
  import opened Grouping
  import opened Inventory

  // ---- the table ----

  /** `filteredItems`' predicate: the lowercased name contains the lowercased
      search term, and the filter is "all" or the item's category. */
  predicate IsShown(item: InventoryItem, searchTerm: string, categoryFilter: string) {
    Contains(ToLower(item.name), ToLower(searchTerm)) &&
    (categoryFilter == "all" || item.category == categoryFilter)
  }

  function ShownBy(searchTerm: string, categoryFilter: string): InventoryItem -> bool {
    (item: InventoryItem) => IsShown(item, searchTerm, categoryFilter)
  }

  function FilteredItems(items: seq<InventoryItem>, searchTerm: string, categoryFilter: string): seq<InventoryItem> {
    Filter(items, ShownBy(searchTerm, categoryFilter))
  }

  /** The table shows exactly the matching items, in their list order. */
  lemma FilteredItemsAreTheMatches(items: seq<InventoryItem>, searchTerm: string, categoryFilter: string)
    ensures forall x :: x in FilteredItems(items, searchTerm, categoryFilter) <==>
              x in items && IsShown(x, searchTerm, categoryFilter)
    ensures IsSubsequence(FilteredItems(items, searchTerm, categoryFilter), items)
  {
    FilterIsSubsequence(items, ShownBy(searchTerm, categoryFilter));
  }

  /** With no search term and the "all" filter, every item is shown. */
  lemma EmptySearchShowsAll(items: seq<InventoryItem>)
    ensures FilteredItems(items, "", "all") == items
  {
    forall i | 0 <= i < |items| ensures IsShown(items[i], "", "all") {
      ContainsEmpty(ToLower(items[i].name));
    }
    FilterKeepsAll(items, ShownBy("", "all"));
  }

  /** The Low Stock badge's condition. */
  predicate IsLowStock(item: InventoryItem) {
    item.quantity <= LowStockThreshold
  }

  datatype Row = Row(item: InventoryItem, lowStockBadge: bool)

  /** The table body: the single "No items found" row, or one row per item. */
  datatype TableBody = NoItemsFound | Rows(rows: seq<Row>)

  function ToRow(item: InventoryItem): Row {
    Row(item, IsLowStock(item))
  }

  function Body(filtered: seq<InventoryItem>): (b: TableBody)
    ensures b == NoItemsFound <==> filtered == []
    ensures b.Rows? ==> |b.rows| == |filtered|
    ensures b.Rows? ==> forall i :: 0 <= i < |filtered| ==>
              b.rows[i].item == filtered[i] && (b.rows[i].lowStockBadge <==> filtered[i].quantity <= 5)
  {
    if |filtered| == 0 then NoItemsFound else Rows(Map(filtered, ToRow))
  }

  // ---- the low-stock alert ----

  function LowStockFilter(): InventoryItem -> bool {
    (item: InventoryItem) => IsLowStock(item)
  }

  function QuantityOf(item: InventoryItem): int {
    item.quantity
  }

  /** `items.filter(low stock).sort((a, b) => a.quantity - b.quantity)`. */
  function LowStockItems(items: seq<InventoryItem>): seq<InventoryItem> {
    SortBy(Filter(items, LowStockFilter()), QuantityOf)
  }

  /** The alert lists exactly the items with quantity at most 5, each as
      often as in the inventory, least stocked first. */
  lemma LowStockItemsAreTheLowOnes(items: seq<InventoryItem>)
    ensures forall x :: x in LowStockItems(items) <==> x in items && x.quantity <= 5
    ensures forall x :: multiset(LowStockItems(items))[x] == if x.quantity <= 5 then multiset(items)[x] else 0
    ensures forall i, j :: 0 <= i < j < |LowStockItems(items)| ==>
              LowStockItems(items)[i].quantity <= LowStockItems(items)[j].quantity
  {
    var f := Filter(items, LowStockFilter());
    FilterMultiset(items, LowStockFilter());
    var r := LowStockItems(items);
    assert multiset(r) == multiset(f);
    forall x ensures x in r <==> x in f {
      assert x in r <==> x in multiset(r);
      assert x in f <==> x in multiset(f);
    }
    assert forall i, j :: 0 <= i < j < |r| ==> QuantityOf(r[i]) <= QuantityOf(r[j]);
  }

  /** The alert card: "No low stock items", or a count badge and the list. */
  datatype LowStockCard = NoLowStock | Alert(count: nat, items: seq<InventoryItem>)

  function LowStockView(items: seq<InventoryItem>): (v: LowStockCard)
    ensures v == NoLowStock <==> forall i :: 0 <= i < |items| ==> items[i].quantity > 5
    ensures v.Alert? ==> v.count == |v.items| > 0 && v.items == LowStockItems(items)
  {
    LowStockItemsAreTheLowOnes(items);
    var low := LowStockItems(items);
    if |low| == 0 then
      assert forall i :: 0 <= i < |items| ==> items[i] in items;
      NoLowStock
    else
      assert low[0] in low;
      Alert(|low|, low)
  }

  // ---- the top-stocked chart ----

  const NameLimit: nat := 12

  /** A name longer than 12 characters is cut to 12 and ends in "...". */
  function Truncate(name: string): (r: string)
    ensures |name| > NameLimit ==> r == name[..NameLimit] + "..." && |r| == NameLimit + 3
    ensures |name| <= NameLimit ==> r == name
  {
    if |name| > NameLimit then name[..NameLimit] + "..." else name
  }

  /** A shortened name is at most 15 characters, starts with the name's first
      12, and shortening it again changes nothing. */
  lemma TruncateIsStable(name: string)
    ensures |Truncate(name)| <= NameLimit + 3
    ensures |name| > NameLimit ==> Truncate(name)[..NameLimit] == name[..NameLimit]
    ensures Truncate(Truncate(name)) == Truncate(name)
  {
    if |name| > NameLimit {
      var r := Truncate(name);
      assert r[..NameLimit] == name[..NameLimit];
    }
  }

  datatype TopEntry = TopEntry(name: string, fullName: string, quantity: int)

  function ToTopEntry(item: InventoryItem): TopEntry {
    TopEntry(Truncate(item.name), item.name, item.quantity)
  }

  function NegQuantity(item: InventoryItem): int {
    -item.quantity
  }

  /** The five most stocked items of a sorted copy, most stocked first. */
  function TopStocked(items: seq<InventoryItem>): seq<InventoryItem> {
    Take(SortBy(items, NegQuantity), 5)
  }

  /** `topItems`: the chart entries for the top five. */
  function TopItems(items: seq<InventoryItem>): (r: seq<TopEntry>)
    ensures |r| == |TopStocked(items)|
    ensures forall i :: 0 <= i < |r| ==>
              r[i].fullName == TopStocked(items)[i].name && r[i].quantity == TopStocked(items)[i].quantity &&
              r[i].name == Truncate(TopStocked(items)[i].name)
  {
    Map(TopStocked(items), ToTopEntry)
  }

  /** The chart has min(5, n) entries in non-increasing quantity order, taken
      from the inventory. */
  lemma TopItemsAreOrdered(items: seq<InventoryItem>)
    ensures |TopItems(items)| == if |items| < 5 then |items| else 5
    ensures forall i, j :: 0 <= i < j < |TopItems(items)| ==> TopItems(items)[i].quantity >= TopItems(items)[j].quantity
    ensures multiset(TopStocked(items)) <= multiset(items)
  {
    var s := SortBy(items, NegQuantity);
    TakeSorted(s, NegQuantity, 5);
    var t := Take(s, 5);
    assert forall i, j :: 0 <= i < j < |t| ==> NegQuantity(t[i]) <= NegQuantity(t[j]);
  }

  /** Every item left out of the chart is stocked no more than any item in it. */
  lemma TopItemsDominateTheRest(items: seq<InventoryItem>)
    ensures forall x, y :: x in multiset(items) - multiset(TopStocked(items)) && y in TopStocked(items) ==>
              x.quantity <= y.quantity
  {
    var s := SortBy(items, NegQuantity);
    PrefixDominates(s, NegQuantity, 5);
    assert multiset(s) == multiset(items);
  }

  /** The chart is empty, and the no-data view shown, exactly for an empty inventory. */
  lemma TopItemsEmptyIffNoItems(items: seq<InventoryItem>)
    ensures TopItems(items) == [] <==> items == []
  {
    TopItemsAreOrdered(items);
  }

  // ---- the per-category chart ----

  /** The chart's six colours, used in turn. */
  const Colors: seq<string> := ["#9b87f5", "#7E69AB", "#6E59A5", "#D6BCFA", "#1A1F2C", "#8E9196"]

  datatype Slice = Slice(name: string, value: int, color: string)

  function CategoryOf(item: InventoryItem): string {
    item.category
  }

  /** The chart entries for grouped totals: entry `i` gets colour `i mod 6`. */
  function Colored(groups: seq<(string, int)>): (r: seq<Slice>)
    ensures |r| == |groups|
    ensures forall i :: 0 <= i < |r| ==>
              r[i] == Slice(groups[i].0, groups[i].1, Colors[i % |Colors|])
  {
    seq(|groups|, i requires 0 <= i < |groups| => Slice(groups[i].0, groups[i].1, Colors[i % |Colors|]))
  }

  /** `categoryData`: the `forEach` over the items filling the map, then the
      entries listed with their colours. */
  method CategoryData(items: seq<InventoryItem>) returns (r: seq<Slice>)
    ensures r == Colored(Groups(items, CategoryOf, QuantityOf))
  {
    var groups := GroupSum(items, CategoryOf, QuantityOf);
    r := [];
    for i := 0 to |groups|
      invariant r == Colored(groups[..i])
    {
      r := r + [Slice(groups[i].0, groups[i].1, Colors[i % |Colors|])];
    }
    assert groups[..|groups|] == groups;
  }

  /** One entry per category some item has, listed once, in first-appearance
      order (even when its quantities sum to 0), each with its items' total;
      the totals add up to the total quantity, and there is no entry (the
      no-data view) exactly when there are no items. */
  lemma CategoryDataIsThePerCategoryTotal(items: seq<InventoryItem>)
    ensures Distinct(Keys(items, CategoryOf))
    ensures forall c :: c in Keys(items, CategoryOf) <==> exists i :: 0 <= i < |items| && items[i].category == c
    ensures forall i :: 0 <= i < |Groups(items, CategoryOf, QuantityOf)| ==>
              Groups(items, CategoryOf, QuantityOf)[i] ==
                (Keys(items, CategoryOf)[i], SumWhere(items, CategoryOf, QuantityOf, Keys(items, CategoryOf)[i]))
    ensures SumOf(Groups(items, CategoryOf, QuantityOf), Amount) == SumOf(items, QuantityOf)
    ensures Groups(items, CategoryOf, QuantityOf) == [] <==> items == []
  {
    KeysAreTheDistinctKeys(items, CategoryOf);
    GroupsSumToTotal(items, CategoryOf, QuantityOf);
    if items != [] {
      assert items[0].category in Keys(items, CategoryOf);
    }
  }
}
