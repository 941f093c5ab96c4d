/**
 * src/components/EquipmentList.tsx: the checklist of things to prepare,
 * grouped by category, with a set of checked positions and a copy-to-clipboard
 * text.
 */
module EquipmentList {
  import opened Wrappers
  import opened Text
  import opened Grouping

  /** An item; the category is one of the five labels, but only used as a key here. */
  datatype EquipmentItem = EquipmentItem(
    name: string,
    quantity: string,
    category: string,
    imageUrl: Option<string>,
    description: Option<string>)

  /** `{ ...item, originalIndex: index }`. */
  datatype Tagged = Tagged(item: EquipmentItem, originalIndex: nat)

  /** `toggleItem`: flips membership of exactly `index` in the checked set. */
  function ToggleItem(checked: set<int>, index: int): (r: set<int>)
    ensures index in r <==> index !in checked
    ensures forall k :: k != index ==> (k in r <==> k in checked)
  {
    if index in checked then checked - {index} else checked + {index}
  }

  lemma ToggleItemTwice(checked: set<int>, index: int)
    ensures ToggleItem(ToggleItem(checked, index), index) == checked
  {
  }

  /** Each item tagged with its position in `items`. */
  function TagAll(items: seq<EquipmentItem>): (r: seq<Tagged>)
    ensures |r| == |items|
    ensures forall t :: t in r ==> t.originalIndex < |items| && items[t.originalIndex] == t.item
  {
    seq(|items|, i requires 0 <= i < |items| => Tagged(items[i], i))
  }

  function CategoryKey(t: Tagged): string {
    t.item.category
  }

  /** `groupedItems`: tagged items grouped by category, in order of first appearance. */
  function Grouped(items: seq<EquipmentItem>): seq<Group<Tagged>> {
    GroupBy(TagAll(items), CategoryKey)
  }

  /**
   * Every item appears in exactly one group, the one of its category, tagged
   * with its own position; each group keeps input order and every tag names a
   * real position of the list.
   */
  lemma GroupedPartition(items: seq<EquipmentItem>, i: nat)
    requires i < |items|
    ensures var gs := Grouped(items);
      && DistinctKeys(gs)
      && items[i].category in Keys(gs)
      && (forall j :: 0 <= j < |gs| ==> (Tagged(items[i], i) in gs[j].items <==> gs[j].key == items[i].category))
      && (forall j :: 0 <= j < |gs| ==> gs[j].items == Filter(TagAll(items), CategoryKey, gs[j].key))
      && (forall j, t :: 0 <= j < |gs| && t in gs[j].items ==> t.originalIndex < |items| && items[t.originalIndex] == t.item)
  {
    var tagged := TagAll(items);
    assert tagged[i] == Tagged(items[i], i);
    GroupByIsFilter(tagged, CategoryKey);
    EachElementInOneGroup(tagged, CategoryKey, Tagged(items[i], i));
  }

  /** The checked set is only ever changed by clicks on items, so it stays within the list. */
  function Clicks(checked: set<int>, clicks: seq<Tagged>): set<int> {
    if |clicks| == 0 then checked
    else ToggleItem(Clicks(checked, clicks[..|clicks| - 1]), clicks[|clicks| - 1].originalIndex)
  }

  lemma {:induction false} CheckedInRange(items: seq<EquipmentItem>, clicks: seq<Tagged>)
    requires forall t :: t in clicks ==> t in TagAll(items)
    ensures forall k :: k in Clicks({}, clicks) ==> 0 <= k < |items|
  {
    if |clicks| > 0 {
      assert clicks[|clicks| - 1] in clicks;
      assert forall t :: t in clicks[..|clicks| - 1] ==> t in clicks;
      CheckedInRange(items, clicks[..|clicks| - 1]);
    }
  }

  /** One line of the copy text; the description in brackets only when non-empty. */
  function ItemLine(item: EquipmentItem): (line: string)
    ensures StartsWith(line, "□ " + item.name + "：" + item.quantity)
    ensures item.description.Some? && item.description.value != "" ==>
      line == "□ " + item.name + "：" + item.quantity + "（" + item.description.value + "）"
    ensures item.description.None? || item.description.value == "" ==>
      line == "□ " + item.name + "：" + item.quantity
    ensures NewlineFree(item) ==> '\n' !in line
  {
    var head := "□ " + item.name + "：" + item.quantity;
    if item.description.Some? && item.description.value != "" then head + "（" + item.description.value + "）"
    else head
  }

  function ItemLines(items: seq<EquipmentItem>): (r: seq<string>)
    ensures |r| == |items|
    ensures forall i :: 0 <= i < |items| ==> r[i] == ItemLine(items[i])
  {
    seq(|items|, i requires 0 <= i < |items| => ItemLine(items[i]))
  }

  const CopyHeader := "【用意するもの】"

  /** `handleCopyList`: the header line, then the item lines joined by newlines. */
  function CopyText(items: seq<EquipmentItem>): (t: string)
    ensures StartsWith(t, CopyHeader + "\n")
    ensures items == [] ==> t == CopyHeader + "\n"
    ensures |items| == 1 ==> t == CopyHeader + "\n" + ItemLine(items[0])
  {
    var t := CopyHeader + "\n" + Join(ItemLines(items), "\n");
    assert t[..|CopyHeader + "\n"|] == CopyHeader + "\n";
    t
  }

  predicate NewlineFree(item: EquipmentItem) {
    '\n' !in item.name && '\n' !in item.quantity
    && (item.description.Some? ==> '\n' !in item.description.value)
  }

  /**
   * Read back line by line, the copy text is the header and then one line
   * per item in input order (an empty list leaves one empty line).
   */
  lemma CopyTextLines(items: seq<EquipmentItem>)
    requires forall i :: 0 <= i < |items| ==> NewlineFree(items[i])
    ensures |items| > 0 ==> Split(CopyText(items), '\n') == [CopyHeader] + ItemLines(items)
    ensures |items| == 0 ==> Split(CopyText(items), '\n') == [CopyHeader, ""]
  {
    var lines := ItemLines(items);
    var body := Join(lines, ['\n']);
    assert CopyText(items) == Lines([CopyHeader]) + body;
    assert '\n' !in CopyHeader;
    SplitLines([CopyHeader], body);
    if |items| > 0 {
      SplitJoin(lines, '\n');
    }
  }
}
