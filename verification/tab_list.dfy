/**
 * The tab list (src/Tabs/TabList.js): the total width of the items, whether the
 * list is centred in its container, and which item loses its outer padding.
 * Style maps hold CSS values as strings; a property set to `undefined` in the
 * source is a missing key here.
 */
module TabList {
  import opened Tabs

  /** `isFirstItem`: `items[0] === item`; an absent item is never first. */
  function IsFirstItem(items: seq<Item>, item: Item): (b: bool)
    ensures b ==> IndexOf(items, item) == 0
    ensures UniqueIds(items) ==>
      forall k :: 0 <= k < |items| && items[k].id == item.id ==> (b <==> k == 0)
    ensures (forall k :: 0 <= k < |items| ==> items[k].id != item.id) ==> !b
  {
    |items| > 0 && items[0].id == item.id
  }

  /**
   * `isLastItem`: the first index of `item` is the last position. An absent
   * item has index -1, so it counts as last exactly when the list is empty.
   */
  function IsLastItem(items: seq<Item>, item: Item): (b: bool)
    ensures b && items != [] ==> items[|items| - 1].id == item.id
    ensures UniqueIds(items) ==>
      forall k :: 0 <= k < |items| && items[k].id == item.id ==> (b <==> k == |items| - 1)
    ensures (forall k :: 0 <= k < |items| ==> items[k].id != item.id) ==> (b <==> items == [])
  {
    IndexOfAllUnique(items, item);
    IndexOf(items, item) == |items| - 1
  }

  /** The sum of the widths of `items`: with no negative width, at least every single width. */
  function TotalWidth(items: seq<Item>): (total: int)
    ensures (forall i :: 0 <= i < |items| ==> items[i].width >= 0) ==>
      0 <= total && forall i :: 0 <= i < |items| ==> items[i].width <= total
  {
    if items == [] then 0 else TotalWidth(items[..|items| - 1]) + items[|items| - 1].width
  }

  /** `getListWidth`: the `forEach` loop that adds up the widths. */
  method GetListWidth(items: seq<Item>) returns (totalWidth: int)
    ensures totalWidth == TotalWidth(items)
  {
    totalWidth := 0;
    var i := 0;
    while i < |items|
      invariant 0 <= i <= |items|
      invariant totalWidth == TotalWidth(items[..i])
    {
      assert items[..i + 1][..i] == items[..i];
      totalWidth := totalWidth + items[i].width;
      i := i + 1;
    }
    assert items[..i] == items;
  }

  lemma {:induction false} TotalWidthAppend(a: seq<Item>, b: seq<Item>)
    ensures TotalWidth(a + b) == TotalWidth(a) + TotalWidth(b)
    decreases |b|
  {
    if b != [] {
      assert (a + b)[..|a + b| - 1] == a + b[..|b| - 1];
      TotalWidthAppend(a, b[..|b| - 1]);
    } else {
      assert a + b == a;
    }
  }

  lemma TotalWidthSingle(x: Item)
    ensures TotalWidth([x]) == x.width
  {
  }

  /** A new measurement changes the total width by the change of that item's width. */
  lemma {:induction false} MeasurementChangesTotal(items: seq<Item>, i: nat, x: Item)
    requires i < |items|
    ensures TotalWidth(Replaced(items, i, x)) == TotalWidth(items) - items[i].width + x.width
  {
    var before, after := items[..i], items[i + 1..];
    SplitTotal(before, items[i], after);
    SplitTotal(before, x, after);
    assert items == before + [items[i]] + after;
  }

  lemma {:induction false} SplitTotal(before: seq<Item>, x: Item, after: seq<Item>)
    ensures TotalWidth(before + [x] + after) == TotalWidth(before) + x.width + TotalWidth(after)
  {
    TotalWidthAppend(before + [x], after);
    TotalWidthAppend(before, [x]);
    TotalWidthSingle(x);
  }

  /** A freshly formatted list is not measured yet: its total width is 0. */
  lemma {:induction false} FormattedListHasNoWidth(elements: seq<Element>, firstId: nat)
    ensures TotalWidth(FormatItems(elements, firstId)) == 0
    decreases |elements|
  {
    var items := FormatItems(elements, firstId);
    if elements != [] {
      var n := |elements| - 1;
      assert items[..n] == FormatItems(elements[..n], firstId);
      FormattedListHasNoWidth(elements[..n], firstId);
    }
  }

  /** `isListSmallerThanWindow`: strictly narrower than the container. */
  method IsListSmallerThanWindow(items: seq<Item>, containerWidth: int) returns (smaller: bool)
    ensures smaller <==> TotalWidth(items) < containerWidth
  {
    var listWidth := GetListWidth(items);
    smaller := listWidth < containerWidth;
  }

  /** `getListStyle`: the list is centred only when asked to and narrower than the container. */
  method GetListStyle(items: seq<Item>, containerWidth: int, alignCenter: bool)
    returns (style: map<string, string>)
    ensures "justifyContent" in style <==> alignCenter && TotalWidth(items) < containerWidth
    ensures "justifyContent" in style ==> style["justifyContent"] == "center"
    ensures style - {"justifyContent"} ==
      map["listStyle" := "none", "display" := "flex", "flexDirection" := "row",
          "margin" := "0", "padding" := "0"]
  {
    style := map["listStyle" := "none", "display" := "flex", "flexDirection" := "row",
                 "margin" := "0", "padding" := "0"];
    if alignCenter {
      var smaller := IsListSmallerThanWindow(items, containerWidth);
      if smaller {
        style := style["justifyContent" := "center"];
      }
    }
  }

  /** The props `renderListItems` gives one `TabListItem`. */
  datatype ListChild = ListChild(key: nat, item: Item, noLeftPadding: bool, noRightPadding: bool)

  /** `renderListItems`: one child per item, in list order, keyed by position. */
  function RenderListItems(items: seq<Item>, noFirstLeftPadding: bool, noLastRightPadding: bool)
    : (children: seq<ListChild>)
    ensures |children| == |items|
    ensures forall k :: 0 <= k < |items| ==> children[k].key == k && children[k].item == items[k]
  {
    seq(|items|, k requires 0 <= k < |items| =>
      ListChild(k, items[k],
                noFirstLeftPadding && IsFirstItem(items, items[k]),
                noLastRightPadding && IsLastItem(items, items[k])))
  }

  /** Only the first child loses its left padding, and only when `noFirstLeftPadding` is set. */
  lemma LeftPaddingOnlyOnFirst(items: seq<Item>, noFirstLeftPadding: bool, noLastRightPadding: bool, k: int)
    requires UniqueIds(items) && 0 <= k < |items|
    ensures RenderListItems(items, noFirstLeftPadding, noLastRightPadding)[k].noLeftPadding
            <==> noFirstLeftPadding && k == 0
  {
  }

  /** Only the last child loses its right padding, and only when `noLastRightPadding` is set. */
  lemma RightPaddingOnlyOnLast(items: seq<Item>, noFirstLeftPadding: bool, noLastRightPadding: bool, k: int)
    requires UniqueIds(items) && 0 <= k < |items|
    ensures RenderListItems(items, noFirstLeftPadding, noLastRightPadding)[k].noRightPadding
            <==> noLastRightPadding && k == |items| - 1
  {
  }
}
