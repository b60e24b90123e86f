/**
 * The Tabs container (src/Tabs/index.js): the item list built from the `items`
 * prop, the measured geometry written back into it, click selection, and the
 * rules that decide when the strip is re-centred on the active item.
 *
 * Object identity. The source matches items with `indexOf` and `===`, that is
 * by reference. Every item object carries an `id` here, and every object the
 * source creates (`formatItems`, `{ ...item, width, left }`) gets a fresh one.
 * Arrays compared by reference (the `items` prop, `state.items`) carry a `ref`.
 *
 * React state. `setState` writes straight into the fields of `Tabs` (the
 * pending state); `shown` is `this.state`, the state React last committed.
 * Every read of `this.state` in the source reads `shown`. `ComponentWillUpdate`
 * is one React update pass: it compares `shown` with the pending state, maybe
 * re-centres, and commits.
 *
 * The animator (src/Tabs/Animator.js) is not part of this model: `Animator`
 * records what the container pushed into it, and its geometry queries are the
 * uninterpreted functions held by `Geometry`.
 */
module Tabs {
  import opened Options

  /** A rendered tab element, an opaque handle the container never looks into. */
  datatype Element = Element(handle: nat)

  /** The `items` prop: a JavaScript array, identified by `ref`. */
  datatype ElementList = ElementList(ref: nat, elements: seq<Element>)

  /** One tab and its measured box; `id` stands for the object's identity. */
  datatype Item = Item(id: nat, element: Element, width: int, left: int)

  /**
   * The props the container itself reads. The props it only hands on to the
   * tab list (`alignCenter`, `fitItems`, `itemStyle`, `activeStyle`) are
   * parameters of the TabList and TabListItem members instead.
   */
  datatype Props = Props(
    items: ElementList,
    activeItemIndex: int,
    borderWidthRatio: real,
    safeMargin: real,
    initialTranslation: real,
    noFirstLeftPadding: bool,
    noLastRightPadding: bool,
    resistanceCoefficient: real,
    gravityAcceleration: real,
    dragCoefficient: real)

  /** The animator settings pushed by `updateAnimatorFromProps`. */
  datatype AnimatorConfig = AnimatorConfig(
    borderWidthRatio: real,
    safeMargin: real,
    initialTranslation: real,
    noFirstLeftPadding: bool,
    noLastRightPadding: bool,
    resistanceCoefficient: real)

  /** What the animator has been told: its item list, settings and container width. */
  datatype Animator = Animator(items: seq<Item>, config: AnimatorConfig, containerWidth: int)

  /** The animator's geometry queries, left uninterpreted; `None` is an `undefined` item. */
  datatype Geometry = Geometry(
    borderWidth: (Animator, Option<Item>) -> real,
    itemTranslateX: (Animator, Option<Item>) -> real,
    borderTranslateX: (Animator, Option<Item>) -> real)

  /** The component state; `itemsRef` is the identity of the `items` array. */
  datatype State = State(
    items: seq<Item>,
    itemsRef: nat,
    activeItemIndex: int,
    requestCenterActiveItem: bool,
    requestToCenterItem: bool,
    translateX: real,
    borderWidth: real,
    borderTranslateX: real)

  /** One call of the `onItemClick` prop. */
  datatype Click = Click(item: Option<Item>, index: int)

  /** The item `getCenterItemState` centres on, and whether it fell back to the first one. */
  datatype CenterTarget = CenterTarget(item: Option<Item>, fallback: bool)

  /** The pending state one update pass leaves behind, and the `onItemClick` call it made. */
  datatype Pass = Pass(state: State, click: Option<Click>)

  /** The default props. */
  function DefaultProps(items: ElementList): Props {
    Props(items, 0, 1.0, 100.0, 0.0, false, false, 0.5, 9.8, 0.04)
  }

  predicate UniqueIds(items: seq<Item>) {
    forall i, j :: 0 <= i < j < |items| ==> items[i].id != items[j].id
  }

  predicate IdsBelow(items: seq<Item>, bound: nat) {
    forall i :: 0 <= i < |items| ==> items[i].id < bound
  }

  /** `formatItems`: one fresh, unmeasured item per element, numbered from `firstId`. */
  function FormatItems(elements: seq<Element>, firstId: nat): (r: seq<Item>)
    ensures |r| == |elements|
    ensures forall i :: 0 <= i < |r| ==> r[i] == Item(firstId + i, elements[i], 0, 0)
    decreases |elements|
  {
    if elements == [] then []
    else [Item(firstId, elements[0], 0, 0)] + FormatItems(elements[1..], firstId + 1)
  }

  /**
   * `checkEqualItems`: arrays are equal exactly when they are the same array,
   * even one changed in place; two different arrays are never equal, whatever
   * they hold.
   */
  function CheckEqualItems(items1: ElementList, items2: ElementList): (r: bool)
    ensures items1.ref == items2.ref ==> r
    ensures items1.ref != items2.ref ==> !r
  {
    items1.ref == items2.ref
  }

  /** `Array.prototype.indexOf` by identity: the first position holding `item`, or -1. */
  function IndexOf(items: seq<Item>, item: Item): (r: int)
    ensures -1 <= r < |items|
    ensures r == -1 <==> forall i :: 0 <= i < |items| ==> items[i].id != item.id
    ensures r >= 0 ==> items[r].id == item.id
    ensures forall j :: 0 <= j < r ==> items[j].id != item.id
    decreases |items|
  {
    if items == [] then -1
    else if items[0].id == item.id then 0
    else
      var k := IndexOf(items[1..], item);
      if k == -1 then -1 else k + 1
  }

  /** `indexOf` of a possibly undefined item: `undefined` is never in the list. */
  function IndexOfOpt(items: seq<Item>, item: Option<Item>): int {
    match item
    case None => -1
    case Some(x) => IndexOf(items, x)
  }

  /** With unique identities, `indexOf` finds an item exactly where it is. */
  lemma IndexOfAllUnique(items: seq<Item>, item: Item)
    ensures UniqueIds(items) ==>
      forall i :: 0 <= i < |items| && items[i].id == item.id ==> IndexOf(items, item) == i
  {
  }

  /** `isItemActive`: the active index is the first index of `item` (-1 when it is absent). */
  function IsItemActive(items: seq<Item>, activeItemIndex: int, item: Item): (b: bool)
    ensures UniqueIds(items) ==>
      forall i :: 0 <= i < |items| && items[i].id == item.id ==> (b <==> activeItemIndex == i)
    ensures (forall i :: 0 <= i < |items| ==> items[i].id != item.id) ==>
      (b <==> activeItemIndex == -1)
  {
    IndexOfAllUnique(items, item);
    activeItemIndex == IndexOf(items, item)
  }

  /** `[...s.slice(0, i), x, ...s.slice(i + 1)]`: position `i` replaced by `x`. */
  function Replaced(s: seq<Item>, i: nat, x: Item): (r: seq<Item>)
    requires i < |s|
    ensures |r| == |s| && r[i] == x
    ensures forall j :: 0 <= j < |s| && j != i ==> r[j] == s[j]
  {
    s[..i] + [x] + s[i + 1..]
  }

  /** `getCenterItemState`'s choice: the active item, or the first item when it does not exist. */
  function GetCenterItem(items: seq<Item>, activeItemIndex: int): (t: CenterTarget)
    ensures t.fallback <==> !(0 <= activeItemIndex < |items|)
    ensures !t.fallback ==> t.item == Some(items[activeItemIndex])
    ensures t.fallback && items != [] ==> t.item == Some(items[0])
    ensures t.item.None? <==> items == []
  {
    if 0 <= activeItemIndex < |items| then CenterTarget(Some(items[activeItemIndex]), false)
    else CenterTarget(if |items| > 0 then Some(items[0]) else None, true)
  }

  /** A stale active index centres on the same item as index 0, and signals it. */
  lemma StaleIndexActsAsFirst(items: seq<Item>, activeItemIndex: int)
    requires !(0 <= activeItemIndex < |items|)
    ensures GetCenterItem(items, activeItemIndex).fallback
    ensures items != [] ==>
      GetCenterItem(items, activeItemIndex).item == GetCenterItem(items, 0).item &&
      !GetCenterItem(items, 0).fallback
    ensures items == [] ==> GetCenterItem(items, activeItemIndex).item == None
  {
  }

  /** `updateAnimatorFromProps`: gravity and drag coefficient are not passed on. */
  function ConfigOf(props: Props): AnimatorConfig {
    AnimatorConfig(props.borderWidthRatio, props.safeMargin, props.initialTranslation,
                   props.noFirstLeftPadding, props.noLastRightPadding, props.resistanceCoefficient)
  }

  /**
   * The animator settings are exactly the six props `updateAnimatorFromProps`
   * passes on: gravity and the drag coefficient make no difference.
   */
  lemma ConfigReflectsSixSettings(p: Props, q: Props, gravity: real, drag: real)
    ensures ConfigOf(p) == ConfigOf(q) <==>
      p.borderWidthRatio == q.borderWidthRatio && p.safeMargin == q.safeMargin &&
      p.initialTranslation == q.initialTranslation &&
      p.noFirstLeftPadding == q.noFirstLeftPadding &&
      p.noLastRightPadding == q.noLastRightPadding &&
      p.resistanceCoefficient == q.resistanceCoefficient
    ensures ConfigOf(p.(gravityAcceleration := gravity, dragCoefficient := drag)) == ConfigOf(p)
  {
  }

  /**
   * Under the default props the animator gets the default settings, and the
   * strip centres on the first tab without a click, or falls back when there
   * are no tabs.
   */
  lemma DefaultPropsCentreOnFirstTab(items: ElementList, firstId: nat)
    ensures ConfigOf(DefaultProps(items)) == AnimatorConfig(1.0, 100.0, 0.0, false, false, 0.5)
    ensures var formatted := FormatItems(items.elements, firstId);
      GetCenterItem(formatted, DefaultProps(items).activeItemIndex) ==
        if items.elements == [] then CenterTarget(None, true)
        else CenterTarget(Some(Item(firstId, items.elements[0], 0, 0)), false)
  {
  }

  /** The condition of `componentWillUpdate` for re-centring. */
  predicate Recentres(current: State, next: State) {
    next.activeItemIndex != current.activeItemIndex
    || next.requestCenterActiveItem
    || next.itemsRef != current.itemsRef
  }

  /**
   * One `componentWillUpdate` pass from the committed state `current` to the
   * pending state `next`: the state the setState calls it makes ask for next.
   * The fallback `onItemClick` looks its item up in `current.items`, the
   * list in `this.state`.
   */
  function WillUpdate(current: State, next: State, animator: Animator, geometry: Geometry): (p: Pass)
    ensures p.state.items == next.items && p.state.itemsRef == next.itemsRef
    ensures !Recentres(current, next) ==> p == Pass(next, None)
    ensures Recentres(current, next) ==> !p.state.requestCenterActiveItem
    ensures p.click.Some? <==> Recentres(current, next) && !(0 <= next.activeItemIndex < |next.items|)
    ensures p.click.Some? ==>
      p.state.activeItemIndex == p.click.value.index && p.state.requestToCenterItem &&
      p.click.value.index == IndexOfOpt(current.items, p.click.value.item)
    ensures p.click.None? ==>
      p.state.activeItemIndex == next.activeItemIndex &&
      p.state.requestToCenterItem == next.requestToCenterItem
    ensures Recentres(current, next) ==>
      var t := GetCenterItem(next.items, next.activeItemIndex);
      p.state.borderWidth == geometry.borderWidth(animator, t.item) &&
      p.state.translateX == geometry.itemTranslateX(animator, t.item) &&
      p.state.borderTranslateX == geometry.borderTranslateX(animator, t.item) &&
      (p.click.Some? ==> p.click.value.item == t.item)
  {
    if !Recentres(current, next) then Pass(next, None)
    else
      var target := GetCenterItem(next.items, next.activeItemIndex);
      var index := IndexOfOpt(current.items, target.item);
      var selected := if target.fallback
        then next.(activeItemIndex := index, requestToCenterItem := true)
        else next;
      Pass(selected.(borderWidth := geometry.borderWidth(animator, target.item),
                     translateX := geometry.itemTranslateX(animator, target.item),
                     borderTranslateX := geometry.borderTranslateX(animator, target.item),
                     requestCenterActiveItem := false),
           if target.fallback then Some(Click(target.item, index)) else None)
  }

  /** After a re-centre on an existing item, the follow-up pass does not re-centre again. */
  lemma RecentreSettles(current: State, next: State, animator: Animator, geometry: Geometry)
    requires Recentres(current, next)
    requires 0 <= next.activeItemIndex < |next.items|
    ensures var p := WillUpdate(current, next, animator, geometry);
      p.click.None? &&
      p.state.translateX == geometry.itemTranslateX(animator, Some(next.items[next.activeItemIndex])) &&
      !Recentres(next, p.state)
  {
  }

  /**
   * `onItemClick` sets `requestToCenterItem`, which `componentWillUpdate` never
   * reads: a click re-centres only when it changes the active index.
   */
  lemma ClickRecentresOnlyOnIndexChange(current: State, index: int)
    requires !current.requestCenterActiveItem
    ensures Recentres(current, current.(activeItemIndex := index, requestToCenterItem := true))
            <==> index != current.activeItemIndex
  {
  }

  /**
   * A stale active index over an unchanged list: the first pass centres on the
   * first item and reports index 0, the second centres on it again, the third
   * is quiet.
   */
  lemma StaleIndexSettlesOnFirstItem(current: State, next: State, animator: Animator, geometry: Geometry)
    requires UniqueIds(next.items) && next.items != [] && current.items == next.items
    requires !(0 <= next.activeItemIndex < |next.items|)
    ensures var p1 := WillUpdate(current, next, animator, geometry);
      Recentres(current, next) ==>
        p1.click == Some(Click(Some(next.items[0]), 0)) &&
        p1.state.activeItemIndex == 0 &&
        var p2 := WillUpdate(next, p1.state, animator, geometry);
        Recentres(next, p1.state) && p2.click.None? &&
        p2.state.translateX == geometry.itemTranslateX(animator, Some(next.items[0])) &&
        !Recentres(p1.state, p2.state)
  {
  }

  /**
   * A stale active index other than -1 right after the list was replaced by new
   * items: the first item is not in `this.state.items` yet, so the first pass
   * reports index -1 and the second reports 0 (`onItemClick` is called twice);
   * the third re-centres on the first item without a click, and the fourth is
   * quiet.
   */
  lemma ReplacedListReportsMinusOneThenZero(current: State, next: State, animator: Animator, geometry: Geometry)
    requires UniqueIds(next.items) && next.items != []
    requires forall i, j :: 0 <= i < |next.items| && 0 <= j < |current.items| ==>
      next.items[i].id != current.items[j].id
    requires next.itemsRef != current.itemsRef
    requires !(0 <= next.activeItemIndex < |next.items|) && next.activeItemIndex != -1
    ensures var p1 := WillUpdate(current, next, animator, geometry);
      var p2 := WillUpdate(next, p1.state, animator, geometry);
      var p3 := WillUpdate(p1.state, p2.state, animator, geometry);
      p1.click == Some(Click(Some(next.items[0]), -1)) &&
      p2.click == Some(Click(Some(next.items[0]), 0)) &&
      p3.click.None? && p3.state.activeItemIndex == 0 &&
      p3.state.translateX == geometry.itemTranslateX(animator, Some(next.items[0])) &&
      !Recentres(p2.state, p3.state)
  {
  }

  /**
   * An active index of -1 right after the list was replaced by new items (the
   * items arrive after an empty list, say): the first pass reports the first
   * item with index -1, which leaves the index at -1, and the next pass is
   * quiet. No tab is active.
   */
  lemma ReplacedListKeepsMinusOne(current: State, next: State, animator: Animator, geometry: Geometry)
    requires next.items != []
    requires forall j :: 0 <= j < |current.items| ==> current.items[j].id != next.items[0].id
    requires next.itemsRef != current.itemsRef
    requires next.activeItemIndex == -1
    ensures var p1 := WillUpdate(current, next, animator, geometry);
      p1.click == Some(Click(Some(next.items[0]), -1)) &&
      p1.state.activeItemIndex == -1 &&
      p1.state.translateX == geometry.itemTranslateX(animator, Some(next.items[0])) &&
      !Recentres(next, p1.state) &&
      forall k :: 0 <= k < |p1.state.items| ==> !IsItemActive(p1.state.items, p1.state.activeItemIndex, p1.state.items[k])
  {
  }

  /** The Tabs component: its props, its state and the animator it drives. */
  class Tabs {
    var props: Props
    const geometry: Geometry

    // The pending state, written by setState.
    var items: seq<Item>
    var itemsRef: nat
    var activeItemIndex: int
    var requestCenterActiveItem: bool
    var requestToCenterItem: bool
    var translateX: real
    var borderWidth: real
    var borderTranslateX: real

    /** `this.state`: the state React last committed. */
    var shown: State
    var animator: Animator
    /** The calls made to the `onItemClick` prop, oldest first. */
    var clicks: seq<Click>
    /** The next unused object and array identities. */
    var nextId: nat
    var nextRef: nat

    function Snapshot(): State
      reads this
    {
      State(items, itemsRef, activeItemIndex, requestCenterActiveItem, requestToCenterItem,
            translateX, borderWidth, borderTranslateX)
    }

    ghost predicate Valid()
      reads this
    {
      UniqueIds(items) && UniqueIds(shown.items) &&
      IdsBelow(items, nextId) && IdsBelow(shown.items, nextId) &&
      itemsRef < nextRef && shown.itemsRef < nextRef &&
      animator.items == items
    }

    constructor (props: Props, geometry: Geometry)
      ensures Valid()
      ensures this.props == props && this.geometry == geometry
      ensures items == FormatItems(props.items.elements, 0)
      ensures animator == Animator(items, ConfigOf(props), 0)
      ensures activeItemIndex == props.activeItemIndex
      ensures !requestCenterActiveItem && !requestToCenterItem
      ensures translateX == 0.0 && borderWidth == 0.0 && borderTranslateX == 0.0
      ensures shown == Snapshot() && clicks == []
    {
      this.props := props;
      this.geometry := geometry;
      var formatted := FormatItems(props.items.elements, 0);
      items, itemsRef := formatted, 0;
      nextId, nextRef := |formatted|, 1;
      animator := Animator(formatted, ConfigOf(props), 0);
      activeItemIndex := props.activeItemIndex;
      requestCenterActiveItem, requestToCenterItem := false, false;
      translateX, borderWidth, borderTranslateX := 0.0, 0.0, 0.0;
      shown := State(formatted, 0, props.activeItemIndex, false, false, 0.0, 0.0, 0.0);
      clicks := [];
    }

    /** `componentWillReceiveProps`. */
    method ComponentWillReceiveProps(nextProps: Props)
      requires Valid()
      modifies this`props, this`animator, this`activeItemIndex, this`items, this`itemsRef,
               this`nextId, this`nextRef
      ensures Valid()
      ensures props == nextProps
      ensures animator.config == ConfigOf(nextProps)
      ensures animator.containerWidth == old(animator.containerWidth)
      ensures activeItemIndex ==
        if nextProps.activeItemIndex != old(props.activeItemIndex)
        then nextProps.activeItemIndex else old(activeItemIndex)
      ensures CheckEqualItems(nextProps.items, old(props.items)) ==>
        items == old(items) && itemsRef == old(itemsRef)
      ensures !CheckEqualItems(nextProps.items, old(props.items)) ==>
        items == FormatItems(nextProps.items.elements, old(nextId)) &&
        Recentres(shown, Snapshot())
    {
      animator := animator.(config := ConfigOf(nextProps));
      if nextProps.activeItemIndex != props.activeItemIndex {
        activeItemIndex := nextProps.activeItemIndex;
      }
      if !CheckEqualItems(nextProps.items, props.items) {
        var formatted := FormatItems(nextProps.items.elements, nextId);
        animator := animator.(items := formatted);
        items, itemsRef := formatted, nextRef;
        nextId, nextRef := nextId + |formatted|, nextRef + 1;
      }
      props := nextProps;
    }

    /** `componentWillUpdate`, followed by React committing the pending state. */
    method ComponentWillUpdate()
      requires Valid()
      modifies this`shown, this`activeItemIndex, this`requestToCenterItem,
               this`requestCenterActiveItem, this`translateX, this`borderWidth,
               this`borderTranslateX, this`clicks
      ensures Valid()
      ensures shown == old(Snapshot())
      ensures var p := WillUpdate(old(shown), old(Snapshot()), animator, geometry);
        Snapshot() == p.state &&
        clicks == old(clicks) + (if p.click.Some? then [p.click.value] else [])
    {
      var next := Snapshot();
      ghost var pass := WillUpdate(shown, next, animator, geometry);
      if Recentres(shown, next) {
        var target := GetCenterItem(items, activeItemIndex);
        if target.fallback {
          OnItemClick(target.item);
          assert clicks == old(clicks) + [pass.click.value];
        }
        borderWidth := geometry.borderWidth(animator, target.item);
        translateX := geometry.itemTranslateX(animator, target.item);
        borderTranslateX := geometry.borderTranslateX(animator, target.item);
        requestCenterActiveItem := false;
        assert Snapshot() == pass.state;
      }
      shown := next;
    }

    /** `handleWrapperResize`; `measured` is `None` while the container is not mounted. */
    method HandleWrapperResize(measured: Option<int>)
      requires Valid()
      modifies this`animator, this`requestCenterActiveItem
      ensures Valid()
      ensures animator ==
        if measured.Some? then old(animator).(containerWidth := measured.value) else old(animator)
      ensures requestCenterActiveItem && Recentres(shown, Snapshot())
    {
      if measured.Some? {
        animator := animator.(containerWidth := measured.value);
      }
      requestCenterActiveItem := true;
    }

    /** `onItemClick`: selects the item's index in `this.state.items` and reports it. */
    method OnItemClick(item: Option<Item>)
      modifies this`activeItemIndex, this`requestToCenterItem, this`clicks
      ensures activeItemIndex == IndexOfOpt(shown.items, item) && requestToCenterItem
      ensures clicks == old(clicks) + [Click(item, activeItemIndex)]
    {
      var index := IndexOfOpt(shown.items, item);
      activeItemIndex, requestToCenterItem := index, true;
      clicks := clicks + [Click(item, index)];
    }

    /** `onItemChange`: a fresh copy of `item` with the measured box replaces it. */
    method OnItemChange(item: Item, width: int, left: int)
      requires Valid()
      requires item in shown.items
      modifies this`items, this`itemsRef, this`animator, this`nextId, this`nextRef
      ensures Valid()
      ensures var index := IndexOf(old(shown.items), item);
        0 <= index < |items| == |old(shown.items)| &&
        items[index] == Item(old(nextId), item.element, width, left) &&
        forall j :: 0 <= j < |items| && j != index ==> items[j] == old(shown.items)[j]
      ensures animator == old(animator).(items := items)
      ensures Recentres(shown, Snapshot())
    {
      var index := IndexOf(shown.items, item);
      var changed := Item(nextId, item.element, width, left);
      var updated := Replaced(shown.items, index, changed);
      assert UniqueIds(updated) by {
        forall i, j | 0 <= i < j < |updated| ensures updated[i].id != updated[j].id {
          if i != index && j != index {
            assert updated[i] == shown.items[i] && updated[j] == shown.items[j];
          }
        }
      }
      animator := animator.(items := updated);
      items, itemsRef := updated, nextRef;
      nextId, nextRef := nextId + 1, nextRef + 1;
    }
  }
}
