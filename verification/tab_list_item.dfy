/**
 * One tab (src/Tabs/TabListItem.js): reporting a changed measurement to the
 * container, and the style the tab is drawn with. Style maps hold CSS values as
 * strings (the source's numbers 0 and 1 are "0" and "1"); maps are values, so
 * the caller's style is never changed.
 */
module TabListItem {
  import opened Options
  import opened Tabs

  /** What the DOM node reports: `clientWidth` and `offsetLeft`. */
  datatype Measurement = Measurement(clientWidth: int, offsetLeft: int)

  /** One call of the `onChange` prop. */
  datatype Change = Change(item: Item, width: int, left: int)

  /** `checkChanged`: the measurement differs from the item's recorded box. */
  function CheckChanged(item: Item, width: int, left: int): (changed: bool)
    ensures changed <==> item.(width := width, left := left) != item
  {
    item.width != width || item.left != left
  }

  /**
   * `refListItemDetector`: the `onChange` call it makes, if any. `node` is
   * `None` when React passes a null ref.
   */
  method RefListItemDetector(item: Item, node: Option<Measurement>) returns (fired: Option<Change>)
    ensures node.None? ==> fired.None?
    ensures node.Some? ==>
      (fired.Some? <==> item.width != node.value.clientWidth || item.left != node.value.offsetLeft)
    ensures fired.Some? ==>
      fired.value == Change(item, node.value.clientWidth, node.value.offsetLeft)
  {
    fired := None;
    if node.None? {
      return;
    }
    if CheckChanged(item, node.value.clientWidth, node.value.offsetLeft) {
      fired := Some(Change(item, node.value.clientWidth, node.value.offsetLeft));
    }
  }

  /**
   * Once the container has recorded a reported measurement, the replacing item
   * does not report the same measurement again, and the other items report
   * exactly what they reported before.
   */
  lemma MeasurementSettles(items: seq<Item>, i: nat, id: nat, m: Measurement, j: nat, n: Measurement)
    requires i < |items| && j < |items|
    ensures var updated := Replaced(items, i, Item(id, items[i].element, m.clientWidth, m.offsetLeft));
      !CheckChanged(updated[i], m.clientWidth, m.offsetLeft) &&
      (j != i ==> CheckChanged(updated[j], n.clientWidth, n.offsetLeft)
                  == CheckChanged(items[j], n.clientWidth, n.offsetLeft))
  {
  }

  /** The defaults every tab starts from (`mainItemStyle`). */
  function MainItemStyle(): map<string, string> {
    map["padding" := "20px", "cursor" := "pointer", "userSelect" := "none",
        "display" := "flex", "alignItems" := "center", "justifyContent" := "center"]
  }

  /** The properties the fit flag sets. */
  function FitStyle(fitInContainer: bool): map<string, string> {
    if fitInContainer then map["flexShrink" := "1", "flexGrow" := "1"] else map["flexShrink" := "0"]
  }

  /** The properties `noLeftPadding` sets. */
  function LeftPaddingStyle(noLeftPadding: bool): map<string, string> {
    if noLeftPadding then map["paddingLeft" := "0", "justifyContent" := "flex-start"] else map[]
  }

  /** The properties `noRightPadding` sets. */
  function RightPaddingStyle(noRightPadding: bool): map<string, string> {
    if noRightPadding then map["paddingRight" := "0", "justifyContent" := "flex-end"] else map[]
  }

  /** The active style, on the active tab only. */
  function ActiveLayer(active: bool, activeStyle: map<string, string>): map<string, string> {
    if active then activeStyle else map[]
  }

  /**
   * The tab's style as layers, each winning over the ones before it: the
   * defaults, the user's style, the fit flag, the two padding flags, the
   * active style.
   */
  function ItemStyle(userStyle: map<string, string>, fitInContainer: bool, noLeftPadding: bool,
                     noRightPadding: bool, active: bool, activeStyle: map<string, string>)
    : map<string, string>
  {
    MainItemStyle()
    + (userStyle + FitStyle(fitInContainer) + LeftPaddingStyle(noLeftPadding)
       + RightPaddingStyle(noRightPadding) + ActiveLayer(active, activeStyle))
  }

  /** `getItemStyle`: copies the user's style and sets properties on the copy one by one. */
  method GetItemStyle(userStyle: map<string, string>, fitInContainer: bool, noLeftPadding: bool,
                      noRightPadding: bool, active: bool, activeStyle: map<string, string>)
    returns (result: map<string, string>)
    ensures result == ItemStyle(userStyle, fitInContainer, noLeftPadding, noRightPadding, active, activeStyle)
  {
    var style := userStyle;
    FitStep(style, fitInContainer);
    if fitInContainer {
      style := style["flexShrink" := "1"];
      style := style["flexGrow" := "1"];
    } else {
      style := style["flexShrink" := "0"];
    }
    LeftPaddingStep(style, noLeftPadding);
    if noLeftPadding {
      style := style["paddingLeft" := "0"];
      style := style["justifyContent" := "flex-start"];
    }
    RightPaddingStep(style, noRightPadding);
    if noRightPadding {
      style := style["paddingRight" := "0"];
      style := style["justifyContent" := "flex-end"];
    }
    ActiveStep(style, active, activeStyle);
    if active {
      style := style + activeStyle;
    }
    result := MainItemStyle() + style;
  }

  lemma ActiveStep(style: map<string, string>, active: bool, activeStyle: map<string, string>)
    ensures (if active then style + activeStyle else style) == style + ActiveLayer(active, activeStyle)
  {
  }

  lemma FitStep(style: map<string, string>, fitInContainer: bool)
    ensures (if fitInContainer then style["flexShrink" := "1"]["flexGrow" := "1"]
             else style["flexShrink" := "0"]) == style + FitStyle(fitInContainer)
  {
  }

  lemma LeftPaddingStep(style: map<string, string>, noLeftPadding: bool)
    ensures (if noLeftPadding then style["paddingLeft" := "0"]["justifyContent" := "flex-start"]
             else style) == style + LeftPaddingStyle(noLeftPadding)
  {
  }

  lemma RightPaddingStep(style: map<string, string>, noRightPadding: bool)
    ensures (if noRightPadding then style["paddingRight" := "0"]["justifyContent" := "flex-end"]
             else style) == style + RightPaddingStyle(noRightPadding)
  {
  }

  /**
   * What the layers above the user's style decide for `key`: the value of the
   * topmost layer that sets it, if any.
   */
  function Override(fitInContainer: bool, noLeftPadding: bool, noRightPadding: bool,
                    active: bool, activeStyle: map<string, string>, key: string): Option<string>
  {
    if active && key in activeStyle then Some(activeStyle[key])
    else if key in RightPaddingStyle(noRightPadding) then Some(RightPaddingStyle(noRightPadding)[key])
    else if key in LeftPaddingStyle(noLeftPadding) then Some(LeftPaddingStyle(noLeftPadding)[key])
    else if key in FitStyle(fitInContainer) then Some(FitStyle(fitInContainer)[key])
    else None
  }

  /** Reading one property of the tab's style: the topmost layer that sets it wins. */
  lemma StyleAt(userStyle: map<string, string>, fitInContainer: bool, noLeftPadding: bool,
                noRightPadding: bool, active: bool, activeStyle: map<string, string>, key: string)
    ensures var s := ItemStyle(userStyle, fitInContainer, noLeftPadding, noRightPadding, active, activeStyle);
      var o := Override(fitInContainer, noLeftPadding, noRightPadding, active, activeStyle, key);
      (key in s <==> o.Some? || key in userStyle || key in MainItemStyle()) &&
      (o.Some? ==> s[key] == o.value) &&
      (o.None? && key in userStyle ==> s[key] == userStyle[key]) &&
      (o.None? && key !in userStyle && key in MainItemStyle() ==> s[key] == MainItemStyle()[key])
  {
    TopLayerWins(MainItemStyle(), userStyle, FitStyle(fitInContainer), LeftPaddingStyle(noLeftPadding),
                 RightPaddingStyle(noRightPadding), ActiveLayer(active, activeStyle), key);
  }

  /** Reading a key of `base + (l1 + l2 + l3 + l4 + l5)`, for any maps. */
  lemma TopLayerWins<V>(base: map<string, V>, l1: map<string, V>, l2: map<string, V>,
                        l3: map<string, V>, l4: map<string, V>, l5: map<string, V>, key: string)
    ensures var s := base + (l1 + l2 + l3 + l4 + l5);
      (key in s <==> key in base || key in l1 || key in l2 || key in l3 || key in l4 || key in l5) &&
      (key in s ==>
         s[key] == (if key in l5 then l5[key] else if key in l4 then l4[key]
                    else if key in l3 then l3[key] else if key in l2 then l2[key]
                    else if key in l1 then l1[key] else base[key]))
  {
  }

  /**
   * Unless the active style sets them: fitting makes `flexShrink` and
   * `flexGrow` 1; otherwise `flexShrink` is 0 and `flexGrow` is the user's.
   */
  lemma FlexRules(userStyle: map<string, string>, fitInContainer: bool, noLeftPadding: bool,
                  noRightPadding: bool, active: bool, activeStyle: map<string, string>)
    requires !active || ("flexShrink" !in activeStyle && "flexGrow" !in activeStyle)
    ensures var s := ItemStyle(userStyle, fitInContainer, noLeftPadding, noRightPadding, active, activeStyle);
      "flexShrink" in s && s["flexShrink"] == (if fitInContainer then "1" else "0") &&
      (fitInContainer ==> "flexGrow" in s && s["flexGrow"] == "1") &&
      (!fitInContainer ==> ("flexGrow" in s <==> "flexGrow" in userStyle)) &&
      (!fitInContainer && "flexGrow" in userStyle ==> s["flexGrow"] == userStyle["flexGrow"])
  {
    StyleAt(userStyle, fitInContainer, noLeftPadding, noRightPadding, active, activeStyle, "flexShrink");
    StyleAt(userStyle, fitInContainer, noLeftPadding, noRightPadding, active, activeStyle, "flexGrow");
  }

  /**
   * Unless the active style sets them: a suppressed padding is 0, and
   * `justifyContent` is `flex-end` without right padding, else `flex-start`
   * without left padding, else the user's or the default `center`.
   */
  lemma PaddingRules(userStyle: map<string, string>, fitInContainer: bool, noLeftPadding: bool,
                     noRightPadding: bool, active: bool, activeStyle: map<string, string>)
    requires !active || ("paddingLeft" !in activeStyle && "paddingRight" !in activeStyle
                         && "justifyContent" !in activeStyle)
    ensures var s := ItemStyle(userStyle, fitInContainer, noLeftPadding, noRightPadding, active, activeStyle);
      (noLeftPadding ==> "paddingLeft" in s && s["paddingLeft"] == "0") &&
      (noRightPadding ==> "paddingRight" in s && s["paddingRight"] == "0") &&
      "justifyContent" in s &&
      s["justifyContent"] ==
        if noRightPadding then "flex-end"
        else if noLeftPadding then "flex-start"
        else if "justifyContent" in userStyle then userStyle["justifyContent"]
        else "center"
  {
    StyleAt(userStyle, fitInContainer, noLeftPadding, noRightPadding, active, activeStyle, "paddingLeft");
    StyleAt(userStyle, fitInContainer, noLeftPadding, noRightPadding, active, activeStyle, "paddingRight");
    StyleAt(userStyle, fitInContainer, noLeftPadding, noRightPadding, active, activeStyle, "justifyContent");
  }

  /** On the active tab, every property of the active style wins. */
  lemma ActiveStyleWins(userStyle: map<string, string>, fitInContainer: bool, noLeftPadding: bool,
                        noRightPadding: bool, activeStyle: map<string, string>, key: string)
    requires key in activeStyle
    ensures var s := ItemStyle(userStyle, fitInContainer, noLeftPadding, noRightPadding, true, activeStyle);
      key in s && s[key] == activeStyle[key]
  {
  }
}
