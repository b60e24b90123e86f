# react-swipeable-tabs: the tab container's bookkeeping

This project models the non-animated part of the react-swipeable-tabs widget
in Dafny:

- the `Tabs` container (`src/Tabs/index.js`). It turns the `items` prop into
  an item list, writes measured widths and offsets back into that list, and
  selects an item on click. It also decides when the strip is re-centred on
  the active item.
- the `TabList` (`src/Tabs/TabList.js`). It adds up the item widths, decides
  whether the list is centred in its container, and picks which items lose
  their outer padding.
- the `TabListItem` (`src/Tabs/TabListItem.js`). It reports a changed
  measurement and builds the style each tab is drawn with.

Modules:

- `Options`: an `Option` for JavaScript's `undefined`.
- `Tabs`: the data model, the container's pure helpers, one React update
  pass as a function (`WillUpdate`), and the `Tabs` class.
- `TabList`: the list decisions.
- `TabListItem`: the per-tab decisions.

How the model reads the JavaScript:

- **Identity.** The source finds items with `indexOf` and compares arrays with
  `===`. Each item therefore carries an `id` and each array a `ref`. Every
  object the source creates gets a fresh one.
- **React state.** `setState` writes straight into the fields of `Tabs.Tabs`,
  which hold the pending state. The field `shown` is `this.state`, the state
  React last committed. `ComponentWillUpdate` is one update pass: it compares
  `shown` with the pending state and commits. The state its own `setState`
  calls ask for stays pending. The caller runs the next pass by calling
  `ComponentWillUpdate` again.
- **Animator.** `Animator` records what the container has pushed into the
  animator: its items, its settings and the container width. Its geometry
  queries are the uninterpreted functions held by `Geometry`.
- **Styles.** Style objects are `map<string, string>` and `{...a, ...b}` is
  `a + b`. The numbers 0 and 1 are written `"0"` and `"1"`. In the list style
  the `justifyContent` the source sets to `undefined` is a missing key.

Behaviours of the code worth knowing:

- `updateAnimatorFromProps` (`src/Tabs/index.js:266-273`) passes six settings
  to the animator. It never passes the gravity or drag-coefficient props, so
  `ConfigOf` has no field for either (`ConfigReflectsSixSettings`).
- The fallback click for an active index with no item looks the first item up
  in `this.state.items`. Over an unchanged list, it reports index 0 once
  (`StaleIndexSettlesOnFirstItem`). Right after the list has been replaced,
  the first item is not in `this.state.items` yet, so the click reports -1:
  - When the stale index was something other than -1, the index changes to
    -1. That triggers a second pass, which calls `onItemClick` again, with
    index 0 (`ReplacedListReportsMinusOneThenZero`).
  - When the stale index was -1 itself, nothing changes. The index stays -1
    and no tab is active (`ReplacedListKeepsMinusOne`).
- Measurements are batched like every other `setState`. Each `onItemChange`
  builds its list from `this.state.items`, the committed list. So when two
  tabs report before the next update pass, only the second measurement is
  kept: the second list starts again from the committed one
  (`Tabs.Tabs.OnItemChange`).
- `onItemClick` sets `requestToCenterItem`, but `componentWillUpdate` tests
  `requestCenterActiveItem`. A click re-centres only because it changes the
  active index (`ClickRecentresOnlyOnIndexChange`).

## Model

| member | source | states |
|---|---|---|
| Tabs.FormatItems | src/Tabs/index.js:200-202 | one item per element, same length and order; the i-th holds the i-th element with width 0 and left 0, and every item is a new object |
| Tabs.IndexOf | src/Tabs/index.js:328-330 | the first position holding the item, or -1 exactly when the item is absent |
| Tabs.IndexOfAllUnique | src/Tabs/index.js:312 | when identities are unique, `indexOf` finds an item at exactly its position |
| Tabs.IsItemActive | src/Tabs/index.js:324-330 | with unique identities, an item is active exactly when the active index is its position; an absent item is active exactly when the index is -1 |
| Tabs.Replaced | src/Tabs/index.js:314-318 | the spread of the two slices around `x` keeps the length, puts `x` at position i and keeps every other position |
| Tabs.StaleIndexActsAsFirst | src/Tabs/index.js:252-258 | an index with no item makes `getCenterItemState` fall back and signal; it centres on the same item as index 0, which does not signal, or on `undefined` when the list is empty |
| Tabs.WillUpdate | src/Tabs/index.js:177-187 | a pass re-centres exactly when the active index changed, a re-centre was requested or the list array changed; a re-centre clears the request; it calls `onItemClick` exactly when the active index has no item, and then the new active index is the index it reported, looked up in `this.state.items`; a re-centre sets `translateX`, `borderWidth` and `borderTranslateX` to the animator's geometry for the item `getCenterItemState` picks, and the click reports that item; items are never changed |
| Tabs.RecentreSettles | src/Tabs/index.js:177-187 | a re-centre on an existing item signals nothing, moves the strip to that item's translation, and the next pass is quiet |
| Tabs.ClickRecentresOnlyOnIndexChange | src/Tabs/index.js:302-307 | when no re-centre is requested, a click's state change re-centres exactly when it changes the active index |
| Tabs.StaleIndexSettlesOnFirstItem | src/Tabs/index.js:252-258 | over an unchanged list, a stale index makes the first pass report the first item at index 0; the second pass re-centres on it and signals nothing; the third is quiet |
| Tabs.ReplacedListReportsMinusOneThenZero | src/Tabs/index.js:170-187 | right after the list is replaced, a stale index other than -1 makes the first pass report the first item with index -1 and the second pass report it with index 0; the third pass re-centres on the first item without a click, and the fourth is quiet with active index 0 |
| Tabs.ReplacedListKeepsMinusOne | src/Tabs/index.js:170-187 | right after the list is replaced, an active index of -1 makes the first pass report the first item with index -1; the index stays -1, no tab is active and the next pass is quiet |
| Tabs.CheckEqualItems | src/Tabs/index.js:204-206 | the same array is equal, even after it was changed in place; two different arrays are never equal, whatever they hold |
| Tabs.GetCenterItem | src/Tabs/index.js:252-258 | falls back exactly when the active index has no item; otherwise picks the item at the active index; the fallback picks the first item, or `undefined` exactly when the list is empty |
| Tabs.ConfigReflectsSixSettings | src/Tabs/index.js:266-273 | two props give the same animator settings exactly when they agree on border width ratio, safe margin, initial translation, the two padding flags and the resistance coefficient; gravity and the drag coefficient make no difference |
| Tabs.DefaultPropsCentreOnFirstTab | src/Tabs/index.js:111-131 | the default props give the animator ratio 1, safe margin 100, translation 0, no padding suppression and resistance 0.5; the default active index 0 centres on the first tab without a click, and falls back when there are no tabs |
| Tabs.Tabs.constructor | src/Tabs/index.js:133-153 | the state holds the formatted items, the prop's active index and zero geometry; the animator holds the same items and the settings taken from the props |
| Tabs.Tabs.ComponentWillReceiveProps | src/Tabs/index.js:163-175 | the animator settings are always refreshed; the active index is replaced only when the prop changed; the items are reformatted, and a re-centre follows, only when the new `items` array is a different array |
| Tabs.Tabs.ComponentWillUpdate | src/Tabs/index.js:177-187 | commits the pending state and leaves pending exactly the state `WillUpdate` computes; appends the `onItemClick` call it makes to the click log |
| Tabs.Tabs.HandleWrapperResize | src/Tabs/index.js:189-196 | records the measured container width when the container is mounted, and requests a re-centre |
| Tabs.Tabs.OnItemClick | src/Tabs/index.js:302-309 | the active index becomes the item's index in `this.state.items`, and that same index is passed to the `onItemClick` prop |
| Tabs.Tabs.OnItemChange | src/Tabs/index.js:311-322 | position i gets a new item with the same element and the measured width and left; the length and every other position are kept; the animator and the state hold the same new list, which triggers a re-centre |
| TabList.IsFirstItem | src/Tabs/TabList.js:32-34 | with unique items, an item is first exactly when it sits at position 0; an absent item is never first |
| TabList.IsLastItem | src/Tabs/TabList.js:41-43 | with unique items, an item is last exactly when it sits at the last position; an absent item counts as last exactly when the list is empty |
| TabList.TotalWidth | src/Tabs/TabList.js:49-53 | when no width is negative, the total is not negative and is at least every single width |
| TabList.GetListWidth | src/Tabs/TabList.js:49-53 | the loop's total is the sum of the item widths |
| TabList.TotalWidthAppend | src/Tabs/TabList.js:49-53 | the total width of a concatenation is the sum of the totals |
| TabList.MeasurementChangesTotal | src/Tabs/TabList.js:49-53 | replacing one item changes the total by exactly the change in that item's width |
| TabList.FormattedListHasNoWidth | src/Tabs/TabList.js:49-53 | a freshly formatted list has total width 0 |
| TabList.IsListSmallerThanWindow | src/Tabs/TabList.js:59-61 | strictly narrower than the container; equal widths give false |
| TabList.GetListStyle | src/Tabs/TabList.js:63-72 | `justifyContent` is `center` when centring is asked for and the list is narrower than the container, and unset otherwise; the other five properties are fixed |
| TabList.RenderListItems | src/Tabs/TabList.js:74-90 | exactly one child per item, in list order, keyed by position |
| TabList.LeftPaddingOnlyOnFirst | src/Tabs/TabList.js:32-34 | a child loses its left padding exactly when it is the first and `noFirstLeftPadding` is set |
| TabList.RightPaddingOnlyOnLast | src/Tabs/TabList.js:41-43 | a child loses its right padding exactly when it is the last and `noLastRightPadding` is set |
| TabListItem.CheckChanged | src/Tabs/TabListItem.js:23-25 | a measurement is a change exactly when recording it would alter the item |
| TabListItem.RefListItemDetector | src/Tabs/TabListItem.js:23-35 | a null ref does nothing; otherwise `onChange` fires exactly when the width or the left offset differs from the item's, with the item and the measured values |
| TabListItem.MeasurementSettles | src/Tabs/TabListItem.js:23-25 | once a measurement is recorded, the replacing item does not report it again, and every other item reports as before |
| TabListItem.GetItemStyle | src/Tabs/TabListItem.js:37-77 | the style built step by step on a copy is the defaults overlaid by the user's style, the fit flag, the two padding flags and, on the active tab, the active style, in that order |
| TabListItem.StyleAt | src/Tabs/TabListItem.js:64-76 | each property comes from the topmost layer that sets it: an override, else the user's style, else the defaults; a property none of them sets is absent |
| TabListItem.FlexRules | src/Tabs/TabListItem.js:41-46 | unless the active style sets them (then `ActiveStyleWins` applies): with fitting, `flexShrink` and `flexGrow` are 1; without it `flexShrink` is 0 and `flexGrow` is the user's (absent when the user sets none) |
| TabListItem.PaddingRules | src/Tabs/TabListItem.js:48-58 | unless the active style sets them (then `ActiveStyleWins` applies): a suppressed padding is 0; `justifyContent` is `flex-end` without right padding, else `flex-start` without left padding, else the user's, else `center` |
| TabListItem.ActiveStyleWins | src/Tabs/TabListItem.js:60-62 | on the active tab every property of the active style wins |

## Left out

- The animator (`src/Tabs/Animator.js`) is not part of this model. Its border width, item translation and border translation become uninterpreted functions in `Geometry`. Its setters become updates of the `Animator` record.
- Gestures are left out because their values all come from the animator: `onPanStart`, `onPan` and `onPanEnd` (`src/Tabs/index.js:208-225`), and `getTranslateStyle` with its `setCurrentTranslateX` call.
- Rendering is left out because it is UI and floating-point animation: JSX, Hammer, Measure, and the Motion spring frames (`getInitialFrame`, `calculateNextFrame`). So are the wrapper, container and border styles and `ListBorder.js`, which only copy values.
- The window resize listener and the debounce timer are left out. `HandleWrapperResize` is called directly. The constructor's deferred call of it is the caller's first call.
- DOM measurement is an input: the container width is `measured` (`None` while not mounted), and a tab's box is a `Measurement`.
- `autoprefixer` is the identity. `differenceBy` is imported but never used.
- The scheduling of follow-up update passes is left out. `setState` calls collect in the pending state until `ComponentWillUpdate` commits them, and the caller decides when the next pass runs.
- TabListItem.GetItemStyle: a property the caller's `itemStyle` or `activeStyle` sets to `undefined` is not modelled. In the source, object spread keeps such a key, so it hides the default or override beneath it, and no style is set for it. A `map<string, string>` has no value for `undefined`, so the model reads such a key as missing, and the default or override shows through.
- Tabs.Tabs.OnItemChange: requires the item to be in `this.state.items`. For an absent item, `indexOf` returns -1: `slice(0, -1)` is every item but the last and `slice(0)` is the whole list, so the new list is all but the last item, then the new item, then the whole list again (length 2n). The model does not follow that case.
- JavaScript numbers: widths and offsets are integers and animator geometry is `real`, so floating-point rounding is not modelled.
- `DefaultProps` holds the defaults of the props the container reads itself. The defaults of the props it hands on to the tab list are not modelled: `alignCenter` true, `fitItems` false, `itemStyle` and `activeStyle` empty (`src/Tabs/index.js:124-129`). `GetListStyle` and `GetItemStyle` take those values as parameters. The display-only defaults (colours, border, stiffness, damping) are not modelled either.
