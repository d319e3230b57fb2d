/** sample-accordion and sample-accordion-item: a list of collapsible items.
    The accordion tells each of its slotted items its position and itself;
    toggling an item goes through the accordion, which (unless several items
    may be open) closes every other open item first, and announces each change
    with `sample-accordion-collapse` / `-expand` events followed by one
    `sample-accordion-toggle`. An item outside any accordion toggles itself. */
module Accordion {
  import opened Dom

  datatype EventType = AccordionToggle | AccordionExpand | AccordionCollapse

  /** The detail of an accordion event (item reference, variant, size and
      timestamp left out): the item's index, state and label at dispatch. */
  datatype AccordionEvent = AccordionEvent(eventType: EventType, index: int, expanded: bool, labelText: string)

  /** The detail of a standalone item's `sample-accordion-item-toggle`. */
  datatype ItemToggleEvent = ItemToggleEvent(expanded: bool, labelText: string, index: int)

  /** An item's state as its accordion reads it. */
  datatype ItemView = ItemView(labelText: string, expanded: bool, disabled: bool, index: int)

  /** The three passes over the items: closing all but the target before it
      opens, `expandAll` and `collapseAll`. */
  datatype Sweep = CloseOthers(target: nat) | OpenAll | CloseAll

  // ---- Specification on item views ----

  /** Whether a pass changes the item at position `j`. */
  predicate Affected(s: Sweep, v: ItemView, j: nat) {
    match s
    case CloseOthers(k) => j != k && v.expanded
    case OpenAll => !v.expanded && !v.disabled
    case CloseAll => v.expanded
  }

  /** The event a pass dispatches for an item it changed, read after the change. */
  function SweepEvent(s: Sweep, v: ItemView): AccordionEvent {
    if s.OpenAll? then AccordionEvent(AccordionExpand, v.index, true, v.labelText)
    else AccordionEvent(AccordionCollapse, v.index, false, v.labelText)
  }

  /** The items after a whole pass. */
  function Swept(vs: seq<ItemView>, s: Sweep): (r: seq<ItemView>)
    ensures |r| == |vs|
  {
    seq(|vs|, j requires 0 <= j < |vs| =>
      if Affected(s, vs[j], j) then vs[j].(expanded := s.OpenAll?) else vs[j])
  }

  /** The items part-way through a pass: the first `i` visited. */
  function SweptUpTo(vs: seq<ItemView>, s: Sweep, i: nat): (r: seq<ItemView>)
    requires i <= |vs|
    ensures |r| == |vs|
  {
    seq(|vs|, j requires 0 <= j < |vs| => if j < i then Swept(vs, s)[j] else vs[j])
  }

  lemma SweptUpToBounds(vs: seq<ItemView>, s: Sweep)
    ensures SweptUpTo(vs, s, 0) == vs
    ensures SweptUpTo(vs, s, |vs|) == Swept(vs, s)
  {
  }

  /** Visiting item `i` settles it. */
  lemma SweptUpToStep(vs: seq<ItemView>, s: Sweep, i: nat)
    requires i < |vs|
    ensures SweptUpTo(vs, s, i)[i] == vs[i]
    ensures SweptUpTo(vs, s, i)[i := Swept(vs, s)[i]] == SweptUpTo(vs, s, i + 1)
  {
  }

  /** The positions among the first `n` that a pass changes, in order. */
  function AffectedIndices(vs: seq<ItemView>, s: Sweep, n: nat): seq<nat>
    requires n <= |vs|
  {
    if n == 0 then []
    else AffectedIndices(vs, s, n - 1) + (if Affected(s, vs[n - 1], n - 1) then [n - 1] else [])
  }

  /** The events a pass dispatches while visiting the first `n` items. */
  function SweepEvents(vs: seq<ItemView>, s: Sweep, n: nat): seq<AccordionEvent>
    requires n <= |vs|
  {
    if n == 0 then []
    else SweepEvents(vs, s, n - 1)
         + (if Affected(s, vs[n - 1], n - 1) then [SweepEvent(s, vs[n - 1])] else [])
  }

  /** The positions a pass changes among the first `n`: exactly the affected
      ones, strictly increasing. */
  lemma {:induction false} AffectedIndicesExact(vs: seq<ItemView>, s: Sweep, n: nat)
    requires n <= |vs|
    ensures var ids := AffectedIndices(vs, s, n);
      && (forall i :: 0 <= i < |ids| ==> ids[i] < n)
      && (forall j :: j in ids <==> 0 <= j < n && Affected(s, vs[j], j))
      && (forall a, b :: 0 <= a < b < |ids| ==> ids[a] < ids[b])
  {
    if n > 0 {
      AffectedIndicesExact(vs, s, n - 1);
    }
  }

  /** The i-th event of a pass is the one for the i-th changed item. */
  lemma {:induction false} SweepEventsMatch(vs: seq<ItemView>, s: Sweep, n: nat)
    requires n <= |vs|
    ensures var ids := AffectedIndices(vs, s, n);
      && |SweepEvents(vs, s, n)| == |ids|
      && (forall i :: 0 <= i < |ids| ==> ids[i] < |vs| && SweepEvents(vs, s, n)[i] == SweepEvent(s, vs[ids[i]]))
  {
    if n > 0 {
      SweepEventsMatch(vs, s, n - 1);
      AffectedIndicesExact(vs, s, n - 1);
    }
  }

  /** A pass dispatches one event per item it changes, in document order:
      the changed positions are exactly the affected ones, strictly increasing,
      and the i-th event is the one for the i-th changed item. */
  lemma SweepEventsInOrder(vs: seq<ItemView>, s: Sweep, n: nat)
    requires n <= |vs|
    ensures var ids := AffectedIndices(vs, s, n);
      && (forall i :: 0 <= i < |ids| ==> ids[i] < n)
      && (forall j :: j in ids <==> 0 <= j < n && Affected(s, vs[j], j))
      && (forall a, b :: 0 <= a < b < |ids| ==> ids[a] < ids[b])
      && |SweepEvents(vs, s, n)| == |ids|
      && (forall i :: 0 <= i < |ids| ==> SweepEvents(vs, s, n)[i] == SweepEvent(s, vs[ids[i]]))
  {
    AffectedIndicesExact(vs, s, n);
    SweepEventsMatch(vs, s, n);
  }

  /** One more visited item extends the dispatched events by that item's event, if any. */
  lemma SweepStep(vs: seq<ItemView>, s: Sweep, i: nat, start: seq<AccordionEvent>,
                  before: seq<AccordionEvent>, after: seq<AccordionEvent>)
    requires i < |vs|
    requires before == start + SweepEvents(vs, s, i)
    requires after == before + (if Affected(s, vs[i], i) then [SweepEvent(s, vs[i])] else [])
    ensures after == start + SweepEvents(vs, s, i + 1)
  {
    assert SweepEvents(vs, s, i + 1)
        == SweepEvents(vs, s, i) + (if Affected(s, vs[i], i) then [SweepEvent(s, vs[i])] else []);
  }

  /** `toggleItem` does nothing when the accordion or the item is disabled. */
  predicate Blocked(vs: seq<ItemView>, k: nat, accordionDisabled: bool)
    requires k < |vs|
  {
    accordionDisabled || vs[k].disabled
  }

  /** Opening an item of an accordion that allows one open item at a time
      closes the others first. */
  predicate ClosesOthers(vs: seq<ItemView>, k: nat, allowMultiple: bool)
    requires k < |vs|
  {
    !allowMultiple && !vs[k].expanded
  }

  /** The target of a toggle that goes through: only `expanded` flips. */
  function Flipped(v: ItemView): ItemView {
    v.(expanded := !v.expanded)
  }

  /** The two events announcing the flipped target: expand or collapse
      according to its new state, then toggle. */
  function FlipEvents(v: ItemView): seq<AccordionEvent> {
    var now := !v.expanded;
    [AccordionEvent(if now then AccordionExpand else AccordionCollapse, v.index, now, v.labelText),
     AccordionEvent(AccordionToggle, v.index, now, v.labelText)]
  }

  /** The items after `toggleItem` of the item at position `k`. */
  function Toggled(vs: seq<ItemView>, k: nat, allowMultiple: bool, accordionDisabled: bool): (r: seq<ItemView>)
    requires k < |vs|
    ensures |r| == |vs|
  {
    if Blocked(vs, k, accordionDisabled) then vs
    else
      var base := if ClosesOthers(vs, k, allowMultiple) then Swept(vs, CloseOthers(k)) else vs;
      base[k := Flipped(vs[k])]
  }

  /** The events of `toggleItem` of the item at position `k`. */
  function ToggleEvents(vs: seq<ItemView>, k: nat, allowMultiple: bool, accordionDisabled: bool): seq<AccordionEvent>
    requires k < |vs|
  {
    if Blocked(vs, k, accordionDisabled) then []
    else
      (if ClosesOthers(vs, k, allowMultiple) then SweepEvents(vs, CloseOthers(k), |vs|) else [])
      + FlipEvents(vs[k])
  }

  /** A toggle that goes through is the closing pass (when it applies)
      followed by the flip of the target, which the pass leaves alone. */
  lemma ToggleInTwoPasses(vs: seq<ItemView>, k: nat, allowMultiple: bool, accordionDisabled: bool,
                          mid: seq<ItemView>, fin: seq<ItemView>,
                          passEvents: seq<AccordionEvent>, flipEvents: seq<AccordionEvent>)
    requires k < |vs| && !Blocked(vs, k, accordionDisabled)
    requires mid == if ClosesOthers(vs, k, allowMultiple) then Swept(vs, CloseOthers(k)) else vs
    requires passEvents == if ClosesOthers(vs, k, allowMultiple) then SweepEvents(vs, CloseOthers(k), |vs|) else []
    requires fin == mid[k := Flipped(mid[k])] && flipEvents == FlipEvents(mid[k])
    ensures fin == Toggled(vs, k, allowMultiple, accordionDisabled)
    ensures passEvents + flipEvents == ToggleEvents(vs, k, allowMultiple, accordionDisabled)
  {
    assert mid[k] == vs[k];
  }

  /** A disabled accordion or item ignores the toggle. */
  lemma ToggleBlocked(vs: seq<ItemView>, k: nat, allowMultiple: bool, accordionDisabled: bool)
    requires k < |vs| && Blocked(vs, k, accordionDisabled)
    ensures Toggled(vs, k, allowMultiple, accordionDisabled) == vs
    ensures ToggleEvents(vs, k, allowMultiple, accordionDisabled) == []
  {
  }

  /** Opening an item when only one may be open closes every other item,
      disabled ones included, so the target is then the only open item;
      nothing but the `expanded` flags changes. */
  lemma ToggleOpensExclusively(vs: seq<ItemView>, k: nat, accordionDisabled: bool)
    requires k < |vs| && !Blocked(vs, k, accordionDisabled) && !vs[k].expanded
    ensures var r := Toggled(vs, k, false, accordionDisabled);
      && (forall j :: 0 <= j < |vs| ==> (r[j].expanded <==> j == k))
      && (forall j :: 0 <= j < |vs| ==> r[j] == vs[j].(expanded := r[j].expanded))
  {
  }

  /** Closing an item, or any toggle when several items may be open, flips
      the target and leaves every other item as it was. */
  lemma ToggleFlipsOnlyTarget(vs: seq<ItemView>, k: nat, allowMultiple: bool, accordionDisabled: bool)
    requires k < |vs| && !Blocked(vs, k, accordionDisabled)
    requires allowMultiple || vs[k].expanded
    ensures Toggled(vs, k, allowMultiple, accordionDisabled) == vs[k := vs[k].(expanded := !vs[k].expanded)]
  {
  }

  /** The events of a toggle that goes through: one collapse for each other
      item it closed, in document order, then expand or collapse for the target
      matching its new state, then one toggle. */
  lemma ToggleEventOrder(vs: seq<ItemView>, k: nat, allowMultiple: bool, accordionDisabled: bool)
    requires k < |vs| && !Blocked(vs, k, accordionDisabled)
    ensures var e := ToggleEvents(vs, k, allowMultiple, accordionDisabled);
      var r := Toggled(vs, k, allowMultiple, accordionDisabled);
      var closed := if ClosesOthers(vs, k, allowMultiple) then AffectedIndices(vs, CloseOthers(k), |vs|) else [];
      && (forall i :: 0 <= i < |closed| ==> closed[i] < |vs|)
      && |e| == |closed| + 2
      && (forall j :: j in closed <==> 0 <= j < |vs| && j != k && vs[j].expanded && !r[j].expanded)
      && (forall a, b :: 0 <= a < b < |closed| ==> closed[a] < closed[b])
      && (forall i :: 0 <= i < |closed| ==>
            e[i] == AccordionEvent(AccordionCollapse, vs[closed[i]].index, false, vs[closed[i]].labelText))
      && e[|closed|].eventType == (if r[k].expanded then AccordionExpand else AccordionCollapse)
      && e[|closed|].expanded == r[k].expanded
      && e[|closed| + 1] == AccordionEvent(AccordionToggle, vs[k].index, r[k].expanded, vs[k].labelText)
  {
    SweepEventsInOrder(vs, CloseOthers(k), |vs|);
  }

  /** The items after `toggleItem` of an item that is not among the items
      `vs` (one whose accordion reference outlived its place in the slot),
      `v` being that item's own view: the closing pass then spares no
      position. The item itself flips apart from `vs`. */
  function ForeignToggled(vs: seq<ItemView>, v: ItemView, allowMultiple: bool, accordionDisabled: bool)
    : (r: seq<ItemView>)
    ensures |r| == |vs|
  {
    if accordionDisabled || v.disabled || allowMultiple || v.expanded then vs
    else Swept(vs, CloseOthers(|vs|))
  }

  /** The events of `toggleItem` of such an item. */
  function ForeignToggleEvents(vs: seq<ItemView>, v: ItemView, allowMultiple: bool, accordionDisabled: bool)
    : seq<AccordionEvent>
  {
    if accordionDisabled || v.disabled then []
    else
      (if !allowMultiple && !v.expanded then SweepEvents(vs, CloseOthers(|vs|), |vs|) else [])
      + FlipEvents(v)
  }

  /** Such a toggle that goes through is the closing pass (when it applies)
      followed by the flip of the foreign item. */
  lemma ForeignToggleInTwoPasses(vs: seq<ItemView>, v: ItemView, allowMultiple: bool, accordionDisabled: bool,
                                 mid: seq<ItemView>, passEvents: seq<AccordionEvent>)
    requires !accordionDisabled && !v.disabled
    requires mid == if !allowMultiple && !v.expanded then Swept(vs, CloseOthers(|vs|)) else vs
    requires passEvents == if !allowMultiple && !v.expanded then SweepEvents(vs, CloseOthers(|vs|), |vs|) else []
    ensures mid == ForeignToggled(vs, v, allowMultiple, accordionDisabled)
    ensures passEvents + FlipEvents(v) == ForeignToggleEvents(vs, v, allowMultiple, accordionDisabled)
  {
  }

  /** Opening an item that is not among the items, when only one may be
      open, closes every one of them, disabled ones included, with one
      collapse event for each that was open, in document order, followed by
      the expand and toggle events of the foreign item. */
  lemma ForeignToggleClosesAll(vs: seq<ItemView>, v: ItemView, accordionDisabled: bool)
    requires !accordionDisabled && !v.disabled && !v.expanded
    ensures var r := ForeignToggled(vs, v, false, accordionDisabled);
      var e := ForeignToggleEvents(vs, v, false, accordionDisabled);
      var closed := AffectedIndices(vs, CloseOthers(|vs|), |vs|);
      && (forall j :: 0 <= j < |vs| ==> r[j] == vs[j].(expanded := false))
      && (forall i :: 0 <= i < |closed| ==> closed[i] < |vs|)
      && (forall j :: j in closed <==> 0 <= j < |vs| && vs[j].expanded)
      && (forall a, b :: 0 <= a < b < |closed| ==> closed[a] < closed[b])
      && |e| == |closed| + 2
      && (forall i :: 0 <= i < |closed| ==>
            e[i] == AccordionEvent(AccordionCollapse, vs[closed[i]].index, false, vs[closed[i]].labelText))
      && e[|closed|] == AccordionEvent(AccordionExpand, v.index, true, v.labelText)
      && e[|closed| + 1] == AccordionEvent(AccordionToggle, v.index, true, v.labelText)
  {
    SweepEventsInOrder(vs, CloseOthers(|vs|), |vs|);
  }

  /** Otherwise such a toggle leaves the items alone and only the foreign
      item announces its flip, or nothing happens when it is blocked. */
  lemma ForeignToggleSparesItems(vs: seq<ItemView>, v: ItemView, allowMultiple: bool, accordionDisabled: bool)
    requires accordionDisabled || v.disabled || allowMultiple || v.expanded
    ensures ForeignToggled(vs, v, allowMultiple, accordionDisabled) == vs
    ensures ForeignToggleEvents(vs, v, allowMultiple, accordionDisabled)
            == if accordionDisabled || v.disabled then [] else FlipEvents(v)
  {
  }

  /** `expandAll`: nothing unless several items may be open; otherwise every
      enabled item ends open, disabled items keep their state. */
  function ExpandedAll(vs: seq<ItemView>, allowMultiple: bool): (r: seq<ItemView>)
    ensures |r| == |vs|
  {
    if allowMultiple then Swept(vs, OpenAll) else vs
  }

  function ExpandAllEvents(vs: seq<ItemView>, allowMultiple: bool): seq<AccordionEvent> {
    if allowMultiple then SweepEvents(vs, OpenAll, |vs|) else []
  }

  lemma ExpandAllExact(vs: seq<ItemView>, allowMultiple: bool)
    ensures !allowMultiple ==> ExpandedAll(vs, allowMultiple) == vs && ExpandAllEvents(vs, allowMultiple) == []
    ensures allowMultiple ==>
      var r := ExpandedAll(vs, allowMultiple);
      var expandedIds := AffectedIndices(vs, OpenAll, |vs|);
      && (forall j :: 0 <= j < |vs| ==> r[j] == vs[j].(expanded := vs[j].expanded || !vs[j].disabled))
      && (forall i :: 0 <= i < |expandedIds| ==> expandedIds[i] < |vs|)
      && (forall j :: j in expandedIds <==> 0 <= j < |vs| && !vs[j].expanded && r[j].expanded)
      && (forall a, b :: 0 <= a < b < |expandedIds| ==> expandedIds[a] < expandedIds[b])
      && |ExpandAllEvents(vs, allowMultiple)| == |expandedIds|
      && (forall i :: 0 <= i < |expandedIds| ==>
            ExpandAllEvents(vs, allowMultiple)[i]
            == AccordionEvent(AccordionExpand, vs[expandedIds[i]].index, true, vs[expandedIds[i]].labelText))
  {
    SweepEventsInOrder(vs, OpenAll, |vs|);
  }

  /** `collapseAll`: every item ends closed, disabled ones included, with one
      collapse event for each item that was open, in document order. */
  lemma CollapseAllExact(vs: seq<ItemView>)
    ensures var r := Swept(vs, CloseAll);
      var closed := AffectedIndices(vs, CloseAll, |vs|);
      && (forall j :: 0 <= j < |vs| ==> r[j] == vs[j].(expanded := false))
      && (forall i :: 0 <= i < |closed| ==> closed[i] < |vs|)
      && (forall j :: j in closed <==> 0 <= j < |vs| && vs[j].expanded)
      && (forall a, b :: 0 <= a < b < |closed| ==> closed[a] < closed[b])
      && |SweepEvents(vs, CloseAll, |vs|)| == |closed|
      && (forall i :: 0 <= i < |closed| ==>
            SweepEvents(vs, CloseAll, |vs|)[i]
            == AccordionEvent(AccordionCollapse, vs[closed[i]].index, false, vs[closed[i]].labelText))
  {
    SweepEventsInOrder(vs, CloseAll, |vs|);
  }

  // ---- Keyboard focus among the headers ----

  /** The actions of the item header's keydown handler. */
  datatype KeyAction = ToggleKey | NextKey | PreviousKey | FirstKey | LastKey | OtherKey

  /** The action the header's keydown handler takes for `key`. */
  function HeaderKeyAction(key: string): (a: KeyAction)
    ensures a == ToggleKey <==> key == "Enter" || key == " "
    ensures a == NextKey <==> key == "ArrowDown"
    ensures a == PreviousKey <==> key == "ArrowUp"
    ensures a == FirstKey <==> key == "Home"
    ensures a == LastKey <==> key == "End"
  {
    match key
    case "Enter" => ToggleKey
    case " " => ToggleKey
    case "ArrowDown" => NextKey
    case "ArrowUp" => PreviousKey
    case "Home" => FirstKey
    case "End" => LastKey
    case _ => OtherKey
  }

  /** The handler prevents the default action of exactly the six keys it
      acts on, and of no other key. */
  function HeaderKeyPrevented(key: string): (p: bool)
    ensures p <==> key in {"Enter", " ", "ArrowDown", "ArrowUp", "Home", "End"}
  {
    HeaderKeyAction(key) != OtherKey
  }

  /** JavaScript's `%`, which truncates toward zero. */
  function JsRem(a: int, n: int): (r: int)
    requires n > 0
    ensures a >= 0 ==> r == a % n
    ensures -n < r < n
  {
    if a >= 0 then a % n else -((-a) % n)
  }

  /** The header list entry at `p`, if there is one. */
  function At(p: int, count: nat): (t: Option<nat>)
    ensures t.Some? <==> 0 <= p < count
    ensures t.Some? ==> t.value == p
  {
    if 0 <= p < count then Some(p) else None
  }

  /** ArrowDown: the header after this item's, wrapping to the first; with no
      headers `(index + 1) % 0` is NaN and nothing is focused. */
  function FocusNext(index: int, count: nat): (t: Option<nat>)
    ensures 0 <= index < count ==> t == Some(if index == count - 1 then 0 else index + 1)
    ensures count == 0 ==> t == None
  {
    if count == 0 then None else At(JsRem(index + 1, count), count)
  }

  /** ArrowUp: the header before this item's, wrapping from the first to the last. */
  function FocusPrevious(index: int, count: nat): (t: Option<nat>)
    ensures 0 <= index < count ==> t == Some(if index == 0 then count - 1 else index - 1)
    ensures count == 0 ==> t == None
  {
    At(if index == 0 then count - 1 else index - 1, count)
  }

  function FocusFirst(count: nat): (t: Option<nat>)
    ensures t.Some? <==> count > 0
    ensures t.Some? ==> t.value == 0
  {
    At(0, count)
  }

  function FocusLast(count: nat): (t: Option<nat>)
    ensures t.Some? <==> count > 0
    ensures t.Some? ==> t.value == count - 1
  {
    At(count - 1, count)
  }

  // ---- The header list that `_getAllItems` finds ----

  /** An element of the light-DOM tree under the accordion, as
      `querySelectorAll` sees it: shadow roots, and so the header button each
      item renders in its own, are not part of it. */
  datatype LightNode = LightNode(tag: string, classes: seq<string>, children: seq<LightNode>)

  /** `_getAllItems` as written: the light-DOM elements with class `header`
      that have a `sample-accordion-item` ancestor, `insideItem` saying
      whether one already encloses `nodes`. */
  function HeadersFoundAsWritten(nodes: seq<LightNode>, insideItem: bool): nat
    decreases nodes
  {
    if nodes == [] then 0
    else
      var n := nodes[0];
      (if insideItem && "header" in n.classes then 1 else 0)
      + HeadersFoundAsWritten(n.children, insideItem || n.tag == "sample-accordion-item")
      + HeadersFoundAsWritten(nodes[1..], insideItem)
  }

  /** No light-DOM element carries the class `header`: the items' slotted
      content is the author's own markup. */
  predicate NoSlottedHeader(nodes: seq<LightNode>)
    decreases nodes
  {
    nodes != [] ==>
      && "header" !in nodes[0].classes
      && NoSlottedHeader(nodes[0].children)
      && NoSlottedHeader(nodes[1..])
  }

  /** Without slotted `header` elements the query as written finds nothing. */
  lemma {:induction false} NoSlottedHeaderFindsNone(nodes: seq<LightNode>, insideItem: bool)
    requires NoSlottedHeader(nodes)
    ensures HeadersFoundAsWritten(nodes, insideItem) == 0
    decreases nodes
  {
    if nodes != [] {
      NoSlottedHeaderFindsNone(nodes[0].children, insideItem || nodes[0].tag == "sample-accordion-item");
      NoSlottedHeaderFindsNone(nodes[1..], insideItem);
    }
  }

  /** So, as written, ArrowDown, ArrowUp, Home and End focus nothing from any
      item, however many items the accordion holds. */
  lemma ArrowKeysInertAsWritten(nodes: seq<LightNode>, index: int)
    requires NoSlottedHeader(nodes)
    ensures var count := HeadersFoundAsWritten(nodes, false);
      FocusNext(index, count) == None && FocusPrevious(index, count) == None
      && FocusFirst(count) == None && FocusLast(count) == None
  {
    NoSlottedHeaderFindsNone(nodes, false);
  }

  /** The headers the selector was meant to reach: one for each
      `sample-accordion-item`, rendered in its shadow root, in tree order. */
  function HeadersFound(nodes: seq<LightNode>): nat
    decreases nodes
  {
    if nodes == [] then 0
    else
      (if nodes[0].tag == "sample-accordion-item" then 1 else 0)
      + HeadersFound(nodes[0].children) + HeadersFound(nodes[1..])
  }

  /** An accordion item holding one paragraph, as a light-DOM node. */
  function PlainItem(): LightNode {
    LightNode("sample-accordion-item", [], [LightNode("p", [], [])])
  }

  /** Two plain items: the query as written finds no header, the intended
      one finds two, and with those the keys move from item 0 to item 1. */
  lemma TwoItemsHeaders()
    ensures HeadersFoundAsWritten([PlainItem(), PlainItem()], false) == 0
    ensures FocusNext(0, HeadersFoundAsWritten([PlainItem(), PlainItem()], false)) == None
    ensures HeadersFound([PlainItem(), PlainItem()]) == 2
    ensures FocusNext(0, HeadersFound([PlainItem(), PlainItem()])) == Some(1)
  {
  }

  /** With the intended header list, every key moves focus from an item at
      an in-range position: to the neighbours, wrapping, and to the ends. */
  lemma ArrowKeysMove(nodes: seq<LightNode>, index: int)
    requires 0 <= index < HeadersFound(nodes)
    ensures var count := HeadersFound(nodes);
      && FocusNext(index, count) == Some(if index == count - 1 then 0 else index + 1)
      && FocusPrevious(index, count) == Some(if index == 0 then count - 1 else index - 1)
      && FocusFirst(count) == Some(0) && FocusLast(count) == Some(count - 1)
  {
  }

  /** ArrowDown and ArrowUp undo each other on every in-range position. */
  lemma {:induction false} NextPreviousInverse(index: int, count: nat)
    requires 0 <= index < count
    ensures FocusNext(index, count).Some? && FocusPrevious(FocusNext(index, count).value, count) == Some(index)
    ensures FocusPrevious(index, count).Some? && FocusNext(FocusPrevious(index, count).value, count) == Some(index)
  {
    var n := FocusNext(index, count).value;
    var p := FocusPrevious(index, count).value;
    if index == count - 1 {
      assert n == 0;
    } else {
      assert n == index + 1;
    }
    if index == 0 {
      assert p == count - 1;
    } else {
      assert p == index - 1;
    }
  }

  // ---- The elements ----

  /** The views of a list of items, in order. */
  ghost function ViewsOf(xs: seq<SampleAccordionItem>): (r: seq<ItemView>)
    reads xs
    ensures |r| == |xs|
    ensures forall j :: 0 <= j < |xs| ==> r[j] == xs[j].View()
  {
    seq(|xs|, j requires 0 <= j < |xs| reads xs => xs[j].View())
  }

  /** A slot holds each element at most once. */
  ghost predicate Distinct(xs: seq<SampleAccordionItem>) {
    forall i, j :: 0 <= i < j < |xs| ==> xs[i] != xs[j]
  }

  /** `item` sits at position `k` of `xs`, or `k` is `|xs|` and `item` is
      not among `xs` at all. */
  ghost predicate TargetAt(xs: seq<SampleAccordionItem>, item: SampleAccordionItem, k: nat) {
    && k <= |xs|
    && (k < |xs| ==> xs[k] == item)
    && (k == |xs| ==> item !in xs)
  }

  class SampleAccordionItem {
    var labelText: string
    var expanded: bool
    var disabled: bool
    /** Position among the accordion's items, set by the accordion. */
    var index: int
    /** The accordion that set this item up, if any. */
    var accordion: SampleAccordion?
    /** The standalone `sample-accordion-item-toggle` events dispatched so far. */
    var events: seq<ItemToggleEvent>

    constructor (labelText: string)
      ensures this.labelText == labelText && !expanded && !disabled && index == 0
      ensures accordion == null && events == []
    {
      this.labelText := labelText;
      expanded, disabled := false, false;
      index := 0;
      accordion := null;
      events := [];
    }

    function View(): ItemView
      reads this
    {
      ItemView(labelText, expanded, disabled, index)
    }

    /** A click on the header (Enter and Space do the same): through the
        accordion when there is one, otherwise the item flips itself. */
    method HandleToggle()
      requires accordion != null ==> accordion.Valid()
      modifies this`expanded, this`events, (if accordion == null then {} else {accordion})`events,
               (if accordion == null then [] else accordion.items)`expanded
      ensures accordion == old(accordion)
      ensures accordion != null ==> accordion.items == old(accordion.items)
      ensures accordion != null ==> events == old(events)
      ensures accordion == null ==>
        expanded == !old(expanded) && events == old(events) + [ItemToggleEvent(expanded, labelText, index)]
      ensures accordion != null ==>
        forall k :: 0 <= k < |accordion.items| && accordion.items[k] == this ==>
          && ViewsOf(accordion.items)
             == Toggled(old(ViewsOf(accordion.items)), k, accordion.allowMultiple, accordion.disabled)
          && accordion.events
             == old(accordion.events)
                + ToggleEvents(old(ViewsOf(accordion.items)), k, accordion.allowMultiple, accordion.disabled)
      ensures accordion != null && this !in accordion.items ==>
        && ViewsOf(accordion.items)
           == ForeignToggled(old(ViewsOf(accordion.items)), old(View()), accordion.allowMultiple, accordion.disabled)
        && View() == (if accordion.disabled || old(disabled) then old(View()) else Flipped(old(View())))
        && accordion.events
           == old(accordion.events)
              + ForeignToggleEvents(old(ViewsOf(accordion.items)), old(View()), accordion.allowMultiple, accordion.disabled)
    {
      if accordion != null {
        accordion.ToggleItem(this);
      } else {
        expanded := !expanded;
        events := events + [ItemToggleEvent(expanded, labelText, index)];
      }
    }
  }

  class SampleAccordion {
    var allowMultiple: bool
    var disabled: bool
    /** The accordion items assigned to the slot, in document order. */
    var items: seq<SampleAccordionItem>
    /** The accordion events dispatched so far. */
    var events: seq<AccordionEvent>

    /** The slot holds each element at most once. */
    ghost predicate Valid()
      reads this
    {
      Distinct(items)
    }

    constructor ()
      ensures !allowMultiple && !disabled && items == [] && events == [] && Valid()
    {
      allowMultiple, disabled := false, false;
      items, events := [], [];
    }

    /** `_setupItems`: every item learns its position and its accordion. */
    method SetupItems()
      requires Valid()
      modifies items`index, items`accordion
      ensures forall j :: 0 <= j < |items| ==> items[j].index == j && items[j].accordion == this
    {
      var i := 0;
      while i < |items|
        invariant 0 <= i <= |items|
        invariant forall j :: 0 <= j < i ==> items[j].index == j && items[j].accordion == this
      {
        items[i].accordion := this;
        items[i].index := i;
        i := i + 1;
      }
    }

    /** The slot's content changed to `assignedItems`; they are set up anew. */
    method HandleSlotChange(assignedItems: seq<SampleAccordionItem>)
      requires forall i, j :: 0 <= i < j < |assignedItems| ==> assignedItems[i] != assignedItems[j]
      modifies this`items, assignedItems`index, assignedItems`accordion
      ensures items == assignedItems && Valid()
      ensures forall j :: 0 <= j < |items| ==> items[j].index == j && items[j].accordion == this
    {
      items := assignedItems;
      SetupItems();
    }

    /** `toggleItem`: the item's position is not passed in; whatever position
        it holds, the views and events follow the toggle specification. An
        item that is not among the items (its accordion reference was set by
        an earlier slot assignment) is toggled all the same. The membership
        test below only selects the proof: both branches take the same steps. */
    method ToggleItem(item: SampleAccordionItem)
      requires Valid()
      modifies this`events, items`expanded, item`expanded
      ensures forall k :: 0 <= k < |items| && items[k] == item ==>
        && ViewsOf(items) == Toggled(old(ViewsOf(items)), k, allowMultiple, disabled)
        && events == old(events) + ToggleEvents(old(ViewsOf(items)), k, allowMultiple, disabled)
      ensures item !in items ==>
        && ViewsOf(items) == ForeignToggled(old(ViewsOf(items)), old(item.View()), allowMultiple, disabled)
        && item.View() == (if disabled || old(item.disabled) then old(item.View()) else Flipped(old(item.View())))
        && events == old(events) + ForeignToggleEvents(old(ViewsOf(items)), old(item.View()), allowMultiple, disabled)
    {
      if item in items {
        ghost var k :| 0 <= k < |items| && items[k] == item;
        ToggleAt(item, k);
      } else {
        ToggleForeign(item);
      }
    }

    /** `toggleItem` of an item that is not among the items: when it opens
        and only one item may be open, every open item closes. */
    method ToggleForeign(item: SampleAccordionItem)
      requires Valid() && item !in items
      modifies this`events, items`expanded, item`expanded
      ensures ViewsOf(items) == ForeignToggled(old(ViewsOf(items)), old(item.View()), allowMultiple, disabled)
      ensures item.View() == (if disabled || old(item.disabled) then old(item.View()) else Flipped(old(item.View())))
      ensures events == old(events) + ForeignToggleEvents(old(ViewsOf(items)), old(item.View()), allowMultiple, disabled)
    {
      ghost var vs, v, start := ViewsOf(items), item.View(), events;
      if disabled || item.disabled {
        return;
      }
      ghost var passEvents := if !allowMultiple && !v.expanded then SweepEvents(vs, CloseOthers(|vs|), |vs|) else [];
      var wasExpanded := item.expanded;
      if !allowMultiple && !wasExpanded {
        CollapseOthers(item, |items|);
      }
      ghost var mid := ViewsOf(items);
      ForeignToggleInTwoPasses(vs, v, allowMultiple, disabled, mid, passEvents);
      assert events == start + passEvents;
      FlipForeign(item, wasExpanded, v);
      AppendAssoc(start, passEvents, FlipEvents(v));
    }

    /** The second pass for an item that is not among the items: it flips
        and announces its new state, then the toggle; the items are untouched. */
    method FlipForeign(item: SampleAccordionItem, wasExpanded: bool, ghost v: ItemView)
      requires item !in items && item.View() == v && v.expanded == wasExpanded
      modifies this`events, item`expanded
      ensures ViewsOf(items) == old(ViewsOf(items))
      ensures item.View() == Flipped(v)
      ensures events == old(events) + FlipEvents(v)
    {
      item.expanded := !wasExpanded;
      var eventType := if item.expanded then AccordionExpand else AccordionCollapse;
      events := events + [AccordionEvent(eventType, item.index, item.expanded, item.labelText)];
      events := events + [AccordionEvent(AccordionToggle, item.index, item.expanded, item.labelText)];
    }

    /** `toggleItem` of the item known to sit at position `k`. */
    method ToggleAt(item: SampleAccordionItem, ghost k: nat)
      requires Valid() && k < |items| && items[k] == item
      modifies this`events, items`expanded
      ensures forall j :: 0 <= j < |items| && items[j] == item ==> j == k
      ensures ViewsOf(items) == Toggled(old(ViewsOf(items)), k, allowMultiple, disabled)
      ensures events == old(events) + ToggleEvents(old(ViewsOf(items)), k, allowMultiple, disabled)
    {
      ghost var vs := ViewsOf(items);
      if disabled || item.disabled {
        return;
      }
      assert forall j :: 0 <= j < |items| && j != k ==> items[j] != item;
      assert item.View() == vs[k];
      ghost var passEvents := if ClosesOthers(vs, k, allowMultiple) then SweepEvents(vs, CloseOthers(k), |vs|) else [];
      if !allowMultiple && !item.expanded {
        CollapseOthers(item, k);
      }
      ghost var mid := ViewsOf(items);
      ToggleInTwoPasses(vs, k, allowMultiple, disabled, mid, mid[k := Flipped(mid[k])], passEvents, FlipEvents(mid[k]));
      ghost var midEvents := events;
      assert midEvents == old(events) + passEvents;
      FlipTarget(item, k);
      AppendAssoc(old(events), passEvents, FlipEvents(mid[k]));
    }

    /** The second pass of `toggleItem`: the target flips and announces its
        new state, then the toggle. */
    method FlipTarget(item: SampleAccordionItem, ghost k: nat)
      requires k < |items| && items[k] == item
      requires forall j :: 0 <= j < |items| && j != k ==> items[j] != item
      modifies this`events, item`expanded
      ensures ViewsOf(items) == old(ViewsOf(items))[k := Flipped(old(ViewsOf(items))[k])]
      ensures events == old(events) + FlipEvents(old(ViewsOf(items))[k])
    {
      ghost var vs := ViewsOf(items);
      item.expanded := !item.expanded;
      assert forall j :: 0 <= j < |items| ==> items[j].View() == vs[k := Flipped(vs[k])][j];
      var eventType := if item.expanded then AccordionExpand else AccordionCollapse;
      events := events + [AccordionEvent(eventType, item.index, item.expanded, item.labelText)];
      events := events + [AccordionEvent(AccordionToggle, item.index, item.expanded, item.labelText)];
    }

    /** After the first `i` visits of a pass `s` over `xs`, whose views were
        `vs` and whose event log was `start` when the pass began, the visited
        items hold their swept views and their events follow `start`. */
    ghost predicate SweptTo(xs: seq<SampleAccordionItem>, vs: seq<ItemView>, s: Sweep,
                            start: seq<AccordionEvent>, i: nat)
      reads this, xs
    {
      i <= |xs| == |vs| && ViewsOf(xs) == SweptUpTo(vs, s, i) && events == start + SweepEvents(vs, s, i)
    }

    /** The first pass of `toggleItem`: every open item but `item` closes,
        in document order (`k` is the position of `item`, or `|items|` when
        it is not among them). */
    method CollapseOthers(item: SampleAccordionItem, ghost k: nat)
      requires Valid() && TargetAt(items, item, k)
      modifies this`events, items`expanded
      ensures ViewsOf(items) == Swept(old(ViewsOf(items)), CloseOthers(k))
      ensures events == old(events) + SweepEvents(old(ViewsOf(items)), CloseOthers(k), |items|)
    {
      var xs := items;
      ghost var vs, start := ViewsOf(xs), events;
      SweptUpToBounds(vs, CloseOthers(k));
      CloseEachOther(xs, item, k, vs, start);
    }

    /** The `forEach` of that pass over the slotted items `xs`. */
    method CloseEachOther(xs: seq<SampleAccordionItem>, item: SampleAccordionItem, ghost k: nat,
                          ghost vs: seq<ItemView>, ghost start: seq<AccordionEvent>)
      requires Distinct(xs) && TargetAt(xs, item, k) && SweptTo(xs, vs, CloseOthers(k), start, 0)
      modifies this`events, xs`expanded
      ensures SweptTo(xs, vs, CloseOthers(k), start, |xs|)
    {
      for i := 0 to |xs|
        invariant SweptTo(xs, vs, CloseOthers(k), start, i)
      {
        CollapseIfOther(xs, i, item, k, vs, start);
      }
    }

    /** One visit of that pass: item `i` closes if it is open and is not `item`. */
    method CollapseIfOther(xs: seq<SampleAccordionItem>, i: nat, item: SampleAccordionItem,
                           ghost k: nat, ghost vs: seq<ItemView>, ghost start: seq<AccordionEvent>)
      requires Distinct(xs) && i < |xs| && TargetAt(xs, item, k)
      requires SweptTo(xs, vs, CloseOthers(k), start, i)
      modifies this`events, xs`expanded
      ensures SweptTo(xs, vs, CloseOthers(k), start, i + 1)
    {
      var other := xs[i];
      ghost var cur, before := ViewsOf(xs), events;
      SweptUpToStep(vs, CloseOthers(k), i);
      assert other.View() == vs[i];
      assert other != item <==> i != k;
      assert forall j :: 0 <= j < |xs| && j != i ==> xs[j] != other;
      if other != item && other.expanded {
        other.expanded := false;
        events := events + [AccordionEvent(AccordionCollapse, other.index, other.expanded, other.labelText)];
      }
      assert forall j :: 0 <= j < |xs| ==> xs[j].View() == cur[i := Swept(vs, CloseOthers(k))[i]][j];
      SweepStep(vs, CloseOthers(k), i, start, before, events);
    }

    /** `expandAll`: when several items may be open, every closed enabled
        item opens, in document order. */
    method ExpandAll()
      requires Valid()
      modifies this`events, items`expanded
      ensures ViewsOf(items) == ExpandedAll(old(ViewsOf(items)), allowMultiple)
      ensures events == old(events) + ExpandAllEvents(old(ViewsOf(items)), allowMultiple)
    {
      if !allowMultiple {
        return;
      }
      var xs := items;
      ghost var vs, start := ViewsOf(xs), events;
      SweptUpToBounds(vs, OpenAll);
      OpenEach(xs, vs, start);
    }

    /** The `forEach` of `expandAll` over the slotted items `xs`. */
    method OpenEach(xs: seq<SampleAccordionItem>, ghost vs: seq<ItemView>, ghost start: seq<AccordionEvent>)
      requires Distinct(xs) && SweptTo(xs, vs, OpenAll, start, 0)
      modifies this`events, xs`expanded
      ensures SweptTo(xs, vs, OpenAll, start, |xs|)
    {
      for i := 0 to |xs|
        invariant SweptTo(xs, vs, OpenAll, start, i)
      {
        ExpandIfClosed(xs, i, vs, start);
      }
    }

    /** One visit of `expandAll`: item `i` opens if it is closed and enabled. */
    method ExpandIfClosed(xs: seq<SampleAccordionItem>, i: nat, ghost vs: seq<ItemView>,
                          ghost start: seq<AccordionEvent>)
      requires Distinct(xs) && i < |xs|
      requires SweptTo(xs, vs, OpenAll, start, i)
      modifies this`events, xs`expanded
      ensures SweptTo(xs, vs, OpenAll, start, i + 1)
    {
      var item := xs[i];
      ghost var cur, before := ViewsOf(xs), events;
      SweptUpToStep(vs, OpenAll, i);
      assert item.View() == vs[i];
      assert forall j :: 0 <= j < |xs| && j != i ==> xs[j] != item;
      if !item.expanded && !item.disabled {
        item.expanded := true;
        events := events + [AccordionEvent(AccordionExpand, item.index, item.expanded, item.labelText)];
      }
      assert forall j :: 0 <= j < |xs| ==> xs[j].View() == cur[i := Swept(vs, OpenAll)[i]][j];
      SweepStep(vs, OpenAll, i, start, before, events);
    }

    /** `collapseAll`: every open item closes, in document order. */
    method CollapseAll()
      requires Valid()
      modifies this`events, items`expanded
      ensures ViewsOf(items) == Swept(old(ViewsOf(items)), CloseAll)
      ensures events == old(events) + SweepEvents(old(ViewsOf(items)), CloseAll, |items|)
    {
      var xs := items;
      ghost var vs, start := ViewsOf(xs), events;
      SweptUpToBounds(vs, CloseAll);
      CloseEach(xs, vs, start);
    }

    /** The `forEach` of `collapseAll` over the slotted items `xs`. */
    method CloseEach(xs: seq<SampleAccordionItem>, ghost vs: seq<ItemView>, ghost start: seq<AccordionEvent>)
      requires Distinct(xs) && SweptTo(xs, vs, CloseAll, start, 0)
      modifies this`events, xs`expanded
      ensures SweptTo(xs, vs, CloseAll, start, |xs|)
    {
      for i := 0 to |xs|
        invariant SweptTo(xs, vs, CloseAll, start, i)
      {
        CollapseIfExpanded(xs, i, vs, start);
      }
    }

    /** One visit of `collapseAll`: item `i` closes if it is open. */
    method CollapseIfExpanded(xs: seq<SampleAccordionItem>, i: nat, ghost vs: seq<ItemView>,
                              ghost start: seq<AccordionEvent>)
      requires Distinct(xs) && i < |xs|
      requires SweptTo(xs, vs, CloseAll, start, i)
      modifies this`events, xs`expanded
      ensures SweptTo(xs, vs, CloseAll, start, i + 1)
    {
      var item := xs[i];
      ghost var cur, before := ViewsOf(xs), events;
      SweptUpToStep(vs, CloseAll, i);
      assert item.View() == vs[i];
      assert forall j :: 0 <= j < |xs| && j != i ==> xs[j] != item;
      if item.expanded {
        item.expanded := false;
        events := events + [AccordionEvent(AccordionCollapse, item.index, item.expanded, item.labelText)];
      }
      assert forall j :: 0 <= j < |xs| ==> xs[j].View() == cur[i := Swept(vs, CloseAll)[i]][j];
      SweepStep(vs, CloseAll, i, start, before, events);
    }
  }
}
