/** sample-breadcrumb: a trail of `sample-breadcrumb-item` children. When the
    slot's content changes, every item child is replaced in place by a styled
    <li> holding either a link (<a>) or a plain <span>; the last item and items
    flagged `current` render as the current page. Navigation is announced with
    `sample-breadcrumb-navigate`, both from clicks on rendered links and from
    `navigateTo`. */
module Breadcrumb {
  import opened Dom

  /** A `sample-breadcrumb-item` child: its text content and properties. */
  datatype BreadcrumbItem = BreadcrumbItem(text: string, href: string, disabled: bool, current: bool, icon: string)

  /** An inner <span> with its class and text. */
  datatype Span = Span(className: string, text: string)

  /** The element inside a rendered <li>: a link, or a plain span. */
  datatype Link =
    | Anchor(className: string, href: string, dataHref: string, dataText: string, content: seq<Span>)
    | PlainSpan(className: string, ariaCurrent: Option<string>, content: seq<Span>)

  /** A rendered <li class="breadcrumb-item">. */
  datatype ListItem = ListItem(className: string, link: Link)

  /** A child node of the breadcrumb: an item not yet rendered, or the <li>
      that replaced one. */
  datatype Child = Item(item: BreadcrumbItem) | Rendered(li: ListItem)

  /** The detail of a `sample-breadcrumb-navigate` event (element and
      timestamp left out). */
  datatype NavigateEvent = NavigateEvent(href: string, text: string)

  /** What the breadcrumb's own template renders. */
  datatype RenderedNav = RenderedNav(className: string, slot: bool)

  // ---- Rendering one item ----

  predicate IsCurrent(item: BreadcrumbItem, isLast: bool) {
    item.current || isLast
  }

  /** An item becomes a link when it has a target, is enabled and is not the
      current page. */
  predicate RendersAsLink(item: BreadcrumbItem, isLast: bool) {
    item.href != "" && !item.disabled && !IsCurrent(item, isLast)
  }

  /** The inner spans: the icon (when set) before the text. */
  function Content(item: BreadcrumbItem): (c: seq<Span>)
    ensures |c| == (if item.icon != "" then 2 else 1)
    ensures c[|c| - 1] == Span("breadcrumb-text", item.text)
    ensures item.icon != "" ==> c[0] == Span("breadcrumb-icon", item.icon)
  {
    (if item.icon != "" then [Span("breadcrumb-icon", item.icon)] else [])
    + [Span("breadcrumb-text", item.text)]
  }

  function LinkClass(item: BreadcrumbItem): string {
    JoinSpace(["breadcrumb-link", if item.icon != "" then "has-custom-icon" else ""])
  }

  function SpanClass(item: BreadcrumbItem, isLast: bool): string {
    JoinSpace(SpanParts(item, isLast))
  }

  /** `_createBreadcrumbItem`: the <li> that replaces an item. */
  function CreateItem(item: BreadcrumbItem, isLast: bool): (li: ListItem)
    ensures li.className == "breadcrumb-item"
    ensures li.link.Anchor? <==> RendersAsLink(item, isLast)
    ensures li.link.content == Content(item)
    ensures li.link.Anchor? ==>
      li.link.href == item.href && li.link.dataHref == item.href && li.link.dataText == item.text
      && li.link.className == LinkClass(item)
    ensures li.link.PlainSpan? ==>
      (li.link.ariaCurrent.Some? <==> IsCurrent(item, isLast))
      && (li.link.ariaCurrent.Some? ==> li.link.ariaCurrent.value == "page")
      && li.link.className == SpanClass(item, isLast)
  {
    var link :=
      if RendersAsLink(item, isLast) then
        Anchor(LinkClass(item), item.href, item.href, item.text, Content(item))
      else
        PlainSpan(SpanClass(item, isLast),
                  if IsCurrent(item, isLast) then Some("page") else None,
                  Content(item));
    ListItem("breadcrumb-item", link)
  }

  /** A link's classes: "breadcrumb-link", plus "has-custom-icon" iff it has an icon. */
  lemma LinkClassTokens(item: BreadcrumbItem)
    ensures Tokens(LinkClass(item))
            == ["breadcrumb-link"] + (if item.icon != "" then ["has-custom-icon"] else [])
  {
    var parts := ["breadcrumb-link", if item.icon != "" then "has-custom-icon" else ""];
    TokensOfJoin(parts);
    assert parts[1..][1..] == [];
  }

  /** The classes a span carries besides "breadcrumb-link", in order. */
  function SpanParts(item: BreadcrumbItem, isLast: bool): seq<string> {
    ["breadcrumb-link",
     if IsCurrent(item, isLast) then "current" else "",
     if item.disabled then "disabled" else "",
     if item.icon != "" then "has-custom-icon" else ""]
  }

  /** A span's class attribute splits into exactly its non-empty parts, in order. */
  lemma SpanClassTokens(item: BreadcrumbItem, isLast: bool)
    ensures Tokens(SpanClass(item, isLast)) == NonEmpty(SpanParts(item, isLast))
  {
    TokensOfJoin(SpanParts(item, isLast));
  }

  /** Each of a span's three optional classes is present exactly when its
      condition holds; "breadcrumb-link" always is. */
  lemma SpanClassFlags(item: BreadcrumbItem, isLast: bool)
    ensures "breadcrumb-link" in NonEmpty(SpanParts(item, isLast))
    ensures "current" in NonEmpty(SpanParts(item, isLast)) <==> IsCurrent(item, isLast)
    ensures "disabled" in NonEmpty(SpanParts(item, isLast)) <==> item.disabled
    ensures "has-custom-icon" in NonEmpty(SpanParts(item, isLast)) <==> item.icon != ""
  {
    SpanHasCurrent(item, isLast);
    SpanHasDisabled(item, isLast);
    SpanHasIcon(item, isLast);
  }

  // Helpers for the flags above, one part at a time.

  lemma SpanHasCurrent(item: BreadcrumbItem, isLast: bool)
    ensures "current" in SpanParts(item, isLast) <==> IsCurrent(item, isLast)
  {
  }

  lemma SpanHasDisabled(item: BreadcrumbItem, isLast: bool)
    ensures "disabled" in SpanParts(item, isLast) <==> item.disabled
  {
  }

  lemma SpanHasIcon(item: BreadcrumbItem, isLast: bool)
    ensures "has-custom-icon" in SpanParts(item, isLast) <==> item.icon != ""
  {
  }

  // ---- The child list ----

  /** `getItems()`: the item children, in document order. */
  function Items(cs: seq<Child>): (r: seq<BreadcrumbItem>)
    ensures |r| <= |cs|
  {
    if cs == [] then []
    else (if cs[0].Item? then [cs[0].item] else []) + Items(cs[1..])
  }

  /** `getItems()` lists every item child and nothing else. */
  lemma {:induction false} ItemsMembers(cs: seq<Child>)
    ensures forall it :: it in Items(cs) <==> Item(it) in cs
  {
    if cs != [] {
      ItemsMembers(cs[1..]);
      assert cs == [cs[0]] + cs[1..];
    }
  }

  /** The rendered <li> children, in document order. */
  function Renders(cs: seq<Child>): seq<ListItem> {
    if cs == [] then []
    else (if cs[0].Rendered? then [cs[0].li] else []) + Renders(cs[1..])
  }

  lemma {:induction false} ItemsAppend(a: seq<Child>, b: seq<Child>)
    ensures Items(a + b) == Items(a) + Items(b)
    ensures Renders(a + b) == Renders(a) + Renders(b)
    decreases |a|
  {
    if a == [] {
      assert a + b == b;
    } else {
      var ab := a + b;
      assert ab[0] == a[0];
      assert ab[1..] == a[1..] + b;
      ItemsAppend(a[1..], b);
      var hi := if a[0].Item? then [a[0].item] else [];
      var hr := if a[0].Rendered? then [a[0].li] else [];
      assert Items(ab) == hi + Items(a[1..] + b);
      assert Items(a) == hi + Items(a[1..]);
      assert Renders(ab) == hr + Renders(a[1..] + b);
      assert Renders(a) == hr + Renders(a[1..]);
    }
  }

  /** Removes the item child that `getItems()` lists at `index`. */
  function RemoveNthItem(cs: seq<Child>, index: nat): (r: seq<Child>)
    requires index < |Items(cs)|
    ensures |r| == |cs| - 1
  {
    if cs[0].Item? then
      (if index == 0 then cs[1..] else [cs[0]] + RemoveNthItem(cs[1..], index - 1))
    else [cs[0]] + RemoveNthItem(cs[1..], index)
  }

  /** The items and renders of a list with one more child in front. */
  lemma ConsChild(c: Child, cs: seq<Child>)
    ensures Items([c] + cs) == (if c.Item? then [c.item] else []) + Items(cs)
    ensures Renders([c] + cs) == (if c.Rendered? then [c.li] else []) + Renders(cs)
  {
    assert ([c] + cs)[0] == c;
    assert ([c] + cs)[1..] == cs;
  }

  /** Removing the item at `index` removes exactly that item: the other items
      keep their order. */
  lemma {:induction false} RemoveNthItemItems(cs: seq<Child>, index: nat)
    requires index < |Items(cs)|
    ensures Items(RemoveNthItem(cs, index)) == Items(cs)[..index] + Items(cs)[index + 1..]
    decreases |cs|
  {
    if cs[0].Item? {
      if index > 0 {
        RemoveNthItemItems(cs[1..], index - 1);
        ConsChild(cs[0], RemoveNthItem(cs[1..], index - 1));
        var tail := Items(cs[1..]);
        assert Items(cs) == [cs[0].item] + tail;
        assert [cs[0].item] + (tail[..index - 1] + tail[index..])
            == ([cs[0].item] + tail)[..index] + ([cs[0].item] + tail)[index + 1..];
      }
    } else {
      RemoveNthItemItems(cs[1..], index);
      ConsChild(cs[0], RemoveNthItem(cs[1..], index));
    }
  }

  /** Removing an item keeps every rendered child, in order. */
  lemma {:induction false} RemoveNthItemRenders(cs: seq<Child>, index: nat)
    requires index < |Items(cs)|
    ensures Renders(RemoveNthItem(cs, index)) == Renders(cs)
    decreases |cs|
  {
    if cs[0].Item? {
      if index > 0 {
        RemoveNthItemRenders(cs[1..], index - 1);
        ConsChild(cs[0], RemoveNthItem(cs[1..], index - 1));
      }
    } else {
      RemoveNthItemRenders(cs[1..], index);
      ConsChild(cs[0], RemoveNthItem(cs[1..], index));
    }
  }

  /** `slotchange`: every item child replaced in place by its <li>, the last
      item of the list rendering as current. */
  function SlotChanged(cs: seq<Child>): (r: seq<Child>)
    ensures |r| == |cs|
  {
    seq(|cs|, p requires 0 <= p < |cs| =>
      if cs[p].Item? then Rendered(CreateItem(cs[p].item, |Items(cs[..p])| == |Items(cs)| - 1))
      else cs[p])
  }

  lemma {:induction false} NoItemsLeft(cs: seq<Child>)
    requires forall p :: 0 <= p < |cs| ==> cs[p].Rendered?
    ensures Items(cs) == []
    decreases |cs|
  {
    if cs != [] {
      assert forall p :: 0 <= p < |cs[1..]| ==> cs[1..][p] == cs[p + 1];
      NoItemsLeft(cs[1..]);
    }
  }

  /** After the slot change no item child is left, so `getItems()` is empty
      and `navigateTo` finds nothing to announce; and the child rendered for
      the last item is a span marked as the current page. */
  lemma SlotChangeRendersAll(cs: seq<Child>, p: nat)
    requires p < |cs| && cs[p].Item? && |Items(cs[..p])| == |Items(cs)| - 1
    ensures Items(SlotChanged(cs)) == []
    ensures forall i :: NavigateEvents(Items(SlotChanged(cs)), i) == []
    ensures SlotChanged(cs)[p].Rendered? && SlotChanged(cs)[p].li.link.PlainSpan?
    ensures SlotChanged(cs)[p].li.link.ariaCurrent == Some("page")
  {
    NoItemsLeft(SlotChanged(cs));
  }

  // ---- Navigation ----

  /** `navigateTo(index)`: an event only for an in-range item with a target. */
  function NavigateEvents(items: seq<BreadcrumbItem>, index: int): (e: seq<NavigateEvent>)
    ensures e != [] <==> 0 <= index < |items| && items[index].href != ""
    ensures e != [] ==> e == [NavigateEvent(items[index].href, items[index].text)]
  {
    if 0 <= index < |items| && items[index].href != "" then
      [NavigateEvent(items[index].href, items[index].text)]
    else []
  }

  /** The list's click handler, for a click inside `child`; `onLink` says
      whether the click target lies within the child's `.breadcrumb-link`
      element (the target's `closest` lookup). Only a click on a rendered
      link, the one such element with a data href, announces navigation,
      with the target and text it was rendered with. */
  function ClickEvents(child: Child, onLink: bool): (e: seq<NavigateEvent>)
    ensures e != [] <==> onLink && child.Rendered? && child.li.link.Anchor?
    ensures e != [] ==> e == [NavigateEvent(child.li.link.dataHref, child.li.link.dataText)]
  {
    if onLink && child.Rendered? && child.li.link.Anchor? then
      [NavigateEvent(child.li.link.dataHref, child.li.link.dataText)]
    else []
  }

  /** Clicking the link element of a rendered crumb announces the same navigation `navigateTo`
      announces for its item when the crumb is a link, and nothing when it is
      the current page or disabled. */
  lemma ClickMatchesNavigate(item: BreadcrumbItem, isLast: bool)
    ensures RendersAsLink(item, isLast) ==>
      ClickEvents(Rendered(CreateItem(item, isLast)), true) == NavigateEvents([item], 0)
    ensures !RendersAsLink(item, isLast) ==> ClickEvents(Rendered(CreateItem(item, isLast)), true) == []
  {
  }

  // ---- Rendering the slot (see Findings in the README) ----

  /** As written, the template includes the <slot> only when the shadow root
      already holds one. */
  function SlotRenderedAsWritten(slotInShadowRoot: bool): bool {
    slotInShadowRoot
  }

  /** Whether the shadow root holds a slot after `k` renders of a new element. */
  function SlotAfterRendersAsWritten(k: nat): bool {
    if k == 0 then false else SlotRenderedAsWritten(SlotAfterRendersAsWritten(k - 1))
  }

  /** As written, however often the element renders, no slot ever appears:
      the items are never projected and `slotchange` never fires. */
  lemma {:induction false} SlotNeverRenderedAsWritten(k: nat)
    ensures !SlotAfterRendersAsWritten(k)
  {
    if k > 0 {
      SlotNeverRenderedAsWritten(k - 1);
    }
  }

  /** Corrected: the template always includes the slot. */
  function SlotRendered(slotInShadowRoot: bool): bool {
    true
  }

  function SlotAfterRenders(k: nat): bool {
    if k == 0 then false else SlotRendered(SlotAfterRenders(k - 1))
  }

  /** Corrected, the slot is present from the first render on. */
  lemma SlotPresentAfterFirstRender(k: nat)
    requires k > 0
    ensures SlotAfterRenders(k)
  {
  }

  /** The element with its child list and its dispatched events. */
  class SampleBreadcrumb {
    var variant: string
    var size: string
    var separator: string
    /** Whether the shadow root holds the <slot>. */
    var slotRendered: bool
    var children: seq<Child>
    var events: seq<NavigateEvent>

    constructor (children: seq<Child>)
      ensures this.children == children && events == [] && !slotRendered
      ensures variant == "default" && size == "default" && separator == "/"
    {
      variant, size, separator := "default", "default", "/";
      slotRendered := false;
      this.children := children;
      events := [];
    }

    /** `render`, with the slot always included. */
    method Render() returns (nav: RenderedNav)
      modifies this`slotRendered
      ensures slotRendered == SlotRendered(old(slotRendered)) && nav.slot
      ensures NoSpace(variant) && NoSpace(size) ==>
        Tokens(nav.className) == ["breadcrumb", "variant-" + variant, "size-" + size]
    {
      slotRendered := SlotRendered(slotRendered);
      var parts := ["breadcrumb", "variant-" + variant, "size-" + size];
      if NoSpace(variant) && NoSpace(size) {
        NoSpaceConcat("variant-", variant);
        NoSpaceConcat("size-", size);
        CanonicalJoin(parts);
      }
      nav := RenderedNav(JoinSpace(parts), slotRendered);
    }

    /** `addItem`: appends one item child; `href` and `icon` are set only
        when given and non-empty. */
    method AddItem(text: string, href: Option<string>, icon: Option<string>) returns (item: BreadcrumbItem)
      modifies this`children
      ensures children == old(children) + [Item(item)]
      ensures Items(children) == Items(old(children)) + [item]
      ensures item.text == text && !item.disabled && !item.current
      ensures item.href == (if href.Some? then href.value else "")
      ensures item.icon == (if icon.Some? then icon.value else "")
    {
      item := BreadcrumbItem(text, "", false, false, "");
      if href.Some? && href.value != "" {
        item := item.(href := href.value);
      }
      if icon.Some? && icon.value != "" {
        item := item.(icon := icon.value);
      }
      ItemsAppend(children, [Item(item)]);
      children := children + [Item(item)];
    }

    /** `removeItem`: drops the item at `index` when it is in range. */
    method RemoveItem(index: int)
      modifies this`children
      ensures 0 <= index < |Items(old(children))| ==>
        Items(children) == Items(old(children))[..index] + Items(old(children))[index + 1..]
        && Renders(children) == Renders(old(children))
      ensures 0 <= index < |Items(old(children))| ==> children == RemoveNthItem(old(children), index)
      ensures !(0 <= index < |Items(old(children))|) ==> children == old(children)
    {
      if 0 <= index < |Items(children)| {
        RemoveNthItemItems(children, index);
        RemoveNthItemRenders(children, index);
        children := RemoveNthItem(children, index);
      }
    }

    /** `clear`: removes every item child, one after the other. */
    method Clear()
      modifies this`children
      ensures Items(children) == []
      ensures Renders(children) == Renders(old(children))
    {
      ghost var items0, renders0 := Items(children), Renders(children);
      var count := |Items(children)|;
      var k := 0;
      while k < count
        invariant 0 <= k <= count == |items0|
        invariant Items(children) == items0[k..]
        invariant Renders(children) == renders0
      {
        RemoveNthItemItems(children, 0);
        RemoveNthItemRenders(children, 0);
        assert items0[k..][1..] == items0[k + 1..];
        children := RemoveNthItem(children, 0);
        k := k + 1;
      }
    }

    method NavigateTo(index: int)
      modifies this`events
      ensures events == old(events) + NavigateEvents(Items(children), index)
    {
      var items := Items(children);
      if 0 <= index < |items| {
        var item := items[index];
        if item.href != "" {
          events := events + [NavigateEvent(item.href, item.text)];
        }
      }
    }

    /** A click inside the child at position `target`, on its
        `.breadcrumb-link` element or not (`onLink`). Returns whether the
        default action was prevented. */
    method HandleClick(target: nat, onLink: bool) returns (defaultPrevented: bool)
      requires target < |children|
      modifies this`events
      ensures events == old(events) + ClickEvents(children[target], onLink)
      ensures defaultPrevented <==> ClickEvents(children[target], onLink) != []
    {
      defaultPrevented := false;
      var child := children[target];
      if onLink && child.Rendered? && child.li.link.Anchor? {
        defaultPrevented := true;
        events := events + [NavigateEvent(child.li.link.dataHref, child.li.link.dataText)];
      }
    }

    /** `_handleSlotChange`: replaces every item child by its <li>. */
    method HandleSlotChange()
      requires slotRendered
      modifies this`children
      ensures children == SlotChanged(old(children))
      ensures Items(children) == []
    {
      ghost var cs := children;
      var total := |Items(children)|;
      var p := 0;
      var seen := 0;
      while p < |children|
        invariant |children| == |cs| && 0 <= p <= |cs|
        invariant forall q :: 0 <= q < |cs| ==> children[q] == if q < p then SlotChanged(cs)[q] else cs[q]
        invariant seen == |Items(cs[..p])|
      {
        assert cs[..p + 1] == cs[..p] + [cs[p]];
        ItemsAppend(cs[..p], [cs[p]]);
        if children[p].Item? {
          children := children[p := Rendered(CreateItem(children[p].item, seen == total - 1))];
          seen := seen + 1;
        }
        p := p + 1;
      }
      assert children == SlotChanged(cs);
      NoItemsLeft(children);
    }
  }
}
