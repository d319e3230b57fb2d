# sample-ds components in Dafny

This project models the state logic of the six Lit web components in the
sample-ds design system. Each component has its own module:

- `Accordion`: `sample-accordion` and `sample-accordion-item`. The accordion
  holds its slotted items as objects whose `expanded` flag it changes in
  place. `toggleItem`, `expandAll` and `collapseAll` are loops over those
  items, and each event they dispatch goes to an event log. Each pass is
  proved against a specification on item snapshots (`ItemView`). Lemmas then
  prove the rules the component promises about that specification: only one
  item open when several may not be, a disabled item or accordion is inert,
  and the events come in a fixed order. The keyboard focus targets are pure
  index arithmetic with JavaScript's `%`.
- `Modal`: `sample-modal`. Lit's update cycle is explicit. Setting `open`
  records a pending change, and `Update` runs `updated`, which calls
  `_handleOpen` or `_handleClose`. The document's focused element and body
  overflow live in a separate `Document` object.
- `Breadcrumb`: `sample-breadcrumb`. Its light-DOM children are a sequence
  of items still to be rendered and `<li>` elements that have replaced
  items. It covers the link-or-span decision for each item, the class
  strings, `addItem`, `removeItem`, `clear`, `navigateTo`, the click
  handler and the slot-change loop.
- `Alert`: `sample-alert`. Dismissal is a two-phase state machine. The
  300 ms timer is a count of scheduled completions plus an explicit
  `FinishDismissal` step. It also covers the icon table and the render
  decisions.
- `Card` and `Button`: the class, tabindex and role computations, and the
  click and key gates.
- `Dom`: shared helpers for class attributes. A class attribute is written as
  space-joined parts, and `Tokens` splits it back into its non-empty tokens.
  Lemmas relate the two.

The repository's documentation site also implements a JSON-RPC / MCP
dispatcher, in `docs/pages/api/mcp/[transport].js` (the method dispatch from
line 301, the tool table from line 137). It serves documentation about
the components and changes none of their state, so it is not part of this
model.

## Model

| member | source | states |
|---|---|---|
| Accordion.AffectedIndicesExact | src/components/sample-accordion/sample-accordion.ts:142-147 | The positions a pass changes are exactly the in-range positions whose item the pass affects, listed in strictly increasing (document) order. |
| Accordion.SweepEventsMatch | src/components/sample-accordion/sample-accordion.ts:142-147 | A pass emits one event per changed position, in that order, and each event is the changed item's expand or collapse event. |
| Accordion.SweepEventsInOrder | src/components/sample-accordion/sample-accordion.ts:181-186 | Both facts together: exactly the affected items get events, one each, in document order. |
| Accordion.SweepStep | src/components/sample-accordion/sample-accordion.ts:193-197 | One `forEach` visit extends the pass's log by that item's event exactly when the item is affected. |
| Accordion.ToggleInTwoPasses | src/components/sample-accordion/sample-accordion.ts:141-156 | The collapse pass over the others (run only when several items may not be open and the target is closed), then flipping the target with its two events, gives exactly the toggle specification's items and events. |
| Accordion.ToggleBlocked | src/components/sample-accordion/sample-accordion.ts:136 | When the accordion or the target is disabled, toggling changes no item and emits no event. |
| Accordion.ToggleOpensExclusively | src/components/sample-accordion/sample-accordion.ts:141-151 | With one item open at a time, opening a closed item leaves exactly that item expanded. Every other item is closed, disabled ones included, and nothing but `expanded` changes. |
| Accordion.ToggleFlipsOnlyTarget | src/components/sample-accordion/sample-accordion.ts:141-151 | Collapsing an expanded item, or any toggle when several may be open, flips the target only; every other item is unchanged. |
| Accordion.ToggleEventOrder | src/components/sample-accordion/sample-accordion.ts:142-156 | The toggle's events are one collapse for each other item it closed, in document order, then an expand or collapse matching the target's new state, then one toggle. The closed items are exactly the other items that were open and end closed. |
| Accordion.ForeignToggleInTwoPasses | src/components/sample-accordion/sample-accordion.ts:135-157 | For an item that is not among the accordion's items, the close pass that spares no position (run only when several items may not be open and the item is closed), then the item's flip events, give exactly the foreign-toggle specification. |
| Accordion.ForeignToggleClosesAll | src/components/sample-accordion/sample-accordion.ts:141-156 | Opening such an item when only one may be open closes every item, disabled ones included. One collapse event is emitted for exactly the items that were open, in document order, then the item's expand and toggle events. |
| Accordion.ForeignToggleSparesItems | src/components/sample-accordion/sample-accordion.ts:136-156 | Otherwise such a toggle leaves every item alone: it emits nothing when blocked, and otherwise only the foreign item's two flip events. |
| Accordion.ExpandAllExact | src/components/sample-accordion/sample-accordion.ts:178-187 | Unless several items may be open, `expandAll` changes nothing and emits nothing. Otherwise every enabled item ends expanded and disabled items keep their state. One expand event is emitted for exactly the items that were closed and are now open, at strictly increasing positions (document order). |
| Accordion.CollapseAllExact | src/components/sample-accordion/sample-accordion.ts:192-199 | After `collapseAll` no item is expanded, disabled ones included. One collapse event is emitted for exactly the items that were expanded, at strictly increasing positions (document order). |
| Accordion.HeaderKeyPrevented | src/components/sample-accordion/sample-accordion.ts:402-426 | The handler prevents the default action of exactly Enter, Space, ArrowDown, ArrowUp, Home and End. |
| Accordion.HeaderKeyAction | src/components/sample-accordion/sample-accordion.ts:402-426 | Each header key maps to its action, and only that key does: Enter or Space toggles, ArrowDown/ArrowUp move to the next/previous header, Home/End move to the first/last. |
| Accordion.JsRem | src/components/sample-accordion/sample-accordion.ts:430 | JavaScript's `%` agrees with the mathematical remainder on non-negative operands and stays strictly between -n and n. |
| Accordion.At | src/components/sample-accordion/sample-accordion.ts:431 | `items[p]?` yields an element exactly when `p` is a valid index, and then it is element `p`. |
| Accordion.FocusNext | src/components/sample-accordion/sample-accordion.ts:428-432 | From an index in range, focus goes to the next header and wraps from the last to the first. With no headers, nothing is focused. |
| Accordion.FocusPrevious | src/components/sample-accordion/sample-accordion.ts:434-438 | From an index in range, focus goes to the previous header, and from 0 to the last. With no headers, nothing is focused. |
| Accordion.FocusFirst | src/components/sample-accordion/sample-accordion.ts:440-443 | Home focuses header 0 exactly when there is a header. |
| Accordion.FocusLast | src/components/sample-accordion/sample-accordion.ts:445-448 | End focuses the last header exactly when there is one. |
| Accordion.NoSlottedHeaderFindsNone | src/components/sample-accordion/sample-accordion.ts:450-453 | As written, `_getAllItems` queries the light DOM only. When no slotted element carries class `header`, it finds no header at all. |
| Accordion.ArrowKeysInertAsWritten | src/components/sample-accordion/sample-accordion.ts:428-453 | As written, with no slotted `header` element, ArrowDown, ArrowUp, Home and End focus nothing from any index (see Findings). |
| Accordion.TwoItemsHeaders | src/components/sample-accordion/sample-accordion.ts:428-453 | For two plain items, the query as written finds no header and ArrowDown from item 0 focuses nothing. The intended query finds two headers and ArrowDown moves to item 1. |
| Accordion.ArrowKeysMove | src/components/sample-accordion/sample-accordion.ts:428-453 | Corrected: with one header per item, every in-range index moves to its neighbour with wrap-around, and Home and End reach the first and last headers. |
| Accordion.NextPreviousInverse | src/components/sample-accordion/sample-accordion.ts:428-438 | Next then previous, and previous then next, return to the starting index. |
| Accordion.SampleAccordionItem.constructor | src/components/sample-accordion/sample-accordion.ts:316-351 | A new item is collapsed, enabled, at index 0 and outside any accordion. |
| Accordion.SampleAccordionItem.HandleToggle | src/components/sample-accordion/sample-accordion.ts:392-399 | Inside an accordion, the click is `toggleItem` of this item: the toggle specification at the item's position, or the foreign-toggle specification when the item is no longer among that accordion's items; the item's own item-toggle log stays as it was. A standalone item negates `expanded` and emits one item-toggle event with its new state. |
| Accordion.SampleAccordion.constructor | src/components/sample-accordion/sample-accordion.ts:79-86 | A new accordion allows one open item, is enabled and holds no items. |
| Accordion.SampleAccordion.SetupItems | src/components/sample-accordion/sample-accordion.ts:115-121 | After setup, each item's index equals its position and its accordion is this one. |
| Accordion.SampleAccordion.HandleSlotChange | src/components/sample-accordion/sample-accordion.ts:107-113 | On a slot change, the items become the slot's items and are set up anew. |
| Accordion.SampleAccordion.ToggleItem | src/components/sample-accordion/sample-accordion.ts:135-157 | For an item among the accordion's items, the new views and the appended events are the toggle specification of the old views at its position. For any other item, they follow the foreign-toggle specification, and the item flips unless blocked. |
| Accordion.SampleAccordion.ToggleAt | src/components/sample-accordion/sample-accordion.ts:135-157 | The same, for the item known to sit at position `k`, which is its only position. |
| Accordion.SampleAccordion.ToggleForeign | src/components/sample-accordion/sample-accordion.ts:135-157 | `toggleItem` of an item that is not among the items: the items become the foreign-toggle specification of their old views, the item's `expanded` flips unless the accordion or the item is disabled, and the log grows by the foreign-toggle events. |
| Accordion.SampleAccordion.FlipForeign | src/components/sample-accordion/sample-accordion.ts:151-156 | Only the foreign item's `expanded` flips. Every item keeps its view, and the item's expand or collapse event and toggle event are appended. |
| Accordion.SampleAccordion.FlipTarget | src/components/sample-accordion/sample-accordion.ts:151-156 | Only the target's `expanded` flips. Then its expand or collapse event and its toggle event are appended, carrying the new state. |
| Accordion.SampleAccordion.CollapseOthers | src/components/sample-accordion/sample-accordion.ts:141-148 | The items become the close-others pass of their old views, and the log grows by that pass's events. The spared position is the target's, or none when the target is not among the items. |
| Accordion.SampleAccordion.CloseEachOther | src/components/sample-accordion/sample-accordion.ts:142-147 | The `forEach` visits every item and completes the pass from its start. |
| Accordion.SampleAccordion.CollapseIfOther | src/components/sample-accordion/sample-accordion.ts:143-146 | Visiting item `i` closes it, and logs its collapse, exactly when it is open and is not the target. |
| Accordion.SampleAccordion.ExpandAll | src/components/sample-accordion/sample-accordion.ts:178-187 | The items and the log follow the `expandAll` specification, including the early return when several may not be open. |
| Accordion.SampleAccordion.OpenEach | src/components/sample-accordion/sample-accordion.ts:181-186 | The `forEach` of `expandAll` completes the open-all pass. |
| Accordion.SampleAccordion.ExpandIfClosed | src/components/sample-accordion/sample-accordion.ts:182-185 | Visiting item `i` opens it, and logs its expand, exactly when it is closed and enabled. |
| Accordion.SampleAccordion.CollapseAll | src/components/sample-accordion/sample-accordion.ts:192-199 | The items become the close-all pass of their old views, and the log grows by its events. |
| Accordion.SampleAccordion.CloseEach | src/components/sample-accordion/sample-accordion.ts:193-198 | The `forEach` of `collapseAll` completes the close-all pass. |
| Accordion.SampleAccordion.CollapseIfExpanded | src/components/sample-accordion/sample-accordion.ts:194-197 | Visiting item `i` closes it, and logs its collapse, exactly when it is open. |
| Modal.KeydownAction | src/components/sample-modal/sample-modal.ts:485-497 | A closed dialog ignores every key. An open one cancels on Escape exactly when `escapeDismiss` is set, and traps focus on exactly Tab. |
| Modal.TabTrap | src/components/sample-modal/sample-modal.ts:499-517 | Tab on the last focusable moves to the first, and Shift+Tab on the first moves to the last. Focus moves only then; with no focusables it never moves. |
| Modal.TabWrapRoundTrip | src/components/sample-modal/sample-modal.ts:499-517 | Tab from the last focusable, then Shift+Tab, returns to the last. |
| Modal.SampleModal.constructor | src/components/sample-modal/sample-modal.ts:323-389 | The defaults: closed (with the initial property set pending), medium, default variant, close button shown, both dismissals allowed, no saved focus. |
| Modal.SampleModal.SetOpen | src/components/sample-modal/sample-modal.ts:323-324 | Assigning `open` records a pending change exactly when the value differs. |
| Modal.SampleModal.Show | src/components/sample-modal/sample-modal.ts:419-423 | `show` leaves the dialog open; when it was already open, nothing new is pending. |
| Modal.SampleModal.Hide | src/components/sample-modal/sample-modal.ts:428-432 | `hide` leaves the dialog closed; when it was already closed, nothing new is pending. |
| Modal.SampleModal.Toggle | src/components/sample-modal/sample-modal.ts:437-439 | `toggle` negates `open`. |
| Modal.ToggleTwice | src/components/sample-modal/sample-modal.ts:437-439 | Toggling twice restores `open`. |
| Modal.SampleModal.Update | src/components/sample-modal/sample-modal.ts:404-414 | With no pending change, the update changes nothing. When opening, it saves the focused element, locks scrolling and emits an open event. When closing, it unlocks scrolling, refocuses the saved element (if any) and emits a close event. |
| Modal.SampleModal.HandleOpen | src/components/sample-modal/sample-modal.ts:450-463 | Opening saves the focused element, sets body overflow to `hidden` and emits one open event with size and variant. |
| Modal.SampleModal.HandleClose | src/components/sample-modal/sample-modal.ts:465-473 | Closing clears body overflow, refocuses the saved element when there is one, and emits one close event. |
| Modal.SampleModal.Disconnect | src/components/sample-modal/sample-modal.ts:397-402 | Removal from the page unlocks scrolling and refocuses the saved element. |
| Modal.SampleModal.SaveFocus | src/components/sample-modal/sample-modal.ts:543-545 | The saved element is the document's focused element. |
| Modal.SampleModal.RestoreFocus | src/components/sample-modal/sample-modal.ts:547-551 | The saved element, if any, becomes focused; otherwise focus stays. |
| Modal.SampleModal.LockBodyScroll | src/components/sample-modal/sample-modal.ts:553-555 | Body overflow becomes `hidden`. |
| Modal.SampleModal.RestoreBodyScroll | src/components/sample-modal/sample-modal.ts:557-559 | Body overflow becomes empty. |
| Modal.SampleModal.CancelModal | src/components/sample-modal/sample-modal.ts:534-541 | A cancel event with reason `user-action` is emitted, then the dialog hides. |
| Modal.SampleModal.HandleBackdropClick | src/components/sample-modal/sample-modal.ts:475-479 | A click cancels exactly when `backdropDismiss` is set and the overlay itself was clicked; otherwise nothing changes. |
| Modal.SampleModal.HandleCloseClick | src/components/sample-modal/sample-modal.ts:481-483 | The close button hides the dialog. |
| Modal.SampleModal.HandleKeydown | src/components/sample-modal/sample-modal.ts:485-497 | Ignored keys change nothing. Escape cancels and prevents the default. Tab moves focus to the trap's target and prevents the default exactly when there is a target. |
| Modal.SampleModal.HandleTabKey | src/components/sample-modal/sample-modal.ts:499-517 | Focus moves to the trap's target, with the default prevented, exactly when the trap gives one. |
| Modal.SampleModal.HandleSlotChange | src/components/sample-modal/sample-modal.ts:561-570 | The header or footer flag becomes "has assigned elements" for its own slot only; any other slot changes nothing. |
| Modal.OpenCloseScenario | src/components/sample-modal/sample-modal.ts:404-473 | Open then close, each followed by its update, leaves scrolling unlocked and focus where it was, and emits an open event then a close event. |
| Breadcrumb.Content | src/components/sample-breadcrumb/sample-breadcrumb.ts:422-432 | An icon span is present exactly when the icon is non-empty, and it comes first. The text span is always last and holds the item's text. |
| Breadcrumb.CreateItem | src/components/sample-breadcrumb/sample-breadcrumb.ts:403-460 | The `<li>` holds a link exactly when the item has an href, is enabled and is not current. A link carries the href and text as data attributes. Otherwise a span is used: it has `aria-current="page"` exactly when the item is current and carries the span class. Both hold the content spans. |
| Breadcrumb.LinkClassTokens | src/components/sample-breadcrumb/sample-breadcrumb.ts:416 | A link's class tokens are `breadcrumb-link`, plus `has-custom-icon` exactly when there is an icon. |
| Breadcrumb.SpanClassTokens | src/components/sample-breadcrumb/sample-breadcrumb.ts:437 | A span's class tokens are its non-empty parts, in order. |
| Breadcrumb.SpanClassFlags | src/components/sample-breadcrumb/sample-breadcrumb.ts:437 | Those tokens always include `breadcrumb-link`. They include `current`, `disabled` and `has-custom-icon` exactly when the item is current, disabled or has an icon. |
| Breadcrumb.Items | src/components/sample-breadcrumb/sample-breadcrumb.ts:488-490 | `getItems` lists the unrendered item children in document order; there are never more of them than children. |
| Breadcrumb.ItemsMembers | src/components/sample-breadcrumb/sample-breadcrumb.ts:488-490 | `getItems` lists every item child, and nothing that is not one. |
| Breadcrumb.ItemsAppend | src/components/sample-breadcrumb/sample-breadcrumb.ts:501 | Appending children appends their items and their rendered `<li>`s. |
| Breadcrumb.RemoveNthItem | src/components/sample-breadcrumb/sample-breadcrumb.ts:511 | Removing item `index` removes exactly one child. |
| Breadcrumb.RemoveNthItemItems | src/components/sample-breadcrumb/sample-breadcrumb.ts:508-513 | After removing item `index`, the items are the old items without that one, the rest in order. |
| Breadcrumb.RemoveNthItemRenders | src/components/sample-breadcrumb/sample-breadcrumb.ts:508-513 | Removing an item leaves every rendered `<li>` in place. |
| Breadcrumb.SlotChanged | src/components/sample-breadcrumb/sample-breadcrumb.ts:388-401 | The slot-change replacement keeps the number of children. |
| Breadcrumb.NoItemsLeft | src/components/sample-breadcrumb/sample-breadcrumb.ts:388-401 | When every child is a rendered `<li>`, no items remain. |
| Breadcrumb.SlotChangeRendersAll | src/components/sample-breadcrumb/sample-breadcrumb.ts:388-401 | After a slot change, no items remain, so `navigateTo` emits nothing. The last item is a current span with `aria-current="page"`. |
| Breadcrumb.NavigateEvents | src/components/sample-breadcrumb/sample-breadcrumb.ts:526-543 | A navigate event is emitted exactly when the index is in range and that item's href is non-empty. It carries that item's href and text. |
| Breadcrumb.ClickEvents | src/components/sample-breadcrumb/sample-breadcrumb.ts:462-483 | A click emits a navigate event exactly when its target lies within a `.breadcrumb-link` element and that element is a rendered link (the only such element with a data href). The event carries the link's data href and text. |
| Breadcrumb.ClickMatchesNavigate | src/components/sample-breadcrumb/sample-breadcrumb.ts:414-420 | Clicking an item's rendered link emits the event `navigateTo` would for that item, and a span emits nothing. |
| Breadcrumb.SlotNeverRenderedAsWritten | src/components/sample-breadcrumb/sample-breadcrumb.ts:381-386 | As written, no number of renders ever puts the slot into the shadow root (see Findings). |
| Breadcrumb.SlotPresentAfterFirstRender | src/components/sample-breadcrumb/sample-breadcrumb.ts:381-386 | Corrected, the slot is present from the first render on. |
| Breadcrumb.SampleBreadcrumb.constructor | src/components/sample-breadcrumb/sample-breadcrumb.ts:330-355 | The defaults: default variant and size, separator `/`, no events, no slot yet. |
| Breadcrumb.SampleBreadcrumb.Render | src/components/sample-breadcrumb/sample-breadcrumb.ts:357-386 | The nav's class tokens are `breadcrumb`, the variant and the size. The corrected template always includes the slot. |
| Breadcrumb.SampleBreadcrumb.AddItem | src/components/sample-breadcrumb/sample-breadcrumb.ts:495-503 | Exactly one item is appended at the end. It has the given text, and its href and icon are set only when supplied. |
| Breadcrumb.SampleBreadcrumb.RemoveItem | src/components/sample-breadcrumb/sample-breadcrumb.ts:508-513 | An in-range index removes exactly that item child and no other child. The other items keep their order, and every rendered `<li>` stays. An out-of-range index changes nothing. |
| Breadcrumb.SampleBreadcrumb.Clear | src/components/sample-breadcrumb/sample-breadcrumb.ts:518-521 | Afterwards no items remain, and the rendered `<li>`s are untouched. |
| Breadcrumb.SampleBreadcrumb.NavigateTo | src/components/sample-breadcrumb/sample-breadcrumb.ts:526-543 | The log grows by exactly the navigate events that the index and the current items call for. |
| Breadcrumb.SampleBreadcrumb.HandleClick | src/components/sample-breadcrumb/sample-breadcrumb.ts:462-483 | The log grows by the click's events, given whether the target lies within the child's `.breadcrumb-link`. The default is prevented exactly when an event is emitted. |
| Breadcrumb.SampleBreadcrumb.HandleSlotChange | src/components/sample-breadcrumb/sample-breadcrumb.ts:388-401 | Each item child is replaced in place by its `<li>`. Only the last item is built as last, and no items remain. |
| Alert.DefaultIcon | src/components/sample-alert/sample-alert.ts:353-368 | success ✓, warning ⚠, error ✕, info ℹ, neutral ◐; any other variant ℹ; always one character. |
| Alert.IconToShow | src/components/sample-alert/sample-alert.ts:310 | A non-empty custom icon wins; otherwise the variant's default icon when `showIcon` is set; none exactly when there is no custom icon and `showIcon` is off. |
| Alert.AriaLive | src/components/sample-alert/sample-alert.ts:317 | `assertive` exactly when the role is `alert`, otherwise `polite`. |
| Alert.Render | src/components/sample-alert/sample-alert.ts:299-350 | A dismissed alert renders nothing. Otherwise its class is `alert variant-V size-S`, which splits into exactly those three tokens when the variant and size hold no space. It renders the role and its aria-live, the icon exactly when one is shown, the title, with its text as given, exactly when non-empty, and the dismiss button exactly when dismissible. |
| Alert.ClassTokens | src/components/sample-alert/sample-alert.ts:304-308 | The class attribute reads `alert variant-V size-S` and, when the variant and size hold no space, has exactly those three tokens in order. |
| Alert.TwoPhaseDismissal | src/components/sample-alert/sample-alert.ts:389-409 | Starting dismissal leaves the alert hiding and not yet dismissed. Once the timer runs, it is dismissed and no longer hiding. |
| Alert.ToggleRoundTrip | src/components/sample-alert/sample-alert.ts:443-449 | From a shown alert, toggle, let the timer run, then toggle again: the original state comes back. |
| Alert.ShowDuringHidingIsOverridden | src/components/sample-alert/sample-alert.ts:405-408 | `show` during the hiding phase un-dismisses at once, but the timer already scheduled dismisses the alert again. |
| Alert.SampleAlert.constructor | src/components/sample-alert/sample-alert.ts:254-297 | The defaults: info, default size, no title, not dismissible, no custom icon, icon shown, role `alert`, not dismissed. |
| Alert.SampleAlert.Dismiss | src/components/sample-alert/sample-alert.ts:389-409 | `_dismiss` adds `hiding`, schedules one completion and emits one dismiss event with variant and title. |
| Alert.SampleAlert.FinishDismissal | src/components/sample-alert/sample-alert.ts:405-408 | The timer's callback sets `dismissed` and removes `hiding`. |
| Alert.SampleAlert.HandleDismissKeydown | src/components/sample-alert/sample-alert.ts:374-379 | Only Enter or Space dismisses and prevents the default; other keys change nothing. |
| Alert.SampleAlert.Show | src/components/sample-alert/sample-alert.ts:428-431 | `show` clears `dismissed` and `hiding`. |
| Alert.SampleAlert.Hide | src/components/sample-alert/sample-alert.ts:436-438 | `hide` starts dismissal, with its event. |
| Alert.SampleAlert.Toggle | src/components/sample-alert/sample-alert.ts:443-449 | A dismissed alert is shown. Any other starts dismissal and emits the dismiss event. |
| Card.TabIndex | src/components/sample-card/sample-card.ts:156 | `0` exactly when clickable and enabled, otherwise `-1`. |
| Card.Role | src/components/sample-card/sample-card.ts:157 | `button` exactly when clickable, even when disabled; otherwise `article`. |
| Card.ClickEvents | src/components/sample-card/sample-card.ts:177-191 | A click emits at most one event, exactly when the card is clickable and enabled, carrying its variant and size. |
| Card.KeydownEvents | src/components/sample-card/sample-card.ts:193-202 | A key emits the click event exactly when the card is active and the key is Enter or Space. |
| Card.ClassPartsKept | src/components/sample-card/sample-card.ts:145-150 | Filtering drops only the empty `clickable` slot of an inactive card. |
| Card.ClassTokens | src/components/sample-card/sample-card.ts:145-150 | The class tokens are `card`, the variant, the size, and `clickable` exactly when active, with no empty token. Joining them back gives the attribute. |
| Card.KeydownIsClick | src/components/sample-card/sample-card.ts:193-202 | Enter or Space emits the very events a click would; any other key emits nothing. |
| Card.SampleCard.constructor | src/components/sample-card/sample-card.ts:123-142 | The defaults: default variant and size, not clickable, enabled, no slot content marked. |
| Card.SampleCard.Render | src/components/sample-card/sample-card.ts:144-158 | When the variant and size hold no space, the class tokens are `card`, the variant, the size, and `clickable` exactly when the card is clickable and enabled. The tabindex is `0` exactly when clickable and enabled, `-1` otherwise. The role is `button` exactly when clickable, even while disabled, and `article` otherwise. `aria-disabled` mirrors `disabled`. |
| Card.SampleCard.HandleClick | src/components/sample-card/sample-card.ts:177-191 | The log grows by the click's events. |
| Card.SampleCard.HandleKeydown | src/components/sample-card/sample-card.ts:193-202 | The log grows by the key's events, and the default is prevented exactly when the card is active and the key is Enter or Space. |
| Card.SampleCard.UpdateSlotVisibility | src/components/sample-card/sample-card.ts:215-238 | The header and footer `has-content` attributes are present exactly when their slots hold at least one node. |
| Button.Render | src/components/sample-button/sample-button.ts:90-106 | The inner button carries the type and the disabled flag. Its class is `button variant-V size-S`, which splits into exactly those three tokens when the variant and size hold no space. |
| Button.HandleClick | src/components/sample-button/sample-button.ts:110-123 | A disabled button prevents the default, stops propagation and emits nothing. An enabled one does neither and emits exactly one `sample-click` with variant and size. |
| Button.ClassLiteral | src/components/sample-button/sample-button.ts:91-95 | The class attribute is exactly `button variant-V size-S`. |
| Button.ClassTokens | src/components/sample-button/sample-button.ts:91-95 | Its tokens are `button`, the variant and the size. |
| Button.DefaultBehaviour | src/components/sample-button/sample-button.ts:69-88 | A default button is primary, medium, enabled and of type `button`: its class tokens, type and click event follow. |

## Left out

- Styling: CSS in `static styles`, and the template markup beyond the class and attribute decisions above.
- DOM and event plumbing:
  - `dispatchEvent` is an appended event log.
  - `querySelectorAll` and the slot queries are given sequences or counts.
  - `Date.now()` timestamps, the element references in event details and `part` attributes are dropped.
- The modal's 100 ms timer that focuses the dialog after opening, and `focus()` itself, are dropped. So is the accordion item's `focus()`: the focus functions compute which header would be focused.
- Accordion focus functions: they take the header count as a parameter. `HeadersFoundAsWritten` models the light-DOM query that `_getAllItems` runs, and `HeadersFound` models the count it was meant to find (see Findings). Which element receives `focus()` is not modelled.
- Accordion.SampleAccordion.ToggleItem: an item's `accordion` reference is never cleared, so `_handleToggle` can call `toggleItem` on an item that has left the slot. That case is modelled as the foreign toggle. The accordion's own items are required to be distinct, as a slot's assigned elements are. `toggleItem`, `expandAll` and `collapseAll` read the slot afresh each time (`_getAccordionItems`), while the model uses `items` as stored at the last slot change; the two differ between a change of the slot's assigned elements and the `slotchange` event that follows it, and that window is not modelled.
- The accordion's `render` class string, and the accordion's `variant`/`size` in event details, are not modelled; the alert, card, button and breadcrumb class strings are.
- Breadcrumb.SampleBreadcrumb.RemoveItem: the index is an integer. The source takes any JavaScript number, and a fractional in-range index such as 0.5 passes the range test and then throws a TypeError at `items[index].remove()`. That throw is not modelled.
- Breadcrumb.SampleBreadcrumb.NavigateTo: the index is an integer. A fractional in-range index passes the range test and then throws a TypeError when it reads `item.href` from `undefined`. That throw is not modelled.
- Breadcrumb.NavigateEvents: takes an integer index, so it does not model the TypeError a fractional in-range index raises either.
- Class tokens: `Tokens` splits at the space character only. A browser's `classList` also splits at tabs and line breaks and drops repeated tokens. The two agree on the class attributes modelled here whenever the variant and size hold no whitespace.
- The alert's `_handleActionClick` and `sample-alert-action` event, which forward a click on a `[data-action]` descendant: they depend on DOM ancestry and change no state.
- The modal's `_getFocusableElements` selector list is not modelled. The focusable elements are given in document order.
- The breadcrumb's separator CSS property, `showIcons` and `maxItems`: none affects the logic modelled here.
- Lit's update scheduling is only modelled for the modal's `open`, where `updated` reacts. A fresh modal has a pending change because Lit records the initial property set, so its first update runs `_handleClose`.
- The JSON-RPC / MCP dispatcher is not part of this model.

## Findings

| source | as written | input that shows it | evidently intended | confidence | as-written member | corrected member |
|---|---|---|---|---|---|---|
| src/components/sample-breadcrumb/sample-breadcrumb.ts:381-386 | `_renderItems` includes the `<slot>` only when the shadow root already holds one. | A newly created breadcrumb: its first render finds no slot, so none is rendered, and every later render repeats this. The items are never projected, and `slotchange`, which drives the item rendering, never fires. | The template always includes the slot, so the first render projects the items and slot changes render them. | high, not executed | Breadcrumb.SlotNeverRenderedAsWritten | Breadcrumb.SlotPresentAfterFirstRender |
| src/components/sample-accordion/sample-accordion.ts:450-453 | `_getAllItems` runs `querySelectorAll('sample-accordion-item .header')` on the accordion element. That query searches the light DOM only, while each `.header` button lives in its item's shadow root (line 362). | An accordion with two items holding ordinary content: the query finds no element, so ArrowDown, ArrowUp, Home and End focus nothing (`(index + 1) % 0` is NaN). | The list holds one header per item, so the keys move between the items' headers. | high, not executed | Accordion.ArrowKeysInertAsWritten | Accordion.ArrowKeysMove |
