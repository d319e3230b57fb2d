/** sample-card: a content container that may act as a button. Its class,
    tab order and role follow the `clickable` and `disabled` flags; clicks and
    Enter/Space are re-emitted as `sample-card-click`; the header and footer
    carry a `has-content` attribute while their slots hold anything. */
module Card {
  import opened Dom

  /** The detail of a `sample-card-click` event (timestamp left out). */
  datatype CardClick = CardClick(variant: string, size: string)

  /** What the card's root element is rendered with. */
  datatype RenderedCard = RenderedCard(className: string, tabIndex: string, role: string, ariaDisabled: bool)

  /** A card responds to activation only when it is clickable and enabled. */
  predicate Active(clickable: bool, disabled: bool) {
    clickable && !disabled
  }

  /** The keys that activate a focused card. */
  predicate ActivationKey(key: string) {
    key == "Enter" || key == " "
  }

  /** The class parts before filtering: the last is empty unless the card is active. */
  function ClassParts(variant: string, size: string, clickable: bool, disabled: bool): seq<string> {
    ["card", "variant-" + variant, "size-" + size, if Active(clickable, disabled) then "clickable" else ""]
  }

  /** The class attribute: the parts with the empty one filtered out. */
  function ClassAttr(variant: string, size: string, clickable: bool, disabled: bool): string {
    JoinSpace(NonEmpty(ClassParts(variant, size, clickable, disabled)))
  }

  function TabIndex(clickable: bool, disabled: bool): (t: string)
    ensures t == "0" <==> Active(clickable, disabled)
    ensures t == "-1" <==> !Active(clickable, disabled)
  {
    if Active(clickable, disabled) then "0" else "-1"
  }

  /** A clickable card is announced as a button even while disabled. */
  function Role(clickable: bool): (r: string)
    ensures r == "button" <==> clickable
    ensures r == "article" <==> !clickable
  {
    if clickable then "button" else "article"
  }

  /** The events a click emits. */
  function ClickEvents(variant: string, size: string, clickable: bool, disabled: bool): (e: seq<CardClick>)
    ensures e != [] <==> Active(clickable, disabled)
    ensures forall c :: c in e ==> c == CardClick(variant, size)
    ensures |e| <= 1
  {
    if !Active(clickable, disabled) then [] else [CardClick(variant, size)]
  }

  /** The events a key press emits. */
  function KeydownEvents(key: string, variant: string, size: string, clickable: bool, disabled: bool): (e: seq<CardClick>)
    ensures e != [] <==> Active(clickable, disabled) && ActivationKey(key)
    ensures forall c :: c in e ==> c == CardClick(variant, size)
  {
    if !Active(clickable, disabled) then []
    else if ActivationKey(key) then ClickEvents(variant, size, clickable, disabled)
    else []
  }

  /** Filtering drops exactly the trailing empty part of an inactive card. */
  lemma ClassPartsKept(variant: string, size: string, clickable: bool, disabled: bool)
    ensures NonEmpty(ClassParts(variant, size, clickable, disabled))
            == ["card", "variant-" + variant, "size-" + size]
               + (if Active(clickable, disabled) then ["clickable"] else [])
  {
    var parts := ClassParts(variant, size, clickable, disabled);
    assert parts[1..][1..][1..] == parts[3..];
    assert parts[3..][1..] == [];
    assert NonEmpty(parts[3..]) == (if Active(clickable, disabled) then ["clickable"] else []);
    assert NonEmpty(parts[1..][1..]) == ["size-" + size] + NonEmpty(parts[3..]);
    assert NonEmpty(parts[1..]) == ["variant-" + variant] + NonEmpty(parts[1..][1..]);
  }

  /** The class attribute lists "card", the variant and the size, and
      "clickable" exactly when the card is active; it has no empty token. */
  lemma ClassTokens(variant: string, size: string, clickable: bool, disabled: bool)
    requires NoSpace(variant) && NoSpace(size)
    ensures Tokens(ClassAttr(variant, size, clickable, disabled))
            == ["card", "variant-" + variant, "size-" + size]
               + (if Active(clickable, disabled) then ["clickable"] else [])
    ensures JoinSpace(Tokens(ClassAttr(variant, size, clickable, disabled)))
            == ClassAttr(variant, size, clickable, disabled)
  {
    NoSpaceConcat("variant-", variant);
    NoSpaceConcat("size-", size);
    ClassPartsKept(variant, size, clickable, disabled);
    CanonicalJoin(["card", "variant-" + variant, "size-" + size]
                  + (if Active(clickable, disabled) then ["clickable"] else []));
  }

  /** Enter or Space on a card emits the very event a click emits; any other
      key emits nothing. */
  lemma KeydownIsClick(key: string, variant: string, size: string, clickable: bool, disabled: bool)
    ensures ActivationKey(key) ==>
      KeydownEvents(key, variant, size, clickable, disabled) == ClickEvents(variant, size, clickable, disabled)
    ensures !ActivationKey(key) ==> KeydownEvents(key, variant, size, clickable, disabled) == []
  {
  }

  /** The element, with the state the handlers and the slot watcher change. */
  class SampleCard {
    var variant: string
    var size: string
    var clickable: bool
    var disabled: bool
    /** Whether `.card-header` / `.card-footer` carry the has-content attribute. */
    var headerHasContent: bool
    var footerHasContent: bool
    /** The `sample-card-click` events dispatched so far. */
    var events: seq<CardClick>

    constructor ()
      ensures variant == "default" && size == "default" && !clickable && !disabled
      ensures !headerHasContent && !footerHasContent && events == []
    {
      variant, size := "default", "default";
      clickable, disabled := false, false;
      headerHasContent, footerHasContent := false, false;
      events := [];
    }

    /** The root element: its class lists "card", the variant, the size and
        "clickable" exactly when the card is active; only an active card is
        in the tab order; a clickable card is a button, even while disabled. */
    function Render(): (r: RenderedCard)
      reads this
      ensures NoSpace(variant) && NoSpace(size) ==>
        Tokens(r.className)
        == ["card", "variant-" + variant, "size-" + size] + (if clickable && !disabled then ["clickable"] else [])
      ensures r.tabIndex == "0" <==> clickable && !disabled
      ensures r.tabIndex == "-1" <==> !(clickable && !disabled)
      ensures r.role == "button" <==> clickable
      ensures r.role == "article" <==> !clickable
      ensures r.ariaDisabled == disabled
    {
      var r := RenderedCard(ClassAttr(variant, size, clickable, disabled), TabIndex(clickable, disabled),
                            Role(clickable), disabled);
      if NoSpace(variant) && NoSpace(size) then ClassTokens(variant, size, clickable, disabled); r else r
    }

    method HandleClick()
      modifies this`events
      ensures events == old(events) + ClickEvents(variant, size, clickable, disabled)
    {
      if !clickable || disabled {
        return;
      }
      events := events + [CardClick(variant, size)];
    }

    /** Returns whether the key's default action was prevented. */
    method HandleKeydown(key: string) returns (defaultPrevented: bool)
      modifies this`events
      ensures events == old(events) + KeydownEvents(key, variant, size, clickable, disabled)
      ensures defaultPrevented <==> Active(clickable, disabled) && ActivationKey(key)
    {
      defaultPrevented := false;
      if !clickable || disabled {
        return;
      }
      if key == "Enter" || key == " " {
        defaultPrevented := true;
        HandleClick();
      }
    }

    /** Re-reads how many nodes each named slot holds and sets or removes the
        has-content attribute to match. */
    method UpdateSlotVisibility(headerNodes: nat, footerNodes: nat)
      modifies this`headerHasContent, this`footerHasContent
      ensures headerHasContent <==> headerNodes > 0
      ensures footerHasContent <==> footerNodes > 0
    {
      if headerNodes > 0 {
        headerHasContent := true;
      } else {
        headerHasContent := false;
      }
      if footerNodes > 0 {
        footerHasContent := true;
      } else {
        footerHasContent := false;
      }
    }
  }
}
