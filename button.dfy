/** sample-button: a styled native button that re-emits an enabled click as
    a `sample-click` event carrying its variant and size. */
module Button {
  import opened Dom

  /** The element's public properties. */
  datatype SampleButton = SampleButton(variant: string, size: string, disabled: bool, buttonType: string)

  /** The detail of a `sample-click` event. */
  datatype SampleClick = SampleClick(variant: string, size: string)

  /** What the inner <button> element is rendered with. */
  datatype RenderedButton = RenderedButton(className: string, buttonType: string, disabled: bool)

  /** What handling one click does to the event and which events it emits. */
  datatype ClickOutcome = ClickOutcome(defaultPrevented: bool, propagationStopped: bool, emitted: seq<SampleClick>)

  /** A freshly created element: primary, medium, enabled, type "button". */
  function Default(): SampleButton {
    SampleButton("primary", "medium", false, "button")
  }

  /** The class attribute: "button", then the variant and size modifiers. */
  function ClassAttr(b: SampleButton): string {
    JoinSpace(["button", "variant-" + b.variant, "size-" + b.size])
  }

  /** The inner <button> carries the element's type and disabled flag and the
      class "button variant-V size-S", which splits back into exactly those
      three tokens when the variant and size hold no space. */
  function Render(b: SampleButton): (r: RenderedButton)
    ensures r.buttonType == b.buttonType && r.disabled == b.disabled
    ensures r.className == "button variant-" + b.variant + " size-" + b.size
    ensures NoSpace(b.variant) && NoSpace(b.size) ==>
      Tokens(r.className) == ["button", "variant-" + b.variant, "size-" + b.size]
  {
    var r := RenderedButton(ClassAttr(b), b.buttonType, b.disabled);
    ClassLiteral(b);
    if NoSpace(b.variant) && NoSpace(b.size) then ClassTokens(b); r else r
  }

  /** The click handler: a disabled button swallows the click; an enabled one
      emits exactly one `sample-click`. */
  function HandleClick(b: SampleButton): (o: ClickOutcome)
    ensures b.disabled ==> o.defaultPrevented && o.propagationStopped && o.emitted == []
    ensures !b.disabled ==> !o.defaultPrevented && !o.propagationStopped
    ensures !b.disabled ==> o.emitted == [SampleClick(b.variant, b.size)]
  {
    if b.disabled then ClickOutcome(true, true, [])
    else ClickOutcome(false, false, [SampleClick(b.variant, b.size)])
  }

  /** The class attribute is "button variant-V size-S", single-spaced. */
  lemma ClassLiteral(b: SampleButton)
    ensures ClassAttr(b) == "button variant-" + b.variant + " size-" + b.size
  {
    JoinThree("button", "variant-" + b.variant, "size-" + b.size);
  }

  /** The class attribute holds exactly the three tokens "button",
      "variant-V" and "size-S", in that order. */
  lemma ClassTokens(b: SampleButton)
    requires NoSpace(b.variant) && NoSpace(b.size)
    ensures Tokens(ClassAttr(b)) == ["button", "variant-" + b.variant, "size-" + b.size]
  {
    NoSpaceConcat("variant-", b.variant);
    NoSpaceConcat("size-", b.size);
    CanonicalJoin(["button", "variant-" + b.variant, "size-" + b.size]);
  }

  /** The defaults render as "button variant-primary size-medium" of type
      "button", and a click on a default button emits one primary/medium event. */
  lemma DefaultBehaviour()
    ensures Tokens(Render(Default()).className) == ["button", "variant-primary", "size-medium"]
    ensures Render(Default()).buttonType == "button" && !Render(Default()).disabled
    ensures HandleClick(Default()).emitted == [SampleClick("primary", "medium")]
  {
    ClassTokens(Default());
    assert "variant-" + "primary" == "variant-primary";
    assert "size-" + "medium" == "size-medium";
  }
}
