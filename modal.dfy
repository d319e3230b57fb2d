/** sample-modal: a dialog with an overlay. Opening saves the focused element
    and locks page scrolling; closing unlocks it and refocuses the saved
    element. Escape and a click on the overlay cancel the dialog when allowed,
    and Tab / Shift+Tab wrap around the dialog's focusable elements. */
module Modal {
  import opened Dom

  /** Elements of the page, by identity. */
  type Element = nat

  /** The events the dialog dispatches (size and variant in each detail). */
  datatype ModalEvent =
    | Opened(size: string, variant: string)
    | Closed(size: string, variant: string)
    | Cancelled(size: string, variant: string, reason: string)

  /** What a key press asks of an open or closed dialog. */
  datatype KeyAction = Ignore | Cancel | TrapTab

  /** The document-wide state the dialog touches. */
  class Document {
    var activeElement: Option<Element>
    /** `document.body.style.overflow`. */
    var bodyOverflow: string

    constructor (active: Option<Element>)
      ensures activeElement == active && bodyOverflow == ""
    {
      activeElement := active;
      bodyOverflow := "";
    }
  }

  /** How the document-level keydown listener reads a key. */
  function KeydownAction(open: bool, escapeDismiss: bool, key: string): (a: KeyAction)
    ensures !open ==> a == Ignore
    ensures a == Cancel <==> open && key == "Escape" && escapeDismiss
    ensures a == TrapTab <==> open && key == "Tab"
  {
    if !open then Ignore
    else if key == "Escape" && escapeDismiss then Cancel
    else if key == "Tab" then TrapTab
    else Ignore
  }

  /** The focus trap: where Tab (or Shift+Tab) must move focus instead of the
      browser, or None when the browser's own focus move is left alone. */
  function TabTrap(focusables: seq<Element>, active: Option<Element>, shift: bool): (target: Option<Element>)
    ensures focusables == [] ==> target == None
    ensures target.Some? ==> active.Some? && |focusables| > 0
    ensures target.Some? && !shift ==>
      active.value == focusables[|focusables| - 1] && target.value == focusables[0]
    ensures target.Some? && shift ==>
      active.value == focusables[0] && target.value == focusables[|focusables| - 1]
    ensures |focusables| > 0 && active == Some(focusables[|focusables| - 1]) && !shift ==> target.Some?
    ensures |focusables| > 0 && active == Some(focusables[0]) && shift ==> target.Some?
  {
    if |focusables| == 0 then None
    else
      var first, last := focusables[0], focusables[|focusables| - 1];
      if shift then (if active == Some(first) then Some(last) else None)
      else (if active == Some(last) then Some(first) else None)
  }

  /** Tab off the end wraps to the start, and Shift+Tab from there wraps back. */
  lemma TabWrapRoundTrip(focusables: seq<Element>)
    requires |focusables| > 0
    ensures var f := TabTrap(focusables, Some(focusables[|focusables| - 1]), false);
            f == Some(focusables[0])
            && TabTrap(focusables, f, true) == Some(focusables[|focusables| - 1])
  {
  }

  /** The element. Lit applies a property change in a later update cycle:
      `openChanged` records that `open` changed since the last one, and
      `Update` runs the `updated` hook. */
  class SampleModal {
    var open: bool
    var size: string
    var variant: string
    var showClose: bool
    var backdropDismiss: bool
    var escapeDismiss: bool
    var hasHeaderContent: bool
    var hasFooterContent: bool
    var previousActiveElement: Option<Element>
    var openChanged: bool
    var events: seq<ModalEvent>
    const doc: Document

    /** A new element; Lit's first update sees `open` as changed. */
    constructor (doc: Document)
      ensures this.doc == doc
      ensures !open && openChanged && events == [] && previousActiveElement == None
      ensures size == "medium" && variant == "default"
      ensures showClose && backdropDismiss && escapeDismiss
      ensures !hasHeaderContent && !hasFooterContent
    {
      this.doc := doc;
      open, openChanged := false, true;
      size, variant := "medium", "default";
      showClose, backdropDismiss, escapeDismiss := true, true, true;
      hasHeaderContent, hasFooterContent := false, false;
      previousActiveElement := None;
      events := [];
    }

    /** Assigning the reactive `open` property. */
    method SetOpen(value: bool)
      modifies this`open, this`openChanged
      ensures open == value
      ensures openChanged == (old(openChanged) || value != old(open))
    {
      if value != open {
        open := value;
        openChanged := true;
      }
    }

    method Show()
      modifies this`open, this`openChanged
      ensures open
      ensures openChanged == (old(openChanged) || !old(open))
    {
      if !open {
        SetOpen(true);
      }
    }

    method Hide()
      modifies this`open, this`openChanged
      ensures !open
      ensures openChanged == (old(openChanged) || old(open))
    {
      if open {
        SetOpen(false);
      }
    }

    method Toggle()
      modifies this`open, this`openChanged
      ensures open == !old(open) && openChanged
    {
      SetOpen(!open);
    }

    /** The `updated` hook of one update cycle. */
    method Update()
      modifies this`openChanged, this`previousActiveElement, this`events, doc
      ensures !openChanged
      ensures !old(openChanged) ==>
        events == old(events) && previousActiveElement == old(previousActiveElement)
        && doc.activeElement == old(doc.activeElement) && doc.bodyOverflow == old(doc.bodyOverflow)
      ensures old(openChanged) && open ==>
        previousActiveElement == old(doc.activeElement) && doc.bodyOverflow == "hidden"
        && doc.activeElement == old(doc.activeElement)
        && events == old(events) + [Opened(size, variant)]
      ensures old(openChanged) && !open ==>
        previousActiveElement == old(previousActiveElement) && doc.bodyOverflow == ""
        && doc.activeElement == (if previousActiveElement.Some? then previousActiveElement else old(doc.activeElement))
        && events == old(events) + [Closed(size, variant)]
    {
      if openChanged {
        if open {
          HandleOpen();
        } else {
          HandleClose();
        }
        openChanged := false;
      }
    }

    method HandleOpen()
      modifies this`previousActiveElement, this`events, doc`bodyOverflow
      ensures previousActiveElement == doc.activeElement && doc.bodyOverflow == "hidden"
      ensures events == old(events) + [Opened(size, variant)]
    {
      SaveFocus();
      LockBodyScroll();
      events := events + [Opened(size, variant)];
    }

    method HandleClose()
      modifies this`events, doc
      ensures doc.bodyOverflow == ""
      ensures doc.activeElement == (if previousActiveElement.Some? then previousActiveElement else old(doc.activeElement))
      ensures events == old(events) + [Closed(size, variant)]
    {
      RestoreBodyScroll();
      RestoreFocus();
      events := events + [Closed(size, variant)];
    }

    /** Removal from the page also unlocks scrolling and gives focus back. */
    method Disconnect()
      modifies doc
      ensures doc.bodyOverflow == ""
      ensures doc.activeElement == (if previousActiveElement.Some? then previousActiveElement else old(doc.activeElement))
    {
      RestoreBodyScroll();
      RestoreFocus();
    }

    method SaveFocus()
      modifies this`previousActiveElement
      ensures previousActiveElement == doc.activeElement
    {
      previousActiveElement := doc.activeElement;
    }

    method RestoreFocus()
      modifies doc`activeElement
      ensures doc.activeElement == (if previousActiveElement.Some? then previousActiveElement else old(doc.activeElement))
    {
      if previousActiveElement.Some? {
        doc.activeElement := previousActiveElement;
      }
    }

    method LockBodyScroll()
      modifies doc`bodyOverflow
      ensures doc.bodyOverflow == "hidden"
    {
      doc.bodyOverflow := "hidden";
    }

    method RestoreBodyScroll()
      modifies doc`bodyOverflow
      ensures doc.bodyOverflow == ""
    {
      doc.bodyOverflow := "";
    }

    /** Emits the cancel event, then closes. */
    method CancelModal()
      modifies this`events, this`open, this`openChanged
      ensures events == old(events) + [Cancelled(size, variant, "user-action")]
      ensures !open && openChanged == (old(openChanged) || old(open))
    {
      events := events + [Cancelled(size, variant, "user-action")];
      Hide();
    }

    /** A click on the overlay; `onOverlay` says whether the click's target is
        the overlay itself rather than something inside it. */
    method HandleBackdropClick(onOverlay: bool)
      modifies this`events, this`open, this`openChanged
      ensures backdropDismiss && onOverlay ==>
        events == old(events) + [Cancelled(size, variant, "user-action")]
        && !open && openChanged == (old(openChanged) || old(open))
      ensures !(backdropDismiss && onOverlay) ==>
        events == old(events) && open == old(open) && openChanged == old(openChanged)
    {
      if backdropDismiss && onOverlay {
        CancelModal();
      }
    }

    /** The close button. */
    method HandleCloseClick()
      modifies this`open, this`openChanged
      ensures !open && openChanged == (old(openChanged) || old(open))
    {
      Hide();
    }

    /** The document-level keydown listener; `focusables` are the dialog's
        focusable elements in document order. Returns whether the key's default
        action was prevented. */
    method HandleKeydown(key: string, shiftKey: bool, focusables: seq<Element>) returns (defaultPrevented: bool)
      modifies this`events, this`open, this`openChanged, doc`activeElement
      ensures var action := KeydownAction(old(open), escapeDismiss, key);
        && (action == Ignore ==>
              events == old(events) && open == old(open) && openChanged == old(openChanged)
              && doc.activeElement == old(doc.activeElement) && !defaultPrevented)
        && (action == Cancel ==>
              events == old(events) + [Cancelled(size, variant, "user-action")]
              && !open && openChanged == (old(openChanged) || old(open))
              && doc.activeElement == old(doc.activeElement) && defaultPrevented)
        && (action == TrapTab ==>
              var target := TabTrap(focusables, old(doc.activeElement), shiftKey);
              events == old(events) && open == old(open) && openChanged == old(openChanged)
              && defaultPrevented == target.Some?
              && doc.activeElement == (if target.Some? then target else old(doc.activeElement)))
    {
      defaultPrevented := false;
      if !open {
        return;
      }
      if key == "Escape" && escapeDismiss {
        defaultPrevented := true;
        CancelModal();
      }
      if key == "Tab" {
        defaultPrevented := HandleTabKey(shiftKey, focusables);
      }
    }

    method HandleTabKey(shiftKey: bool, focusables: seq<Element>) returns (defaultPrevented: bool)
      modifies doc`activeElement
      ensures var target := TabTrap(focusables, old(doc.activeElement), shiftKey);
        defaultPrevented == target.Some?
        && doc.activeElement == (if target.Some? then target else old(doc.activeElement))
    {
      defaultPrevented := false;
      if |focusables| == 0 {
        return;
      }
      var first, last := focusables[0], focusables[|focusables| - 1];
      if shiftKey {
        if doc.activeElement == Some(first) {
          defaultPrevented := true;
          doc.activeElement := Some(last);
        }
      } else {
        if doc.activeElement == Some(last) {
          defaultPrevented := true;
          doc.activeElement := Some(first);
        }
      }
    }

    /** A named slot's content changed; `assignedCount` is how many elements it holds. */
    method HandleSlotChange(slotName: string, assignedCount: nat)
      modifies this`hasHeaderContent, this`hasFooterContent
      ensures slotName == "header" ==> hasHeaderContent == (assignedCount > 0) && hasFooterContent == old(hasFooterContent)
      ensures slotName == "footer" ==> hasFooterContent == (assignedCount > 0) && hasHeaderContent == old(hasHeaderContent)
      ensures slotName != "header" && slotName != "footer" ==>
        hasHeaderContent == old(hasHeaderContent) && hasFooterContent == old(hasFooterContent)
    {
      if slotName == "header" {
        hasHeaderContent := assignedCount > 0;
      } else if slotName == "footer" {
        hasFooterContent := assignedCount > 0;
      }
    }
  }

  /** Opening and then closing the dialog, each followed by its update cycle,
      leaves scrolling unlocked, gives focus back to the element that had it
      before, and dispatches open then close. */
  method OpenCloseScenario(doc: Document, m: SampleModal)
    requires m.doc == doc && !m.open && !m.openChanged
    modifies m, doc
    ensures !m.open && doc.bodyOverflow == ""
    ensures doc.activeElement == old(doc.activeElement)
    ensures m.events == old(m.events) + [Opened(m.size, m.variant), Closed(m.size, m.variant)]
  {
    m.Show();
    m.Update();
    assert doc.bodyOverflow == "hidden";
    m.Toggle();
    m.Toggle();
    assert m.open && m.openChanged;
    m.Hide();
    m.Update();
  }

  /** Toggling twice restores `open`; the pending change stays recorded for
      the next update cycle. */
  method ToggleTwice(m: SampleModal)
    modifies m`open, m`openChanged
    ensures m.open == old(m.open) && m.openChanged
  {
    m.Toggle();
    m.Toggle();
  }
}
