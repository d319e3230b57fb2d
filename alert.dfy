/** sample-alert: a message banner with a variant icon that can be dismissed
    in two phases: dismissal first marks the element `hiding` and announces
    itself, and a timer 300 ms later sets `dismissed` and drops `hiding`. */
module Alert {
  import opened Dom

  /** The detail of a `sample-alert-dismiss` event (timestamp left out). */
  datatype DismissEvent = DismissEvent(variant: string, title: string)

  /** What an alert that is not dismissed renders. */
  datatype RenderedAlert = RenderedAlert(
    className: string, role: string, ariaLive: string,
    icon: Option<string>, title: Option<string>, dismissButton: bool)

  /** The properties `render` reads. */
  datatype AlertView = AlertView(
    variant: string, size: string, title: string, dismissible: bool,
    dismissed: bool, icon: string, showIcon: bool, role: string)

  /** The dismissal state: the `dismissed` property, the `hiding` class and
      the number of completion timers scheduled and not yet run. */
  datatype DismissState = DismissState(dismissed: bool, hiding: bool, pendingTimers: nat)

  const Variants: set<string> := {"success", "warning", "error", "info", "neutral"}

  /** The icon shown for a variant when no custom icon is set. */
  function DefaultIcon(variant: string): (icon: string)
    ensures variant == "success" ==> icon == "\U{2713}"
    ensures variant == "warning" ==> icon == "\U{26A0}"
    ensures variant == "error" ==> icon == "\U{2715}"
    ensures variant == "info" ==> icon == "\U{2139}"
    ensures variant == "neutral" ==> icon == "\U{25D0}"
    ensures variant !in Variants ==> icon == "\U{2139}"
    ensures |icon| == 1
  {
    match variant
    case "success" => "\U{2713}"
    case "warning" => "\U{26A0}"
    case "error" => "\U{2715}"
    case "info" => "\U{2139}"
    case "neutral" => "\U{25D0}"
    case _ => "\U{2139}"
  }

  /** The icon to display: the custom icon if set, else the variant's
      default when default icons are on, else none (""). */
  function IconToShow(icon: string, showIcon: bool, variant: string): (r: string)
    ensures icon != "" ==> r == icon
    ensures icon == "" && showIcon ==> r == DefaultIcon(variant)
    ensures r == "" <==> icon == "" && !showIcon
  {
    if icon != "" then icon
    else if showIcon then DefaultIcon(variant)
    else ""
  }

  /** An alert with role "alert" interrupts the reader; any other role waits. */
  function AriaLive(role: string): (live: string)
    ensures live == "assertive" <==> role == "alert"
    ensures live == "polite" <==> role != "alert"
  {
    if role == "alert" then "assertive" else "polite"
  }

  /** The keys that activate the dismiss button. */
  predicate DismissKey(key: string) {
    key == "Enter" || key == " "
  }

  /** The class attribute: "alert", then the variant and size modifiers. */
  function ClassAttr(variant: string, size: string): string {
    JoinSpace(["alert", "variant-" + variant, "size-" + size])
  }

  /** The class attribute reads "alert variant-V size-S" and holds exactly
      those three tokens, in that order. */
  lemma ClassTokens(variant: string, size: string)
    ensures ClassAttr(variant, size) == "alert variant-" + variant + " size-" + size
    ensures NoSpace(variant) && NoSpace(size) ==>
      Tokens(ClassAttr(variant, size)) == ["alert", "variant-" + variant, "size-" + size]
  {
    JoinThree("alert", "variant-" + variant, "size-" + size);
    if NoSpace(variant) && NoSpace(size) {
      NoSpaceConcat("variant-", variant);
      NoSpaceConcat("size-", size);
      CanonicalJoin(["alert", "variant-" + variant, "size-" + size]);
    }
  }

  function Render(a: AlertView): (r: Option<RenderedAlert>)
    ensures r == None <==> a.dismissed
    ensures r.Some? ==> r.value.className == "alert variant-" + a.variant + " size-" + a.size
    ensures r.Some? && NoSpace(a.variant) && NoSpace(a.size) ==>
      Tokens(r.value.className) == ["alert", "variant-" + a.variant, "size-" + a.size]
    ensures r.Some? ==> r.value.ariaLive == AriaLive(a.role) && r.value.role == a.role
    ensures r.Some? ==> (r.value.icon.Some? <==> IconToShow(a.icon, a.showIcon, a.variant) != "")
    ensures r.Some? && r.value.icon.Some? ==> r.value.icon.value == IconToShow(a.icon, a.showIcon, a.variant)
    ensures r.Some? ==> (r.value.title.Some? <==> a.title != "")
    ensures r.Some? && r.value.title.Some? ==> r.value.title.value == a.title
    ensures r.Some? ==> r.value.dismissButton == a.dismissible
  {
    if a.dismissed then None
    else
      var shown := IconToShow(a.icon, a.showIcon, a.variant);
      ClassTokens(a.variant, a.size);
      Some(RenderedAlert(
        ClassAttr(a.variant, a.size),
        a.role, AriaLive(a.role),
        if shown != "" then Some(shown) else None,
        if a.title != "" then Some(a.title) else None,
        a.dismissible))
  }

  // The dismissal state machine, on values.

  /** `_dismiss`, first phase: add `hiding` and schedule the completion timer. */
  function StartDismissal(s: DismissState): DismissState {
    s.(hiding := true, pendingTimers := s.pendingTimers + 1)
  }

  /** One scheduled timer runs: `dismissed` is set and `hiding` removed. */
  function CompleteDismissal(s: DismissState): DismissState
    requires s.pendingTimers > 0
  {
    DismissState(true, false, s.pendingTimers - 1)
  }

  /** `show`: clear `dismissed` and `hiding`; timers already scheduled stay. */
  function Shown(s: DismissState): DismissState {
    s.(dismissed := false, hiding := false)
  }

  /** `toggle`: show a dismissed alert, start dismissing any other. */
  function Toggled(s: DismissState): DismissState {
    if s.dismissed then Shown(s) else StartDismissal(s)
  }

  /** Dismissal is two-phase: right after starting, the alert is hiding but
      still rendered; once its timer runs it is dismissed and no longer hiding. */
  lemma TwoPhaseDismissal(s: DismissState)
    requires !s.dismissed && s.pendingTimers == 0
    ensures StartDismissal(s).hiding && !StartDismissal(s).dismissed
    ensures CompleteDismissal(StartDismissal(s)) == DismissState(true, false, 0)
  {
  }

  /** `toggle` shows a dismissed alert, and toggling a visible idle alert and
      letting its timer run dismisses it; toggling again then shows it. */
  lemma ToggleRoundTrip(s: DismissState)
    requires !s.dismissed && !s.hiding && s.pendingTimers == 0
    ensures Toggled(CompleteDismissal(Toggled(s))) == s
  {
  }

  /** A `show` issued while a dismissal timer is pending does not stick: the
      timer still runs and dismisses the alert. */
  lemma ShowDuringHidingIsOverridden(s: DismissState)
    requires s.pendingTimers > 0
    ensures !Shown(s).dismissed
    ensures CompleteDismissal(Shown(s)).dismissed
  {
  }

  /** The element, with the fields the dismissal flow changes. */
  class SampleAlert {
    var variant: string
    var size: string
    var title: string
    var dismissible: bool
    var dismissed: bool
    var icon: string
    var showIcon: bool
    var role: string
    /** Whether the host's class list holds `hiding`. */
    var hiding: bool
    /** Completion timers scheduled by `_dismiss` that have not run yet. */
    var pendingTimers: nat
    /** The `sample-alert-dismiss` events dispatched so far. */
    var events: seq<DismissEvent>

    constructor ()
      ensures variant == "info" && size == "default" && title == "" && !dismissible
      ensures icon == "" && showIcon && role == "alert"
      ensures State() == DismissState(false, false, 0) && events == []
    {
      variant, size, title := "info", "default", "";
      dismissible, dismissed := false, false;
      icon, showIcon, role := "", true, "alert";
      hiding, pendingTimers := false, 0;
      events := [];
    }

    function State(): DismissState
      reads this
    {
      DismissState(dismissed, hiding, pendingTimers)
    }

    function View(): AlertView
      reads this
    {
      AlertView(variant, size, title, dismissible, dismissed, icon, showIcon, role)
    }

    /** `_dismiss` (also `hide` and the dismiss button's click). */
    method Dismiss()
      modifies this`hiding, this`pendingTimers, this`events
      ensures State() == StartDismissal(old(State()))
      ensures events == old(events) + [DismissEvent(variant, title)]
    {
      hiding := true;
      events := events + [DismissEvent(variant, title)];
      pendingTimers := pendingTimers + 1;
    }

    /** One pending 300 ms timer fires. */
    method FinishDismissal()
      requires pendingTimers > 0
      modifies this`dismissed, this`hiding, this`pendingTimers
      ensures State() == CompleteDismissal(old(State()))
    {
      dismissed := true;
      hiding := false;
      pendingTimers := pendingTimers - 1;
    }

    /** Keydown on the dismiss button; returns whether the default was prevented. */
    method HandleDismissKeydown(key: string) returns (defaultPrevented: bool)
      modifies this`hiding, this`pendingTimers, this`events
      ensures defaultPrevented <==> DismissKey(key)
      ensures DismissKey(key) ==> State() == StartDismissal(old(State()))
                                  && events == old(events) + [DismissEvent(variant, title)]
      ensures !DismissKey(key) ==> State() == old(State()) && events == old(events)
    {
      defaultPrevented := false;
      if key == "Enter" || key == " " {
        defaultPrevented := true;
        Dismiss();
      }
    }

    method Show()
      modifies this`dismissed, this`hiding
      ensures State() == Shown(old(State()))
    {
      dismissed := false;
      hiding := false;
    }

    method Hide()
      modifies this`hiding, this`pendingTimers, this`events
      ensures State() == StartDismissal(old(State()))
      ensures events == old(events) + [DismissEvent(variant, title)]
    {
      Dismiss();
    }

    method Toggle()
      modifies this`dismissed, this`hiding, this`pendingTimers, this`events
      ensures State() == Toggled(old(State()))
      ensures events == old(events) + (if old(dismissed) then [] else [DismissEvent(variant, title)])
    {
      if dismissed {
        Show();
      } else {
        Hide();
      }
    }
  }
}
