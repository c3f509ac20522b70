/** The interactive state of the support page (assets/js/support.js): the
    FAQ accordion and the mobile navbar toggle, as state machines over the
    CSS `active` classes and the `aria-expanded` attributes. */
module SupportPage {

  /** The `aria-expanded` attribute of a question: absent until the first
      click on it, then "true" or "false". */
  datatype Aria = AriaUnset | AriaTrue | AriaFalse

  /** The accordion: per item, whether it has the `active` class, and its
      question's `aria-expanded`. */
  datatype Faq = Faq(active: seq<bool>, expanded: seq<Aria>)

  predicate WellFormed(s: Faq) {
    |s.active| == |s.expanded|
  }

  predicate AtMostOneActive(s: Faq) {
    forall j, k :: 0 <= j < k < |s.active| ==> !(s.active[j] && s.active[k])
  }

  /** The click handler of question `i`, as written: every item loses
      `active`; an item that was inactive becomes the active one and its
      question says "true", an active one closes and says "false". The
      other questions' `aria-expanded` is left as it was. */
  function ClickQuestion(s: Faq, i: nat): (r: Faq)
    requires WellFormed(s) && i < |s.active|
    ensures WellFormed(r) && |r.active| == |s.active|
    ensures !s.active[i] ==> forall j :: 0 <= j < |r.active| ==> (r.active[j] <==> j == i)
    ensures s.active[i] ==> forall j :: 0 <= j < |r.active| ==> !r.active[j]
    ensures r.expanded[i] == (if s.active[i] then AriaFalse else AriaTrue)
    ensures forall j :: 0 <= j < |r.expanded| && j != i ==> r.expanded[j] == s.expanded[j]
    ensures AtMostOneActive(r)
  {
    var isActive := s.active[i];
    var cleared := seq(|s.active|, _ => false);
    if !isActive then Faq(cleared[i := true], s.expanded[i := AriaTrue])
    else Faq(cleared, s.expanded[i := AriaFalse])
  }

  /** A sequence of clicks on questions. */
  function Clicks(s: Faq, clicks: seq<nat>): (r: Faq)
    requires WellFormed(s) && forall k :: 0 <= k < |clicks| ==> clicks[k] < |s.active|
    ensures WellFormed(r) && |r.active| == |s.active|
    decreases |clicks|
  {
    if |clicks| == 0 then s else Clicks(ClickQuestion(s, clicks[0]), clicks[1..])
  }

  /** "At most one open" is an invariant of every non-empty run of clicks. */
  lemma {:induction false} ClicksKeepAtMostOneActive(s: Faq, clicks: seq<nat>)
    requires WellFormed(s) && forall k :: 0 <= k < |clicks| ==> clicks[k] < |s.active|
    requires AtMostOneActive(s) || |clicks| > 0
    ensures AtMostOneActive(Clicks(s, clicks))
    decreases |clicks|
  {
    if |clicks| > 0 {
      var s' := ClickQuestion(s, clicks[0]);
      ClicksKeepAtMostOneActive(s', clicks[1..]);
    }
  }

  /** `aria-expanded` says "true" exactly on the open items. */
  predicate AriaInSync(s: Faq) {
    WellFormed(s) && forall j :: 0 <= j < |s.active| ==> (s.expanded[j] == AriaTrue <==> s.active[j])
  }

  /** The handler as written lets `aria-expanded` go stale: open the first
      question, then the second, and the first item is closed while its
      question still says "true". */
  lemma StaleAriaExpanded()
    ensures var s0 := Faq([false, false], [AriaUnset, AriaUnset]);
      var s2 := ClickQuestion(ClickQuestion(s0, 0), 1);
      && !s2.active[0] && s2.expanded[0] == AriaTrue
      && !AriaInSync(s2)
  {
    var s0 := Faq([false, false], [AriaUnset, AriaUnset]);
    var s1 := ClickQuestion(s0, 0);
    assert s1.active[1] == false;
  }

  /** The evidently intended handler: as `ClickQuestion`, but every other
      question is set to "false" together with its item. */
  function ClickQuestionSynced(s: Faq, i: nat): (r: Faq)
    requires WellFormed(s) && i < |s.active|
    ensures WellFormed(r) && r.active == ClickQuestion(s, i).active
    ensures r.expanded[i] == ClickQuestion(s, i).expanded[i]
    ensures AriaInSync(r)
  {
    var isActive := s.active[i];
    var cleared := seq(|s.active|, _ => false);
    var closed := seq(|s.expanded|, _ => AriaFalse);
    if !isActive then Faq(cleared[i := true], closed[i := AriaTrue])
    else Faq(cleared, closed)
  }

  /** With the corrected handler, any run of clicks ends with
      `aria-expanded` in step with the open items and at most one open. */
  function SyncedClicks(s: Faq, clicks: seq<nat>): (r: Faq)
    requires WellFormed(s) && forall k :: 0 <= k < |clicks| ==> clicks[k] < |s.active|
    ensures WellFormed(r) && |r.active| == |s.active|
    decreases |clicks|
  {
    if |clicks| == 0 then s else SyncedClicks(ClickQuestionSynced(s, clicks[0]), clicks[1..])
  }

  lemma {:induction false} SyncedClicksStayInSync(s: Faq, clicks: seq<nat>)
    requires WellFormed(s) && forall k :: 0 <= k < |clicks| ==> clicks[k] < |s.active|
    requires AriaInSync(s) || |clicks| > 0
    ensures AriaInSync(SyncedClicks(s, clicks))
    ensures AtMostOneActive(s) || |clicks| > 0 ==> AtMostOneActive(SyncedClicks(s, clicks))
    decreases |clicks|
  {
    if |clicks| > 0 {
      var s' := ClickQuestionSynced(s, clicks[0]);
      SyncedClicksStayInSync(s', clicks[1..]);
    }
  }

  /** The `active` classes of the navbar toggle button and of the menu. */
  datatype Navbar = Navbar(toggleActive: bool, menuActive: bool)

  datatype NavEvent = ToggleClick | MenuLinkClick

  /** A toggle click flips both classes; a click on a menu link removes both. */
  function NavStep(n: Navbar, e: NavEvent): (r: Navbar)
    ensures e == ToggleClick ==> r.toggleActive == !n.toggleActive && r.menuActive == !n.menuActive
    ensures e == MenuLinkClick ==> !r.toggleActive && !r.menuActive
  {
    match e
    case ToggleClick => Navbar(!n.toggleActive, !n.menuActive)
    case MenuLinkClick => Navbar(false, false)
  }

  function NavRun(n: Navbar, events: seq<NavEvent>): Navbar
    decreases |events|
  {
    if |events| == 0 then n else NavRun(NavStep(n, events[0]), events[1..])
  }

  /** Starting with the button and the menu in the same state, they stay in
      the same state whatever is clicked. */
  lemma {:induction false} NavFlagsStayEqual(n: Navbar, events: seq<NavEvent>)
    requires n.toggleActive == n.menuActive
    ensures NavRun(n, events).toggleActive == NavRun(n, events).menuActive
    decreases |events|
  {
    if |events| > 0 {
      NavFlagsStayEqual(NavStep(n, events[0]), events[1..]);
    }
  }

  /** Whatever happened before, a run that ends with a click on a menu link
      leaves the button and the menu closed. */
  lemma {:induction false} NavOpenAfterLinkClick(n: Navbar, events: seq<NavEvent>)
    requires |events| > 0 && events[|events| - 1] == MenuLinkClick
    ensures NavRun(n, events) == Navbar(false, false)
    decreases |events|
  {
    if |events| > 1 {
      assert events[1..][|events[1..]| - 1] == MenuLinkClick;
      NavOpenAfterLinkClick(NavStep(n, events[0]), events[1..]);
    }
  }
}
