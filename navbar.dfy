/**
  The site navigation bar of components/Navbar.tsx: a fixed bar whose colour
  theme depends on the page and on whether the mobile menu card is open, with
  desktop links that underline the current page.
*/
module Navbar {

  /** A navigation link. */
  datatype NavLink = NavLink(name: string, path: string)

  /** The links of the bar and of the menu card. */
  const NavLinks: seq<NavLink> := [NavLink("Home", "/"), NavLink("Venues", "/venues")]

  /** The target of the "Book Venue" button. */
  const BookVenuePath: string := "/venues"

  /** The bar is light (white text and logo) exactly on the home page with the
      menu closed. */
  predicate IsLightTheme(pathname: string, menuOpen: bool)
  {
    pathname == "/" && !menuOpen
  }

  /** The colour classes of the bar's text, button border and button hover. */
  datatype ThemeClasses = ThemeClasses(text: string, border: string, hover: string)

  const LightClasses: ThemeClasses :=
    ThemeClasses("text-white", "border-white/20", "hover:bg-white hover:text-burgundy")
  const DarkClasses: ThemeClasses :=
    ThemeClasses("text-dark", "border-dark/20", "hover:bg-burgundy hover:text-white")

  /** The classes for the current page and menu state: they depend on nothing
      but whether the theme is light. */
  function Classes(pathname: string, menuOpen: bool): (c: ThemeClasses)
    ensures c == LightClasses <==> IsLightTheme(pathname, menuOpen)
    ensures c == DarkClasses <==> !IsLightTheme(pathname, menuOpen)
  {
    if IsLightTheme(pathname, menuOpen) then LightClasses else DarkClasses
  }

  /** Two page/menu states with the same theme get the same classes. */
  lemma ClassesFollowTheme(p1: string, o1: bool, p2: string, o2: bool)
    requires IsLightTheme(p1, o1) == IsLightTheme(p2, o2)
    ensures Classes(p1, o1) == Classes(p2, o2)
  {
  }

  /** Opacity of the two stacked logos. */
  datatype Logos = Logos(darkVisible: bool, whiteVisible: bool)

  /** Which logo is visible: exactly one of the two. */
  function LogoVisibility(pathname: string, menuOpen: bool): (l: Logos)
    ensures l.darkVisible != l.whiteVisible
    ensures l.whiteVisible <==> IsLightTheme(pathname, menuOpen)
  {
    var light := IsLightTheme(pathname, menuOpen);
    Logos(!light, light)
  }

  /** A desktop link's underline is forced on exactly on its own page. */
  predicate UnderlineForced(pathname: string, link: NavLink)
  {
    pathname == link.path
  }

  /** On any page at most one desktop link has its underline forced. */
  lemma AtMostOneUnderline(pathname: string, i: int, j: int)
    requires 0 <= i < |NavLinks| && 0 <= j < |NavLinks|
    requires UnderlineForced(pathname, NavLinks[i]) && UnderlineForced(pathname, NavLinks[j])
    ensures i == j
  {
  }

  /** A click the menu state listens to. A click on the card itself is
      stopped before it reaches the backdrop. */
  datatype MenuEvent = HamburgerClick | BackdropClick | CloseButtonClick | CardClick
                     | MenuLinkClick(path: string)

  /** The menu flag and the route after one click; a menu link also navigates. */
  datatype NavState = NavState(pathname: string, menuOpen: bool)

  function MenuStep(s: NavState, e: MenuEvent): (t: NavState)
    ensures e == HamburgerClick ==> t.menuOpen
    ensures e.BackdropClick? || e.CloseButtonClick? || e.MenuLinkClick? ==> !t.menuOpen
    ensures e == CardClick ==> t == s
    ensures !e.MenuLinkClick? ==> t.pathname == s.pathname
  {
    match e
    case HamburgerClick => s.(menuOpen := true)
    case BackdropClick => s.(menuOpen := false)
    case CloseButtonClick => s.(menuOpen := false)
    case CardClick => s
    case MenuLinkClick(path) => NavState(path, false)
  }

  /** Whether the clicked element is on screen: the hamburger only while the
      menu is closed, the backdrop, card, close button and menu links only
      while it is open. */
  predicate Clickable(s: NavState, e: MenuEvent)
  {
    if e == HamburgerClick then !s.menuOpen else s.menuOpen
  }

  /** Every click on a visible control other than the card toggles the menu. */
  lemma ClickableToggles(s: NavState, e: MenuEvent)
    requires Clickable(s, e) && e != CardClick
    ensures MenuStep(s, e).menuOpen == !s.menuOpen
  {
  }

  /** The menu state after a sequence of clicks. */
  function MenuAfter(s: NavState, events: seq<MenuEvent>): (t: NavState)
    decreases |events|
  {
    if events == [] then s else MenuAfter(MenuStep(s, events[0]), events[1..])
  }

  /** The one click that opens the menu. */
  predicate Opens(e: MenuEvent)
  {
    e == HamburgerClick
  }

  /** After clicks of which at least one was not on the card, the menu is open
      exactly when the last such click was the hamburger. */
  lemma {:induction false} MenuFollowsLastClick(s: NavState, events: seq<MenuEvent>, k: int)
    requires 0 <= k < |events| && events[k] != CardClick
    requires forall j :: k < j < |events| ==> events[j] == CardClick
    ensures MenuAfter(s, events).menuOpen <==> Opens(events[k])
    decreases |events|
  {
    if k == 0 {
      CardClicksChangeNothing(MenuStep(s, events[0]), events[1..]);
    } else {
      MenuFollowsLastClick(MenuStep(s, events[0]), events[1..], k - 1);
    }
  }

  /** A run of card clicks leaves the state as it was. */
  lemma {:induction false} CardClicksChangeNothing(s: NavState, events: seq<MenuEvent>)
    requires forall j :: 0 <= j < |events| ==> events[j] == CardClick
    ensures MenuAfter(s, events) == s
    decreases |events|
  {
    if events != [] {
      CardClicksChangeNothing(s, events[1..]);
    }
  }

  /** After following a menu link the menu is closed, the bar shows that
      link's page, and the theme is light exactly when that page is home. */
  lemma MenuLinkLandsOnPage(s: NavState, path: string)
    ensures var t := MenuStep(s, MenuLinkClick(path));
      !t.menuOpen && t.pathname == path && (IsLightTheme(t.pathname, t.menuOpen) <==> path == "/")
  {
  }

  /** The menu card's Book Venue link lands, menu closed, on the venues page,
      under the dark theme, with the Venues link underlined and no other. */
  lemma BookVenueLandsOnVenues(s: NavState)
    ensures var t := MenuStep(s, MenuLinkClick(BookVenuePath));
      && !t.menuOpen && t.pathname == "/venues"
      && !IsLightTheme(t.pathname, t.menuOpen)
      && UnderlineForced(t.pathname, NavLinks[1]) && !UnderlineForced(t.pathname, NavLinks[0])
  {
  }

  /** The bar's menu state. */
  class NavMenu {
    var isMenuOpen: bool

    /** The menu starts closed. */
    constructor ()
      ensures !isMenuOpen
    {
      isMenuOpen := false;
    }

    /** The hamburger button is rendered only while the menu is closed. */
    predicate HamburgerShown()
      reads this
    {
      !isMenuOpen
    }

    /** The hamburger opens the menu. */
    method ClickHamburger()
      modifies this
      ensures isMenuOpen
      ensures !HamburgerShown()
    {
      isMenuOpen := true;
    }

    /** The backdrop outside the card closes the menu. */
    method ClickBackdrop()
      modifies this
      ensures !isMenuOpen
      ensures HamburgerShown()
    {
      isMenuOpen := false;
    }

    /** The close button inside the card closes the menu. */
    method ClickCloseButton()
      modifies this
      ensures !isMenuOpen
      ensures HamburgerShown()
    {
      isMenuOpen := false;
    }

    /** A link of the menu card (including Book Venue) closes the menu. */
    method ClickMenuLink()
      modifies this
      ensures !isMenuOpen
      ensures HamburgerShown()
    {
      isMenuOpen := false;
    }

    /** A click on the card itself stops propagation: nothing changes. */
    method ClickCard()
      modifies this
      ensures isMenuOpen == old(isMenuOpen) && HamburgerShown() == old(HamburgerShown())
    {
    }

    /** Dispatches a click to its handler: the flag moves as the pure step's
      does, on whatever page the bar is shown. */
    method Handle(e: MenuEvent)
      modifies this
      ensures forall pathname :: isMenuOpen == MenuStep(NavState(pathname, old(isMenuOpen)), e).menuOpen
    {
      match e
      case HamburgerClick => ClickHamburger();
      case BackdropClick => ClickBackdrop();
      case CloseButtonClick => ClickCloseButton();
      case CardClick => ClickCard();
      case MenuLinkClick(_) => ClickMenuLink();
    }
  }
}
