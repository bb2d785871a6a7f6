/** The navigation bar: the mobile menu's three class flags and the
    `navbar-scrolled` class. */
module Navigation {

  /** `nav-active` on the link list, `toggle` on the hamburger, `no-scroll` on the body. */
  datatype MenuFlags = MenuFlags(navActive: bool, toggle: bool, noScroll: bool)

  const Closed: MenuFlags := MenuFlags(false, false, false)

  /** The three flags agree: the menu is wholly open or wholly closed. */
  predicate InSync(m: MenuFlags) {
    m.navActive == m.toggle == m.noScroll
  }

  /** A hamburger click toggles each flag independently. */
  function HamburgerClick(m: MenuFlags): (r: MenuFlags)
    ensures r.navActive != m.navActive && r.toggle != m.toggle && r.noScroll != m.noScroll
  {
    MenuFlags(!m.navActive, !m.toggle, !m.noScroll)
  }

  /** A click on any menu link removes all three classes. */
  function LinkClick(m: MenuFlags): (r: MenuFlags)
    ensures InSync(r) && !r.navActive
  {
    Closed
  }

  datatype MenuEvent = Hamburger | Link

  function ApplyMenu(m: MenuFlags, e: MenuEvent): MenuFlags {
    match e
    case Hamburger => HamburgerClick(m)
    case Link => LinkClick(m)
  }

  /** The flags after a sequence of clicks; flags that start in sync stay in sync. */
  function RunMenu(m: MenuFlags, events: seq<MenuEvent>): (r: MenuFlags)
    ensures InSync(m) ==> InSync(r)
    ensures Link in events ==> InSync(r)
    decreases |events|
  {
    if |events| == 0 then m else RunMenu(ApplyMenu(m, events[0]), events[1..])
  }

  /** Two hamburger clicks restore the flags, whatever they were. */
  lemma HamburgerInvolution(m: MenuFlags)
    ensures HamburgerClick(HamburgerClick(m)) == m
  {
  }

  /** Only hamburger clicks: the flags depend on the parity of their number. */
  lemma {:induction false} HamburgerParity(m: MenuFlags, events: seq<MenuEvent>)
    requires forall i :: 0 <= i < |events| ==> events[i] == Hamburger
    ensures RunMenu(m, events) == if |events| % 2 == 0 then m else HamburgerClick(m)
    decreases |events|
  {
    if |events| > 0 {
      HamburgerParity(HamburgerClick(m), events[1..]);
    }
  }

  const Open: MenuFlags := MenuFlags(true, true, true)

  /** The hamburger clicks since the last link click (all of them if there was none). */
  function ClicksSinceLink(events: seq<MenuEvent>): nat
    decreases |events|
  {
    if |events| == 0 then 0
    else if events[|events| - 1] == Link then 0
    else 1 + ClicksSinceLink(events[..|events| - 1])
  }

  /** Running one more click applies it to the flags reached so far. */
  lemma {:induction false} RunMenuSnoc(m: MenuFlags, events: seq<MenuEvent>, e: MenuEvent)
    ensures RunMenu(m, events + [e]) == ApplyMenu(RunMenu(m, events), e)
    decreases |events|
  {
    if |events| == 0 {
      assert events + [e] == [e];
      assert [e][1..] == [];
    } else {
      assert (events + [e])[1..] == events[1..] + [e];
      RunMenuSnoc(ApplyMenu(m, events[0]), events[1..], e);
    }
  }

  /** From the closed menu, or from any flags once a link has been clicked,
      the menu is wholly open exactly when an odd number of hamburger clicks
      followed the last link click, and wholly closed otherwise. */
  lemma {:induction false} MenuOpenIffOddClicks(m: MenuFlags, events: seq<MenuEvent>)
    requires m == Closed || Link in events
    ensures RunMenu(m, events) == if ClicksSinceLink(events) % 2 == 1 then Open else Closed
    decreases |events|
  {
    if |events| > 0 {
      var init := events[..|events| - 1];
      var e := events[|events| - 1];
      assert events == init + [e];
      RunMenuSnoc(m, init, e);
      if e == Hamburger {
        assert Link in events ==> Link in init;
        MenuOpenIffOddClicks(m, init);
      }
    }
  }

  const ScrolledThreshold: real := 100.0

  /** The scroll handler: the class is present iff the page is scrolled past
      100 px; the previous state plays no part. */
  function NavbarScrolled(wasScrolled: bool, scrollY: real): (r: bool)
    ensures r <==> scrollY > ScrolledThreshold
  {
    scrollY > ScrolledThreshold
  }

  function AfterScrolls(scrolled: bool, offsets: seq<real>): bool
    decreases |offsets|
  {
    if |offsets| == 0 then scrolled else AfterScrolls(NavbarScrolled(scrolled, offsets[0]), offsets[1..])
  }

  /** After any scroll events, the class reflects only the last offset. */
  lemma {:induction false} NavbarFollowsLastScroll(scrolled: bool, offsets: seq<real>)
    requires |offsets| > 0
    ensures AfterScrolls(scrolled, offsets) <==> offsets[|offsets| - 1] > ScrolledThreshold
    decreases |offsets|
  {
    if |offsets| > 1 {
      NavbarFollowsLastScroll(NavbarScrolled(scrolled, offsets[0]), offsets[1..]);
    }
  }
}
