/**
 * The mobile navigation of js/main.js (`initMobileNav`): the toggle button
 * opens and closes the menu, marking itself active while the menu is open,
 * and following a link in the menu closes it.
 */
module MobileNav {

  /** The two classes the handlers switch: `nav__links--open` on the menu, `nav__toggle--active` on the button. */
  class Nav {
    var menuOpen: bool
    var toggleActive: bool

    /** The button is marked active exactly while the menu is open. */
    predicate InSync()
      reads this
    {
      menuOpen == toggleActive
    }

    /** The page as loaded: the two classes as the page markup gives them, `open` and `active`. */
    constructor(open: bool, active: bool)
      ensures menuOpen == open && toggleActive == active
      ensures InSync() <==> open == active
    {
      menuOpen := open;
      toggleActive := active;
    }

    /** The toggle's click handler: both classes are toggled, so the two states stay in step. */
    method Toggle()
      modifies this
      ensures menuOpen == !old(menuOpen) && toggleActive == !old(toggleActive)
      ensures old(InSync()) ==> InSync()
    {
      menuOpen := !menuOpen;
      toggleActive := !toggleActive;
    }

    /** A menu link's click handler: both classes are removed, whatever the state was. */
    method FollowLink()
      modifies this
      ensures !menuOpen && !toggleActive
      ensures InSync()
    {
      menuOpen := false;
      toggleActive := false;
    }
  }
}
