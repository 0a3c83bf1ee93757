/**
 * The mobile navigation menu: the menu's `open` class, the toggle button's
 * `aria-expanded` and `aria-label`, and the hamburger's `x` (morphed) class.
 */
module Menu {

  const OpenLabel := "Open menu"
  const CloseLabel := "Close menu"

  class MenuController {
    var open: bool            // the menu carries the class "open"
    var ariaExpanded: string  // the toggle's aria-expanded attribute
    var ariaLabel: string     // the toggle's aria-label attribute
    var burgerX: bool         // the hamburger carries the class "x"

    /** The menu's class, the toggle's two attributes and the hamburger's morph all agree. */
    ghost predicate Consistent()
      reads this
    {
      && ariaExpanded == (if open then "true" else "false")
      && ariaLabel == (if open then CloseLabel else OpenLabel)
      && burgerX == open
    }

    /** The page as loaded, with whatever the markup says. */
    constructor (open0: bool, expanded0: string, label0: string, x0: bool)
      ensures open == open0 && ariaExpanded == expanded0 && ariaLabel == label0 && burgerX == x0
    {
      open, ariaExpanded, ariaLabel, burgerX := open0, expanded0, label0, x0;
    }

    /** `openMenu` */
    method OpenMenu()
      modifies this
      ensures open && Consistent()
    {
      open := true;
      ariaExpanded := "true";
      ariaLabel := CloseLabel;
      burgerX := true;
    }

    /** `closeMenu` */
    method CloseMenu()
      modifies this
      ensures !open && Consistent()
    {
      open := false;
      ariaExpanded := "false";
      ariaLabel := OpenLabel;
      burgerX := false;
    }

    /** A click on the toggle: close when `aria-expanded` reads "true", open otherwise. */
    method ToggleClick()
      modifies this
      ensures Consistent()
      ensures open <==> old(ariaExpanded) != "true"
      ensures old(Consistent()) ==> open == !old(open)
    {
      var expanded := ariaExpanded == "true";
      if expanded {
        CloseMenu();
      } else {
        OpenMenu();
      }
    }

    /** A click on any navigation link always ends closed. */
    method LinkClick()
      modifies this
      ensures !open && Consistent()
    {
      CloseMenu();
    }

    /**
     * The document-level click handler; `inside` says whether the click target
     * lies within the menu or the toggle.  It closes an open menu on an outside
     * click and otherwise changes nothing.
     */
    method DocumentClick(inside: bool)
      modifies this
      ensures old(open) && !inside ==> !open && Consistent()
      ensures !old(open) || inside ==> unchanged(this)
      ensures old(Consistent()) ==> Consistent()
    {
      if !open {
        return;
      }
      if !inside {
        CloseMenu();
      }
    }
  }

  /**
   * A click on the toggle reaches the toggle's handler first and then bubbles
   * to the document, whose handler sees a target inside the toggle: the
   * toggle's effect stands.
   */
  method ToggleClickBubbles(m: MenuController)
    requires m.Consistent()
    modifies m
    ensures m.Consistent() && m.open == !old(m.open)
  {
    m.ToggleClick();
    m.DocumentClick(true);
  }

  /** A click on a navigation link (inside the menu) bubbles likewise and leaves the menu closed. */
  method LinkClickBubbles(m: MenuController)
    modifies m
    ensures m.Consistent() && !m.open
  {
    m.LinkClick();
    m.DocumentClick(true);
  }
}
