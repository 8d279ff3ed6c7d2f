/**
 * The site header: a desktop bar of navigation links with an "active" and a
 * "hover" underline, and a mobile drawer opened by the menu button.
 */
module HeaderNav {
  import opened Common

  /** One navigation entry; `id` is also the link's target path. */
  datatype NavItem = NavItem(id: string, caption: string)

  const NavItems: seq<NavItem> := [
    NavItem("/", " Home"),
    NavItem("/institucional", "Institucional"),
    NavItem("/onde-estamos", "Onde Estamos"),
    NavItem("/encartes", "Encartes"),
    NavItem("/blog", "Mídias"),
    NavItem("/contato", "Contato"),
    NavItem("/trabalhe-conosco", "Trabalhe Conosco")
  ]

  /** The entries' ids, in menu order. */
  function NavIds(): (ids: seq<string>)
    ensures |ids| == |NavItems|
    ensures forall i :: 0 <= i < |NavItems| ==> ids[i] == NavItems[i].id
  {
    seq(|NavItems|, i requires 0 <= i < |NavItems| => NavItems[i].id)
  }

  /** No two entries share an id. */
  lemma NavIdsDistinct()
    ensures Distinct(NavIds())
  {
    var ids := NavIds();
    // The seven ids have seven different lengths.
    var lengths := [1, 14, 13, 9, 5, 8, 17];
    assert forall k :: 0 <= k < 7 ==> |ids[k]| == lengths[k];
    assert forall i, j :: 0 <= i < j < 7 ==> lengths[i] != lengths[j];
  }

  /** `pathname === item.id`: the entry gets the active style, the active underline and the drawer dot. */
  predicate IsActive(pathname: string, item: NavItem) {
    pathname == item.id
  }

  /** `hoveredTab === item.id && pathname !== item.id`: the entry shows the lighter hover underline. */
  predicate ShowsHoverUnderline(hoveredTab: Option<string>, pathname: string, item: NavItem) {
    hoveredTab == Some(item.id) && !IsActive(pathname, item)
  }

  /** Entries equal on their ids are the same entry. */
  lemma SameIdSameEntry(i: nat, j: nat)
    requires i < |NavItems| && j < |NavItems|
    requires NavItems[i].id == NavItems[j].id
    ensures i == j
  {
    NavIdsDistinct();
    assert NavIds()[i] == NavIds()[j];
  }

  /**
   * Some entry is active exactly when the path is one of the ids, and then
   * only that one; on any other path (a post under "/blog/", say) none is.
   */
  lemma ActiveEntries(pathname: string)
    ensures (exists i :: 0 <= i < |NavItems| && IsActive(pathname, NavItems[i])) <==> pathname in NavIds()
    ensures forall i, j :: 0 <= i < |NavItems| && 0 <= j < |NavItems| ==>
      IsActive(pathname, NavItems[i]) && IsActive(pathname, NavItems[j]) ==> i == j
  {
    if pathname in NavIds() {
      var k :| 0 <= k < |NavIds()| && NavIds()[k] == pathname;
      assert IsActive(pathname, NavItems[k]);
    }
    forall i, j | 0 <= i < |NavItems| && 0 <= j < |NavItems| &&
      IsActive(pathname, NavItems[i]) && IsActive(pathname, NavItems[j])
      ensures i == j
    {
      SameIdSameEntry(i, j);
    }
  }

  /**
   * Whatever the hovered tab and the path, at most one entry shows the hover
   * underline, and never the active one.
   */
  lemma HoverUnderlines(hoveredTab: Option<string>, pathname: string)
    ensures forall i, j :: 0 <= i < |NavItems| && 0 <= j < |NavItems| ==>
      (ShowsHoverUnderline(hoveredTab, pathname, NavItems[i]) &&
       ShowsHoverUnderline(hoveredTab, pathname, NavItems[j])) ==> i == j
    ensures forall i :: 0 <= i < |NavItems| ==>
      !(ShowsHoverUnderline(hoveredTab, pathname, NavItems[i]) && IsActive(pathname, NavItems[i]))
  {
    forall i, j | 0 <= i < |NavItems| && 0 <= j < |NavItems| &&
      ShowsHoverUnderline(hoveredTab, pathname, NavItems[i]) &&
      ShowsHoverUnderline(hoveredTab, pathname, NavItems[j])
      ensures i == j
    {
      SameIdSameEntry(i, j);
    }
  }

  /** The clicks that change whether the mobile drawer is open. */
  datatype MenuEvent =
    | MenuButton   // the header's menu / close toggle
    | Backdrop     // the dimmed area beside the drawer
    | CloseButton  // the "X" in the drawer's header
    | DrawerLink   // any navigation link inside the drawer

  /** Whether the drawer is open after one click. */
  function MenuStep(open: bool, e: MenuEvent): (after: bool)
    ensures e == MenuButton ==> after != open
    ensures e != MenuButton ==> !after
  {
    match e
    case MenuButton => !open
    case _ => false
  }

  /** Whether the drawer is open after a sequence of clicks, from state `open`. */
  function MenuAfter(open: bool, events: seq<MenuEvent>): bool {
    if events == [] then open
    else MenuStep(MenuAfter(open, events[..|events| - 1]), events[|events| - 1])
  }

  /** The number of menu-button presses since the drawer was last closed from inside. */
  function PressesSinceClose(events: seq<MenuEvent>): nat {
    if events == [] then 0
    else if events[|events| - 1] == MenuButton then PressesSinceClose(events[..|events| - 1]) + 1
    else 0
  }

  /**
   * From the initial closed state, the drawer is open exactly when the menu
   * button has been pressed an odd number of times since the last click on
   * the backdrop, the close button or a drawer link.
   */
  lemma {:induction false} MenuParity(events: seq<MenuEvent>)
    ensures MenuAfter(false, events) <==> PressesSinceClose(events) % 2 == 1
  {
    if events != [] {
      MenuParity(events[..|events| - 1]);
    }
  }

  /** The header's React state; the current path is read from the router and passed in. */
  class Header {
    var isMenuOpen: bool
    var hoveredTab: Option<string>

    /** A hovered tab is always one of the entries' ids. */
    predicate Valid()
      reads this
    {
      hoveredTab.None? || hoveredTab.value in NavIds()
    }

    /** The backdrop and the drawer are rendered exactly while the menu is open. */
    function DrawerRendered(): bool
      reads this
    {
      isMenuOpen
    }

    /** Initial state: drawer closed, nothing hovered. */
    constructor ()
      ensures Valid() && !DrawerRendered()
      ensures !isMenuOpen && hoveredTab == None
      ensures forall item :: item in NavItems ==> forall p :: !ShowsHoverUnderline(hoveredTab, p, item)
    {
      isMenuOpen := false;
      hoveredTab := None;
    }

    /**
     * A click that opens or closes the drawer. The backdrop, the close button
     * and the drawer links exist only while the drawer is rendered.
     */
    method Click(e: MenuEvent)
      requires e == MenuButton || DrawerRendered()
      modifies this
      ensures isMenuOpen == MenuStep(old(isMenuOpen), e)
      ensures e != MenuButton ==> !DrawerRendered()
      ensures hoveredTab == old(hoveredTab)
    {
      if e == MenuButton {
        isMenuOpen := !isMenuOpen;
      } else {
        isMenuOpen := false;
      }
    }

    /** A drawer link: the drawer closes and the router moves to the entry's path. */
    method FollowDrawerLink(item: NavItem) returns (pathname: string)
      requires item in NavItems && DrawerRendered()
      modifies this
      ensures !DrawerRendered() && hoveredTab == old(hoveredTab)
      ensures pathname == item.id
      ensures forall other :: other in NavItems ==> (IsActive(pathname, other) <==> other == item)
    {
      Click(DrawerLink);
      pathname := item.id;
      forall other | other in NavItems && IsActive(pathname, other)
        ensures other == item
      {
        var i :| 0 <= i < |NavItems| && NavItems[i] == other;
        var j :| 0 <= j < |NavItems| && NavItems[j] == item;
        SameIdSameEntry(i, j);
      }
    }

    /** The pointer enters a desktop entry: it becomes the hovered tab. */
    method MouseEnter(item: NavItem, pathname: string)
      requires Valid() && item in NavItems
      modifies this
      ensures Valid() && isMenuOpen == old(isMenuOpen)
      ensures hoveredTab == Some(item.id)
      ensures forall other :: other in NavItems ==>
        (ShowsHoverUnderline(hoveredTab, pathname, other) <==> other == item && !IsActive(pathname, item))
    {
      hoveredTab := Some(item.id);
      forall other | other in NavItems && ShowsHoverUnderline(hoveredTab, pathname, other)
        ensures other == item
      {
        var i :| 0 <= i < |NavItems| && NavItems[i] == other;
        var j :| 0 <= j < |NavItems| && NavItems[j] == item;
        SameIdSameEntry(i, j);
      }
      var j :| 0 <= j < |NavItems| && NavItems[j] == item;
      assert NavIds()[j] == item.id;
    }

    /** The pointer leaves a desktop entry: no tab is hovered and no hover underline is shown. */
    method MouseLeave()
      modifies this
      ensures Valid() && isMenuOpen == old(isMenuOpen)
      ensures hoveredTab == None
      ensures forall item, p :: !ShowsHoverUnderline(hoveredTab, p, item)
    {
      hoveredTab := None;
    }
  }
}
