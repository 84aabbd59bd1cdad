/**
 * The legacy menu navigation state: a stack of five handler slots indexed by
 * menuLevel, with four saved cursor rows and scroll offsets, one for each
 * level below the deepest, and the live cursor of the active level.
 */
module Menus {
  import opened Wrappers

  newtype uint8 = x: int | 0 <= x < 0x100
  newtype uint16 = x: int | 0 <= x < 0x1_0000
  newtype int8 = x: int | -0x80 <= x < 0x80

  /** horzpos_t */
  type HorzPos = int8
  /** vertpos_t */
  type VertPos = uint16

  /** A menu handler function, by its address; 0 is the null pointer. */
  type MenuHandlerFunc = nat

  /** A menu entry: its handler and an optional "is this entry enabled"
      callback, modelled by the value it returns when called. */
  datatype MenuHandler = MenuHandler(menuFunc: MenuHandlerFunc, enabledFunc: Option<() -> bool>)
  {
    /** An entry without an enabled callback is enabled; otherwise it is
        enabled exactly when the callback says so. */
    function IsEnabled(): (r: bool)
      ensures enabledFunc.None? ==> r
      ensures enabledFunc.Some? ==> r == enabledFunc.value()
    {
      match enabledFunc
      case Some(f) => f()
      case None => true
    }
  }

  /** Number of handler slots, DIM(menuHandlers). */
  const HANDLER_SLOTS: nat := 5
  /** Number of saved cursor slots, DIM(menuVerticalPositions). */
  const SAVED_SLOTS: nat := 4

  /** The store truncation of a vertpos_t into a uint8_t slot. */
  function ToUint8(v: uint16): (r: uint8)
    ensures (v as int - r as int) % 0x100 == 0
    ensures v < 0x100 ==> r as int == v as int
  {
    (v as int % 0x100) as uint8
  }

  class MenuStack {
    var menuHandlers: array<MenuHandlerFunc>
    var menuVerticalPositions: array<uint8>
    var menuVerticalOffsets: array<uint8>
    var menuLevel: uint8
    var menuVerticalPosition: VertPos
    var menuHorizontalPosition: HorzPos
    var menuVerticalOffset: VertPos

    /** The arrays have their declared sizes and menuLevel names a handler
        slot. */
    ghost predicate Valid()
      reads this
    {
      menuHandlers.Length == HANDLER_SLOTS &&
      menuVerticalPositions.Length == SAVED_SLOTS &&
      menuVerticalOffsets.Length == SAVED_SLOTS &&
      menuVerticalPositions != menuVerticalOffsets &&
      menuLevel as int < HANDLER_SLOTS
    }

    /** Zero-initialised storage: level 0, null handlers, cursor at the top. */
    constructor ()
      ensures Valid() && fresh(menuHandlers) && fresh(menuVerticalPositions) && fresh(menuVerticalOffsets)
      ensures menuLevel == 0 && menuHandlers[..] == [0, 0, 0, 0, 0]
      ensures menuVerticalPositions[..] == [0, 0, 0, 0] && menuVerticalOffsets[..] == [0, 0, 0, 0]
      ensures menuVerticalPosition == 0 && menuHorizontalPosition == 0 && menuVerticalOffset == 0
    {
      menuHandlers := new MenuHandlerFunc[HANDLER_SLOTS] (_ => 0);
      menuVerticalPositions := new uint8[SAVED_SLOTS] (_ => 0);
      menuVerticalOffsets := new uint8[SAVED_SLOTS] (_ => 0);
      menuLevel := 0;
      menuVerticalPosition, menuHorizontalPosition, menuVerticalOffset := 0, 0, 0;
    }

    /** The handler of the active level. */
    function CurrentHandler(): (r: MenuHandlerFunc)
      reads this, menuHandlers
      requires Valid()
      ensures r == menuHandlers[..][menuLevel]
    {
      menuHandlers[menuLevel]
    }

    /** lastPopMenu: the handler in the slot just above the active level, the
        one a pop has just left.  It exists only below the deepest level. */
    function LastPopMenu(): (r: MenuHandlerFunc)
      reads this, menuHandlers
      requires Valid() && menuLevel as int < HANDLER_SLOTS - 1
      ensures r == menuHandlers[..][menuLevel as int + 1]
    {
      menuHandlers[menuLevel as int + 1]
    }

    /** chainMenu: replace the active level's handler; the stack does not
        grow and the saved cursors are untouched. */
    method ChainMenu(newMenu: MenuHandlerFunc)
      requires Valid()
      modifies this, menuHandlers
      ensures Valid()
      ensures menuHandlers == old(menuHandlers) && menuVerticalPositions == old(menuVerticalPositions)
      ensures menuVerticalOffsets == old(menuVerticalOffsets)
      ensures menuLevel == old(menuLevel)
      ensures menuHandlers[..] == old(menuHandlers[..])[menuLevel := newMenu]
      ensures CurrentHandler() == newMenu
    {
      menuHandlers[menuLevel] := newMenu;
    }

    /** pushMenu: go one level deeper and install the handler there.  Above
        the root the live cursor row and offset are saved (as uint8) in the
        slot of the level being left, which needs that level to be below 4;
        what happens to slot 0 when leaving the root is left unspecified. */
    method PushMenu(newMenu: MenuHandlerFunc)
      requires Valid() && menuLevel as int < SAVED_SLOTS
      modifies this, menuHandlers, menuVerticalPositions, menuVerticalOffsets
      ensures Valid()
      ensures menuHandlers == old(menuHandlers) && menuVerticalPositions == old(menuVerticalPositions)
      ensures menuVerticalOffsets == old(menuVerticalOffsets)
      ensures menuLevel == old(menuLevel) + 1
      ensures menuHandlers[..] == old(menuHandlers[..])[menuLevel := newMenu]
      ensures forall i :: 0 <= i < SAVED_SLOTS && i != old(menuLevel) as int ==>
        menuVerticalPositions[i] == old(menuVerticalPositions[i]) && menuVerticalOffsets[i] == old(menuVerticalOffsets[i])
      ensures old(menuLevel) > 0 ==>
        menuVerticalPositions[old(menuLevel)] == ToUint8(old(menuVerticalPosition)) &&
        menuVerticalOffsets[old(menuLevel)] == ToUint8(old(menuVerticalOffset))
    {
      if menuLevel > 0 {
        menuVerticalPositions[menuLevel] := ToUint8(menuVerticalPosition);
        menuVerticalOffsets[menuLevel] := ToUint8(menuVerticalOffset);
      }
      menuLevel := menuLevel + 1;
      menuHandlers[menuLevel] := newMenu;
    }

    /** popMenu: go back one level.  The handler slot just left stays as it
        was, which is what lastPopMenu then returns.  There is no level below
        the root. */
    method PopMenu()
      requires Valid() && menuLevel > 0
      modifies this
      ensures Valid()
      ensures menuHandlers == old(menuHandlers) && menuVerticalPositions == old(menuVerticalPositions)
      ensures menuVerticalOffsets == old(menuVerticalOffsets)
      ensures menuLevel == old(menuLevel) - 1
      ensures LastPopMenu() == old(CurrentHandler())
    {
      menuLevel := menuLevel - 1;
    }

    /** abortPopMenu: undo a pop, returning to the level above. */
    method AbortPopMenu()
      requires Valid() && menuLevel as int < HANDLER_SLOTS - 1
      modifies this
      ensures Valid()
      ensures menuHandlers == old(menuHandlers) && menuVerticalPositions == old(menuVerticalPositions)
      ensures menuVerticalOffsets == old(menuVerticalOffsets)
      ensures menuLevel == old(menuLevel) + 1
      ensures CurrentHandler() == old(LastPopMenu())
    {
      menuLevel := menuLevel + 1;
    }
  }

  /** Push then pop returns to the same level and handler, and lastPopMenu
      then names the handler that was pushed. */
  method PushThenPop(m: MenuStack, h: MenuHandlerFunc)
    requires m.Valid() && m.menuLevel as int < SAVED_SLOTS
    modifies m, m.menuHandlers, m.menuVerticalPositions, m.menuVerticalOffsets
    ensures m.Valid()
    ensures m.menuLevel == old(m.menuLevel) && m.CurrentHandler() == old(m.CurrentHandler())
    ensures m.LastPopMenu() == h
  {
    m.PushMenu(h);
    m.PopMenu();
  }

  /** Pop then abortPop restores the level, and the handler slots and saved
      cursors were never touched. */
  method PopThenAbort(m: MenuStack)
    requires m.Valid() && m.menuLevel > 0
    modifies m
    ensures m.Valid()
    ensures m.menuLevel == old(m.menuLevel)
    ensures m.menuHandlers == old(m.menuHandlers) && m.menuVerticalPositions == old(m.menuVerticalPositions)
    ensures m.menuVerticalOffsets == old(m.menuVerticalOffsets)
    ensures m.CurrentHandler() == old(m.CurrentHandler())
  {
    m.PopMenu();
    m.AbortPopMenu();
  }
}
