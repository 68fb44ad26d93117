/** The selection logic of src/gui/main_menu_drawer.rs: Up and Down move
    through the entries (Load Game only when a save exists), Escape asks to
    quit and Return picks the highlighted entry. The drawing is left out. */
module MainMenuDrawer {
  import opened Components
  import opened RunStates

  /** The keys the menu tells apart. */
  datatype MenuKey = Escape | Up | Down | Return | OtherKey(code: int)

  datatype MainMenuResult = NoSelection(selected: MainMenuSelection) | Selected(selected: MainMenuSelection)

  /** The entry above `s`. */
  function MenuUp(s: MainMenuSelection, saveExists: bool): MainMenuSelection {
    match s
    case NewGame => Quit
    case LoadGame => NewGame
    case Quit => if saveExists then LoadGame else NewGame
  }

  /** The entry below `s`. */
  function MenuDown(s: MainMenuSelection, saveExists: bool): MainMenuSelection {
    match s
    case NewGame => if saveExists then LoadGame else Quit
    case LoadGame => Quit
    case Quit => NewGame
  }

  /** main_menu: the result for the run state, the key pressed and
      whether a save file exists (does_save_exist is passed in). */
  function MainMenuOutcome(runState: RunState, key: Option<MenuKey>, saveExists: bool): (r: MainMenuResult)
    ensures !runState.MainMenu? ==> r == NoSelection(NewGame)
    ensures r.Selected? <==> runState.MainMenu? && key == Some(Return)
    ensures r.Selected? ==> r.selected == runState.menuSelection
  {
    match runState
    case MainMenu(selection) =>
      (match key
       case None => NoSelection(selection)
       case Some(k) =>
         match k
         case Escape => NoSelection(Quit)
         case Up => NoSelection(MenuUp(selection, saveExists))
         case Down => NoSelection(MenuDown(selection, saveExists))
         case Return => Selected(selection)
         case OtherKey(_) => NoSelection(selection))
    case _ => NoSelection(NewGame)
  }

  /** Up and Down undo each other whenever both entries are offered: with
      a save file always, without one on New Game and Quit. */
  lemma UpDownInverse(s: MainMenuSelection, saveExists: bool)
    requires saveExists || s != LoadGame
    ensures MenuUp(MenuDown(s, saveExists), saveExists) == s
    ensures MenuDown(MenuUp(s, saveExists), saveExists) == s
  {
  }

  /** Without a save, Up and Down never land on Load Game from an offered
      entry; they cycle through the other two. Each is a bijection on the
      entries offered. */
  lemma NoSaveSkipsLoadGame(s: MainMenuSelection)
    requires s != LoadGame
    ensures MenuUp(s, false) != LoadGame && MenuDown(s, false) != LoadGame
    ensures MenuUp(s, false) != s && MenuDown(s, false) != s
    ensures MenuUp(s, false) == MenuDown(s, false)
  {
  }

  /** With a save, three presses of Up or of Down come back to the start. */
  lemma ThreeStepsCycle(s: MainMenuSelection)
    ensures MenuUp(MenuUp(MenuUp(s, true), true), true) == s
    ensures MenuDown(MenuDown(MenuDown(s, true), true), true) == s
  {
  }

  /** On the menu: Escape selects nothing and highlights Quit, Up and Down
      move the highlight, no key or any other key keeps it. */
  lemma MenuKeys(selection: MainMenuSelection, key: Option<MenuKey>, saveExists: bool)
    ensures var r := MainMenuOutcome(RunState.MainMenu(selection), key, saveExists);
      && (key == Some(Escape) ==> r == NoSelection(Quit))
      && (key == Some(Up) ==> r == NoSelection(MenuUp(selection, saveExists)))
      && (key == Some(Down) ==> r == NoSelection(MenuDown(selection, saveExists)))
      && (key == Some(Return) ==> r == Selected(selection))
      && ((key.None? || key.value.OtherKey?) ==> r == NoSelection(selection))
  {
  }
}
