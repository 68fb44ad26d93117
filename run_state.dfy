/** The game's control state. src/state.rs is an older copy that lacks the variants the
    systems and the GUI use; this is the set those call sites name
    (src/turn_decider.rs, src/player.rs, src/gui/main_menu_drawer.rs). */
module RunStates {
  datatype MainMenuSelection = NewGame | LoadGame | Quit

  datatype RunState =
    | PreRun
    | AwaitingInput
    | PlayerTurn
    | WorldTurn
    | ShowInventory
    | ShowDropItem
    | MainMenu(menuSelection: MainMenuSelection)
}
