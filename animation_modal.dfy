/**
  The end-of-game dialog (pages/game/AnimationModal.jsx): whether it is
  rendered for the current user, its title, its button text and the
  animation it shows, and what closing it does.
*/
module AnimationModal {
  import opened Wrappers
  import opened TournamentStates

  /** A player of the game as the dialog sees it: the game result ("won", "lost", "gave_up", "undefined", ...). */
  datatype GamePlayer = GamePlayer(result: string)

  /** The dialog: whether it is open, its title, its button, and the key of its animation. */
  datatype ModalView = ModalView(show: bool, title: string, buttonText: string, gif: string)

  const CHAMPION_TITLE := "Woohoo, you're Champion!!!!!"
  const LOST_TITLE := "If you read this you've lost the game"
  const CHAMPION_BUTTON := "Thanks"
  const LOST_BUTTON := "I'll be back"

  /**
    The dialog for the current user, or nothing. It is rendered only for a
    player of the game whose result is not the string "undefined"; a win
    gets the champion title and "Thanks", any other result the losing title
    and "I'll be back"; the animation is the one keyed by the result.
  */
  function ModalFor(players: map<UserId, GamePlayer>, currentUserId: UserId, modalShowing: bool): (v: Option<ModalView>)
    ensures v.Some? <==> currentUserId in players && players[currentUserId].result != "undefined"
    ensures v.Some? ==> var result := players[currentUserId].result;
      && (v.value.title == CHAMPION_TITLE <==> result == "won")
      && (v.value.title == LOST_TITLE <==> result != "won")
      && (v.value.buttonText == CHAMPION_BUTTON <==> result == "won")
      && (v.value.buttonText == LOST_BUTTON <==> result != "won")
      && v.value.gif == result
      && v.value.show == modalShowing
  {
    if currentUserId !in players then None
    else
      var result := players[currentUserId].result;
      var title := if result == "won" then CHAMPION_TITLE else LOST_TITLE;
      var buttonText := if result == "won" then CHAMPION_BUTTON else LOST_BUTTON;
      if result != "undefined" then Some(ModalView(modalShowing, title, buttonText, result))
      else None
  }

  /** Title and button always come as a pair: champion with "Thanks", loser with "I'll be back". */
  lemma TitleMatchesButton(players: map<UserId, GamePlayer>, currentUserId: UserId, modalShowing: bool)
    ensures var v := ModalFor(players, currentUserId, modalShowing);
      v.Some? ==>
        (v.value.title, v.value.buttonText) in {(CHAMPION_TITLE, CHAMPION_BUTTON), (LOST_TITLE, LOST_BUTTON)}
  {
  }

  /** Only the current user's own entry matters: other players may change freely. */
  lemma OnlyOwnEntryMatters(players: map<UserId, GamePlayer>, other: UserId, p: GamePlayer, currentUserId: UserId, modalShowing: bool)
    requires other != currentUserId
    ensures ModalFor(players[other := p], currentUserId, modalShowing) == ModalFor(players, currentUserId, modalShowing)
  {
  }

  /** The owner of the dialog's visibility flag, together with the rest of its state. */
  datatype ModalHost<S> = ModalHost(modalShowing: bool, rest: S)

  /** `handleCloseModal`: clears the visibility flag and touches nothing else. */
  function CloseModal<S>(h: ModalHost<S>): (h': ModalHost<S>)
    ensures !h'.modalShowing
    ensures h'.rest == h.rest
  {
    h.(modalShowing := false)
  }

  /**
    After closing, the same dialog would be rendered hidden: whether it is
    rendered, its title, its button and its animation do not change, and
    closing twice is closing once.
  */
  lemma CloseHidesOnly<S>(players: map<UserId, GamePlayer>, currentUserId: UserId, h: ModalHost<S>)
    ensures var before, after := ModalFor(players, currentUserId, h.modalShowing),
                                 ModalFor(players, currentUserId, CloseModal(h).modalShowing);
      && (after.Some? <==> before.Some?)
      && (after.Some? ==> after.value == before.value.(show := false))
    ensures CloseModal(CloseModal(h)) == CloseModal(h)
  {
  }

}
