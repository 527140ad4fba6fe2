/**
  The derivations of the tournament page header
  (pages/tournament/TournamentHeader.jsx): the access icon, the state badge
  (title and colour classes), the line describing the state (which timer,
  started from which timestamp and for how long), who may moderate, and
  which action buttons are offered.
*/
module TournamentHeader {
  import opened Wrappers
  import opened TournamentStates

  /** The tournament's break flag: `Unset` is any value other than "on" and "off". */
  datatype BreakState = BreakOn | BreakOff | BreakUnset

  /** The header's inputs. Timestamps are opaque strings; `players` holds the participants' ids. */
  datatype HeaderProps = HeaderProps(
    state: TournamentState,
    breakState: BreakState,
    breakDurationSeconds: int,
    matchTimeoutSeconds: int,
    lastRoundStartedAt: string,
    lastRoundEndedAt: string,
    startsAt: string,
    kind: string,
    accessType: string,
    players: set<UserId>,
    playersCount: int,
    creatorId: UserId,
    currentUserId: UserId,
    isOnline: bool,
    isOver: bool)

  // ---------------------------------------------------------------------------
  // Labels
  // ---------------------------------------------------------------------------

  /** `getIconByAccessType`: a lock for token-protected tournaments. */
  function IconByAccessType(accessType: string): (icon: string)
    ensures icon == "lock" <==> accessType == "token"
    ensures icon == "unlock" <==> accessType != "token"
  {
    if accessType == "token" then "lock" else "unlock"
  }

  /** The tooltip beside the access icon. */
  function AccessTitle(accessType: string): (title: string)
    ensures title == "Private tournament" <==> accessType == "token"
    ensures title == "Public tournament" <==> accessType != "token"
  {
    if accessType == "token" then "Private tournament" else "Public tournament"
  }

  /** The lock icon and the "Private tournament" tooltip always appear together. */
  lemma AccessIconAgreesWithTitle(accessType: string)
    ensures IconByAccessType(accessType) == "lock" <==> AccessTitle(accessType) == "Private tournament"
  {
  }

  /**
    `getBadgeTitle`. Every title identifies the state it is shown for: an
    active tournament is "Active" exactly when its break is off and
    "Round break" for any other break value; the three other named states
    have their own titles and everything else reads "Loading".
  */
  function BadgeTitle(state: TournamentState, breakState: BreakState): (title: string)
    ensures title == "Active" <==> state == Active && breakState == BreakOff
    ensures title == "Round break" <==> state == Active && breakState != BreakOff
    ensures title == "Waiting Participants" <==> state == WaitingParticipants
    ensures title == "Cancelled" <==> state == Cancelled
    ensures title == "Finished" <==> state == Finished
    ensures title == "Loading" <==> state == Unknown
  {
    if state == Active then
      if breakState == BreakOff then "Active" else "Round break"
    else
      match state
      case WaitingParticipants => "Waiting Participants"
      case Cancelled => "Cancelled"
      case Finished => "Finished"
      case _ => "Loading"
  }

  /** `getDescriptionByState`: a sentence only for a cancelled or finished tournament. */
  function DescriptionByState(state: TournamentState): (text: string)
    ensures text != "" <==> state == Cancelled || state == Finished
    ensures state == Cancelled ==> text == "The tournament is cancelled"
    ensures state == Finished ==> text == "The tournament is finished"
  {
    match state
    case Cancelled => "The tournament is cancelled"
    case Finished => "The tournament is finished"
    case _ => ""
  }

  // ---------------------------------------------------------------------------
  // State description
  // ---------------------------------------------------------------------------

  /**
    What `TournamentStateDescription` renders: the start timer, a countdown
    from a timestamp over a number of seconds behind a caption, or text.
  */
  datatype StateDescription =
    | StartTimer(startsAt: string, isOnline: bool)
    | Countdown(caption: string, from: string, seconds: int)
    | Text(text: string)

  const ROUND_ENDS := "Round ends in "
  const NEXT_ROUND := "Next round will start in "

  /**
    The case split of `TournamentStateDescription`: the start timer while
    waiting for participants; during a round, the countdown from the round's
    start over the match timeout; during a break, the countdown from the
    round's end over the break duration; otherwise the state's sentence.
  */
  function DescribeState(p: HeaderProps): (d: StateDescription)
    ensures d.StartTimer? <==> p.state == WaitingParticipants
    ensures d.StartTimer? ==> d == StartTimer(p.startsAt, p.isOnline)
    ensures d.Countdown? <==> p.state == Active && (p.breakState == BreakOn || p.breakState == BreakOff)
    ensures d.Countdown? && p.breakState == BreakOff ==>
      d == Countdown(ROUND_ENDS, p.lastRoundStartedAt, p.matchTimeoutSeconds)
    ensures d.Countdown? && p.breakState == BreakOn ==>
      d == Countdown(NEXT_ROUND, p.lastRoundEndedAt, p.breakDurationSeconds)
    ensures d.Text? ==> d.text == DescriptionByState(p.state)
  {
    if p.state == WaitingParticipants then StartTimer(p.startsAt, p.isOnline)
    else if p.state == Active && p.breakState == BreakOff then
      Countdown(ROUND_ENDS, p.lastRoundStartedAt, p.matchTimeoutSeconds)
    else if p.state == Active && p.breakState == BreakOn then
      Countdown(NEXT_ROUND, p.lastRoundEndedAt, p.breakDurationSeconds)
    else Text(DescriptionByState(p.state))
  }

  /**
    The badge and the line beside it tell the same story: the start timer
    goes with "Waiting Participants", the round countdown with "Active",
    the break countdown with "Round break", and a sentence with "Cancelled"
    or "Finished". The one gap: an active tournament whose break flag is
    neither value reads "Round break" with an empty line beside it.
  */
  lemma DescriptionAgreesWithBadge(p: HeaderProps)
    ensures var d, title := DescribeState(p), BadgeTitle(p.state, p.breakState);
      && (d.StartTimer? <==> title == "Waiting Participants")
      && (d.Countdown? && d.caption == ROUND_ENDS <==> title == "Active")
      && (d.Countdown? && d.caption == NEXT_ROUND ==> title == "Round break")
      && (title == "Round break" && !d.Countdown? <==> p.state == Active && p.breakState == BreakUnset)
      && (title == "Round break" && !d.Countdown? ==> d == Text(""))
      && (d.Text? && d.text != "" <==> title == "Cancelled" || title == "Finished")
  {
  }

  /**
    `TournamentTimer`, given what the timer hook reports: nothing offline,
    otherwise the time left while it is positive and "soon" after that.
  */
  function StartTimerText(isOnline: bool, secondsLeft: int, durationText: string): (t: Option<string>)
    ensures t.None? <==> !isOnline
    ensures t.Some? && secondsLeft > 0 ==> t.value == "The tournament will start in\U{A0}" + durationText
    ensures t.Some? && secondsLeft <= 0 ==> t.value == "The tournament will start soon"
  {
    if !isOnline then None
    else if secondsLeft > 0 then Some("The tournament will start in\U{A0}" + durationText)
    else Some("The tournament will start soon")
  }

  /** `TournamentRemainingTimer`: the time left while positive, then nothing. */
  function RemainingTimerText(secondsLeft: int, timeText: string): (t: string)
    ensures secondsLeft > 0 ==> t == timeText
    ensures secondsLeft <= 0 ==> t == ""
  {
    if secondsLeft > 0 then timeText else ""
  }

  // ---------------------------------------------------------------------------
  // Permissions and badge classes
  // ---------------------------------------------------------------------------

  /** The creator and administrators may moderate. */
  function CanModerate(creatorId: UserId, currentUserId: UserId, isAdmin: bool): (b: bool)
    ensures b <==> creatorId == currentUserId || isAdmin
  {
    creatorId == currentUserId || isAdmin
  }

  /** A tournament can be started while it waits and someone has joined. */
  function CanStart(state: TournamentState, playersCount: int): (b: bool)
    ensures b <==> state == WaitingParticipants && playersCount >= 1
  {
    state == WaitingParticipants && playersCount > 0
  }

  /** A tournament can be restarted once it is running or over. */
  function CanRestart(state: TournamentState): (b: bool)
    ensures b <==> state in {Active, Finished, Cancelled}
  {
    state == Active || state == Finished || state == Cancelled
  }

  /** Starting and restarting are never offered together, and an unloaded tournament offers neither. */
  lemma StartRestartExclusive(state: TournamentState, playersCount: int)
    ensures !(CanStart(state, playersCount) && CanRestart(state))
    ensures state == Unknown ==> !CanStart(state, playersCount) && !CanRestart(state)
    ensures state == WaitingParticipants ==> (CanStart(state, playersCount) <==> playersCount > 0)
  {
  }

  /** The colour classes of the state badge. */
  datatype BadgeClasses = BadgeClasses(warning: bool, success: bool, light: bool, danger: bool)

  /** The `cn(...)` flags of `stateClassName`. */
  function StateBadgeClasses(state: TournamentState, breakState: BreakState): (c: BadgeClasses)
    ensures c.warning <==> state == WaitingParticipants
    ensures c.success <==> breakState == BreakOff || state == Finished
    ensures c.light <==> state == Cancelled
    ensures c.danger <==> breakState == BreakOn
  {
    BadgeClasses(
      state == WaitingParticipants,
      breakState == BreakOff || state == Finished,
      state == Cancelled,
      breakState == BreakOn)
  }

  function ColourCount(c: BadgeClasses): (n: nat)
    ensures n <= 4
  {
    (if c.warning then 1 else 0) + (if c.success then 1 else 0)
    + (if c.light then 1 else 0) + (if c.danger then 1 else 0)
  }

  /**
    The flags are independent, so the badge can carry two colours: it has
    at most one exactly when the break flag is unset, the tournament is
    active or not loaded, or it is finished with the break off; it has none
    exactly when the break flag is unset and the tournament is active or
    not loaded.
  */
  lemma BadgeColours(state: TournamentState, breakState: BreakState)
    ensures var n := ColourCount(StateBadgeClasses(state, breakState));
      && (n <= 1 <==> breakState == BreakUnset || state in {Active, Unknown}
                      || (state == Finished && breakState == BreakOff))
      && (n == 0 <==> breakState == BreakUnset && state in {Active, Unknown})
  {
  }

  /** In an active tournament the colour follows the title: green for "Active", red for a break that is on. */
  lemma ActiveBadgeColour(breakState: BreakState)
    ensures var c, title := StateBadgeClasses(Active, breakState), BadgeTitle(Active, breakState);
      && (c.success <==> title == "Active")
      && (c.danger ==> title == "Round break")
      && !c.warning && !c.light
  {
  }

  // ---------------------------------------------------------------------------
  // Action buttons
  // ---------------------------------------------------------------------------

  datatype JoinButton = JoinButton(isShow: bool, isParticipant: bool, disabled: bool)

  datatype ControlButtons = ControlButtons(canStart: bool, canRestart: bool, disabled: bool)

  /** Which actions the header offers. */
  datatype HeaderActions = HeaderActions(
    join: Option<JoinButton>,
    controls: Option<ControlButtons>,
    returnLink: bool,
    tokenPanel: bool)

  function Actions(p: HeaderProps, isAdmin: bool): (a: HeaderActions)
    ensures a.returnLink <==> p.isOver
    ensures a.join.Some? <==> !p.isOver && p.kind != "team"
    ensures a.controls.Some? <==> !p.isOver && CanModerate(p.creatorId, p.currentUserId, isAdmin)
    ensures a.tokenPanel <==> CanModerate(p.creatorId, p.currentUserId, isAdmin) && p.accessType == "token"
    ensures a.join.Some? ==> a.join.value == JoinButton(p.state != Active, p.currentUserId in p.players, !p.isOnline)
    ensures a.controls.Some? ==>
      a.controls.value == ControlButtons(CanStart(p.state, p.playersCount), CanRestart(p.state), !p.isOnline)
  {
    var canModerate := CanModerate(p.creatorId, p.currentUserId, isAdmin);
    HeaderActions(
      if !p.isOver && p.kind != "team" then
        Some(JoinButton(p.state != Active, p.currentUserId in p.players, !p.isOnline))
      else None,
      if !p.isOver && canModerate then
        Some(ControlButtons(CanStart(p.state, p.playersCount), CanRestart(p.state), !p.isOnline))
      else None,
      p.isOver,
      canModerate && p.accessType == "token")
  }

  /**
    When the tournament is over, neither the join button nor the control
    buttons are offered, but a moderator of a token tournament still gets
    the token panel. Otherwise the join button is shown outside active
    rounds, knows whether the viewer already joined, and like the control
    buttons is disabled offline; the control buttons never offer start and
    restart together.
  */
  lemma ActionsConsistent(p: HeaderProps, isAdmin: bool)
    ensures var a := Actions(p, isAdmin);
      && (a.returnLink ==> a.join.None? && a.controls.None?)
      && (a.returnLink ==> (a.tokenPanel <==> CanModerate(p.creatorId, p.currentUserId, isAdmin) && p.accessType == "token"))
      && (a.join.Some? ==> a.join.value == JoinButton(p.state != Active, p.currentUserId in p.players, !p.isOnline))
      && (a.controls.Some? ==> !(a.controls.value.canStart && a.controls.value.canRestart))
      && (a.controls.Some? ==> a.controls.value.disabled == !p.isOnline)
      && (a.controls.Some? && p.state == WaitingParticipants ==>
            (a.controls.value.canStart <==> p.playersCount > 0))
  {
  }

}
