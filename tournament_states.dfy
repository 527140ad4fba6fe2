/**
  The tournament states the page distinguishes. The configuration that gives
  them their concrete values is not part of this model; `Unknown` stands for
  every other value, including the one seen before the tournament is loaded.
*/
module TournamentStates {

  datatype TournamentState = WaitingParticipants | Active | Cancelled | Finished | Unknown

  type UserId = int

}
