/**
  The derivations behind the team-tournament match board
  (pages/tournament/TeamMatches.jsx): the per-round score of the two teams,
  the action link offered for each match, the grouping of matches by round
  and the order in which rounds are listed, and the players shown under
  each team.
*/
module TeamMatches {
  import opened Wrappers
  import opened Sequences
  import opened JsStrings
  import opened TournamentStates

  /** A match's state: `Over` is every state other than waiting and playing. */
  datatype MatchState = Waiting | Playing | Over

  /**
    A match snapshot. `playerResults` lists each player's game result in
    seat order ("won", "lost", "gave_up", "undefined", ...); `winnerId` is
    absent while the match has no winner.
  */
  datatype Match = Match(
    round: nat,
    playerIds: seq<UserId>,
    playerResults: seq<string>,
    state: MatchState,
    winnerId: Option<UserId>)

  /** Points of the first and the second team in one round. */
  datatype RoundScore = RoundScore(first: nat, second: nat)

  // ---------------------------------------------------------------------------
  // Round tally
  // ---------------------------------------------------------------------------

  /** Result of the player in seat i; destructuring past the end gives `undefined`. */
  function ResultAt(m: Match, i: nat): (r: Option<string>)
    ensures r.Some? <==> i < |m.playerResults|
  {
    if i < |m.playerResults| then Some(m.playerResults[i]) else None
  }

  /** The first team's rule: player 1 won or player 2 gave up. It needs at least one result. */
  predicate FirstRule(m: Match)
    ensures FirstRule(m) ==> m.playerResults != []
  {
    ResultAt(m, 0) == Some("won") || ResultAt(m, 1) == Some("gave_up")
  }

  /** The second team's rule: player 2 won or player 1 gave up. It needs at least one result. */
  predicate SecondRule(m: Match)
    ensures SecondRule(m) ==> m.playerResults != []
  {
    ResultAt(m, 1) == Some("won") || ResultAt(m, 0) == Some("gave_up")
  }

  /**
    The two rules are not exclusive: both hold exactly when both players
    won or both gave up. For those matches the early return decides, and
    the point goes to the first team.
  */
  lemma RulesOverlap(m: Match, acc: RoundScore)
    ensures FirstRule(m) && SecondRule(m) <==>
      |m.playerResults| >= 2 &&
      ((m.playerResults[0] == "won" && m.playerResults[1] == "won") ||
       (m.playerResults[0] == "gave_up" && m.playerResults[1] == "gave_up"))
    ensures FirstRule(m) && SecondRule(m) ==> AddMatch(acc, m) == RoundScore(acc.first + 1, acc.second)
  {
  }

  /** The reducer: the first rule is tried first and returns early. */
  function AddMatch(acc: RoundScore, m: Match): (r: RoundScore)
    ensures r.first + r.second <= acc.first + acc.second + 1
    ensures FirstRule(m) ==> r == RoundScore(acc.first + 1, acc.second)
    ensures !FirstRule(m) && SecondRule(m) ==> r == RoundScore(acc.first, acc.second + 1)
    ensures !FirstRule(m) && !SecondRule(m) ==> r == acc
  {
    if FirstRule(m) then acc.(first := acc.first + 1)
    else if SecondRule(m) then acc.(second := acc.second + 1)
    else acc
  }

  /** `matches.reduce(AddMatch, {first: 0, second: 0})`, folding from the left. */
  function CalcRoundResult(ms: seq<Match>): (r: RoundScore)
    ensures r.first + r.second <= |ms|
    decreases |ms|
  {
    if ms == [] then RoundScore(0, 0)
    else AddMatch(CalcRoundResult(ms[..|ms| - 1]), ms[|ms| - 1])
  }

  /** A match that gives the second team its point: only when the first rule fails. */
  predicate SecondPoint(m: Match) {
    !FirstRule(m) && SecondRule(m)
  }

  /** Number of matches in ms satisfying p. */
  function CountWhere(ms: seq<Match>, p: Match -> bool): (n: nat)
    ensures n <= |ms|
  {
    if ms == [] then 0 else (if p(ms[0]) then 1 else 0) + CountWhere(ms[1..], p)
  }

  lemma {:induction false} CountAppend(a: seq<Match>, b: seq<Match>, p: Match -> bool)
    ensures CountWhere(a + b, p) == CountWhere(a, p) + CountWhere(b, p)
  {
    if a == [] {
      assert a + b == b;
    } else {
      assert (a + b)[0] == a[0];
      assert (a + b)[1..] == a[1..] + b;
      CountAppend(a[1..], b, p);
    }
  }

  /** Taking one match out of a list: its multiset loses that match and its count loses its share. */
  lemma {:induction false} RemoveAt(b: seq<Match>, i: nat, p: Match -> bool)
    requires i < |b|
    ensures multiset(b[..i] + b[i + 1..]) == multiset(b) - multiset{b[i]}
    ensures CountWhere(b, p) == (if p(b[i]) then 1 else 0) + CountWhere(b[..i] + b[i + 1..], p)
  {
    var x, front, back := b[i], b[..i], b[i + 1..];
    assert b == front + ([x] + back);
    calc {
      multiset(b);
      multiset(front) + multiset([x] + back);
      multiset(front) + multiset{x} + multiset(back);
    }
    CountAppend(front, [x] + back, p);
    CountAppend(front, back, p);
    CountCons(x, back, p);
  }

  lemma CountCons(x: Match, s: seq<Match>, p: Match -> bool)
    ensures CountWhere([x] + s, p) == (if p(x) then 1 else 0) + CountWhere(s, p)
  {
    assert ([x] + s)[0] == x;
    assert ([x] + s)[1..] == s;
  }

  /** A count depends only on which matches there are, not on their order. */
  lemma {:induction false} CountPermutation(a: seq<Match>, b: seq<Match>, p: Match -> bool)
    requires multiset(a) == multiset(b)
    ensures CountWhere(a, p) == CountWhere(b, p)
  {
    if a == [] {
      assert |b| == |multiset(b)| == 0;
    } else {
      var x, tail := a[0], a[1..];
      assert x in multiset(b);
      assert x in b;
      var i :| 0 <= i < |b| && b[i] == x;
      var rest := b[..i] + b[i + 1..];
      RemoveAt(b, i, p);
      RemoveAt(a, 0, p);
      assert a[..0] + tail == tail;
      assert multiset(tail) == multiset(rest);
      CountPermutation(tail, rest, p);
    }
  }

  /**
    The tally, stated independently of the fold: the first team has one
    point per match satisfying the first rule, the second team one point
    per match satisfying the second rule but not the first. In particular
    an empty round is 0 : 0.
  */
  lemma {:induction false} RoundResultCounts(ms: seq<Match>)
    ensures CalcRoundResult(ms) == RoundScore(CountWhere(ms, FirstRule), CountWhere(ms, SecondPoint))
    decreases |ms|
  {
    if ms != [] {
      var init, last := ms[..|ms| - 1], ms[|ms| - 1];
      RoundResultCounts(init);
      assert ms == init + [last];
      CountAppend(init, [last], FirstRule);
      CountAppend(init, [last], SecondPoint);
    }
  }

  /** The round's score does not depend on the order of its matches. */
  lemma RoundResultOrderIndependent(a: seq<Match>, b: seq<Match>)
    requires multiset(a) == multiset(b)
    ensures CalcRoundResult(a) == CalcRoundResult(b)
  {
    RoundResultCounts(a);
    RoundResultCounts(b);
    CountPermutation(a, b, FirstRule);
    CountPermutation(a, b, SecondPoint);
  }

  /**
    One more match changes the score by at most one point: to the first
    team whenever the first rule holds (even if the second also holds), to
    the second team only when the first rule fails, and not at all when
    neither rule holds.
  */
  lemma RoundResultStep(ms: seq<Match>, m: Match)
    ensures var before, after := CalcRoundResult(ms), CalcRoundResult(ms + [m]);
      && (FirstRule(m) ==> after == RoundScore(before.first + 1, before.second))
      && (!FirstRule(m) && SecondRule(m) ==> after == RoundScore(before.first, before.second + 1))
      && (!FirstRule(m) && !SecondRule(m) ==> after == before)
  {
    assert (ms + [m])[..|ms|] == ms;
  }

  /** A round in which every first player won goes entirely to the first team. */
  lemma {:induction false} AllFirstWon(ms: seq<Match>)
    requires forall i :: 0 <= i < |ms| ==> ResultAt(ms[i], 0) == Some("won")
    ensures CalcRoundResult(ms) == RoundScore(|ms|, 0)
    decreases |ms|
  {
    if ms != [] {
      AllFirstWon(ms[..|ms| - 1]);
    }
  }

  /**
    Sample matches: a plain win, a give-up by the first player, and two
    players who both gave up, which the first rule claims.
  */
  lemma RoundResultExamples(m: Match)
    ensures m.playerResults == ["won", "lost"] ==> CalcRoundResult([m]) == RoundScore(1, 0)
    ensures m.playerResults == ["gave_up", "lost"] ==> CalcRoundResult([m]) == RoundScore(0, 1)
    ensures m.playerResults == ["gave_up", "gave_up"] ==> CalcRoundResult([m]) == RoundScore(1, 0)
    ensures m.playerResults == ["lost", "lost"] ==> CalcRoundResult([m]) == RoundScore(0, 0)
    ensures m.playerResults == ["undefined", "undefined"] ==> CalcRoundResult([m]) == RoundScore(0, 0)
  {
    assert [m][..0] == [];
  }

  // ---------------------------------------------------------------------------
  // Match link
  // ---------------------------------------------------------------------------

  /** The link's caption and the background class of the match row. */
  datatype LinkParams = LinkParams(caption: string, cssClass: string)

  predicate IsParticipant(m: Match, viewer: UserId) {
    viewer in m.playerIds
  }

  predicate IsWinner(m: Match, viewer: UserId) {
    m.winnerId == Some(viewer)
  }

  /**
    `getLinkParams`: a priority chain in which the first matching case wins.
    Output by output: a participant waits for a waiting match and joins a
    running one; everyone else is offered "Show". The row is highlighted for
    a participant of a waiting or running match and for the winner, greyed
    for a participant who did not win a match that is neither waiting nor
    playing, and plain for everyone else.
  */
  function GetLinkParams(m: Match, viewer: UserId): (r: LinkParams)
    ensures r.caption == "Wait" <==> IsParticipant(m, viewer) && m.state == Waiting
    ensures r.caption == "Join" <==> IsParticipant(m, viewer) && m.state == Playing
    ensures r.caption == "Show" <==> !(IsParticipant(m, viewer) && (m.state == Waiting || m.state == Playing))
    ensures r.cssClass == "bg-warning" <==> (IsParticipant(m, viewer) && (m.state == Waiting || m.state == Playing)) || IsWinner(m, viewer)
    ensures r.cssClass == "x-bg-gray" <==> IsParticipant(m, viewer) && m.state != Waiting && m.state != Playing && !IsWinner(m, viewer)
    ensures r.cssClass == "" <==> !IsParticipant(m, viewer) && !IsWinner(m, viewer)
  {
    if m.state == Waiting && IsParticipant(m, viewer) then LinkParams("Wait", "bg-warning")
    else if m.state == Playing && IsParticipant(m, viewer) then LinkParams("Join", "bg-warning")
    else if IsWinner(m, viewer) then LinkParams("Show", "bg-warning")
    else if IsParticipant(m, viewer) then LinkParams("Show", "x-bg-gray")
    else LinkParams("Show", "")
  }

  /** While a participant's match is waiting or running, the winner field does not matter. */
  lemma LinkIgnoresWinnerForActiveParticipant(m: Match, viewer: UserId, w: Option<UserId>)
    requires IsParticipant(m, viewer) && m.state != Over
    ensures GetLinkParams(m.(winnerId := w), viewer) == GetLinkParams(m, viewer)
    ensures GetLinkParams(m, viewer).cssClass == "bg-warning"
  {
  }

  // ---------------------------------------------------------------------------
  // Grouping by round and round order
  // ---------------------------------------------------------------------------

  /** The object key of a match's round: `String(match.round)`, a non-empty run of decimal digits. */
  function RoundKey(m: Match): (k: string)
    ensures k == DecimalString(m.round)
    ensures |k| >= 1 && forall i :: 0 <= i < |k| ==> '0' <= k[i] <= '9'
  {
    DecimalString(m.round)
  }

  function RoundKeySet(ms: seq<Match>): set<string> {
    set m | m in ms :: RoundKey(m)
  }

  /** lodash `groupBy(matches, m => m.round)`: each match is pushed onto its round's list. */
  function GroupByRound(ms: seq<Match>): (g: map<string, seq<Match>>)
    ensures g.Keys == RoundKeySet(ms)
    ensures forall k :: k in g ==> g[k] != []
    decreases |ms|
  {
    if ms == [] then map[]
    else
      var g := GroupByRound(ms[..|ms| - 1]);
      var m := ms[|ms| - 1];
      var k := RoundKey(m);
      assert ms == ms[..|ms| - 1] + [m];
      assert RoundKeySet(ms) == RoundKeySet(ms[..|ms| - 1]) + {k};
      g[k := (if k in g then g[k] else []) + [m]]
  }

  /** The matches of round key k, in their original order. */
  function InRound(ms: seq<Match>, k: string): (r: seq<Match>)
    ensures |r| <= |ms|
    decreases |ms|
  {
    if ms == [] then []
    else InRound(ms[..|ms| - 1], k) + (if RoundKey(ms[|ms| - 1]) == k then [ms[|ms| - 1]] else [])
  }

  /** InRound keeps exactly the matches of round key k, each as often as it occurs. */
  lemma {:induction false} InRoundMembers(ms: seq<Match>, k: string)
    ensures forall x :: multiset(InRound(ms, k))[x] == if RoundKey(x) == k then multiset(ms)[x] else 0
    decreases |ms|
  {
    if ms != [] {
      InRoundMembers(ms[..|ms| - 1], k);
      assert ms == ms[..|ms| - 1] + [ms[|ms| - 1]];
    }
  }

  /**
    The groups: there is a group exactly for each round key that occurs,
    it is never empty, and it holds the matches of that round in their
    original relative order.
  */
  lemma {:induction false} GroupByRoundSpec(ms: seq<Match>)
    ensures GroupByRound(ms).Keys == RoundKeySet(ms)
    ensures forall k :: k in GroupByRound(ms) ==> GroupByRound(ms)[k] == InRound(ms, k) != []
    decreases |ms|
  {
    if ms != [] {
      var init, last := ms[..|ms| - 1], ms[|ms| - 1];
      GroupByRoundSpec(init);
      assert ms == init + [last];
      forall k | k in GroupByRound(ms) ensures GroupByRound(ms)[k] == InRound(ms, k) {
        if k !in GroupByRound(init) {
          InRoundEmpty(init, k);
        }
      }
    }
  }

  lemma {:induction false} InRoundEmpty(ms: seq<Match>, k: string)
    requires k !in RoundKeySet(ms)
    ensures InRound(ms, k) == []
    decreases |ms|
  {
    if ms != [] {
      var init := ms[..|ms| - 1];
      assert RoundKeySet(init) <= RoundKeySet(ms);
      InRoundEmpty(init, k);
    }
  }

  /** Every match lies in the group of its own round number and in no other group. */
  lemma MatchInItsRoundOnly(ms: seq<Match>, m: Match, round: nat)
    requires m in ms
    requires DecimalString(round) in GroupByRound(ms)
    ensures m in GroupByRound(ms)[DecimalString(round)] <==> m.round == round
  {
    var k := DecimalString(round);
    GroupByRoundSpec(ms);
    InRoundMembers(ms, k);
    assert m in multiset(ms);
    if m in GroupByRound(ms)[k] {
      assert m in multiset(InRound(ms, k));
      DecimalStringInjective(m.round, round);
    }
  }

  /**
    The round key of every match, in order and with repeats. De-duplicating
    it (inside `SortDescending`) gives the keys of the groups.
  */
  function RoundKeys(ms: seq<Match>): (ks: seq<string>)
    ensures |ks| == |ms|
    ensures forall i :: 0 <= i < |ms| ==> ks[i] == RoundKey(ms[i])
    ensures forall k :: k in ks <==> k in RoundKeySet(ms)
  {
    var ks := seq(|ms|, i requires 0 <= i < |ms| => RoundKey(ms[i]));
    assert forall k :: k in RoundKeySet(ms) ==> k in ks by {
      forall k | k in RoundKeySet(ms) ensures k in ks {
        var m :| m in ms && RoundKey(m) == k;
        var i :| 0 <= i < |ms| && ms[i] == m;
        assert ks[i] == k;
      }
    }
    ks
  }

  /**
    `reverse(Object.keys(groups).sort())`: the round list names every group
    exactly once, in strictly descending lexicographic order, the reverse of
    JavaScript's default ascending sort.
  */
  function Rounds(ms: seq<Match>): (r: seq<string>)
    ensures forall k :: k in r <==> k in GroupByRound(ms)
    ensures Distinct(r)
    ensures Descending(r, LexLess)
  {
    LexLessIsStrictTotalOrder();
    SortDescendingSpec(RoundKeys(ms), LexLess);
    SortDescending(RoundKeys(ms), LexLess)
  }

  /** No other order is possible: any descending listing of the group keys is Rounds. */
  lemma RoundsUnique(ms: seq<Match>, r: seq<string>)
    requires Descending(r, LexLess)
    requires forall k :: k in r <==> k in GroupByRound(ms)
    ensures r == Rounds(ms)
  {
    LexLessIsStrictTotalOrder();
    DescendingUnique(r, Rounds(ms), LexLess);
  }

  /** The round keys of four matches of rounds 1, 10, 2 and 9. */
  lemma FourRoundKeys(ms: seq<Match>)
    requires |ms| == 4
    requires ms[0].round == 1 && ms[1].round == 10 && ms[2].round == 2 && ms[3].round == 9
    ensures GroupByRound(ms).Keys == {"1", "10", "2", "9"}
  {
    assert DecimalString(10) == "10";
    assert RoundKey(ms[0]) == "1" && RoundKey(ms[1]) == "10" && RoundKey(ms[2]) == "2" && RoundKey(ms[3]) == "9";
    assert forall m :: m in ms <==> m == ms[0] || m == ms[1] || m == ms[2] || m == ms[3];
    assert ms[0] in ms && ms[1] in ms && ms[2] in ms && ms[3] in ms;
  }

  lemma DescendingSample()
    ensures Descending(["9", "2", "10", "1"], LexLess)
  {
    assert LexLess("2", "9") && LexLess("10", "2") && LexLess("1", "10");
    LexLessIsStrictTotalOrder();
  }

  /** With rounds 1, 10, 2 and 9 the list is "9", "2", "10", "1": string order, not numeric order. */
  lemma RoundsAreLexicographic(ms: seq<Match>)
    requires |ms| == 4
    requires ms[0].round == 1 && ms[1].round == 10 && ms[2].round == 2 && ms[3].round == 9
    ensures Rounds(ms) == ["9", "2", "10", "1"]
  {
    FourRoundKeys(ms);
    DescendingSample();
    RoundsUnique(ms, ["9", "2", "10", "1"]);
  }

  /** The round numbers of the matches, in order. */
  function RoundNumbers(ms: seq<Match>): (ns: seq<nat>)
    ensures |ns| == |ms|
    ensures forall i :: 0 <= i < |ms| ==> ns[i] == ms[i].round
  {
    seq(|ms|, i requires 0 <= i < |ms| => ms[i].round)
  }

  predicate NumLess(a: nat, b: nat) {
    a < b
  }

  lemma NumLessIsStrictTotalOrder()
    ensures StrictTotalOrder(NumLess)
  {
  }

  /** A round number is listed exactly when some match is of that round. */
  lemma RoundNumbersOccur(ms: seq<Match>)
    ensures forall n :: n in RoundNumbers(ms) <==> exists m :: m in ms && m.round == n
  {
    var ns := RoundNumbers(ms);
    forall n ensures n in ns <==> exists m :: m in ms && m.round == n {
      if n in ns {
        var i :| 0 <= i < |ns| && ns[i] == n;
        assert ms[i] in ms;
      }
    }
  }

  lemma NumericallyDescending(r: seq<nat>)
    requires Descending(r, NumLess)
    ensures forall i, j :: 0 <= i < j < |r| ==> r[i] > r[j]
  {
    forall i, j | 0 <= i < j < |r| ensures r[i] > r[j] {
      assert NumLess(r[j], r[i]);
    }
  }

  /**
    Most recent round first, comparing round numbers as numbers: every round
    that occurs appears exactly once, from the highest number down.
  */
  function RoundsNumeric(ms: seq<Match>): (r: seq<nat>)
    ensures forall n :: n in r <==> exists m :: m in ms && m.round == n
    ensures Distinct(r)
    ensures forall i, j :: 0 <= i < j < |r| ==> r[i] > r[j]
  {
    var ns := RoundNumbers(ms);
    NumLessIsStrictTotalOrder();
    SortDescendingSpec(ns, NumLess);
    RoundNumbersOccur(ms);
    var r := SortDescending(ns, NumLess);
    NumericallyDescending(r);
    r
  }

  /** Matches of rounds 1, 10, 2 and 9: exactly those four round numbers occur. */
  lemma FourRounds(ms: seq<Match>, n: nat)
    requires |ms| == 4
    requires ms[0].round == 1 && ms[1].round == 10 && ms[2].round == 2 && ms[3].round == 9
    ensures (exists m :: m in ms && m.round == n) <==> n in [10, 9, 2, 1]
  {
    if n in [10, 9, 2, 1] {
      var i := if n == 1 then 0 else if n == 10 then 1 else if n == 2 then 2 else 3;
      assert ms[i] in ms && ms[i].round == n;
    } else if exists m :: m in ms && m.round == n {
      var m :| m in ms && m.round == n;
      var i :| 0 <= i < |ms| && ms[i] == m;
      assert false;
    }
  }

  /** The same four rounds in numeric order: 10, 9, 2, 1. */
  lemma RoundsNumericExample(ms: seq<Match>)
    requires |ms| == 4
    requires ms[0].round == 1 && ms[1].round == 10 && ms[2].round == 2 && ms[3].round == 9
    ensures RoundsNumeric(ms) == [10, 9, 2, 1]
  {
    var r := RoundsNumeric(ms);
    var expected: seq<nat> := [10, 9, 2, 1];
    forall n ensures n in r <==> n in expected {
      FourRounds(ms, n);
    }
    assert Descending(r, NumLess) by {
      forall i, j | 0 <= i < j < |r| ensures NumLess(r[j], r[i]) {
        assert r[i] > r[j];
      }
    }
    assert Descending(expected, NumLess);
    NumLessIsStrictTotalOrder();
    DescendingUnique(r, expected, NumLess);
  }

  // ---------------------------------------------------------------------------
  // Team columns
  // ---------------------------------------------------------------------------

  /** A team as its column uses it; its title and score are only displayed. */
  datatype Team = Team(id: int)

  datatype Player = Player(teamId: int)

  /** `omitBy(players, p => p.teamId !== team.id)`: the players of one team. */
  function TeamPlayers(players: map<UserId, Player>, teamId: int): (r: map<UserId, Player>)
    ensures forall u :: u in r <==> u in players && players[u].teamId == teamId
    ensures forall u :: u in r ==> r[u] == players[u]
  {
    map u | u in players && players[u].teamId == teamId :: players[u]
  }

  /** What one team's column shows besides its players. */
  datatype TeamColumn = TeamColumn(
    members: map<UserId, Player>,
    joinShown: bool,
    viewerInTeam: bool,
    canBan: bool)

  /** One team column: its players, the join button and whether players may be kicked. */
  function TeamColumnView(
    team: Team, state: TournamentState, players: map<UserId, Player>, viewer: UserId, isAdmin: bool
  ): (c: TeamColumn)
    ensures c.joinShown <==> state == WaitingParticipants
    ensures c.canBan <==> isAdmin && state == WaitingParticipants
    ensures c.members == TeamPlayers(players, team.id)
    ensures c.viewerInTeam <==> viewer in players && players[viewer].teamId == team.id
  {
    TeamColumn(
      TeamPlayers(players, team.id),
      state == WaitingParticipants,
      viewer in players && players[viewer].teamId == team.id,
      isAdmin && state == WaitingParticipants)
  }

  /**
    The two columns split the players: no player appears under both teams,
    the viewer is marked as a member of at most one of them, and a viewer is
    marked in a column exactly when listed in it; if every player belongs
    to one of the two teams, together the columns list everyone.
  */
  lemma TeamColumnsPartition(
    t0: Team, t1: Team, state: TournamentState, players: map<UserId, Player>, viewer: UserId, isAdmin: bool
  )
    requires t0.id != t1.id
    ensures var c0, c1 := TeamColumnView(t0, state, players, viewer, isAdmin), TeamColumnView(t1, state, players, viewer, isAdmin);
      && c0.members.Keys !! c1.members.Keys
      && !(c0.viewerInTeam && c1.viewerInTeam)
      && (c0.viewerInTeam <==> viewer in c0.members)
      && ((forall u :: u in players ==> players[u].teamId in {t0.id, t1.id}) ==>
            c0.members.Keys + c1.members.Keys == players.Keys)
  {
    if forall u :: u in players ==> players[u].teamId in {t0.id, t1.id} {
      forall u | u in players
        ensures u in TeamPlayers(players, t0.id) || u in TeamPlayers(players, t1.id)
      {
        assert players[u].teamId == t0.id || players[u].teamId == t1.id;
      }
    }
  }

}
