/**
 Doubles match results and what each one credits to each player: the winner
 rule, the per-team credit, and the sum over a batch of matches.
 */
module MatchResults {
  import opened PlayerStats

  datatype Team = Team(first: Name, second: Name)

  /** `((t1p1, t1p2), (t2p1, t2p2), (s1, s2))`: two teams and the games each scored. */
  datatype Match = Match(team1: Team, team2: Team, score1: int, score2: int)

  /** The bounds the score inputs of the results form enforce. */
  const MinScore := 0
  const MaxScore := 10

  predicate ScoresInRange(m: Match)
  {
    MinScore <= m.score1 <= MaxScore && MinScore <= m.score2 <= MaxScore
  }

  /** The four players of a match are pairwise different, as the form's player
      choices guarantee (each choice excludes the ones made before it). */
  predicate Distinct(m: Match)
  {
    var a, b, c, d := m.team1.first, m.team1.second, m.team2.first, m.team2.second;
    a != b && a != c && a != d && b != c && b != d && c != d
  }

  function Players(t: Team): seq<Name>
  {
    [t.first, t.second]
  }

  predicate Plays(m: Match, p: Name)
  {
    p in Players(m.team1) || p in Players(m.team2)
  }

  /** Every player of every match is in the roster, so no lookup fails. */
  predicate Known(m: Match, players: seq<Name>)
  {
    m.team1.first in players && m.team1.second in players && m.team2.first in players && m.team2.second in players
  }

  predicate AllKnown(results: seq<Match>, players: seq<Name>)
  {
    forall i :: 0 <= i < |results| ==> Known(results[i], players)
  }

  /** A batch is known up to `i + 1` matches when it is known up to `i` and
      match `i` is known. */
  lemma AllKnownStep(results: seq<Match>, i: nat, players: seq<Name>)
    requires i < |results| && AllKnown(results[..i], players) && Known(results[i], players)
    ensures AllKnown(results[..i + 1], players)
  {
    var prefix := results[..i + 1];
    forall j | 0 <= j < i + 1 ensures Known(prefix[j], players) {
      if j < i {
        assert prefix[j] == results[..i][j];
      }
    }
  }

  /** Team 1 wins on a strictly higher score; on any other score, a draw
      included, the win goes to team 2. */
  predicate Team1Wins(m: Match)
  {
    m.score1 > m.score2
  }

  function Winner(m: Match): Team
  {
    if Team1Wins(m) then m.team1 else m.team2
  }

  function Loser(m: Match): Team
  {
    if Team1Wins(m) then m.team2 else m.team1
  }

  function WinnerScore(m: Match): int
  {
    if Team1Wins(m) then m.score1 else m.score2
  }

  function LoserScore(m: Match): int
  {
    if Team1Wins(m) then m.score2 else m.score1
  }

  /** What one team slot filled by `slot` credits to player `p`: a win and a
      match won, or a match lost, and the team's games for and against. */
  function SlotCredit(slot: Name, p: Name, gamesWonTeam: int, gamesLostTeam: int, isWinner: bool): Delta
  {
    if slot != p then NoDelta
    else if isWinner then Delta(1, 1, 0, gamesWonTeam, gamesLostTeam)
    else Delta(0, 0, 1, gamesWonTeam, gamesLostTeam)
  }

  /** What a team credits to player `p`: the credit of its first slot, then
      of its second. */
  function TeamCredit(t: Team, p: Name, gamesWonTeam: int, gamesLostTeam: int, isWinner: bool): Delta
  {
    Plus(SlotCredit(t.first, p, gamesWonTeam, gamesLostTeam, isWinner),
         SlotCredit(t.second, p, gamesWonTeam, gamesLostTeam, isWinner))
  }

  /** What one match credits to player `p`: the winning team is credited first,
      then the losing one, each with its own score for and the other's against. */
  function MatchDelta(m: Match, p: Name): Delta
  {
    Plus(TeamCredit(Winner(m), p, WinnerScore(m), LoserScore(m), true),
         TeamCredit(Loser(m), p, LoserScore(m), WinnerScore(m), false))
  }

  /** What a batch of matches, processed in order, credits to player `p`. */
  function Total(ms: seq<Match>, p: Name): Delta
  {
    if ms == [] then NoDelta else Plus(Total(ms[..|ms| - 1], p), MatchDelta(ms[|ms| - 1], p))
  }

  /** The number of matches of `ms` in which `p` plays. */
  function Appearances(ms: seq<Match>, p: Name): nat
  {
    if ms == [] then 0
    else Appearances(ms[..|ms| - 1], p) + (if Plays(ms[|ms| - 1], p) then 1 else 0)
  }

  /** The games played in the matches of `ms` in which `p` plays: both
      teams' scores of each such match. */
  function GamesPlayed(ms: seq<Match>, p: Name): int
  {
    if ms == [] then 0
    else GamesPlayed(ms[..|ms| - 1], p) + (if Plays(ms[|ms| - 1], p) then ms[|ms| - 1].score1 + ms[|ms| - 1].score2 else 0)
  }

  /** A team of two different players credits each of them exactly once and
      nobody else. */
  lemma TeamCreditOfPair(t: Team, p: Name, gamesWonTeam: int, gamesLostTeam: int, isWinner: bool)
    requires t.first != t.second
    ensures p in Players(t) ==>
              TeamCredit(t, p, gamesWonTeam, gamesLostTeam, isWinner)
              == SlotCredit(p, p, gamesWonTeam, gamesLostTeam, isWinner)
    ensures p !in Players(t) ==> TeamCredit(t, p, gamesWonTeam, gamesLostTeam, isWinner) == NoDelta
  {
  }

  /** The credit of one match to one player of a match with four different
      players: a match won or a match lost, never both, and the games of their
      own team for and of the other team against. Players not in the match get
      nothing. */
  lemma MatchCredit(m: Match, p: Name)
    requires Distinct(m)
    ensures var d := MatchDelta(m, p);
            && (p in Players(Winner(m)) ==> d == Delta(1, 1, 0, WinnerScore(m), LoserScore(m)))
            && (p in Players(Loser(m)) ==> d == Delta(0, 0, 1, LoserScore(m), WinnerScore(m)))
            && (!Plays(m, p) ==> d == NoDelta)
  {
    var w, l := Winner(m), Loser(m);
    var ws, ls := WinnerScore(m), LoserScore(m);
    TeamCreditOfPair(w, p, ws, ls, true);
    TeamCreditOfPair(l, p, ls, ws, false);
    assert Players(w) + Players(l) == Players(m.team1) + Players(m.team2)
        || Players(w) + Players(l) == Players(m.team2) + Players(m.team1);
    if p in Players(w) {
      assert p !in Players(l);
    } else if p in Players(l) {
      assert p !in Players(w);
    }
  }

  /** The winner rule: both players of team 1 are credited a match won exactly
      when team 1 scored strictly more; otherwise, draws included, both players
      of team 2 are credited the win and both players of team 1 the loss. */
  lemma WinnerRule(m: Match)
    requires Distinct(m)
    ensures MatchDelta(m, m.team1.first).matchesWon == 1 <==> m.score1 > m.score2
    ensures MatchDelta(m, m.team1.second).matchesWon == 1 <==> m.score1 > m.score2
    ensures MatchDelta(m, m.team2.first).matchesWon == 1 <==> m.score1 <= m.score2
    ensures MatchDelta(m, m.team2.second).matchesWon == 1 <==> m.score1 <= m.score2
    ensures m.score1 <= m.score2 ==>
              MatchDelta(m, m.team1.first).matchesLost == 1 && MatchDelta(m, m.team1.second).matchesLost == 1
  {
    MatchCredit(m, m.team1.first);
    MatchCredit(m, m.team1.second);
    MatchCredit(m, m.team2.first);
    MatchCredit(m, m.team2.second);
  }

  /** Each of the four players is credited the full scores, unsplit, so the
      games won credited by one match sum to twice the games played in it, and
      so do the games lost. */
  lemma GamesConservation(m: Match)
    requires Distinct(m)
    ensures MatchDelta(m, m.team1.first).gamesWon + MatchDelta(m, m.team1.second).gamesWon
          + MatchDelta(m, m.team2.first).gamesWon + MatchDelta(m, m.team2.second).gamesWon
         == 2 * (m.score1 + m.score2)
    ensures MatchDelta(m, m.team1.first).gamesLost + MatchDelta(m, m.team1.second).gamesLost
          + MatchDelta(m, m.team2.first).gamesLost + MatchDelta(m, m.team2.second).gamesLost
         == 2 * (m.score1 + m.score2)
  {
    MatchCredit(m, m.team1.first);
    MatchCredit(m, m.team1.second);
    MatchCredit(m, m.team2.first);
    MatchCredit(m, m.team2.second);
  }

  /** Over a batch of matches with four different players each, a player's
      matches won plus matches lost is the number of matches they played in. */
  lemma {:induction false} MatchesConservation(ms: seq<Match>, p: Name)
    requires forall i :: 0 <= i < |ms| ==> Distinct(ms[i])
    ensures Total(ms, p).matchesWon + Total(ms, p).matchesLost == Appearances(ms, p)
  {
    if ms != [] {
      MatchesConservation(ms[..|ms| - 1], p);
      MatchCredit(ms[|ms| - 1], p);
    }
  }

  /** Over a batch of matches with four different players each, a player's
      games won plus games lost is the number of games played in the matches
      they played in. */
  lemma {:induction false} GamesPerPlayer(ms: seq<Match>, p: Name)
    requires forall i :: 0 <= i < |ms| ==> Distinct(ms[i])
    ensures Total(ms, p).gamesWon + Total(ms, p).gamesLost == GamesPlayed(ms, p)
  {
    if ms != [] {
      GamesPerPlayer(ms[..|ms| - 1], p);
      MatchCredit(ms[|ms| - 1], p);
    }
  }

  /** `wins` and `matches won` are incremented together, so they agree over
      any batch. */
  lemma {:induction false} WinsMirrorMatchesWon(ms: seq<Match>, p: Name)
    ensures Total(ms, p).wins == Total(ms, p).matchesWon
  {
    if ms != [] {
      WinsMirrorMatchesWon(ms[..|ms| - 1], p);
    }
  }

  lemma MatchDeltaNonNegative(m: Match, p: Name)
    requires ScoresInRange(m)
    ensures NonNegative(MatchDelta(m, p))
  {
    var ws, ls := WinnerScore(m), LoserScore(m);
    assert NonNegative(TeamCredit(Winner(m), p, ws, ls, true));
    assert NonNegative(TeamCredit(Loser(m), p, ls, ws, false));
  }

  /** With scores that are never negative, no counter of a batch is negative. */
  lemma {:induction false} TotalNonNegative(ms: seq<Match>, p: Name)
    requires forall i :: 0 <= i < |ms| ==> ScoresInRange(ms[i])
    ensures NonNegative(Total(ms, p))
  {
    if ms != [] {
      TotalNonNegative(ms[..|ms| - 1], p);
      MatchDeltaNonNegative(ms[|ms| - 1], p);
    }
  }
}
