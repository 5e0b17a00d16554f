/**
 The five per-player dictionaries that score processing fills in before it
 touches the rankings table, and the step that credits one team of a match.
 */
module Tallies {
  import opened PlayerStats
  import opened MatchResults

  /** The dictionaries `wins`, `games_won`, `matches_won`, `matches_lost` and
      `games_lost`, each keyed by player name. */
  datatype Tally = Tally(
    wins: map<Name, int>,
    gamesWon: map<Name, int>,
    matchesWon: map<Name, int>,
    matchesLost: map<Name, int>,
    gamesLost: map<Name, int>)

  /** A dictionary lookup with 0 for a missing key. */
  function Get(m: map<Name, int>, p: Name): int
  {
    if p in m then m[p] else 0
  }

  /** The five entries of player `p`, each 0 where the player has no key. */
  function At(t: Tally, p: Name): Delta
  {
    Delta(Get(t.wins, p), Get(t.matchesWon, p), Get(t.matchesLost, p), Get(t.gamesWon, p), Get(t.gamesLost, p))
  }

  /** Every dictionary has exactly the keys `keys`. */
  predicate KeyedBy(t: Tally, keys: set<Name>)
  {
    t.wins.Keys == keys && t.gamesWon.Keys == keys && t.matchesWon.Keys == keys
    && t.matchesLost.Keys == keys && t.gamesLost.Keys == keys
  }

  /** Player `p` can be looked up in every dictionary without a key error. */
  predicate Tracks(t: Tally, p: Name)
  {
    p in t.wins && p in t.gamesWon && p in t.matchesWon && p in t.matchesLost && p in t.gamesLost
  }

  /** One turn of the loop over a team's players can do its lookups without a
      key error: a winner is looked up in `wins`, `matches_won`, `games_won`
      and `games_lost`, a loser in `matches_lost`, `games_won` and
      `games_lost`. */
  predicate Creditable(t: Tally, p: Name, isWinner: bool)
  {
    && (if isWinner then p in t.wins && p in t.matchesWon else p in t.matchesLost)
    && p in t.gamesWon && p in t.gamesLost
  }

  function Roster(players: seq<Name>): set<Name>
  {
    set p | p in players
  }

  /** The reference tally of a batch of matches: every player of the roster
      keyed, holding what the batch credits to them. */
  function Totals(players: seq<Name>, results: seq<Match>): (t: Tally)
    ensures KeyedBy(t, Roster(players))
    ensures forall p :: p in players ==> At(t, p) == Total(results, p)
  {
    Tally(map p | p in players :: Total(results, p).wins,
          map p | p in players :: Total(results, p).gamesWon,
          map p | p in players :: Total(results, p).matchesWon,
          map p | p in players :: Total(results, p).matchesLost,
          map p | p in players :: Total(results, p).gamesLost)
  }

  /** A tally with the keys of the reference tally can look up exactly the
      players of the roster, whichever dictionaries a turn touches. */
  lemma TracksRoster(players: seq<Name>, results: seq<Match>, t: Tally, p: Name, isWinner: bool)
    requires SameKeys(t, Totals(players, results))
    ensures Tracks(t, p) <==> p in players
    ensures Creditable(t, p, isWinner) <==> p in players
  {
    assert p in Roster(players) <==> p in players;
  }

  /** Two dictionaries with the same keys and the same lookups are the same. */
  lemma SameDictionary(a: map<Name, int>, b: map<Name, int>)
    requires a.Keys == b.Keys
    requires forall p :: p in a ==> Get(a, p) == Get(b, p)
    ensures a == b
  {
    forall p | p in a ensures a[p] == b[p] { assert Get(a, p) == Get(b, p); }
  }

  /** Two tallies with the same keys and the same entries are the same. */
  lemma TallyExtensionality(a: Tally, b: Tally, keys: set<Name>)
    requires KeyedBy(a, keys) && KeyedBy(b, keys)
    requires forall p :: p in keys ==> At(a, p) == At(b, p)
    ensures a == b
  {
    forall p | p in keys
      ensures Get(a.wins, p) == Get(b.wins, p) && Get(a.gamesWon, p) == Get(b.gamesWon, p)
      ensures Get(a.matchesWon, p) == Get(b.matchesWon, p) && Get(a.matchesLost, p) == Get(b.matchesLost, p)
      ensures Get(a.gamesLost, p) == Get(b.gamesLost, p)
    {
      assert At(a, p) == At(b, p);
    }
    SameDictionary(a.wins, b.wins);
    SameDictionary(a.gamesWon, b.gamesWon);
    SameDictionary(a.matchesWon, b.matchesWon);
    SameDictionary(a.matchesLost, b.matchesLost);
    SameDictionary(a.gamesLost, b.gamesLost);
  }

  /** Every dictionary of `a` has the keys of the same dictionary of `b`. */
  predicate SameKeys(a: Tally, b: Tally)
  {
    a.wins.Keys == b.wins.Keys && a.gamesWon.Keys == b.gamesWon.Keys && a.matchesWon.Keys == b.matchesWon.Keys
    && a.matchesLost.Keys == b.matchesLost.Keys && a.gamesLost.Keys == b.gamesLost.Keys
  }

  /** `after` is `before` with the credit of team `team` added to every
      player's entries. */
  ghost predicate AddsTeamCredit(before: Tally, after: Tally, team: Team, gamesWonTeam: int, gamesLostTeam: int, isWinner: bool)
  {
    forall p {:trigger TeamCredit(team, p, gamesWonTeam, gamesLostTeam, isWinner)} ::
      Tracks(before, p) ==>
      At(after, p) == Plus(At(before, p), TeamCredit(team, p, gamesWonTeam, gamesLostTeam, isWinner))
  }

  /** What the first `done` slots of team `team`, credited in order, credit
      to player `p`: nothing, the first slot's credit, or the whole team's. */
  function CreditSoFar(team: Team, done: nat, p: Name, gamesWonTeam: int, gamesLostTeam: int, isWinner: bool): Delta
  {
    if done == 0 then NoDelta
    else if done == 1 then SlotCredit(team.first, p, gamesWonTeam, gamesLostTeam, isWinner)
    else TeamCredit(team, p, gamesWonTeam, gamesLostTeam, isWinner)
  }

  /** Crediting slot `done` of the team after the ones before it. */
  lemma CreditSoFarStep(team: Team, done: nat, p: Name, gamesWonTeam: int, gamesLostTeam: int, isWinner: bool)
    requires done < 2
    ensures CreditSoFar(team, done + 1, p, gamesWonTeam, gamesLostTeam, isWinner)
            == Plus(CreditSoFar(team, done, p, gamesWonTeam, gamesLostTeam, isWinner),
                    SlotCredit(Players(team)[done], p, gamesWonTeam, gamesLostTeam, isWinner))
  {
    var first := SlotCredit(team.first, p, gamesWonTeam, gamesLostTeam, isWinner);
    if done == 0 {
      assert CreditSoFar(team, 0, p, gamesWonTeam, gamesLostTeam, isWinner) == NoDelta;
      PlusNoDelta(first);
    } else {
      assert Players(team)[1] == team.second;
    }
  }

  /** `cur` is `tally` with the first `done` slots of team `team` credited. */
  ghost predicate CreditedSoFar(tally: Tally, cur: Tally, team: Team, done: nat,
                                gamesWonTeam: int, gamesLostTeam: int, isWinner: bool)
  {
    forall p {:trigger CreditSoFar(team, done, p, gamesWonTeam, gamesLostTeam, isWinner)} ::
      Tracks(tally, p) ==>
      At(cur, p) == Plus(At(tally, p), CreditSoFar(team, done, p, gamesWonTeam, gamesLostTeam, isWinner))
  }

  /** Before the loop over a team's players, nothing has been credited. */
  lemma NothingCreditedYet(tally: Tally, team: Team, gamesWonTeam: int, gamesLostTeam: int, isWinner: bool)
    ensures CreditedSoFar(tally, tally, team, 0, gamesWonTeam, gamesLostTeam, isWinner)
  {
    forall p | Tracks(tally, p)
      ensures At(tally, p) == Plus(At(tally, p), CreditSoFar(team, 0, p, gamesWonTeam, gamesLostTeam, isWinner))
    {
    }
  }

  /** `after` is `before` after the five updates of one turn of the loop over
      a team's players, for `player`: a winner's `wins` and `matches_won`, or
      a loser's `matches_lost`, go up by one, and `games_won` and
      `games_lost` by the team's games for and against. */
  predicate TurnUpdates(before: Tally, after: Tally, player: Name, gamesWonTeam: int, gamesLostTeam: int, isWinner: bool)
    requires Creditable(before, player, isWinner)
  {
    && after.wins == (if isWinner then before.wins[player := before.wins[player] + 1] else before.wins)
    && after.matchesWon == (if isWinner then before.matchesWon[player := before.matchesWon[player] + 1] else before.matchesWon)
    && after.matchesLost == (if isWinner then before.matchesLost
                             else before.matchesLost[player := before.matchesLost[player] + 1])
    && after.gamesWon == before.gamesWon[player := before.gamesWon[player] + gamesWonTeam]
    && after.gamesLost == before.gamesLost[player := before.gamesLost[player] + gamesLostTeam]
  }

  /** One turn adds no key and adds the slot's credit to every player's
      entries, 0 standing in for a missing key. */
  lemma TurnCredits(before: Tally, after: Tally, player: Name, p: Name,
                    gamesWonTeam: int, gamesLostTeam: int, isWinner: bool)
    requires Creditable(before, player, isWinner)
    requires TurnUpdates(before, after, player, gamesWonTeam, gamesLostTeam, isWinner)
    ensures SameKeys(after, before)
    ensures At(after, p) == Plus(At(before, p), SlotCredit(player, p, gamesWonTeam, gamesLostTeam, isWinner))
  {
    if p != player {
      assert At(after, p) == At(before, p);
      PlusNoDeltaRight(At(before, p));
    }
  }

  /** The five updates of one turn of the loop over a team's players, applied
      to `before`, credit the next slot on top of the ones before it and add
      no key. */
  lemma SlotStep(tally: Tally, before: Tally, after: Tally, team: Team, done: nat,
                 gamesWonTeam: int, gamesLostTeam: int, isWinner: bool)
    requires done < 2 && Creditable(before, Players(team)[done], isWinner)
    requires CreditedSoFar(tally, before, team, done, gamesWonTeam, gamesLostTeam, isWinner)
    requires TurnUpdates(before, after, Players(team)[done], gamesWonTeam, gamesLostTeam, isWinner)
    ensures SameKeys(after, before)
    ensures CreditedSoFar(tally, after, team, done + 1, gamesWonTeam, gamesLostTeam, isWinner)
  {
    var player := Players(team)[done];
    TurnCredits(before, after, player, player, gamesWonTeam, gamesLostTeam, isWinner);
    forall p | Tracks(tally, p)
      ensures At(after, p) == Plus(At(tally, p), CreditSoFar(team, done + 1, p, gamesWonTeam, gamesLostTeam, isWinner))
    {
      var slot := SlotCredit(player, p, gamesWonTeam, gamesLostTeam, isWinner);
      TurnCredits(before, after, player, p, gamesWonTeam, gamesLostTeam, isWinner);
      CreditSoFarStep(team, done, p, gamesWonTeam, gamesLostTeam, isWinner);
      PlusAssociative(At(tally, p), CreditSoFar(team, done, p, gamesWonTeam, gamesLostTeam, isWinner), slot);
    }
  }

  /** The five dictionaries `{player: 0 for player in players}`. */
  function Fresh(players: seq<Name>): (t: Tally)
    ensures t == Totals(players, [])
  {
    var zeros := map p | p in players :: 0;
    var t := Tally(zeros, zeros, zeros, zeros, zeros);
    TallyExtensionality(t, Totals(players, []), Roster(players));
    t
  }

  /** Player `p`'s entries after the winning team of `m`, then its losing
      team, are credited to `t`: the entries of `t` plus what `m` credits to `p`. */
  lemma MatchStepAt(t: Tally, m: Match, mid: Tally, r: Tally, p: Name)
    requires Tracks(t, p) && SameKeys(mid, t)
    requires AddsTeamCredit(t, mid, Winner(m), WinnerScore(m), LoserScore(m), true)
    requires AddsTeamCredit(mid, r, Loser(m), LoserScore(m), WinnerScore(m), false)
    ensures At(r, p) == Plus(At(t, p), MatchDelta(m, p))
  {
    var a := TeamCredit(Winner(m), p, WinnerScore(m), LoserScore(m), true);
    var b := TeamCredit(Loser(m), p, LoserScore(m), WinnerScore(m), false);
    assert At(mid, p) == Plus(At(t, p), a);
    assert At(r, p) == Plus(At(mid, p), b);
    PlusAssociative(At(t, p), a, b);
  }

  /** One turn of the results loop keeps the tally equal to the reference:
      crediting the winning team of match `m`, then its losing team, to the
      tally of the matches before it, without adding keys, gives the tally of
      the batch extended by `m`. */
  lemma MatchStep(players: seq<Name>, ms: seq<Match>, m: Match, mid: Tally, r: Tally)
    requires SameKeys(mid, Totals(players, ms)) && SameKeys(r, mid)
    requires AddsTeamCredit(Totals(players, ms), mid, Winner(m), WinnerScore(m), LoserScore(m), true)
    requires AddsTeamCredit(mid, r, Loser(m), LoserScore(m), WinnerScore(m), false)
    ensures r == Totals(players, ms + [m])
  {
    var t, keys, after := Totals(players, ms), Roster(players), Totals(players, ms + [m]);
    assert (ms + [m])[..|ms|] == ms;
    forall p | p in keys ensures At(r, p) == At(after, p) {
      MatchStepAt(t, m, mid, r, p);
      assert Total(ms + [m], p) == Plus(Total(ms, p), MatchDelta(m, p));
    }
    TallyExtensionality(r, after, keys);
  }

  /** One turn of the results loop, in the shape the loop performs it: the
      team with the strictly higher score is credited first as the winner, on
      any other score team 2 is; either way the result is the tally of the
      first `i + 1` matches. */
  lemma ResultsStep(players: seq<Name>, results: seq<Match>, i: nat, mid: Tally, r: Tally)
    requires i < |results|
    requires var m, t := results[i], Totals(players, results[..i]);
             if m.score1 > m.score2 then
               && SameKeys(mid, t) && AddsTeamCredit(t, mid, Team(m.team1.first, m.team1.second), m.score1, m.score2, true)
               && SameKeys(r, mid) && AddsTeamCredit(mid, r, Team(m.team2.first, m.team2.second), m.score2, m.score1, false)
             else
               && SameKeys(mid, t) && AddsTeamCredit(t, mid, Team(m.team2.first, m.team2.second), m.score2, m.score1, true)
               && SameKeys(r, mid) && AddsTeamCredit(mid, r, Team(m.team1.first, m.team1.second), m.score1, m.score2, false)
    ensures r == Totals(players, results[..i + 1])
  {
    var m := results[i];
    if m.score1 > m.score2 {
      assert Winner(m) == Team(m.team1.first, m.team1.second) && WinnerScore(m) == m.score1;
      assert Loser(m) == Team(m.team2.first, m.team2.second) && LoserScore(m) == m.score2;
    } else {
      assert Winner(m) == Team(m.team2.first, m.team2.second) && WinnerScore(m) == m.score2;
      assert Loser(m) == Team(m.team1.first, m.team1.second) && LoserScore(m) == m.score1;
    }
    MatchStep(players, results[..i], m, mid, r);
    assert results[..i] + [m] == results[..i + 1];
  }

  /** Credits both players of one team of a match: to each, a win and a match
      won if the team won, a match lost otherwise, and the team's games for and
      against. No key is added. A player missing from a dictionary the turn
      looks up is a key error: `ok` is false, and the dictionaries, which the
      caller then drops, are not described. */
  method UpdateTeamStats(player1: Name, player2: Name, gamesWonTeam: int, gamesLostTeam: int,
                         isWinner: bool, tally: Tally) returns (updated: Tally, ok: bool)
    ensures ok == (Creditable(tally, player1, isWinner) && Creditable(tally, player2, isWinner))
    ensures ok ==> SameKeys(updated, tally)
    ensures ok ==> AddsTeamCredit(tally, updated, Team(player1, player2), gamesWonTeam, gamesLostTeam, isWinner)
  {
    var wins, gamesWon, matchesWon, matchesLost, gamesLost :=
      tally.wins, tally.gamesWon, tally.matchesWon, tally.matchesLost, tally.gamesLost;
    var team := [player1, player2];
    assert Tally(wins, gamesWon, matchesWon, matchesLost, gamesLost) == tally;
    NothingCreditedYet(tally, Team(player1, player2), gamesWonTeam, gamesLostTeam, isWinner);
    for i := 0 to |team|
      invariant forall j :: 0 <= j < i ==> Creditable(tally, team[j], isWinner)
      invariant SameKeys(Tally(wins, gamesWon, matchesWon, matchesLost, gamesLost), tally)
      invariant CreditedSoFar(tally, Tally(wins, gamesWon, matchesWon, matchesLost, gamesLost),
                              Team(player1, player2), i, gamesWonTeam, gamesLostTeam, isWinner)
    {
      var player := team[i];
      var before := Tally(wins, gamesWon, matchesWon, matchesLost, gamesLost);
      if !Creditable(before, player, isWinner) {
        assert !Creditable(tally, team[i], isWinner);
        return before, false;
      }
      if isWinner {
        wins := wins[player := wins[player] + 1];
        matchesWon := matchesWon[player := matchesWon[player] + 1];
      } else {
        matchesLost := matchesLost[player := matchesLost[player] + 1];
      }
      gamesWon := gamesWon[player := gamesWon[player] + gamesWonTeam];
      gamesLost := gamesLost[player := gamesLost[player] + gamesLostTeam];
      SlotStep(tally, before, Tally(wins, gamesWon, matchesWon, matchesLost, gamesLost), Team(player1, player2), i,
               gamesWonTeam, gamesLostTeam, isWinner);
    }
    assert Creditable(tally, team[0], isWinner) && Creditable(tally, team[1], isWinner);
    updated, ok := Tally(wins, gamesWon, matchesWon, matchesLost, gamesLost), true;
    forall p | Tracks(tally, p)
      ensures At(updated, p)
              == Plus(At(tally, p), TeamCredit(Team(player1, player2), p, gamesWonTeam, gamesLostTeam, isWinner))
    {
      assert CreditSoFar(Team(player1, player2), 2, p, gamesWonTeam, gamesLostTeam, isWinner)
          == TeamCredit(Team(player1, player2), p, gamesWonTeam, gamesLostTeam, isWinner);
    }
  }
}
