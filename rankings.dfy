/**
 The rankings table kept in the session: registering a player, and processing
 a batch of match results into the table's match and game columns.
 */
module Rankings {
  import opened PlayerStats
  import opened MatchResults
  import opened Tallies

  /** The `Player` column. */
  function Names(rows: seq<Row>): (names: seq<Name>)
    ensures |names| == |rows|
    ensures forall k :: 0 <= k < |rows| ==> names[k] == rows[k].name
  {
    seq(|rows|, k requires 0 <= k < |rows| => rows[k].name)
  }

  predicate UniqueNames(rows: seq<Row>)
  {
    forall i, j :: 0 <= i < j < |rows| ==> rows[i].name != rows[j].name
  }

  /** The number of times `x` occurs in `players`. */
  function Count(players: seq<Name>, x: Name): nat
  {
    if players == [] then 0
    else Count(players[..|players| - 1], x) + (if players[|players| - 1] == x then 1 else 0)
  }

  lemma {:induction false} CountZero(players: seq<Name>, x: Name)
    ensures Count(players, x) == 0 <==> x !in players
  {
    if players != [] {
      CountZero(players[..|players| - 1], x);
      assert players == players[..|players| - 1] + [players[|players| - 1]];
    }
  }

  /** One name's update of the table: every row whose `Player` is `name` has
      the counters of `d` added to its match and game columns; no other row
      changes, and a name missing from the table changes nothing. */
  function CreditPlayer(rows: seq<Row>, name: Name, d: Delta): (r: seq<Row>)
    ensures |r| == |rows|
    ensures name !in Names(rows) ==> r == rows
  {
    seq(|rows|, k requires 0 <= k < |rows| =>
      if rows[k].name == name then Row(name, Credit(rows[k].stats, d)) else rows[k])
  }

  /** The table after a tally has been applied for the roster `players`: each
      row gets its player's entries added once for every time the name occurs
      in the roster. */
  function CreditedRows(rows: seq<Row>, players: seq<Name>, t: Tally): seq<Row>
  {
    seq(|rows|, k requires 0 <= k < |rows| =>
      Row(rows[k].name, Credit(rows[k].stats, Times(Count(players, rows[k].name), At(t, rows[k].name)))))
  }

  lemma CreditedRowsStep(rows: seq<Row>, players: seq<Name>, t: Tally)
    requires players != []
    ensures var last := players[|players| - 1];
            CreditedRows(rows, players, t)
            == CreditPlayer(CreditedRows(rows, players[..|players| - 1], t), last, At(t, last))
  {
    var last := players[|players| - 1];
    var after := CreditPlayer(CreditedRows(rows, players[..|players| - 1], t), last, At(t, last));
    forall k | 0 <= k < |rows| ensures CreditedRows(rows, players, t)[k] == after[k] {
      CreditedRowStep(rows, players, t, k);
    }
  }

  lemma CreditedRowStep(rows: seq<Row>, players: seq<Name>, t: Tally, k: nat)
    requires players != [] && k < |rows|
    ensures var last := players[|players| - 1];
            CreditedRows(rows, players, t)[k]
            == CreditPlayer(CreditedRows(rows, players[..|players| - 1], t), last, At(t, last))[k]
  {
    var last := players[|players| - 1];
    var before := CreditedRows(rows, players[..|players| - 1], t);
    var name, s := rows[k].name, rows[k].stats;
    var d := At(t, name);
    var n := Count(players[..|players| - 1], name);
    assert before[k] == Row(name, Credit(s, Times(n, d)));
    if last == name {
      assert Times(n + 1, d) == Plus(Times(n, d), d);
    }
  }

  /** The table after the batch `results` is processed for the roster `players`. */
  function AfterBatch(rows: seq<Row>, players: seq<Name>, results: seq<Match>): seq<Row>
  {
    CreditedRows(rows, players, Totals(players, results))
  }

  predicate AllScoresInRange(results: seq<Match>)
  {
    forall i :: 0 <= i < |results| ==> ScoresInRange(results[i])
  }

  /** `after` is `before` with the same name, the same points, tournament
      counts and ratio, and no smaller match or game counter. */
  predicate Grown(before: Row, after: Row)
  {
    && after.name == before.name
    && after.stats.points == before.stats.points
    && after.stats.tournamentsPlayed == before.stats.tournamentsPlayed
    && after.stats.tournamentsWon == before.stats.tournamentsWon
    && after.stats.ratio == before.stats.ratio
    && after.stats.matchesWon >= before.stats.matchesWon
    && after.stats.matchesLost >= before.stats.matchesLost
    && after.stats.gamesWon >= before.stats.gamesWon
    && after.stats.gamesLost >= before.stats.gamesLost
  }

  /** Processing a batch keeps the rows, their order and names, never touches
      points, tournament counts or the ratio, leaves the rows of players
      outside the roster as they were, and with in-range scores lowers no
      counter. */
  lemma {:induction false} BatchOnlyGrows(rows: seq<Row>, players: seq<Name>, results: seq<Match>)
    requires AllScoresInRange(results)
    ensures var r := AfterBatch(rows, players, results);
            && |r| == |rows|
            && (forall k :: 0 <= k < |rows| ==> Grown(rows[k], r[k]))
            && (forall k :: 0 <= k < |rows| && rows[k].name !in players ==> r[k] == rows[k])
  {
    var r := AfterBatch(rows, players, results);
    var t := Totals(players, results);
    forall k | 0 <= k < |rows| ensures Grown(rows[k], r[k]) && (rows[k].name !in players ==> r[k] == rows[k]) {
      var name := rows[k].name;
      CountZero(players, name);
      TotalNonNegative(results, name);
      assert NonNegative(At(t, name));
    }
  }

  /** For a player listed once in the roster, with four different players in
      every match, processing a batch adds to their matches won plus matches
      lost exactly the number of matches they played in it. */
  lemma BatchMatchesConservation(rows: seq<Row>, players: seq<Name>, results: seq<Match>, k: nat)
    requires k < |rows| && Count(players, rows[k].name) == 1
    requires forall i :: 0 <= i < |results| ==> Distinct(results[i])
    ensures var r := AfterBatch(rows, players, results);
            r[k].stats.matchesWon + r[k].stats.matchesLost
            == rows[k].stats.matchesWon + rows[k].stats.matchesLost + Appearances(results, rows[k].name)
  {
    var name := rows[k].name;
    CountZero(players, name);
    MatchesConservation(results, name);
  }

  /** For a player listed once in the roster, with four different players in
      every match, processing a batch adds to their games won plus games lost
      exactly the games played in the matches they played in. */
  lemma BatchGamesConservation(rows: seq<Row>, players: seq<Name>, results: seq<Match>, k: nat)
    requires k < |rows| && Count(players, rows[k].name) == 1
    requires forall i :: 0 <= i < |results| ==> Distinct(results[i])
    ensures var r := AfterBatch(rows, players, results);
            r[k].stats.gamesWon + r[k].stats.gamesLost
            == rows[k].stats.gamesWon + rows[k].stats.gamesLost + GamesPlayed(results, rows[k].name)
  {
    var name := rows[k].name;
    CountZero(players, name);
    GamesPerPlayer(results, name);
  }

  /** Nothing records that a batch was processed: processing the same batch
      a second time adds its counters again, so every match and game counter
      moves by exactly twice what one processing moved it by, and every other
      column stays as it was. */
  lemma ResubmissionDoubles(rows: seq<Row>, players: seq<Name>, results: seq<Match>)
    ensures var once := AfterBatch(rows, players, results);
            var twice := AfterBatch(once, players, results);
            && |twice| == |rows|
            && forall k :: 0 <= k < |rows| ==>
                 && twice[k].name == rows[k].name
                 && twice[k].stats.points == rows[k].stats.points
                 && twice[k].stats.tournamentsPlayed == rows[k].stats.tournamentsPlayed
                 && twice[k].stats.tournamentsWon == rows[k].stats.tournamentsWon
                 && twice[k].stats.ratio == rows[k].stats.ratio
                 && twice[k].stats.matchesWon - rows[k].stats.matchesWon
                    == 2 * (once[k].stats.matchesWon - rows[k].stats.matchesWon)
                 && twice[k].stats.matchesLost - rows[k].stats.matchesLost
                    == 2 * (once[k].stats.matchesLost - rows[k].stats.matchesLost)
                 && twice[k].stats.gamesWon - rows[k].stats.gamesWon
                    == 2 * (once[k].stats.gamesWon - rows[k].stats.gamesWon)
                 && twice[k].stats.gamesLost - rows[k].stats.gamesLost
                    == 2 * (once[k].stats.gamesLost - rows[k].stats.gamesLost)
  {
  }

  /** The table after registering `newPlayer`: a zero row is appended exactly
      when the name is non-empty and not yet in the `Player` column. Existing
      rows never change, the name is in the table afterwards, and names that
      were unique stay unique. */
  function AddedRows(rows: seq<Row>, newPlayer: Name): (r: seq<Row>)
    ensures var added := newPlayer != "" && newPlayer !in Names(rows);
            && |r| == |rows| + (if added then 1 else 0)
            && r[..|rows|] == rows
            && (added ==> r[|rows|] == NewRow(newPlayer))
    ensures newPlayer != "" ==> newPlayer in Names(r)
    ensures UniqueNames(rows) ==> UniqueNames(r)
  {
    if newPlayer != "" && newPlayer !in Names(rows) then
      var r := rows + [NewRow(newPlayer)];
      assert Names(r) == Names(rows) + [newPlayer];
      r
    else
      rows
  }

  /** The rankings table held in the session. */
  class RankingTable {
    var rows: seq<Row>

    /** A table with one zero row per name of the initial roster. */
    constructor (players: seq<Name>)
      ensures |rows| == |players|
      ensures forall k :: 0 <= k < |players| ==> rows[k] == NewRow(players[k])
    {
      rows := seq(|players|, k requires 0 <= k < |players| => NewRow(players[k]));
    }

    /** Registers `newPlayer` with zero statistics unless the name is empty or
        already in the table. */
    method AddPlayer(newPlayer: Name) returns (added: bool)
      modifies this
      ensures added == (newPlayer != "" && newPlayer !in Names(old(rows)))
      ensures rows == AddedRows(old(rows), newPlayer)
    {
      added := false;
      if newPlayer != "" {
        if newPlayer !in Names(rows) {
          rows := rows + [NewRow(newPlayer)];
          added := true;
        }
      }
    }

    /** Adds the tally's match and game entries of each roster name, in roster
        order, into the rows with that name; names missing from the table are
        skipped and missing entries count as 0. */
    method ApplyPlayerStats(players: seq<Name>, tally: Tally)
      modifies this
      ensures rows == CreditedRows(old(rows), players, tally)
    {
      for i := 0 to |players|
        invariant rows == CreditedRows(old(rows), players[..i], tally)
      {
        var player := players[i];
        if player in Names(rows) {
          rows := CreditPlayer(rows, player, At(tally, player));
        }
        assert players[..i + 1][..i] == players[..i];
        CreditedRowsStep(old(rows), players[..i + 1], tally);
      }
      assert players[..|players|] == players;
    }

    /** Processes one batch of match results: tallies every match into five
        fresh per-roster dictionaries, then applies them to the table. A match
        naming a player outside the roster aborts the whole batch with the
        table unchanged. */
    method CalculateRank(players: seq<Name>, results: seq<Match>) returns (ok: bool)
      requires AllScoresInRange(results)
      modifies this
      ensures ok == AllKnown(results, players)
      ensures ok ==> rows == AfterBatch(old(rows), players, results)
      ensures ok ==> |rows| == |old(rows)| && forall k :: 0 <= k < |rows| ==> Grown(old(rows)[k], rows[k])
      ensures !ok ==> rows == old(rows)
    {
      var tally := Fresh(players);
      for i := 0 to |results|
        invariant rows == old(rows)
        invariant AllKnown(results[..i], players)
        invariant tally == Totals(players, results[..i])
      {
        var m := results[i];
        ghost var start := tally;
        var known;
        ghost var mid;
        if m.score1 > m.score2 {
          tally, known := UpdateTeamStats(m.team1.first, m.team1.second, m.score1, m.score2, true, tally);
          TracksRoster(players, results[..i], start, m.team1.first, true);
          TracksRoster(players, results[..i], start, m.team1.second, true);
          if !known {
            return false;
          }
          mid := tally;
          tally, known := UpdateTeamStats(m.team2.first, m.team2.second, m.score2, m.score1, false, tally);
          TracksRoster(players, results[..i], mid, m.team2.first, false);
          TracksRoster(players, results[..i], mid, m.team2.second, false);
          if !known {
            return false;
          }
        } else {
          tally, known := UpdateTeamStats(m.team2.first, m.team2.second, m.score2, m.score1, true, tally);
          TracksRoster(players, results[..i], start, m.team2.first, true);
          TracksRoster(players, results[..i], start, m.team2.second, true);
          if !known {
            return false;
          }
          mid := tally;
          tally, known := UpdateTeamStats(m.team1.first, m.team1.second, m.score1, m.score2, false, tally);
          TracksRoster(players, results[..i], mid, m.team1.first, false);
          TracksRoster(players, results[..i], mid, m.team1.second, false);
          if !known {
            return false;
          }
        }
        ResultsStep(players, results, i, mid, tally);
        AllKnownStep(results, i, players);
      }
      assert results[..|results|] == results;
      ApplyPlayerStats(players, tally);
      BatchOnlyGrows(old(rows), players, results);
      ok := true;
    }
  }
}
