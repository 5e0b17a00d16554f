# Padel rankings: match aggregation and roster addition

A Dafny model of the scoring logic of a small Streamlit app that keeps a
rankings table for doubles padel tournaments. It covers two parts.

- **Processing a batch of match results.** This is `calculate_rank`,
  `update_team_stats` and `apply_player_stats`. Each match is
  `((t1p1, t1p2), (t2p1, t2p2), (s1, s2))`.
  - The team with the strictly higher score wins. On equal scores the win
    goes to team 2.
  - Every player of the winning team gets a win and a match won. Every player
    of the losing team gets a match lost.
  - Each player gets their own team's score as games won and the other
    team's score as games lost.
  - These amounts are gathered in five dictionaries keyed by the fixed roster
    `players`. They are then added into the `Matches Won`, `Matches Lost`,
    `Games Won` and `Games Lost` columns of every table row whose `Player` is
    that roster name.
- **Adding a player.** This is `add_players`. A zero row is appended for a
  non-empty name that is not yet in the `Player` column.

The files:

- `stats.dfy` (module `PlayerStats`): a table row (`Row`, `Stats`) and the
  per-player amounts a batch adds (`Delta`, `Plus`, `Credit`).
- `matches.dfy` (module `MatchResults`):
  - the match record and the winner rule;
  - what one team slot, one team and one match credit to a player
    (`SlotCredit`, `TeamCredit`, `MatchDelta`);
  - the reference sum over a batch (`Total`);
  - the per-match and per-batch properties.
- `tally.dfy` (module `Tallies`):
  - the five dictionaries as one value (`Tally`);
  - `update_team_stats` as the method `UpdateTeamStats`, with its loop over
    the team, proved against the per-team credit;
  - the reference tally of a batch (`Totals`);
  - the step lemmas that keep the results loop equal to it.
- `rankings.dfy` (module `Rankings`):
  - the session table as the class `RankingTable` with a `rows: seq<Row>`
    field;
  - its methods `CalculateRank` (the loop over matches),
    `ApplyPlayerStats` (the loop over the roster) and `AddPlayer`;
  - the closed form of a processed batch (`AfterBatch`) and the properties
    of the table it gives.

## Model

| member | source | states |
|---|---|---|
| MatchResults.ScoresInRange | streamlit_app.py:47-48 | Definition: both scores lie in 0..10, the bounds of the score inputs (also at 180-181). |
| MatchResults.Distinct | streamlit_app.py:43-46 | Definition: the four players of a match are pairwise different, as the player choices guarantee, each excluding the ones chosen before it (also at 176-179). |
| MatchResults.Known | streamlit_app.py:79-84 | Definition: all four players of a match are in the roster, which is exactly when the lookups succeed on dictionaries keyed by the roster at 58-62. |
| MatchResults.AllKnown | streamlit_app.py:65-84 | Definition: every match of the batch is `Known`, so no lookup of the batch fails. |
| MatchResults.Team1Wins | streamlit_app.py:66 | Definition: team 1 wins on a strictly higher score, `score_team1 > score_team2`. |
| MatchResults.Winner | streamlit_app.py:66-71 | Definition: the team passed first, with `is_winner` true: team 1 when it wins, team 2 otherwise. |
| MatchResults.Loser | streamlit_app.py:66-71 | Definition: the team passed second, with `is_winner` false. |
| MatchResults.WinnerScore | streamlit_app.py:66-71 | Definition: the winner's `games_won_team` argument, its own score. |
| MatchResults.LoserScore | streamlit_app.py:66-71 | Definition: the loser's `games_won_team` argument, its own score. |
| MatchResults.SlotCredit | streamlit_app.py:78-84 | Definition: what one loop turn for `player` adds to a name's five entries. For the player it is win 1 and won 1 if `is_winner`, else lost 1, plus the team's games for and against; any other name gets nothing. |
| MatchResults.TeamCredit | streamlit_app.py:76-84 | Definition: the two loop turns over `[player1, player2]`, added in order. |
| MatchResults.MatchDelta | streamlit_app.py:66-71 | Definition: the winner's call, then the loser's call, for one match. |
| MatchResults.Total | streamlit_app.py:65-71 | Definition: the matches of the batch, credited in order. |
| MatchResults.Appearances | streamlit_app.py:65 | Definition: the number of matches of the batch a name plays in. |
| MatchResults.GamesPlayed | streamlit_app.py:65 | Definition: the sum of both scores over the matches of the batch a name plays in. |
| MatchResults.WinnerRule | streamlit_app.py:66-71 | Team 1's players are credited a match won iff s1 > s2. Team 2's players are credited it iff s1 <= s2, draws included. On s1 <= s2 both team 1 players get a match lost. |
| MatchResults.MatchCredit | streamlit_app.py:66-84 | With four different players, a winning player gets exactly (win 1, won 1, lost 0, own score, other score). A losing player gets exactly (0, 0, 1, own score, other score). A player not in the match gets nothing. So no player gets both a match won and a match lost. |
| MatchResults.TeamCreditOfPair | streamlit_app.py:75-84 | A team of two different players credits each of them exactly one slot's worth and nobody else anything. |
| MatchResults.GamesConservation | streamlit_app.py:83-84 | Scores are credited unsplit. The four players' games won from one match sum to 2*(s1+s2), and so do their games lost. |
| MatchResults.MatchesConservation | streamlit_app.py:65-82 | Over a batch with four different players per match, a player's matches won plus matches lost equals the number of matches they appear in. |
| MatchResults.GamesPerPlayer | streamlit_app.py:65-84 | Over a batch with four different players per match, a player's games won plus games lost equals the games played (both scores) in the matches they appear in. |
| MatchResults.WinsMirrorMatchesWon | streamlit_app.py:78-80 | `wins` and `matches_won` are incremented together, so they are equal over any batch. |
| MatchResults.MatchDeltaNonNegative | streamlit_app.py:66-84 | With scores in 0..10, no counter that one match credits is negative. |
| MatchResults.TotalNonNegative | streamlit_app.py:65-84 | With scores in 0..10, no counter that a whole batch credits is negative. |
| Tallies.Get | streamlit_app.py:93-96 | Definition: `d.get(player, 0)`, a lookup with 0 for a missing key. |
| Tallies.At | streamlit_app.py:93-96 | Definition: a name's five entries, each read with 0 for a missing key. |
| Tallies.Totals | streamlit_app.py:58-71 | Reference definition of the five dictionaries after the results loop: keyed by the roster, each roster name holding `Total` of the batch. Its ensures only unfold this definition for the proofs. |
| Tallies.Fresh | streamlit_app.py:58-62 | The five zero-initialised dictionaries are the reference tally of the empty batch. |
| Tallies.TracksRoster | streamlit_app.py:58-62 | A tally with the reference keys can look up a name without a key error iff the name is in the roster. |
| Tallies.CreditSoFarStep | streamlit_app.py:76-77 | Crediting slot `done` after the earlier slots gives the credit of the first `done + 1` slots. After both slots it is the team credit. |
| Tallies.NothingCreditedYet | streamlit_app.py:76-77 | Before the loop over the team, the dictionaries hold the incoming tally plus nothing. |
| Tallies.Creditable | streamlit_app.py:78-84 | Definition: the lookups one loop turn makes succeed. A winner needs `wins`, `matches_won`, `games_won` and `games_lost`; a loser needs `matches_lost`, `games_won` and `games_lost`. |
| Tallies.TurnUpdates | streamlit_app.py:78-84 | Definition: the five dictionaries after the `+=` statements of one loop turn, the untouched ones unchanged. |
| Tallies.TurnCredits | streamlit_app.py:78-84 | One loop turn adds no key and adds exactly the slot's credit to every name's entries, with 0 for a missing key. |
| Tallies.SlotStep | streamlit_app.py:78-84 | The five updates of one loop turn keep every key set. They add the slot's credit on top of the slots before it, for every tracked player. |
| Tallies.UpdateTeamStats | streamlit_app.py:75-84 | `ok` iff both players are keys of every dictionary their branch looks up (`wins`, `matches_won`, `games_won` and `games_lost` for a winner; `matches_lost`, `games_won` and `games_lost` for a loser); otherwise it is the key error. On success no key is added, and every player keyed in all five dictionaries gains exactly the team's credit. |
| Tallies.MatchStepAt | streamlit_app.py:66-71 | Crediting the winning team, then the losing team, adds exactly the match's credit to a player's entries. |
| Tallies.MatchStep | streamlit_app.py:65-71 | Crediting winner then loser to the tally of the first matches gives the reference tally of the batch extended by that match. |
| Tallies.ResultsStep | streamlit_app.py:65-71 | One turn of the results loop, in the branch shape of the code, turns the tally of the first i matches into the tally of the first i+1. |
| PlayerStats.NewRow | streamlit_app.py:155-165 | Definition: a row with the given name, every counter 0 and the ratio 0.0, as the `new_data` frame builds it and as each row of `initial_data` at 7-17 starts. |
| Rankings.Names | streamlit_app.py:89 | Definition: the `Player` column, in row order, as read at 89 and 153. |
| PlayerStats.Times | streamlit_app.py:88-96 | A name listed n times in the roster is credited n times over. Zero times is nothing, and a non-negative amount stays non-negative. |
| PlayerStats.Credit | streamlit_app.py:93-96 | Definition: the four `+=` into Matches Won, Matches Lost, Games Won and Games Lost; the other columns are untouched. |
| Rankings.CountZero | streamlit_app.py:88-89 | A name occurs zero times in the roster iff it is not in the roster. |
| Rankings.CreditPlayer | streamlit_app.py:89-96 | Crediting one name keeps the table's length. It leaves the table unchanged when no row has that name. |
| Rankings.CreditedRows | streamlit_app.py:88-96 | Definition (closed form of the loop): each row gets its name's entries added once per occurrence of the name in the roster. |
| Rankings.AfterBatch | streamlit_app.py:56-96 | Definition: the table after a batch, the closed form applied to the reference tally `Totals`. |
| Rankings.CreditedRowStep | streamlit_app.py:88-96 | Row k after crediting a roster equals row k after crediting the roster without its last name, then crediting that name. |
| Rankings.CreditedRowsStep | streamlit_app.py:88-96 | The whole table after crediting a roster is the table for the roster without its last name, with the last name's entries added to its rows. |
| Rankings.RankingTable.ApplyPlayerStats | streamlit_app.py:86-96 | After the loop over the roster, every row holds its four match and game columns plus its name's dictionary entries (0 for a missing key), added once per occurrence of the name in the roster. |
| Rankings.RankingTable.CalculateRank | streamlit_app.py:56-73 | The batch is processed (`ok`) iff every player of every match is in the roster. On success the table is the closed form `AfterBatch`, and every row kept its name, points, tournament counts and ratio with no counter lowered. On a key error the table is unchanged. |
| Rankings.BatchOnlyGrows | streamlit_app.py:86-96 | A processed batch keeps the rows and their order. It leaves Points, Tournaments Played/Won and the ratio alone, never lowers a counter with in-range scores, and leaves rows of names outside the roster as they were. |
| Rankings.BatchMatchesConservation | streamlit_app.py:65-96 | For a name listed once in the roster, a processed batch raises its Matches Won + Matches Lost by exactly the number of matches it played. |
| Rankings.BatchGamesConservation | streamlit_app.py:65-96 | For a name listed once in the roster, a processed batch raises its Games Won + Games Lost by exactly the games played in the matches it played. |
| Rankings.ResubmissionDoubles | streamlit_app.py:56-96 | Nothing records a processed batch. Processing it twice moves every match and game column by exactly twice what one processing moves it, and leaves the other columns as they were. |
| Rankings.AddedRows | streamlit_app.py:152-166 | A zero row is appended iff the name is non-empty and not already in the `Player` column. Existing rows never change, a non-empty name is in the table afterwards, and unique names stay unique. |
| Rankings.RankingTable.AddPlayer | streamlit_app.py:148-166 | Reports whether a row was added (non-empty, absent name). The new table is `AddedRows` of the old one. |
| Rankings.RankingTable.constructor | streamlit_app.py:6-21 | The initial table has one all-zero row per roster name, in roster order. |

## Left out

- The Streamlit user interface is not modelled: titles, forms, select boxes,
  number inputs, messages and reruns. Only the guarantees of the score
  inputs, 0..10, are kept, as `CalculateRank`'s precondition.
- Reading, writing and exporting `data.csv` (`to_csv`, `read_csv`, upload)
  is left out because it is file I/O. The model ends where the table would
  be saved.
- `edit_player_names` is not modelled because it is user-interface
  renaming. The roster `players` is therefore a parameter separate from the
  table's `Player` column. A renamed row is never credited, and a match
  naming a player outside the roster fails with the key error.
- Sorting the display by Points is a presentation call and is not modelled.
- Placement points, tournament counts and the points-per-tournament ratio
  are not computed by this code. Placement ranking, tie-breaking and
  tournament wins are described for the system as a whole but have no code
  here; the model carries these columns unchanged and does not invent them.
  The ratio column is a floating-point column, carried as a `real`.
- Validation errors are not modelled because the code has none. That means
  no duplicate-player, team-size or negative-score error, and no check that
  a batch is non-empty. The model follows the code:
  - four different players per match is a hypothesis of the lemmas that
    need it (the select boxes guarantee it);
  - only the failed dictionary lookup is an error path.
- A failed lookup in `update_team_stats` raises `KeyError`, which is
  modelled as the result flag `ok == false`. The exception unwinds before
  `apply_player_stats`, so the table is unchanged.
- UpdateTeamStats: on a key error it does not describe the partly updated
  dictionaries it returns, because the caller drops them. On success it states
  the credit only for names keyed in all five dictionaries. The dictionaries
  `calculate_rank` builds all have the roster as keys, so there this covers
  every name.
- The five dictionaries are mutated in place by `update_team_stats`. They
  are modelled as one `Tally` value that the method returns and the caller
  threads on. Nothing else holds them, so no aliasing is lost.
- Python integers are unbounded, like Dafny's `int`, so there is no overflow
  to model. The pandas columns are taken as unbounded integers too.
- The code under the triple-quoted string at streamlit_app.py:1-119 is the
  only scoring logic. The live processing step at streamlit_app.py:194-196 is
  an empty placeholder and is not modelled.
