/**
 The rows of the rankings table and the per-player amounts that one batch of
 match results adds to them.
 */
module PlayerStats {

  type Name = string

  /** The columns of a rankings-table row after `Player`. The ratio column is a
      floating-point column that no operation computes; it is carried as a real. */
  datatype Stats = Stats(
    points: int,
    tournamentsPlayed: int,
    tournamentsWon: int,
    matchesWon: int,
    matchesLost: int,
    gamesWon: int,
    gamesLost: int,
    ratio: real)

  /** One row of the rankings table. */
  datatype Row = Row(name: Name, stats: Stats)

  const ZeroStats := Stats(0, 0, 0, 0, 0, 0, 0, 0.0)

  /** The row a newly registered player starts with: every column zero. */
  function NewRow(name: Name): Row
  {
    Row(name, ZeroStats)
  }

  /** What one tally holds for one player: the entries of its five counters. */
  datatype Delta = Delta(wins: int, matchesWon: int, matchesLost: int, gamesWon: int, gamesLost: int)

  const NoDelta := Delta(0, 0, 0, 0, 0)

  function Plus(a: Delta, b: Delta): Delta
  {
    Delta(a.wins + b.wins, a.matchesWon + b.matchesWon, a.matchesLost + b.matchesLost,
          a.gamesWon + b.gamesWon, a.gamesLost + b.gamesLost)
  }

  lemma PlusAssociative(a: Delta, b: Delta, c: Delta)
    ensures Plus(Plus(a, b), c) == Plus(a, Plus(b, c))
  {
  }

  lemma PlusNoDelta(d: Delta)
    ensures Plus(NoDelta, d) == d
  {
  }

  lemma PlusNoDeltaRight(d: Delta)
    ensures Plus(d, NoDelta) == d
  {
  }

  predicate NonNegative(d: Delta)
  {
    d.wins >= 0 && d.matchesWon >= 0 && d.matchesLost >= 0 && d.gamesWon >= 0 && d.gamesLost >= 0
  }

  /** `d` added `n` times over; the sum stays non-negative when `d` is. */
  function Times(n: nat, d: Delta): (r: Delta)
    ensures n == 0 ==> r == NoDelta
    ensures NonNegative(d) ==> NonNegative(r)
  {
    if n == 0 then NoDelta else Plus(Times(n - 1, d), d)
  }

  /** The four table columns a tally is added into; `wins` has no column, and
      points, tournament counts and the ratio are left as they are. */
  function Credit(s: Stats, d: Delta): Stats
  {
    s.(matchesWon := s.matchesWon + d.matchesWon,
       matchesLost := s.matchesLost + d.matchesLost,
       gamesWon := s.gamesWon + d.gamesWon,
       gamesLost := s.gamesLost + d.gamesLost)
  }
}
