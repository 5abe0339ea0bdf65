/**
 * The match simulator: the win probability derived from FIBA rankings, the choice of
 * winner and scores from one `MatchDraw`, and the in-place update of both teams'
 * statistics. `StatsAfter` describes what any sequence of simulated matches does to
 * one team, which is how the group stage and the knockout state their effect.
 */
module Matches {
  import opened Teams

  function Max(a: int, b: int): int { if a >= b then a else b }
  function Min(a: int, b: int): int { if a <= b then a else b }

  /**
   * Percentage chance that `team1` beats `team2`: 50 plus twice the ranking difference,
   * clamped so that no match is certain.
   */
  function WinProbability(team1: Tim, team2: Tim): (p: int)
    ensures 5 <= p <= 95
    ensures var raw := 50 + 2 * (team2.FIBARanking - team1.FIBARanking);
            (5 <= raw <= 95 ==> p == raw) && (raw < 5 ==> p == 5) && (raw > 95 ==> p == 95)
  {
    var rankingDifference := team2.FIBARanking - team1.FIBARanking;
    var baseProbability := 50;
    var winProbability := baseProbability + rankingDifference * 2;
    Max(5, Min(95, winProbability))
  }

  /** The two sides' chances are complementary, and the better-ranked side is favoured. */
  lemma ProbabilitiesComplement(team1: Tim, team2: Tim)
    ensures WinProbability(team1, team2) + WinProbability(team2, team1) == 100
    ensures team1.FIBARanking < team2.FIBARanking ==> WinProbability(team1, team2) > 50
  {
  }

  /** How many of the rolls 0 .. n-1 make `team1` the winner (the other draws do not matter). */
  function WinningRolls(team1: Tim, team2: Tim, n: nat): nat
    requires n <= 100
  {
    if n == 0 then 0
    else WinningRolls(team1, team2, n - 1) + (if Decide(team1, team2, MatchDraw(n - 1, 60, 0)).winner == team1 then 1 else 0)
  }

  /**
   * Of the 100 equally likely outcome rolls, exactly `WinProbability(team1, team2)` make
   * `team1` the winner: the probability is a percentage in the literal sense.
   */
  lemma {:induction false} WinningRollsArePercentage(team1: Tim, team2: Tim, n: nat)
    requires n <= 100 && team1 != team2
    ensures WinningRolls(team1, team2, n) == Min(n, WinProbability(team1, team2))
  {
    if n > 0 {
      WinningRollsArePercentage(team1, team2, n - 1);
    }
  }

  /** A simulated match as the engine returns it: the two team references and the scores. */
  datatype MatchResult = MatchResult(winner: Tim, loser: Tim, winnerScore: int, loserScore: int)
  {
    /** The printable record of the match: the names and the two scores. */
    function Record(): MatchRecord
    {
      MatchRecord(winner.Team, loser.Team, winnerScore, loserScore)
    }
  }

  /** A match as it is recorded for the report (the score string is kept as two integers). */
  datatype MatchRecord = MatchRecord(winner: string, loser: string, winnerScore: int, loserScore: int)

  /**
   * The outcome of `team1` against `team2` under the draw `d`: who wins, who loses, and
   * the two scores. This is the part of the simulation that changes nothing.
   */
  function Decide(team1: Tim, team2: Tim, d: MatchDraw): (r: MatchResult)
    ensures (r.winner == team1 && r.loser == team2) || (r.winner == team2 && r.loser == team1)
    ensures team1 != team2 ==> (r.winner == team1 <==> d.roll < WinProbability(team1, team2))
    ensures r.winnerScore == d.winnerScore && r.loserScore == d.winnerScore - d.margin
    ensures 60 <= r.winnerScore <= 99 && 46 <= r.loserScore <= r.winnerScore
    ensures r.winnerScore - r.loserScore <= 14
  {
    var probability := WinProbability(team1, team2);
    var winner := if d.roll < probability then team1 else team2;
    var loser := if winner == team1 then team2 else team1;
    MatchResult(winner, loser, d.winnerScore, d.winnerScore - d.margin)
  }

  /** A margin of zero is drawn with positive probability, and then the two scores are equal. */
  lemma EqualScoresPossible(team1: Tim, team2: Tim)
    ensures exists d: MatchDraw :: Decide(team1, team2, d).winnerScore == Decide(team1, team2, d).loserScore
    ensures forall d: MatchDraw :: Decide(team1, team2, d).winnerScore == Decide(team1, team2, d).loserScore <==> d.margin == 0
  {
    var d := MatchDraw(0, 60, 0);
    assert Decide(team1, team2, d).winnerScore == Decide(team1, team2, d).loserScore;
  }

  /** What one match does to the statistics `s` of team `t`: winner's update first, then loser's. */
  function Step(s: Stats, t: Tim, r: MatchResult): Stats
  {
    var afterWin := if r.winner == t then s.AfterWin(r.winnerScore, r.loserScore) else s;
    if r.loser == t then afterWin.AfterLoss(r.winnerScore, r.loserScore) else afterWin
  }

  /** The statistics of `t`, starting from `s`, after the matches `rs` have been simulated in order. */
  function StatsAfter(s: Stats, t: Tim, rs: seq<MatchResult>): Stats
    decreases |rs|
  {
    if rs == [] then s else Step(StatsAfter(s, t, rs[..|rs| - 1]), t, rs[|rs| - 1])
  }

  /** How many sides of the matches `rs` team `t` played (twice for a match against itself). */
  function Appearances(t: Tim, rs: seq<MatchResult>): nat
    decreases |rs|
  {
    if rs == [] then 0
    else
      var r := rs[|rs| - 1];
      Appearances(t, rs[..|rs| - 1]) + (if r.winner == t then 1 else 0) + (if r.loser == t then 1 else 0)
  }

  lemma AppendOne(s: Stats, t: Tim, rs: seq<MatchResult>, r: MatchResult)
    ensures StatsAfter(s, t, rs + [r]) == Step(StatsAfter(s, t, rs), t, r)
    ensures Appearances(t, rs + [r]) == Appearances(t, rs) + Appearances(t, [r])
  {
    assert (rs + [r])[..|rs|] == rs;
    assert [r][..0] == [];
  }

  /** Simulating `a` and then `b` is simulating `a + b`. */
  lemma {:induction false} StatsAfterConcat(s: Stats, t: Tim, a: seq<MatchResult>, b: seq<MatchResult>)
    ensures StatsAfter(s, t, a + b) == StatsAfter(StatsAfter(s, t, a), t, b)
    ensures Appearances(t, a + b) == Appearances(t, a) + Appearances(t, b)
    decreases |b|
  {
    if b == [] {
      assert a + b == a;
    } else {
      var b' := b[..|b| - 1];
      var r := b[|b| - 1];
      assert a + b == (a + b') + [r];
      assert b == b' + [r];
      StatsAfterConcat(s, t, a, b');
      AppendOne(s, t, a + b', r);
      AppendOne(StatsAfter(s, t, a), t, b', r);
      AppendOne(s, t, b', r);
      assert Appearances(t, b) == Appearances(t, b') + Appearances(t, [r]) by {
        AppendOne(s, t, b', r);
      }
    }
  }

  /** The sides `t` plays in `a + b` are those it plays in `a` and those it plays in `b`. */
  lemma AppearancesConcat(t: Tim, a: seq<MatchResult>, b: seq<MatchResult>)
    ensures Appearances(t, a + b) == Appearances(t, a) + Appearances(t, b)
  {
    StatsAfterConcat(Stats(0, 0, 0, 0, 0, 0), t, a, b);
  }

  /**
   * Any sequence of matches keeps the bookkeeping identities
   * Points == 2 * Wins + Losses and GoalDifference == Scored - Conceded, and adds exactly
   * one win or loss per side played.
   */
  lemma {:induction false} StatsAfterInvariants(s: Stats, t: Tim, rs: seq<MatchResult>)
    ensures s.Consistent() ==> StatsAfter(s, t, rs).Consistent()
    ensures StatsAfter(s, t, rs).Played() == s.Played() + Appearances(t, rs)
    decreases |rs|
  {
    if rs != [] {
      StatsAfterInvariants(s, t, rs[..|rs| - 1]);
    }
  }

  /** A team that plays none of the matches keeps its statistics. */
  lemma {:induction false} StatsAfterAbsent(s: Stats, t: Tim, rs: seq<MatchResult>)
    requires forall k :: 0 <= k < |rs| ==> rs[k].winner != t && rs[k].loser != t
    ensures Appearances(t, rs) == 0
    ensures StatsAfter(s, t, rs) == s
    decreases |rs|
  {
    if rs != [] {
      StatsAfterAbsent(s, t, rs[..|rs| - 1]);
    }
  }

  /**
   * `SimulateMatch(team1, team2)`: decides the match from the draw `d` and updates both teams'
   * statistics in place, the winner's first. Calling it with one team on both sides is not
   * guarded against; the two updates then land on the same object.
   */
  method SimulateMatch(team1: Tim, team2: Tim, d: MatchDraw) returns (r: MatchResult)
    modifies team1, team2
    ensures r == Decide(team1, team2, d)
    ensures team1 != team2 ==>
              r.winner.Statistics() == old(r.winner.Statistics()).AfterWin(r.winnerScore, r.loserScore) &&
              r.loser.Statistics() == old(r.loser.Statistics()).AfterLoss(r.winnerScore, r.loserScore)
    ensures team1 == team2 ==>
              team1.Statistics() == old(team1.Statistics()).AfterWin(r.winnerScore, r.loserScore)
                                                          .AfterLoss(r.winnerScore, r.loserScore)
    ensures team1.Statistics() == Step(old(team1.Statistics()), team1, r)
    ensures team2.Statistics() == Step(old(team2.Statistics()), team2, r)
    ensures old(team1.Consistent()) ==> team1.Consistent()
    ensures old(team2.Consistent()) ==> team2.Consistent()
  {
    var probability := WinProbability(team1, team2);
    var randomValue := d.roll;
    var winner := if randomValue < probability then team1 else team2;
    var loser := if winner == team1 then team2 else team1;

    var winnerScore: int := d.winnerScore;
    var loserScore := winnerScore - d.margin;

    winner.Points := winner.Points + 2;
    winner.Wins := winner.Wins + 1;
    winner.Scored := winner.Scored + winnerScore;
    winner.Conceded := winner.Conceded + loserScore;
    winner.GoalDifference := winner.GoalDifference + (winnerScore - loserScore);

    loser.Points := loser.Points + 1;
    loser.Losses := loser.Losses + 1;
    loser.Scored := loser.Scored + loserScore;
    loser.Conceded := loser.Conceded + winnerScore;
    loser.GoalDifference := loser.GoalDifference + (loserScore - winnerScore);

    r := MatchResult(winner, loser, winnerScore, loserScore);
  }

  /**
   * Every team of `pool` has the statistics that the matches `played` give it, starting from
   * the snapshot `initial` taken of it (position by position).
   */
  ghost predicate Tracks(pool: seq<Tim>, initial: seq<Stats>, played: seq<MatchResult>)
    reads pool
  {
    |initial| == |pool| && forall i :: 0 <= i < |pool| ==> pool[i].Statistics() == StatsAfter(initial[i], pool[i], played)
  }

  /** The statistics of every team of `pool`, position by position, in the current state. */
  function Snapshot(pool: seq<Tim>): (s: seq<Stats>)
    reads pool
    ensures |s| == |pool| && forall p :: 0 <= p < |pool| ==> s[p] == pool[p].Statistics()
    decreases |pool|
  {
    if pool == [] then [] else Snapshot(pool[..|pool| - 1]) + [pool[|pool| - 1].Statistics()]
  }

  /** `SimulateMatch` between two teams of `pool`, extending the tracked history of the pool by its result. */
  method SimulateTracked(ghost pool: seq<Tim>, team1: Tim, team2: Tim, d: MatchDraw,
                         ghost initial: seq<Stats>, ghost played: seq<MatchResult>)
    returns (r: MatchResult)
    requires Tracks(pool, initial, played)
    modifies team1, team2
    ensures r == Decide(team1, team2, d)
    ensures Tracks(pool, initial, played + [r])
  {
    r := SimulateMatch(team1, team2, d);
    forall i | 0 <= i < |pool|
      ensures pool[i].Statistics() == StatsAfter(initial[i], pool[i], played + [r])
    {
      AppendOne(initial[i], pool[i], played, r);
    }
  }
}
