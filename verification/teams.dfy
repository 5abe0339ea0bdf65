/**
 * The tournament's entities: the random draws a match consumes, a team's running
 * statistics, the team object `Tim` whose statistics every match updates in place,
 * and the `Group` whose team order the standings rewrite.
 */
module Teams {

  /** The outcome roll, `random.Next(0, 100)`. */
  type Roll = r: int | 0 <= r < 100

  /** The winner's score, `random.Next(60, 100)`. */
  type WinnerScore = s: int | 60 <= s < 100 witness 60

  /** The winning margin, `random.Next(0, 15)`; zero is allowed. */
  type Margin = m: int | 0 <= m < 15

  /** The three draws one simulated match takes from its random source. */
  datatype MatchDraw = MatchDraw(roll: Roll, winnerScore: WinnerScore, margin: Margin)

  /** A snapshot of a team's running statistics. */
  datatype Stats = Stats(points: int, scored: int, conceded: int, wins: int, losses: int, goalDifference: int)
  {
    /** The bookkeeping identities the statistics are meant to keep. */
    predicate Consistent()
    {
      points == 2 * wins + losses && goalDifference == scored - conceded
    }

    function Played(): int
    {
      wins + losses
    }

    /** The update applied to the winner of a match. */
    function AfterWin(winnerScore: int, loserScore: int): (r: Stats)
      ensures Consistent() ==> r.Consistent()
      ensures r.Played() == Played() + 1 && r.wins == wins + 1 && r.losses == losses
      ensures r.points - points == 2 && r.scored - scored == winnerScore && r.conceded - conceded == loserScore
    {
      Stats(points + 2, scored + winnerScore, conceded + loserScore, wins + 1, losses,
            goalDifference + (winnerScore - loserScore))
    }

    /** The update applied to the loser of a match. */
    function AfterLoss(winnerScore: int, loserScore: int): (r: Stats)
      ensures Consistent() ==> r.Consistent()
      ensures r.Played() == Played() + 1 && r.wins == wins && r.losses == losses + 1
      ensures r.points - points == 1 && r.scored - scored == loserScore && r.conceded - conceded == winnerScore
    {
      Stats(points + 1, scored + loserScore, conceded + winnerScore, wins, losses + 1,
            goalDifference + (loserScore - winnerScore))
    }
  }

  /** The sort key of the standings: points, then goal difference, then points scored. */
  datatype Standing = Standing(points: int, goalDifference: int, scored: int)

  /** `a` ranks at or above `b`: lexicographic comparison of the three keys, larger first. */
  predicate RanksAtLeast(a: Standing, b: Standing)
  {
    a.points > b.points ||
    (a.points == b.points && (a.goalDifference > b.goalDifference ||
                              (a.goalDifference == b.goalDifference && a.scored >= b.scored)))
  }

  /** A national team. Its identity and group never change once loaded; its statistics do. */
  class Tim {
    const Team: string
    const ISOCode: string
    const FIBARanking: int
    const Group: string
    var Points: int
    var Scored: int
    var Conceded: int
    var Wins: int
    var Losses: int
    var GoalDifference: int

    /** A loaded team: statistics start at zero, the group is stamped by the loader. */
    constructor (team: string, isoCode: string, fibaRanking: int, group: string)
      ensures Team == team && ISOCode == isoCode && FIBARanking == fibaRanking && Group == group
      ensures Statistics() == Stats(0, 0, 0, 0, 0, 0) && Consistent()
    {
      Team, ISOCode, FIBARanking, Group := team, isoCode, fibaRanking, group;
      Points, Scored, Conceded, Wins, Losses, GoalDifference := 0, 0, 0, 0, 0, 0;
    }

    function Statistics(): Stats
      reads this
    {
      Stats(Points, Scored, Conceded, Wins, Losses, GoalDifference)
    }

    predicate Consistent()
      reads this
    {
      Statistics().Consistent()
    }

    function Key(): Standing
      reads this
    {
      Standing(Points, GoalDifference, Scored)
    }
  }

  /** A group: its name and its teams in their current order. */
  class Group {
    const GroupName: string
    var Teams: seq<Tim>

    constructor (name: string, teams: seq<Tim>)
      ensures GroupName == name && Teams == teams
    {
      GroupName, Teams := name, teams;
    }
  }

  /** No element occurs twice. */
  predicate Distinct<T(==)>(s: seq<T>)
  {
    forall i, j :: 0 <= i < j < |s| ==> s[i] != s[j]
  }

  /** Distinctness in terms of multiplicities. */
  lemma {:induction false} DistinctMultiplicity<T>(s: seq<T>)
    ensures Distinct(s) <==> forall x :: multiset(s)[x] <= 1
  {
    if s == [] {
    } else {
      var t := s[1..];
      assert s == [s[0]] + t;
      DistinctMultiplicity(t);
      if Distinct(s) {
        assert Distinct(t) by {
          forall i, j | 0 <= i < j < |t| ensures t[i] != t[j] {
            assert t[i] == s[i + 1] && t[j] == s[j + 1];
          }
        }
        assert s[0] !in t;
        forall x ensures multiset(s)[x] <= 1 {
          assert multiset(s)[x] == multiset{s[0]}[x] + multiset(t)[x];
        }
      } else {
        var i, j :| 0 <= i < j < |s| && s[i] == s[j];
        if i == 0 {
          assert t[j - 1] == s[0];
          assert multiset(t)[s[0]] >= 1;
          assert multiset(s)[s[0]] == 1 + multiset(t)[s[0]];
        } else {
          assert t[i - 1] == t[j - 1];
          assert !Distinct(t);
          var x :| multiset(t)[x] > 1;
          assert multiset(s)[x] == multiset{s[0]}[x] + multiset(t)[x];
        }
      }
    }
  }

  /** A sequence whose elements all come, without repetition, from a duplicate-free one has no duplicates. */
  lemma SubMultisetDistinct<T>(a: seq<T>, b: seq<T>)
    requires multiset(a) <= multiset(b) && Distinct(b)
    ensures Distinct(a)
  {
    DistinctMultiplicity(a);
    DistinctMultiplicity(b);
    forall x ensures multiset(a)[x] <= 1 {
      assert multiset(a)[x] <= multiset(b)[x];
    }
  }
}
