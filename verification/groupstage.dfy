/**
 * The group stage: every group plays the same fixed three-round schedule over the
 * positions 0..3 of its team list, and the results are recorded per round and per group.
 */
module GroupStage {
  import opened Teams
  import opened Matches

  /** The schedule of one group: three rounds of two matches, as pairs of positions. */
  const Rounds: seq<seq<(int, int)>> := [[(0, 1), (2, 3)], [(0, 2), (1, 3)], [(0, 3), (1, 2)]]

  /** The label of a round in the results. */
  function RoundKey(round: int): string
    requires 0 <= round < 3
  {
    if round == 0 then "I" else if round == 1 then "II" else "III"
  }

  /** The schedule in play order: round by round, slot by slot. */
  const Schedule: seq<(int, int)> := [(0, 1), (2, 3), (0, 2), (1, 3), (0, 3), (1, 2)]

  /** The k-th match of a group in play order, as a pair of positions. */
  function Fixture(k: int): (f: (int, int))
    requires 0 <= k < 6
    ensures 0 <= f.0 < 4 && 0 <= f.1 < 4 && f.0 != f.1
  {
    Schedule[k]
  }

  /** Match k of the play order is slot k % 2 of round k / 2 of the schedule. */
  lemma FixtureIsScheduled(roundIndex: int, j: int)
    requires 0 <= roundIndex < 3 && 0 <= j < 2
    ensures |Rounds[roundIndex]| == 2 && Rounds[roundIndex][j] == Fixture(2 * roundIndex + j)
  {
  }

  /** Number of the first n matches of the schedule in which position i plays. */
  function Occurrences(i: int, n: nat): nat
    requires n <= 6
  {
    if n == 0 then 0
    else Occurrences(i, n - 1) + (if Fixture(n - 1).0 == i || Fixture(n - 1).1 == i then 1 else 0)
  }

  /** Number of the first n matches of the schedule that oppose positions i and j. */
  function Meetings(i: int, j: int, n: nat): nat
    requires n <= 6
  {
    if n == 0 then 0
    else Meetings(i, j, n - 1) + (if Fixture(n - 1) == (i, j) || Fixture(n - 1) == (j, i) then 1 else 0)
  }

  /**
   * The schedule is a single round robin: every pair of positions meets exactly once, every position plays exactly three
   * times, and within each round every position plays exactly once.
   */
  lemma ScheduleIsRoundRobin()
    ensures forall i, j :: 0 <= i < j < 4 ==> Meetings(i, j, 6) == 1
    ensures forall i :: 0 <= i < 4 ==> Occurrences(i, 6) == 3
    ensures forall r :: 0 <= r < 3 ==>
              {Rounds[r][0].0, Rounds[r][0].1, Rounds[r][1].0, Rounds[r][1].1} == {0, 1, 2, 3}
  {
    assert Fixture(0) == (0, 1) && Fixture(1) == (2, 3) && Fixture(2) == (0, 2);
    assert Fixture(3) == (1, 3) && Fixture(4) == (0, 3) && Fixture(5) == (1, 2);
    forall i, j | 0 <= i < j < 4 ensures Meetings(i, j, 6) == 1 {
      assert Meetings(i, j, 1) == (if i == 0 && j == 1 then 1 else 0);
      assert Meetings(i, j, 2) == Meetings(i, j, 1) + (if i == 2 && j == 3 then 1 else 0);
      assert Meetings(i, j, 3) == Meetings(i, j, 2) + (if i == 0 && j == 2 then 1 else 0);
      assert Meetings(i, j, 4) == Meetings(i, j, 3) + (if i == 1 && j == 3 then 1 else 0);
      assert Meetings(i, j, 5) == Meetings(i, j, 4) + (if i == 0 && j == 3 then 1 else 0);
      assert Meetings(i, j, 6) == Meetings(i, j, 5) + (if i == 1 && j == 2 then 1 else 0);
    }
    forall i | 0 <= i < 4 ensures Occurrences(i, 6) == 3 {
      assert Occurrences(i, 2) == 1;
      assert Occurrences(i, 4) == 2;
    }
  }

  /** The first n results of a group whose teams are `teams`, in play order; match k uses draw `base + k`. */
  function ResultsUpTo(teams: seq<Tim>, draw: nat -> MatchDraw, base: nat, n: nat): (rs: seq<MatchResult>)
    requires |teams| >= 4 && n <= 6
    ensures |rs| == n
  {
    if n == 0 then []
    else
      var (a, b) := Fixture(n - 1);
      ResultsUpTo(teams, draw, base, n - 1) + [Decide(teams[a], teams[b], draw(base + n - 1))]
  }

  /** The six results of a group. */
  function GroupResults(teams: seq<Tim>, draw: nat -> MatchDraw, base: nat): (rs: seq<MatchResult>)
    requires |teams| >= 4
    ensures |rs| == 6
  {
    ResultsUpTo(teams, draw, base, 6)
  }

  /** Match k of a group is decided between the two positions the schedule names, with draw `base + k`. */
  lemma {:induction false} ResultsUpToAt(teams: seq<Tim>, draw: nat -> MatchDraw, base: nat, n: nat, k: int)
    requires |teams| >= 4 && n <= 6 && 0 <= k < n
    ensures ResultsUpTo(teams, draw, base, n)[k] == Decide(teams[Fixture(k).0], teams[Fixture(k).1], draw(base + k))
  {
    if k < n - 1 {
      ResultsUpToAt(teams, draw, base, n - 1, k);
    }
  }

  /** Match k of a group's results, as the schedule and the draws determine it. */
  lemma GroupResultsAt(teams: seq<Tim>, draw: nat -> MatchDraw, base: nat, k: int)
    requires |teams| >= 4 && 0 <= k < 6
    ensures GroupResults(teams, draw, base)[k] == Decide(teams[Fixture(k).0], teams[Fixture(k).1], draw(base + k))
  {
    ResultsUpToAt(teams, draw, base, 6, k);
  }

  /** The team lists of the groups, in group order. */
  function Lineups(groups: seq<Group>): (ls: seq<seq<Tim>>)
    reads groups
    ensures |ls| == |groups| && forall i :: 0 <= i < |groups| ==> ls[i] == groups[i].Teams
  {
    seq(|groups|, i reads groups requires 0 <= i < |groups| => groups[i].Teams)
  }

  /** Every group has the four teams the schedule indexes. */
  predicate Playable(lineups: seq<seq<Tim>>)
  {
    forall i :: 0 <= i < |lineups| ==> |lineups[i]| >= 4
  }

  /** All results of the stage in play order: group by group, group i using draws 6 * i .. 6 * i + 5. */
  function StageResults(lineups: seq<seq<Tim>>, draw: nat -> MatchDraw): (rs: seq<MatchResult>)
    requires Playable(lineups)
    ensures |rs| == 6 * |lineups|
    decreases |lineups|
  {
    if lineups == [] then []
    else
      var n := |lineups| - 1;
      StageResults(lineups[..n], draw) + GroupResults(lineups[n], draw, 6 * n)
  }

  /** The block of `StageResults` that belongs to group `gi`. */
  lemma {:induction false} StageResultsBlock(lineups: seq<seq<Tim>>, draw: nat -> MatchDraw, gi: int)
    requires Playable(lineups) && 0 <= gi < |lineups|
    ensures StageResults(lineups, draw)[6 * gi .. 6 * gi + 6] == GroupResults(lineups[gi], draw, 6 * gi)
    decreases |lineups|
  {
    var n := |lineups| - 1;
    if gi < n {
      StageResultsBlock(lineups[..n], draw, gi);
      assert lineups[..n][gi] == lineups[gi];
    }
  }

  /** The first four teams of the groups are pairwise different objects. */
  predicate DistinctTeams(lineups: seq<seq<Tim>>)
    requires Playable(lineups)
  {
    forall gi, gj, i, j ::
      0 <= gi < |lineups| && 0 <= gj < |lineups| && 0 <= i < 4 && 0 <= j < 4 && (gi != gj || i != j) ==>
        lineups[gi][i] != lineups[gj][j]
  }

  /** A team that is not among a group's first four plays none of its matches. */
  lemma GroupResultsAbsent(teams: seq<Tim>, draw: nat -> MatchDraw, base: nat, t: Tim)
    requires |teams| >= 4 && t !in teams[..4]
    ensures Appearances(t, GroupResults(teams, draw, base)) == 0
  {
    var rs := GroupResults(teams, draw, base);
    forall k | 0 <= k < 6 ensures rs[k].winner != t && rs[k].loser != t {
      GroupResultsAt(teams, draw, base, k);
      assert teams[Fixture(k).0] in teams[..4] && teams[Fixture(k).1] in teams[..4];
    }
    StatsAfterAbsent(t.Statistics(), t, rs);
  }

  /** With four different teams, team i of a group plays exactly the matches of position i. */
  lemma {:induction false} GroupResultsAppearances(teams: seq<Tim>, draw: nat -> MatchDraw, base: nat, i: int, n: nat)
    requires |teams| >= 4 && Distinct(teams[..4]) && 0 <= i < 4 && n <= 6
    ensures Appearances(teams[i], GroupResults(teams, draw, base)[..n]) == Occurrences(i, n)
  {
    var rs := GroupResults(teams, draw, base);
    if n > 0 {
      GroupResultsAppearances(teams, draw, base, i, n - 1);
      GroupResultsAt(teams, draw, base, n - 1);
      var (a, b) := Fixture(n - 1);
      assert rs[..n][..n - 1] == rs[..n - 1];
      assert teams[..4][a] == teams[a] && teams[..4][b] == teams[b] && teams[..4][i] == teams[i];
      assert (teams[i] == teams[a] <==> i == a) && (teams[i] == teams[b] <==> i == b);
    }
  }

  /** With four different teams, each of them plays exactly three of its group's matches. */
  lemma OwnGroupPlaysThree(teams: seq<Tim>, draw: nat -> MatchDraw, base: nat, i: int)
    requires |teams| >= 4 && Distinct(teams[..4]) && 0 <= i < 4
    ensures Appearances(teams[i], GroupResults(teams, draw, base)) == 3
  {
    GroupResultsAppearances(teams, draw, base, i, 6);
    assert GroupResults(teams, draw, base)[..6] == GroupResults(teams, draw, base);
    ScheduleIsRoundRobin();
  }

  /** A team that is not among any group's first four plays none of the stage's matches. */
  lemma {:induction false} StageResultsAbsent(lineups: seq<seq<Tim>>, draw: nat -> MatchDraw, t: Tim)
    requires Playable(lineups)
    requires forall gi :: 0 <= gi < |lineups| ==> t !in lineups[gi][..4]
    ensures Appearances(t, StageResults(lineups, draw)) == 0
    decreases |lineups|
  {
    if lineups != [] {
      var n := |lineups| - 1;
      StageResultsAbsent(lineups[..n], draw, t);
      GroupResultsAbsent(lineups[n], draw, 6 * n, t);
      StatsAfterConcat(t.Statistics(), t, StageResults(lineups[..n], draw), GroupResults(lineups[n], draw, 6 * n));
    }
  }

  /** What distinctness of the groups' first four teams says about one of them. */
  lemma DistinctTeamsFacts(lineups: seq<seq<Tim>>, gi: int, i: int)
    requires Playable(lineups) && DistinctTeams(lineups)
    requires 0 <= gi < |lineups| && 0 <= i < 4
    ensures Distinct(lineups[gi][..4])
    ensures forall gj :: 0 <= gj < |lineups| && gj != gi ==> lineups[gi][i] !in lineups[gj][..4]
  {
    forall a, b | 0 <= a < b < 4 ensures lineups[gi][..4][a] != lineups[gi][..4][b] {
      assert lineups[gi][a] != lineups[gi][b];
    }
    forall gj | 0 <= gj < |lineups| && gj != gi ensures lineups[gi][i] !in lineups[gj][..4] {
      forall j | 0 <= j < 4 ensures lineups[gj][..4][j] != lineups[gi][i] {
        assert lineups[gj][j] != lineups[gi][i];
      }
    }
  }

  /** A team that is among the first four of exactly one group, all different, plays three games of the stage. */
  lemma {:induction false} OnlyGroupPlaysThree(lineups: seq<seq<Tim>>, draw: nat -> MatchDraw, gi: int, i: int)
    requires Playable(lineups) && 0 <= gi < |lineups| && 0 <= i < 4 && Distinct(lineups[gi][..4])
    requires forall gj :: 0 <= gj < |lineups| && gj != gi ==> lineups[gi][i] !in lineups[gj][..4]
    ensures Appearances(lineups[gi][i], StageResults(lineups, draw)) == 3
    decreases |lineups|
  {
    var n := |lineups| - 1;
    var t := lineups[gi][i];
    var prefix := lineups[..n];
    var earlier := StageResults(prefix, draw);
    var block := GroupResults(lineups[n], draw, 6 * n);
    assert StageResults(lineups, draw) == earlier + block;
    AppearancesConcat(t, earlier, block);
    assert forall gj :: 0 <= gj < |prefix| ==> prefix[gj] == lineups[gj];
    if gi == n {
      StageResultsAbsent(prefix, draw, t);
      OwnGroupPlaysThree(lineups[n], draw, 6 * n, i);
    } else {
      OnlyGroupPlaysThree(prefix, draw, gi, i);
      GroupResultsAbsent(lineups[n], draw, 6 * n, t);
    }
  }

  /**
   * When the groups' first four teams are all different, the stage gives each of them
   * exactly three games.
   */
  lemma EveryTeamPlaysThree(lineups: seq<seq<Tim>>, draw: nat -> MatchDraw, gi: int, i: int)
    requires Playable(lineups) && DistinctTeams(lineups)
    requires 0 <= gi < |lineups| && 0 <= i < 4
    ensures Appearances(lineups[gi][i], StageResults(lineups, draw)) == 3
  {
    DistinctTeamsFacts(lineups, gi, i);
    OnlyGroupPlaysThree(lineups, draw, gi, i);
  }

  /** One match of the schedule: slot `j` of round `roundIndex`, simulated with draw `base + 2 * roundIndex + j`. */
  method PlayFixture(teams: seq<Tim>, roundIndex: int, j: int, draw: nat -> MatchDraw, base: nat,
                     ghost pool: seq<Tim>, ghost initial: seq<Stats>, ghost history: seq<MatchResult>)
    returns (result: MatchResult)
    requires |teams| >= 4 && 0 <= roundIndex < 3 && 0 <= j < 2
    requires Tracks(pool, initial, history)
    modifies teams
    ensures result == GroupResults(teams, draw, base)[2 * roundIndex + j]
    ensures Tracks(pool, initial, history + [result])
  {
    FixtureIsScheduled(roundIndex, j);
    GroupResultsAt(teams, draw, base, 2 * roundIndex + j);
    var (a, b) := Rounds[roundIndex][j];
    result := SimulateTracked(pool, teams[a], teams[b], draw(base + 2 * roundIndex + j), initial, history);
  }

  /** The records of a group's six results, two per round. */
  function RoundsOf(teams: seq<Tim>, draw: nat -> MatchDraw, base: nat): (rounds: seq<seq<MatchRecord>>)
    requires |teams| >= 4
    ensures |rounds| == 3
  {
    var rs := GroupResults(teams, draw, base);
    [[rs[0].Record(), rs[1].Record()], [rs[2].Record(), rs[3].Record()], [rs[4].Record(), rs[5].Record()]]
  }

  /** Appending the next slice of `s` to a prefix of it gives the longer prefix. */
  lemma ExtendPrefix<T>(before: seq<T>, s: seq<T>, i: int, j: int)
    requires 0 <= i <= j <= |s|
    ensures before + s[..i] + s[i..j] == before + s[..j]
  {
    assert s[..i] + s[i..j] == s[..j];
  }

  /** Round r's records are those of the group's matches 2r and 2r + 1. */
  lemma RoundsOfAt(teams: seq<Tim>, draw: nat -> MatchDraw, base: nat, r: int)
    requires |teams| >= 4 && 0 <= r < 3
    ensures RoundsOf(teams, draw, base)[r] ==
              [GroupResults(teams, draw, base)[2 * r].Record(), GroupResults(teams, draw, base)[2 * r + 1].Record()]
  {
    if r == 0 {
    } else if r == 1 {
    } else {
    }
  }

  /** One round of a group: its two matches in slot order, each recorded as it is simulated. */
  method PlayRound(teams: seq<Tim>, roundIndex: int, draw: nat -> MatchDraw, base: nat,
                   ghost pool: seq<Tim>, ghost initial: seq<Stats>, ghost history: seq<MatchResult>)
    returns (roundResults: seq<MatchRecord>)
    requires |teams| >= 4 && 0 <= roundIndex < 3
    requires Tracks(pool, initial, history)
    modifies teams
    ensures roundResults == RoundsOf(teams, draw, base)[roundIndex]
    ensures Tracks(pool, initial, history + GroupResults(teams, draw, base)[2 * roundIndex .. 2 * roundIndex + 2])
  {
    ghost var expected := GroupResults(teams, draw, base)[2 * roundIndex .. 2 * roundIndex + 2];
    ghost var played: seq<MatchResult> := [];
    roundResults := [];
    assert history + played == history;
    for j := 0 to |Rounds[roundIndex]|
      invariant |roundResults| == j && played == expected[..j]
      invariant forall m :: 0 <= m < j ==> roundResults[m] == expected[m].Record()
      invariant Tracks(pool, initial, history + played)
    {
      var result := PlayFixture(teams, roundIndex, j, draw, base, pool, initial, history + played);
      roundResults := roundResults + [result.Record()];
      assert expected[..j + 1] == expected[..j] + [result];
      assert history + played + [result] == history + (played + [result]);
      played := played + [result];
    }
    assert played == expected;
    RoundsOfAt(teams, draw, base, roundIndex);
  }

  /** One group's three rounds in order; every tracked team ends with the statistics the six results give it. */
  method PlayGroup(teams: seq<Tim>, draw: nat -> MatchDraw, base: nat,
                   ghost pool: seq<Tim>, ghost initial: seq<Stats>, ghost before: seq<MatchResult>)
    returns (rounds: seq<seq<MatchRecord>>)
    requires |teams| >= 4
    requires Tracks(pool, initial, before)
    modifies teams
    ensures rounds == RoundsOf(teams, draw, base)
    ensures Tracks(pool, initial, before + GroupResults(teams, draw, base))
  {
    ghost var expected := GroupResults(teams, draw, base);
    ghost var table := RoundsOf(teams, draw, base);
    rounds := [];
    assert before + expected[..0] == before;
    for roundIndex := 0 to |Rounds|
      invariant rounds == table[..roundIndex]
      invariant Tracks(pool, initial, before + expected[..2 * roundIndex])
    {
      var roundResults := PlayRound(teams, roundIndex, draw, base, pool, initial, before + expected[..2 * roundIndex]);
      ExtendPrefix(before, expected, 2 * roundIndex, 2 * roundIndex + 2);
      rounds := rounds + [roundResults];
    }
    assert expected[..6] == expected;
  }

  /** The names of the groups, in group order. */
  function Names(groups: seq<Group>): (names: seq<string>)
    ensures |names| == |groups| && forall i :: 0 <= i < |groups| ==> names[i] == groups[i].GroupName
  {
    seq(|groups|, i requires 0 <= i < |groups| => groups[i].GroupName)
  }

  /** Group `gi` is the last group carrying its name, so its results are the ones kept under that name. */
  predicate LastWithName(names: seq<string>, gi: int)
    requires 0 <= gi < |names|
  {
    forall j :: gi < j < |names| ==> names[j] != names[gi]
  }

  /**
   * The dictionary of round `r` after the groups named `names`, with the team lists `lineups`,
   * have been played in order: each group name mapped to that group's two records of the round.
   * A later group with the same name overwrites an earlier one's entry.
   */
  function RoundTable(names: seq<string>, lineups: seq<seq<Tim>>, draw: nat -> MatchDraw, r: int): map<string, seq<MatchRecord>>
    requires |names| == |lineups| && Playable(lineups) && 0 <= r < 3
    decreases |names|
  {
    if names == [] then map[]
    else
      var n := |names| - 1;
      RoundTable(names[..n], lineups[..n], draw, r)[names[n] := RoundsOf(lineups[n], draw, 6 * n)[r]]
  }

  /** The whole results dictionary: the three round labels, each with its round's dictionary. */
  function Table(names: seq<string>, lineups: seq<seq<Tim>>, draw: nat -> MatchDraw): map<string, map<string, seq<MatchRecord>>>
    requires |names| == |lineups| && Playable(lineups)
  {
    map["I" := RoundTable(names, lineups, draw, 0), "II" := RoundTable(names, lineups, draw, 1),
        "III" := RoundTable(names, lineups, draw, 2)]
  }

  /** The three round labels are the dictionary's keys, each leading to its own round. */
  lemma TableRounds(names: seq<string>, lineups: seq<seq<Tim>>, draw: nat -> MatchDraw)
    requires |names| == |lineups| && Playable(lineups)
    ensures Table(names, lineups, draw).Keys == {"I", "II", "III"}
    ensures forall r :: 0 <= r < 3 ==> Table(names, lineups, draw)[RoundKey(r)] == RoundTable(names, lineups, draw, r)
  {
    assert |"I"| == 1 && |"II"| == 2 && |"III"| == 3;
  }

  /** Under each round label there are exactly the names of the groups played. */
  lemma {:induction false} RoundTableKeys(names: seq<string>, lineups: seq<seq<Tim>>, draw: nat -> MatchDraw, r: int)
    requires |names| == |lineups| && Playable(lineups) && 0 <= r < 3
    ensures RoundTable(names, lineups, draw, r).Keys == set nm | nm in names
    decreases |names|
  {
    if names != [] {
      var n := |names| - 1;
      RoundTableKeys(names[..n], lineups[..n], draw, r);
      assert names == names[..n] + [names[n]];
    }
  }

  /** Playing group gi adds its entry to every round's dictionary. */
  lemma RoundTableStep(names: seq<string>, lineups: seq<seq<Tim>>, draw: nat -> MatchDraw, gi: int)
    requires |names| == |lineups| && Playable(lineups) && 0 <= gi < |names|
    ensures forall r :: 0 <= r < 3 ==>
              RoundTable(names[..gi + 1], lineups[..gi + 1], draw, r) ==
                RoundTable(names[..gi], lineups[..gi], draw, r)[names[gi] := RoundsOf(lineups[gi], draw, 6 * gi)[r]]
  {
    assert names[..gi + 1][..gi] == names[..gi] && lineups[..gi + 1][..gi] == lineups[..gi];
  }

  /** The entry of a group that no later group shares a name with holds that group's own records. */
  lemma {:induction false} RoundTableEntry(names: seq<string>, lineups: seq<seq<Tim>>, draw: nat -> MatchDraw, gi: int, r: int)
    requires |names| == |lineups| && Playable(lineups) && 0 <= gi < |names| && 0 <= r < 3
    requires LastWithName(names, gi)
    ensures names[gi] in RoundTable(names, lineups, draw, r)
    ensures RoundTable(names, lineups, draw, r)[names[gi]] == RoundsOf(lineups[gi], draw, 6 * gi)[r]
    decreases |names|
  {
    var n := |names| - 1;
    assert Playable(lineups[..n]);
    var earlier := RoundTable(names[..n], lineups[..n], draw, r);
    var rounds := RoundsOf(lineups[n], draw, 6 * n);
    assert RoundTable(names, lineups, draw, r) == earlier[names[n] := rounds[r]];
    if gi < n {
      assert names[..n][gi] == names[gi] && lineups[..n][gi] == lineups[gi];
      assert LastWithName(names[..n], gi);
      RoundTableEntry(names[..n], lineups[..n], draw, gi, r);
    }
  }

  /** The stage's results up to group gi + 1 extend those up to group gi by that group's block. */
  lemma StageResultsStep(lineups: seq<seq<Tim>>, draw: nat -> MatchDraw, gi: int)
    requires Playable(lineups) && 0 <= gi < |lineups|
    ensures StageResults(lineups[..gi + 1], draw) == StageResults(lineups[..gi], draw) + GroupResults(lineups[gi], draw, 6 * gi)
  {
    assert lineups[..gi + 1][..gi] == lineups[..gi];
  }

  /** Every team of every group: the objects the stage may update. */
  function AllTeams(groups: seq<Group>): set<Tim>
    reads groups
    decreases |groups|
  {
    if groups == [] then {}
    else
      var n := |groups| - 1;
      AllTeams(groups[..n]) + set t | t in groups[n].Teams
  }

  /** Each group's teams are among all the teams. */
  lemma {:induction false} AllTeamsContains(groups: seq<Group>, gi: int)
    requires 0 <= gi < |groups|
    ensures forall t :: t in groups[gi].Teams ==> t in AllTeams(groups)
    decreases |groups|
  {
    var n := |groups| - 1;
    if gi < n {
      AllTeamsContains(groups[..n], gi);
      assert groups[..n][gi] == groups[gi];
    }
  }

  /** All the teams of the groups are among `AllTeams`. */
  lemma AllTeamsCover(groups: seq<Group>)
    ensures forall gi, t :: 0 <= gi < |groups| && t in groups[gi].Teams ==> t in AllTeams(groups)
  {
    forall gi | 0 <= gi < |groups| {
      AllTeamsContains(groups, gi);
    }
  }

  /** The team lists one after the other. */
  function Flatten(lineups: seq<seq<Tim>>): (pool: seq<Tim>)
    decreases |lineups|
  {
    if lineups == [] then [] else Flatten(lineups[..|lineups| - 1]) + lineups[|lineups| - 1]
  }

  /** Where team i of group gi sits in the flattened list. */
  lemma {:induction false} FlattenIndex(lineups: seq<seq<Tim>>, gi: int, i: int) returns (p: int)
    requires 0 <= gi < |lineups| && 0 <= i < |lineups[gi]|
    ensures 0 <= p < |Flatten(lineups)| && Flatten(lineups)[p] == lineups[gi][i]
    decreases |lineups|
  {
    var n := |lineups| - 1;
    var earlier := Flatten(lineups[..n]);
    if gi < n {
      assert lineups[..n][gi] == lineups[gi];
      p := FlattenIndex(lineups[..n], gi, i);
      assert (earlier + lineups[n])[p] == earlier[p];
    } else {
      p := |earlier| + i;
    }
  }

  /**
   * The loop of `SimulateGroupStage`: every group's schedule in group order, its rounds
   * recorded under the round label and the group name, while the statistics of the teams
   * of `pool` follow the results played so far.
   */
  method PlayStage(groups: seq<Group>, draw: nat -> MatchDraw, ghost pool: seq<Tim>, ghost initial: seq<Stats>)
    returns (results: map<string, map<string, seq<MatchRecord>>>)
    requires Playable(Lineups(groups))
    requires Tracks(pool, initial, [])
    modifies AllTeams(groups)
    ensures Lineups(groups) == old(Lineups(groups))
    ensures results == Table(Names(groups), Lineups(groups), draw)
    ensures Tracks(pool, initial, StageResults(Lineups(groups), draw))
  {
    ghost var lineups := Lineups(groups);
    ghost var names := Names(groups);
    AllTeamsCover(groups);
    results := map["I" := map[], "II" := map[], "III" := map[]];
    assert names[..0] == [] && lineups[..0] == [];
    for gi := 0 to |groups|
      invariant StageTables(names, lineups, draw, gi, results)
      invariant Tracks(pool, initial, StageResults(lineups[..gi], draw))
    {
      results := PlayStageGroup(groups[gi], gi, draw, names, lineups, results, pool, initial);
    }
    assert names[..|groups|] == names && lineups[..|groups|] == lineups;
    assert Lineups(groups) == lineups;
    StageTablesComplete(names, lineups, draw, results);
  }

  /** Once every group has been played, the round tables are the whole results dictionary. */
  lemma StageTablesComplete(names: seq<string>, lineups: seq<seq<Tim>>, draw: nat -> MatchDraw,
                            results: map<string, map<string, seq<MatchRecord>>>)
    requires StageTables(names, lineups, draw, |names|, results)
    ensures results == Table(names, lineups, draw)
  {
    assert names[..|names|] == names && lineups[..|lineups|] == lineups;
    TableRounds(names, lineups, draw);
    var t := Table(names, lineups, draw);
    forall k | k in results.Keys
      ensures results[k] == t[k]
    {
      var r := if k == "I" then 0 else if k == "II" then 1 else 2;
      assert k == RoundKey(r);
    }
  }

  /** The round tables after the first `gi` groups: one table per round label. */
  ghost predicate StageTables(names: seq<string>, lineups: seq<seq<Tim>>, draw: nat -> MatchDraw, gi: int,
                              results: map<string, map<string, seq<MatchRecord>>>)
  {
    |names| == |lineups| && Playable(lineups) && 0 <= gi <= |names| &&
    results.Keys == {"I", "II", "III"} &&
    forall r :: 0 <= r < 3 ==> results[RoundKey(r)] == RoundTable(names[..gi], lineups[..gi], draw, r)
  }

  /** One pass of the stage loop: plays group `gi` and records its rounds under its name. */
  method PlayStageGroup(group: Group, gi: int, draw: nat -> MatchDraw, ghost names: seq<string>, ghost lineups: seq<seq<Tim>>,
                        results: map<string, map<string, seq<MatchRecord>>>, ghost pool: seq<Tim>, ghost initial: seq<Stats>)
    returns (results': map<string, map<string, seq<MatchRecord>>>)
    requires StageTables(names, lineups, draw, gi, results) && gi < |names|
    requires group.Teams == lineups[gi] && group.GroupName == names[gi]
    requires Tracks(pool, initial, StageResults(lineups[..gi], draw))
    modifies lineups[gi]
    ensures StageTables(names, lineups, draw, gi + 1, results')
    ensures Tracks(pool, initial, StageResults(lineups[..gi + 1], draw))
  {
    var teams := group.Teams;
    var groupKey := group.GroupName;
    ghost var before := StageResults(lineups[..gi], draw);
    var rounds := PlayGroup(teams, draw, 6 * gi, pool, initial, before);
    results' := map["I" := results["I"][groupKey := rounds[0]],
                    "II" := results["II"][groupKey := rounds[1]],
                    "III" := results["III"][groupKey := rounds[2]]];
    StageResultsStep(lineups, draw, gi);
    StageTablesStep(names, lineups, draw, gi, results, rounds);
  }

  /** Recording group `gi`'s rounds under its name extends the round tables by that group. */
  lemma StageTablesStep(names: seq<string>, lineups: seq<seq<Tim>>, draw: nat -> MatchDraw, gi: int,
                        results: map<string, map<string, seq<MatchRecord>>>, rounds: seq<seq<MatchRecord>>)
    requires StageTables(names, lineups, draw, gi, results) && gi < |names|
    requires rounds == RoundsOf(lineups[gi], draw, 6 * gi)
    ensures StageTables(names, lineups, draw, gi + 1,
                        map["I" := results["I"][names[gi] := rounds[0]],
                            "II" := results["II"][names[gi] := rounds[1]],
                            "III" := results["III"][names[gi] := rounds[2]]])
  {
    RoundTableStep(names, lineups, draw, gi);
    var results' := map["I" := results["I"][names[gi] := rounds[0]],
                        "II" := results["II"][names[gi] := rounds[1]],
                        "III" := results["III"][names[gi] := rounds[2]]];
    forall r | 0 <= r < 3
      ensures results'[RoundKey(r)] == RoundTable(names[..gi + 1], lineups[..gi + 1], draw, r)
    {
      assert results'[RoundKey(r)] == results[RoundKey(r)][names[gi] := rounds[r]];
    }
  }

  /**
   * `SimulateGroupStage`: plays every group's schedule, group by group, and records the
   * results under the round label and the group name. Every team ends with the statistics
   * the whole stage's results give it.
   */
  method SimulateGroupStage(groups: seq<Group>, draw: nat -> MatchDraw)
    returns (results: map<string, map<string, seq<MatchRecord>>>)
    requires Playable(Lineups(groups))
    modifies AllTeams(groups)
    ensures Lineups(groups) == old(Lineups(groups))
    ensures results == Table(Names(groups), Lineups(groups), draw)
    ensures forall gi, i :: 0 <= gi < |groups| && 0 <= i < |groups[gi].Teams| ==>
              groups[gi].Teams[i].Statistics() ==
              StatsAfter(old(groups[gi].Teams[i].Statistics()), groups[gi].Teams[i], StageResults(old(Lineups(groups)), draw))
    ensures forall gi, i :: 0 <= gi < |groups| && 0 <= i < |groups[gi].Teams| && old(groups[gi].Teams[i].Consistent()) ==>
              groups[gi].Teams[i].Consistent()
    ensures DistinctTeams(old(Lineups(groups))) ==> forall gi, i :: 0 <= gi < |groups| && 0 <= i < 4 ==>
              groups[gi].Teams[i].Statistics().Played() == old(groups[gi].Teams[i].Statistics().Played()) + 3
  {
    ghost var lineups := Lineups(groups);
    ghost var pool := Flatten(lineups);
    ghost var initial := Snapshot(pool);
    results := PlayStage(groups, draw, pool, initial);
    ghost var stage := StageResults(lineups, draw);
    forall gi, i | 0 <= gi < |groups| && 0 <= i < |lineups[gi]|
      ensures lineups[gi][i].Statistics() == StatsAfter(old(lineups[gi][i].Statistics()), lineups[gi][i], stage)
      ensures old(lineups[gi][i].Consistent()) ==> lineups[gi][i].Consistent()
    {
      var p := FlattenIndex(lineups, gi, i);
      StatsAfterInvariants(initial[p], lineups[gi][i], stage);
    }
    if DistinctTeams(lineups) {
      forall gi, i | 0 <= gi < |groups| && 0 <= i < 4
        ensures lineups[gi][i].Statistics().Played() == old(lineups[gi][i].Statistics().Played()) + 3
      {
        var p := FlattenIndex(lineups, gi, i);
        EveryTeamPlaysThree(lineups, draw, gi, i);
        StatsAfterInvariants(initial[p], lineups[gi][i], stage);
      }
    }
  }
}
