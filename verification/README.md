# Basketball tournament engine — Dafny model

This project models the tournament engine of `ConsoleApp1/Program.cs`. The engine runs a group
stage and then a knockout phase. It is modelled in five modules:

- `Teams` (teams.dfy): the `Tim` team class, with its identity and its running statistics
  (points, scored, conceded, wins, losses, goal difference), the `Group` class, and the
  `Stats` value that snapshots a team's statistics.
- `Matches` (matches.dfy): the win probability from FIBA rankings, the simulated match, and
  the in-place update of both teams. `StatsAfter` folds any sequence of match results over one
  team. The ghost predicate `Tracks` says that every team of a pool has the statistics the
  matches played so far give it.
- `GroupStage` (groupstage.dfy): the fixed three-round schedule played over positions 0..3 of
  every group, and the nested results dictionary keyed by round label and group name.
- `Standings` (standings.dfy): the stable three-key descending sort (points, goal difference,
  points scored). It covers `RankTeamsInGroups`, which writes each sorted list back into its
  group and stores it in a rankings dictionary, and `RankTeamsForDraw`, which sorts the
  winners, runners-up and third-placed teams tier by tier.
- `Knockout` (knockout.dfy): `PerformEliminationPhase`. This is the cross-group quarterfinal
  draw, the quarterfinals, the semifinal pairing in list order, the semifinals, and the bronze
  and final matches, played only when exactly two teams are there for them.

Randomness is an input. Match number `n` of a run consumes `draw(n)`: an outcome roll in
0..99, a winner's score in 60..99 and a margin in 0..14. Turn `n` of the quarterfinal draw
picks the team at `pick(n)` and the opponent at `choose(n)`, each reduced modulo the size of
the list it indexes.

Two loops of `PerformEliminationPhase` never terminate on some inputs:

- The quarterfinal draw loops forever once fewer than four pairs are drawn, at least two teams
  remain, and every remaining team belongs to one group.
- The semifinal pairing loops forever with two or three semifinalists. Once they are all used,
  `team1` stays null and nothing changes.

The model makes both cases explicit. It stops with a `QuarterfinalDrawStuck` or
`SemifinalDrawStuck` outcome and proves that the state it stops in is one the loop repeats
forever (`Knockout.StuckIsPermanent`, `Knockout.PairSemifinals`).

The margin is drawn from 0..14 (`ConsoleApp1/Program.cs:76`), so a margin of 0 gives the
winner and the loser equal scores. `Matches.EqualScoresPossible` states exactly when that
happens.

## Model

| member | source | states |
|---|---|---|
| Matches.WinProbability | ConsoleApp1/Program.cs:57-64 | The probability always lies in [5, 95]. It equals 50 + 2·(ranking of team2 − ranking of team1) whenever that value is in range, and is clamped to 5 or 95 otherwise. |
| Matches.ProbabilitiesComplement | ConsoleApp1/Program.cs:57-64 | The two sides' probabilities add up to 100, and the better-ranked side gets more than 50. |
| Matches.WinningRollsArePercentage | ConsoleApp1/Program.cs:68-72 | Of the rolls 0..n−1, exactly min(n, probability) make team1 the winner. Over all 100 rolls, the probability is a literal percentage. |
| Matches.Decide | ConsoleApp1/Program.cs:68-76 | The winner and loser are the two inputs in some order. Team1 wins exactly when the roll is below the probability (for two different teams). The winner's score is the drawn score, in [60, 99]. The loser's score is that minus the margin, in [46, winner's score], so at most 14 lower. |
| Matches.EqualScoresPossible | ConsoleApp1/Program.cs:75-76 | Some draw gives equal scores. The scores are equal exactly when the drawn margin is 0. |
| Teams.Stats.AfterWin | ConsoleApp1/Program.cs:78-82 | The winner's update adds 2 points, 1 win, the winner's score to scored and the loser's to conceded. It keeps points = 2·wins + losses and goal difference = scored − conceded. |
| Teams.Stats.AfterLoss | ConsoleApp1/Program.cs:84-88 | The loser's update adds 1 point, 1 loss, the loser's score to scored and the winner's to conceded. It keeps both bookkeeping identities. |
| Matches.SimulateMatch | ConsoleApp1/Program.cs:66-91 | The result is `Decide` of the two teams and the draw. The winner's statistics get the win update and the loser's the loss update. When both arguments are the same object, both updates land on it. Both teams' bookkeeping identities are preserved. |
| Matches.StatsAfterInvariants | ConsoleApp1/Program.cs:78-88 | Any sequence of matches keeps both bookkeeping identities. It adds exactly one to wins + losses for every side the team plays. |
| Matches.StatsAfterConcat | ConsoleApp1/Program.cs:66-91 | Simulating `a` and then `b` gives the statistics and appearances of simulating `a + b`. |
| Matches.StatsAfterAbsent | ConsoleApp1/Program.cs:78-88 | A team that plays none of the matches keeps its statistics. |
| Matches.SimulateTracked | ConsoleApp1/Program.cs:66-91 | A match between two teams of a tracked pool extends the pool's tracked history by exactly its result. |
| GroupStage.ScheduleIsRoundRobin | ConsoleApp1/Program.cs:110-117 | In the schedule (0,1),(2,3) / (0,2),(1,3) / (0,3),(1,2), every pair of positions meets exactly once, every position plays three times, and each round uses each position once. |
| GroupStage.FixtureIsScheduled | ConsoleApp1/Program.cs:110-122 | Slot j of round r is match 2r + j of the play order. |
| GroupStage.GroupResultsAt | ConsoleApp1/Program.cs:119-126 | Match k of a group is decided between the two scheduled positions with draw `base + k`. |
| GroupStage.PlayFixture | ConsoleApp1/Program.cs:122-125 | One scheduled match returns the k-th group result and extends the tracked history by it. |
| GroupStage.PlayRound | ConsoleApp1/Program.cs:119-126 | One round records its two matches in slot order. The teams' statistics follow those two results. |
| GroupStage.PlayGroup | ConsoleApp1/Program.cs:110-127 | A group's three rounds yield the records of its six results, two per round. The statistics follow all six. |
| GroupStage.OwnGroupPlaysThree | ConsoleApp1/Program.cs:110-127 | With four different teams, each of them plays exactly three of its group's matches. |
| GroupStage.EveryTeamPlaysThree | ConsoleApp1/Program.cs:101-127 | When the groups' first four teams are all different, the stage gives each of them exactly three games. |
| GroupStage.StageResultsAbsent | ConsoleApp1/Program.cs:101-127 | A team outside every group's first four plays no game of the stage. |
| GroupStage.RoundTableKeys | ConsoleApp1/Program.cs:101-108 | Under each round label the dictionary holds exactly the names of the groups played. |
| GroupStage.RoundTableEntry | ConsoleApp1/Program.cs:104-125 | The entry of a group whose name no later group reuses holds that group's own two records of the round. |
| GroupStage.TableRounds | ConsoleApp1/Program.cs:95-99 | The results dictionary returned by the stage has exactly the keys "I", "II" and "III", each leading to its own round's table. |
| GroupStage.PlayStageGroup | ConsoleApp1/Program.cs:101-127 | One pass of the group loop extends every round's dictionary by the group's records under its name. The statistics follow that group's six results. |
| GroupStage.PlayStage | ConsoleApp1/Program.cs:101-128 | The loop leaves the groups' lists unchanged, and its results are the whole results dictionary `Table` over all groups. The statistics follow the whole stage's results in group order. |
| GroupStage.StageTablesComplete | ConsoleApp1/Program.cs:95-128 | Once every group has been played, the three round tables built so far are the whole results dictionary. |
| GroupStage.SimulateGroupStage | ConsoleApp1/Program.cs:93-131 | The results are the dictionary `Table` of the three round tables. Every team ends with the statistics the stage's results give it and keeps both bookkeeping identities. With all first-four teams different, each plays exactly 3 more games. |
| Standings.SortPermutes | ConsoleApp1/Program.cs:139-143 | The sort of entries is a permutation of its input. |
| Standings.SortSorted | ConsoleApp1/Program.cs:139-143 | The sort's result is in descending (points, goal difference, scored) order. |
| Standings.SortStable | ConsoleApp1/Program.cs:139-143 | Entries with equal keys keep their relative order. |
| Standings.SortOfSorted | ConsoleApp1/Program.cs:139-143 | A list already in standings order is left unchanged. |
| Standings.SortByStandingSpec | ConsoleApp1/Program.cs:139-143 | Sorting a team list by the teams' current keys gives a permutation of it, sorted non-increasingly by the three keys, in which teams with equal keys keep their order. |
| Standings.SortByStandingIdempotent | ConsoleApp1/Program.cs:139-143 | Sorting an already sorted list changes nothing. |
| Standings.TeamsOfPermutation | ConsoleApp1/Program.cs:139-143 | Permuted entries name permuted teams. |
| Standings.Rankings.Put | ConsoleApp1/Program.cs:145 | Storing under an existing key keeps its enumeration place and replaces its value. A new key is enumerated last. The dictionary stays well formed. |
| Standings.RankedKeys | ConsoleApp1/Program.cs:137-146 | The dictionary holds exactly the group names stored. Without repeated names, it enumerates them in group order. |
| Standings.RankedLast | ConsoleApp1/Program.cs:137-146 | Under each name the dictionary holds the list stored last under that name. |
| Standings.RankedValues | ConsoleApp1/Program.cs:185-187 | With distinct group names, the rankings dictionary's `Values` are exactly the stored lists, in storing order. This is the list of group standings that `RankTeamsForDraw` reads. |
| Standings.RankGroup | ConsoleApp1/Program.cs:139-145 | One pass sorts the next group's list in place and stores it under the group's name. It keeps this invariant: groups already passed hold their sorted lists, the others hold their old or sorted lists, and the dictionary is the one built from the groups passed. This holds even when the same group object occurs twice. |
| Standings.RankTeamsInGroups | ConsoleApp1/Program.cs:133-149 | Every group's list becomes its old list in standings order. The returned dictionary is the one built by storing each sorted list under its group's name in group order. |
| Standings.RankTeamsForDraw | ConsoleApp1/Program.cs:183-199 | The draw list has three teams per group. |
| Standings.RankTeamsForDrawTiers | ConsoleApp1/Program.cs:185-198 | Thirds 0, 1 and 2 of the draw list are the group winners, runners-up and third-placed teams. Each third is a stable standings-order permutation of its tier. |
| Standings.DrawnFromTiers | ConsoleApp1/Program.cs:185-198 | Every team of the draw list is in place 0, 1 or 2 of some group list. |
| Standings.FourthPlaceExcluded | ConsoleApp1/Program.cs:185-198 | When no team is listed twice, no team placed fourth or lower enters the draw list. |
| Knockout.RemoveCount | ConsoleApp1/Program.cs:235 | `List.Remove` of a member takes away exactly one copy of it. Removing an absent team changes nothing. |
| Knockout.RemoveMembers | ConsoleApp1/Program.cs:235 | Removing a member keeps every other member. |
| Knockout.OpponentsAre | ConsoleApp1/Program.cs:237-238 | The eligible opponents are exactly the remaining teams of another group. |
| Knockout.NoOpponentIffSameGroup | ConsoleApp1/Program.cs:234-242 | A drawn team finds no opponent exactly when all remaining teams belong to one group. |
| Knockout.StuckIsPermanent | ConsoleApp1/Program.cs:248-251 | In that state, putting the team back at the end keeps the pool's teams and leaves them all in one group. The same failing turn therefore repeats forever. |
| Knockout.PairMoves | ConsoleApp1/Program.cs:243-245 | Pairing moves exactly the two teams from the pool to the pairs, and the pool shrinks by two. |
| Knockout.PairTurn | ConsoleApp1/Program.cs:240-246 | Pairing the drawn team with an eligible opponent adds a cross-group pair, keeps "pairs plus pool = input teams", and shrinks the pool by two. |
| Knockout.StuckTurn | ConsoleApp1/Program.cs:248-251 | When the drawn team has no opponent, the whole pool shares one group, and putting the team back at the end keeps the pool's size, teams and draw state. |
| Knockout.QuarterfinalTurn | ConsoleApp1/Program.cs:234-251 | The turn draws the team at the pick index. It fails exactly when that team has no opponent from another group, and then puts the team back at the end of the pool. Otherwise it appends the pair of that team and the opponent at the choose index, and removes both from the pool. Either way it keeps "pairs plus pool = input teams". A failed turn happens only when every pool team shares one group. |
| Knockout.DrawQuarterfinals | ConsoleApp1/Program.cs:228-252 | The draw leaves at most 4 pairs, all cross-group, and pairs plus pool equal the input multiset, so no team is in two pairs when the input has no duplicates. It ends normally only with 4 pairs or fewer than 2 teams left; it stops stuck only when fewer than 4 pairs exist and at least 2 remaining teams share one group. The pairs, the pool and the stuck flag are exactly those of `DrawFrom`, which replays the draw turn by turn with `pick(n)` and `choose(n)` for turn n. |
| Knockout.FirstUnused | ConsoleApp1/Program.cs:275 | The result is the first unused semifinalist in list order: an unused member at some position, with every earlier one used. There is none exactly when every semifinalist is used. |
| Knockout.FirstUnusedAt | ConsoleApp1/Program.cs:275-279 | In a duplicate-free list whose used teams are exactly those before position m, the first unused team is the one at m. |
| Knockout.UseOne | ConsoleApp1/Program.cs:273-288 | Using one more unused team lowers the number of unused positions, so every successful pass makes progress. |
| Knockout.InListOrderTurn | ConsoleApp1/Program.cs:273-288 | For a duplicate-free list, one pass pairs the next two teams in list order, or takes the last one alone. |
| Knockout.SemifinalTurn | ConsoleApp1/Program.cs:273-288 | A pass is stuck exactly when no semifinalist is unused. Otherwise it marks the first unused semifinalist as used. If another one is unused, it also marks that one and appends the pair of the two. If not, it takes the last team alone and adds no pair. Every pass that is not stuck strictly reduces the unused count. |
| Knockout.PairSemifinals | ConsoleApp1/Program.cs:267-288 | At most two pairs of different semifinalists are formed, with no team twice. Fewer than 2 semifinalists give no pair. The loop stops stuck only with every semifinalist used. For a duplicate-free list, it is stuck exactly with 2 or 3 semifinalists, and the pairs are (s0, s1) and then (s2, s3). |
| Knockout.Winners | ConsoleApp1/Program.cs:264 | The semifinalists are the winners of the results, in result order. |
| Knockout.Losers | ConsoleApp1/Program.cs:299 | The bronze candidates are the losers of the results, in result order. |
| Knockout.WinnersDistinct | ConsoleApp1/Program.cs:259-265 | Matches between duplicate-free pairs have duplicate-free winners and losers, and no team both wins and loses. |
| Knockout.PlayMatches | ConsoleApp1/Program.cs:259-265 | The k-th pair plays the k-th match with draw `start + k`. The pool's statistics follow the extended history. |
| Knockout.PlayQuarterfinals | ConsoleApp1/Program.cs:254-265 | The quarterfinal results are the drawn pairs' matches in draw order. The winners are teams of the pool, and they are duplicate-free when the pool is. |
| Knockout.PlayIfTwo | ConsoleApp1/Program.cs:310-331 | A medal match is played, and recorded in the history, exactly when its list holds two teams. Its winner's and loser's names are otherwise empty. |
| Knockout.PlayMedalMatches | ConsoleApp1/Program.cs:307-332 | The bronze match is played exactly when there are two losers, and the final exactly when there are two finalists, with the next draw. The medals name the final's winner and loser and the bronze winner, and stay "" for a match not played. |
| Knockout.PlaySemifinalsAndMedals | ConsoleApp1/Program.cs:290-332 | The semifinals are played in pair order. With two semifinals, the two losers play for bronze and the two winners play the final, which has two different teams from the pool. |
| Knockout.PlayMedalRounds | ConsoleApp1/Program.cs:302-332 | From two semifinal results, the losers play for bronze with the next draw and the winners play the final with the one after. With no semifinal results, neither match is played. The medals follow the two matches. |
| Knockout.PlayFromSemifinalPairing | ConsoleApp1/Program.cs:267-332 | A stuck semifinal pairing leaves fewer than two pairs from at least two quarterfinal winners, and only the quarterfinals are played. For duplicate-free winners, it is stuck exactly when there are 2 or 3 of them, and the pairs are consecutive winners in list order. A finished phase plays its medal rounds from the semifinal results. The medals follow the medal matches, and the final always has two different teams. |
| Knockout.PlayDrawnBracket | ConsoleApp1/Program.cs:254-332 | After a draw that ended, the quarterfinals, semifinals and medal matches are played in that order. Every team's statistics follow exactly the matches played. |
| Knockout.PairStep | ConsoleApp1/Program.cs:275-285 | Pairing two unused semifinalists keeps the pairs duplicate-free and drawn from the semifinalists, and uses up two more teams. |
| Knockout.SingleStep | ConsoleApp1/Program.cs:275-279 | Taking the last unused semifinalist alone keeps the pairing state and uses up exactly one more team. |
| Knockout.MedalNamesDiffer | ConsoleApp1/Program.cs:321-331 | When the final is played between two different teams of the input and no two teams share a name, the gold and silver medals carry different names. |
| Knockout.PerformEliminationPhase | ConsoleApp1/Program.cs:223-339 | The whole phase: the quarterfinal pairs, the unpaired teams and whether the draw got stuck are exactly `DrawFrom` of the input teams with the `pick` and `choose` oracles; the draw facts; a stuck draw plays nothing; otherwise quarterfinals in draw order, semifinal pairs (s0, s1), (s2, s3) for distinct teams, and bronze and final from the semifinal losers and winners. The final's two teams are different teams of the input. When no two teams share a name, the gold and silver medal names differ. Medals are "" when not played. Every team ends with the statistics the played matches give it. |

## Left out

- `LoadGroups` and `LoadExhibitions` (JSON file I/O) are not modelled. Teams and groups are
  built by constructors, and each team's `Group` is a constant set when it is created.
  Exhibition data is never used by the engine.
- `PrintGroupStageResults`, `PrintTeams`, `PerformDraw` (which only slices the draw list into
  hats and prints them), `Main`, and every `Console.WriteLine` are output or wiring only.
- `System.Random` is replaced by the oracles `draw`, `pick` and `choose`.
  `OrderBy(t => random.Next()).FirstOrDefault()` is modelled as choosing any eligible opponent
  by index, which does not model the distribution of a shuffle.
- The score string `"w:l"` of a group-stage record is kept as two integers.
- The loops that never end are modelled as outcomes (`QuarterfinalDrawStuck`,
  `SemifinalDrawStuck`), not as non-termination. The model does not run the loop past the
  first turn that can never succeed.
- Group-stage positions 0..3 must exist: `Playable` requires four teams per group, because the
  source indexes `teams[3]` and would throw on a shorter group. The exception is not modelled.
- `RankTeamsForDraw` requires three teams per stored list, because the source indexes
  `teams[2]` and would throw on a shorter one.
- `Dictionary` enumeration order is modelled as insertion order, kept in `Rankings.order`. The
  group-stage results dictionary is a Dafny `map`, whose key order nothing depends on.
- Knockout.PairSemifinals: the exact pairs (s0, s1), (s2, s3) are stated only for
  duplicate-free semifinalists. With repeated references the source's `HashSet` lookup pairs
  differently, and the contract then states only the general facts.
- Knockout.PerformEliminationPhase: the semifinal order and the stuck condition are stated
  only for duplicate-free input teams, for the same reason.
- Integer overflow of C# `int` is not modelled. This covers the statistics fields and the
  ranking difference `2 * (team2.FIBARanking - team1.FIBARanking)` of the win probability. All
  of them are unbounded integers here.
