/**
 * The elimination phase: the quarterfinal draw that only pairs teams of different groups,
 * the semifinal pairing in quarterfinal order, and the bronze and final matches that are
 * played only when exactly two teams are there to play them.
 *
 * Two loops of the phase never end on some inputs: the quarterfinal draw once every
 * remaining team belongs to one group, the semifinal pairing with two or three
 * semifinalists. The model stops there and reports the state the loop would keep repeating.
 */
module Knockout {
  import opened Teams
  import opened Matches

  /** `List.Remove(x)`: drops the first occurrence of `x`, if there is one. */
  function Remove(s: seq<Tim>, x: Tim): (r: seq<Tim>)
    decreases |s|
  {
    if s == [] then []
    else if s[0] == x then s[1..]
    else [s[0]] + Remove(s[1..], x)
  }

  /** Removing an element takes exactly one copy of it away; removing an absent one changes nothing. */
  lemma {:induction false} RemoveCount(s: seq<Tim>, x: Tim)
    ensures x in s ==> multiset(Remove(s, x)) == multiset(s) - multiset{x} && |Remove(s, x)| == |s| - 1
    ensures x !in s ==> Remove(s, x) == s
    decreases |s|
  {
    if s != [] {
      assert s == [s[0]] + s[1..];
      if s[0] != x {
        RemoveCount(s[1..], x);
        assert Remove(s, x) == [s[0]] + Remove(s[1..], x);
      }
    }
  }

  /** Removing a member keeps every other member. */
  lemma {:induction false} RemoveMembers(s: seq<Tim>, x: Tim, t: Tim)
    requires x in s
    ensures t in s <==> t in Remove(s, x) || t == x
    decreases |s|
  {
    if s[0] != x {
      RemoveMembers(s[1..], x, t);
      assert s == [s[0]] + s[1..];
    }
  }

  /** `Where(t => t.Group != team1.Group)`: the teams of `s` from another group than `team1`, in order. */
  function Opponents(team1: Tim, s: seq<Tim>): (r: seq<Tim>)
    decreases |s|
  {
    if s == [] then []
    else (if s[0].Group != team1.Group then [s[0]] else []) + Opponents(team1, s[1..])
  }

  /** The eligible opponents are exactly the teams of another group. */
  lemma {:induction false} OpponentsAre(team1: Tim, s: seq<Tim>, t: Tim)
    ensures t in Opponents(team1, s) <==> t in s && t.Group != team1.Group
    decreases |s|
  {
    if s != [] {
      OpponentsAre(team1, s[1..], t);
      assert s == [s[0]] + s[1..];
    }
  }

  /** All teams of `s` belong to one group. */
  predicate SameGroup(s: seq<Tim>)
  {
    forall t, u :: t in s && u in s ==> t.Group == u.Group
  }

  /**
   * A drawn team finds no opponent among the others exactly when all remaining teams belong
   * to one group: a draw turn fails only in a state where every turn fails.
   */
  lemma NoOpponentIffSameGroup(remaining: seq<Tim>, i: int)
    requires 0 <= i < |remaining|
    ensures Opponents(remaining[i], Remove(remaining, remaining[i])) == [] <==> SameGroup(remaining)
  {
    var x := remaining[i];
    var rest := Remove(remaining, x);
    if Opponents(x, rest) == [] {
      forall t | t in remaining
        ensures t.Group == x.Group
      {
        RemoveMembers(remaining, x, t);
        OpponentsAre(x, rest, t);
      }
    } else {
      var t := Opponents(x, rest)[0];
      OpponentsAre(x, rest, t);
      RemoveMembers(remaining, x, t);
    }
  }

  /** Putting a member back at the end after removing it keeps the same teams. */
  lemma RotatePermutes(s: seq<Tim>, x: Tim)
    requires x in s
    ensures multiset(Remove(s, x) + [x]) == multiset(s)
  {
    RemoveCount(s, x);
  }

  /**
   * Once every remaining team shares one group, a turn of the draw puts the drawn team back
   * at the end and leaves a pool that again shares one group: the loop repeats forever.
   */
  lemma StuckIsPermanent(remaining: seq<Tim>, i: int)
    requires SameGroup(remaining) && 0 <= i < |remaining|
    ensures var x := remaining[i];
            var next := Remove(remaining, x) + [x];
            Opponents(x, Remove(remaining, x)) == [] &&
            multiset(next) == multiset(remaining) && SameGroup(next)
  {
    var x := remaining[i];
    var rest := Remove(remaining, x);
    NoOpponentIffSameGroup(remaining, i);
    RotatePermutes(remaining, x);
    forall t | t in rest + [x]
      ensures t in remaining
    {
      RemoveMembers(remaining, x, t);
    }
  }

  /** The teams of the pairs, in order: both teams of the first pair, then of the second, and so on. */
  function Paired(pairs: seq<(Tim, Tim)>): (s: seq<Tim>)
    ensures |s| == 2 * |pairs|
    decreases |pairs|
  {
    if pairs == [] then [] else Paired(pairs[..|pairs| - 1]) + [pairs[|pairs| - 1].0, pairs[|pairs| - 1].1]
  }

  /** Pairing two pool members moves exactly those two teams from the pool to the pairs. */
  lemma PairMoves(pairs: seq<(Tim, Tim)>, remaining: seq<Tim>, team1: Tim, team2: Tim)
    requires team1 in remaining && team2 in Remove(remaining, team1)
    ensures var next := Remove(Remove(remaining, team1), team2);
            multiset(Paired(pairs + [(team1, team2)])) + multiset(next) == multiset(Paired(pairs)) + multiset(remaining) &&
            |next| == |remaining| - 2
  {
    var rest := Remove(remaining, team1);
    RemoveCount(remaining, team1);
    RemoveCount(rest, team2);
    assert Paired(pairs + [(team1, team2)]) == Paired(pairs) + [team1, team2];
  }

  /**
   * The state of the quarterfinal draw between turns: at most four pairs, each of two teams of
   * different groups, and the pairs and the pool together hold exactly the teams drawn from.
   */
  ghost predicate DrawState(teams: seq<Tim>, pairs: seq<(Tim, Tim)>, remaining: seq<Tim>)
  {
    |pairs| <= 4 &&
    (forall k :: 0 <= k < |pairs| ==> pairs[k].0.Group != pairs[k].1.Group) &&
    multiset(Paired(pairs)) + multiset(remaining) == multiset(teams)
  }

  /**
   * One pass of the draw loop's body: draw the team at `pickIndex` (reduced to the pool's size) and
   * pair it with the eligible opponent at `chooseIndex` (reduced likewise). `stuck` reports a pass
   * without an eligible opponent; the team then goes back to the end of the pool, and every team
   * of the pool is of one group.
   */
  method QuarterfinalTurn(ghost teams: seq<Tim>, pairs: seq<(Tim, Tim)>, remaining: seq<Tim>, pickIndex: nat, chooseIndex: nat)
    returns (pairs': seq<(Tim, Tim)>, remaining': seq<Tim>, stuck: bool)
    requires DrawState(teams, pairs, remaining) && |pairs| < 4 && 2 <= |remaining|
    ensures stuck ==> pairs' == pairs && |remaining'| == |remaining| && SameGroup(remaining) && SameGroup(remaining') &&
                      multiset(remaining') == multiset(remaining) && DrawState(teams, pairs', remaining')
    ensures !stuck ==> DrawState(teams, pairs', remaining') && |remaining'| == |remaining| - 2 && |pairs'| == |pairs| + 1
    ensures var team1 := remaining[pickIndex % |remaining|];
            var candidates := Opponents(team1, Remove(remaining, team1));
            (stuck <==> candidates == []) &&
            (!stuck ==> var team2 := candidates[chooseIndex % |candidates|];
                        pairs' == pairs + [(team1, team2)] && remaining' == Remove(Remove(remaining, team1), team2)) &&
            (stuck ==> remaining' == Remove(remaining, team1) + [team1])
  {
    var team1 := remaining[pickIndex % |remaining|];
    var rest := Remove(remaining, team1);
    var candidates := Opponents(team1, rest);
    if candidates != [] {
      var team2 := candidates[chooseIndex % |candidates|];
      PairTurn(teams, pairs, remaining, team1, team2);
      remaining' := Remove(rest, team2);
      pairs' := pairs + [(team1, team2)];
      stuck := false;
    } else {
      StuckTurn(teams, pairs, remaining, pickIndex % |remaining|);
      remaining' := rest + [team1];
      pairs' := pairs;
      stuck := true;
    }
  }

  /** A successful turn: the drawn pair is cross-group and moves from the pool to the pairs. */
  lemma PairTurn(teams: seq<Tim>, pairs: seq<(Tim, Tim)>, remaining: seq<Tim>, team1: Tim, team2: Tim)
    requires DrawState(teams, pairs, remaining) && |pairs| < 4
    requires team1 in remaining && team2 in Opponents(team1, Remove(remaining, team1))
    ensures var next := Remove(Remove(remaining, team1), team2);
            DrawState(teams, pairs + [(team1, team2)], next) && |next| == |remaining| - 2
  {
    OpponentsAre(team1, Remove(remaining, team1), team2);
    PairMoves(pairs, remaining, team1, team2);
  }

  /** A failed turn: the drawn team goes back to the end of a pool whose teams all share one group. */
  lemma StuckTurn(teams: seq<Tim>, pairs: seq<(Tim, Tim)>, remaining: seq<Tim>, i: int)
    requires DrawState(teams, pairs, remaining) && 0 <= i < |remaining|
    requires Opponents(remaining[i], Remove(remaining, remaining[i])) == []
    ensures var next := Remove(remaining, remaining[i]) + [remaining[i]];
            |next| == |remaining| && SameGroup(remaining) && SameGroup(next) &&
            multiset(next) == multiset(remaining) && DrawState(teams, pairs, next)
  {
    NoOpponentIffSameGroup(remaining, i);
    StuckIsPermanent(remaining, i);
    RemoveCount(remaining, remaining[i]);
  }

  /**
   * The draw replayed from a given state: turn `turn` draws the team at `pick(turn)` and, when it
   * has an opponent from another group, pairs it with the opponent at `choose(turn)`. The result is
   * the pairs, the pool and whether the draw got stuck, after the loop's exit condition holds or the
   * first turn that finds no opponent.
   */
  function DrawFrom(pairs: seq<(Tim, Tim)>, remaining: seq<Tim>, pick: nat -> nat, choose: nat -> nat, turn: nat)
    : (seq<(Tim, Tim)>, seq<Tim>, bool)
    decreases |remaining|
  {
    if |pairs| >= 4 || |remaining| < 2 then (pairs, remaining, false)
    else
      var team1 := remaining[pick(turn) % |remaining|];
      var rest := Remove(remaining, team1);
      var candidates := Opponents(team1, rest);
      if candidates == [] then (pairs, rest + [team1], true)
      else
        var team2 := candidates[choose(turn) % |candidates|];
        RemoveCount(remaining, team1);
        OpponentsAre(team1, rest, team2);
        RemoveCount(rest, team2);
        DrawFrom(pairs + [(team1, team2)], Remove(rest, team2), pick, choose, turn + 1)
  }

  /**
   * The quarterfinal draw of `PerformEliminationPhase`. Turn `n` draws the team at index
   * `pick(n)` (reduced to the pool's size) and, among the remaining teams of other groups, the
   * one at index `choose(n)` (reduced likewise) as its opponent. A drawn team without an
   * eligible opponent goes back to the end of the pool; the source then repeats that turn
   * forever, and the model stops with `stuck`.
   */
  method DrawQuarterfinals(teams: seq<Tim>, pick: nat -> nat, choose: nat -> nat)
    returns (pairs: seq<(Tim, Tim)>, remaining: seq<Tim>, stuck: bool)
    ensures |pairs| <= 4
    ensures forall k :: 0 <= k < |pairs| ==> pairs[k].0.Group != pairs[k].1.Group
    ensures multiset(Paired(pairs)) + multiset(remaining) == multiset(teams)
    ensures Distinct(teams) ==> Distinct(Paired(pairs) + remaining)
    ensures !stuck ==> |pairs| == 4 || |remaining| < 2
    ensures stuck ==> |pairs| < 4 && 2 <= |remaining| && SameGroup(remaining)
    ensures (pairs, remaining, stuck) == DrawFrom([], teams, pick, choose, 0)
  {
    pairs, remaining, stuck := [], teams, false;
    var turn := 0;
    while |pairs| < 4 && 2 <= |remaining|
      invariant !stuck && DrawState(teams, pairs, remaining)
      invariant DrawFrom(pairs, remaining, pick, choose, turn) == DrawFrom([], teams, pick, choose, 0)
      decreases |remaining|
    {
      var pairs', remaining', stuck' := QuarterfinalTurn(teams, pairs, remaining, pick(turn), choose(turn));
      pairs, remaining := pairs', remaining';
      if stuck' {
        stuck := true;
        break;
      }
      turn := turn + 1;
    }
    assert multiset(Paired(pairs) + remaining) == multiset(teams);
    if Distinct(teams) {
      SubMultisetDistinct(Paired(pairs) + remaining, teams);
    }
  }

  datatype Option<T> = None | Some(value: T)

  /**
   * `FirstOrDefault(t => !usedTeams.Contains(t))`: the first team of `s` not yet used. The second
   * lookup of the semifinal loop, `t != team1 && !usedTeams.Contains(t)`, is this same lookup
   * once `team1` has been added to the used set, which the source does just before it.
   */
  function FirstUnused(s: seq<Tim>, used: set<Tim>): (r: Option<Tim>)
    ensures r.Some? ==> r.value in s && r.value !in used
    ensures r.None? <==> forall i :: 0 <= i < |s| ==> s[i] in used
    ensures r.Some? ==> exists i :: 0 <= i < |s| && s[i] == r.value && forall j :: 0 <= j < i ==> s[j] in used
    decreases |s|
  {
    if s == [] then None
    else if s[0] !in used then Some(s[0])
    else FirstUnused(s[1..], used)
  }

  /** In a duplicate-free list whose first `m` teams are exactly the used ones, the first unused team is the one at `m`. */
  lemma {:induction false} FirstUnusedAt(s: seq<Tim>, used: set<Tim>, m: nat)
    requires Distinct(s) && m <= |s|
    requires forall i :: 0 <= i < |s| ==> (s[i] in used <==> i < m)
    ensures FirstUnused(s, used) == if m < |s| then Some(s[m]) else None
    decreases m
  {
    if m > 0 {
      assert s[0] in used;
      var t := s[1..];
      forall i | 0 <= i < |t| ensures t[i] in used <==> i < m - 1 {
        assert t[i] == s[i + 1];
      }
      assert Distinct(t) by {
        forall i, j | 0 <= i < j < |t| ensures t[i] != t[j] {
          assert t[i] == s[i + 1] && t[j] == s[j + 1];
        }
      }
      FirstUnusedAt(t, used, m - 1);
    }
  }

  /** How many positions of `s` hold a team not yet used: the measure the semifinal loop brings down. */
  function UnusedCount(s: seq<Tim>, used: set<Tim>): nat
    decreases |s|
  {
    if s == [] then 0 else (if s[0] in used then 0 else 1) + UnusedCount(s[1..], used)
  }

  /** Using one more team of `s` strictly lowers the number of unused positions. */
  lemma {:induction false} UseOne(s: seq<Tim>, used: set<Tim>, x: Tim)
    ensures UnusedCount(s, used + {x}) <= UnusedCount(s, used)
    ensures x in s && x !in used ==> UnusedCount(s, used + {x}) < UnusedCount(s, used)
    decreases |s|
  {
    if s != [] {
      UseOne(s[1..], used, x);
      assert x in s ==> x == s[0] || x in s[1..];
    }
  }

  /** The used set after `m` teams of a list have been taken in order. */
  function Taken(s: seq<Tim>, m: nat): (used: set<Tim>)
    requires m <= |s|
    ensures forall i :: 0 <= i < m ==> s[i] in used
  {
    set i | 0 <= i < m :: s[i]
  }

  /** In a duplicate-free list, the teams taken so far are exactly those before position `m`. */
  lemma TakenPositions(s: seq<Tim>, m: nat)
    requires Distinct(s) && m <= |s|
    ensures forall i :: 0 <= i < |s| ==> (s[i] in Taken(s, m) <==> i < m)
  {
    forall i | 0 <= i < |s| ensures s[i] in Taken(s, m) ==> i < m {
      if s[i] in Taken(s, m) {
        var j :| 0 <= j < m && s[j] == s[i];
      }
    }
  }

  /** The first unused team after `m` of a duplicate-free list have been taken. */
  lemma NextUnused(s: seq<Tim>, m: nat)
    requires Distinct(s) && m <= |s|
    ensures FirstUnused(s, Taken(s, m)) == if m < |s| then Some(s[m]) else None
  {
    TakenPositions(s, m);
    FirstUnusedAt(s, Taken(s, m), m);
  }

  /** Taking one more team of the list adds exactly that team to the used set. */
  lemma TakeOneMore(s: seq<Tim>, m: nat)
    requires m < |s|
    ensures Taken(s, m + 1) == Taken(s, m) + {s[m]}
  {
    assert s[..m + 1] == s[..m] + [s[m]];
  }

  /** A new pair of two unused, different teams keeps the paired teams duplicate-free and used. */
  lemma AddPair(pairs: seq<(Tim, Tim)>, used: set<Tim>, a: Tim, b: Tim)
    requires Distinct(Paired(pairs)) && forall i :: 0 <= i < |Paired(pairs)| ==> Paired(pairs)[i] in used
    requires a !in used && b !in used && a != b
    ensures Distinct(Paired(pairs + [(a, b)]))
    ensures forall i :: 0 <= i < |Paired(pairs + [(a, b)])| ==> Paired(pairs + [(a, b)])[i] in used + {a, b}
  {
    var p := Paired(pairs);
    assert Paired(pairs + [(a, b)]) == p + [a, b];
  }

  /**
   * The state of the semifinal pairing between turns: at most two pairs of two different
   * semifinalists each, no team in two pairs, every paired team used.
   */
  ghost predicate SemifinalState(s: seq<Tim>, semis: seq<(Tim, Tim)>, used: set<Tim>)
  {
    |semis| <= 2 &&
    (forall k :: 0 <= k < |semis| ==> semis[k].0 in s && semis[k].1 in s) &&
    Distinct(Paired(semis)) &&
    (forall i :: 0 <= i < |Paired(semis)| ==> Paired(semis)[i] in used)
  }

  /**
   * For a duplicate-free list: the first `m` teams are the used ones, and the pairs are the
   * consecutive teams `(s[0], s[1])`, `(s[2], s[3])` taken so far, with at most one team taken
   * after them, and only when it is the last one.
   */
  ghost predicate InListOrder(s: seq<Tim>, semis: seq<(Tim, Tim)>, used: set<Tim>, m: nat)
  {
    m <= |s| && used == Taken(s, m) && (m == 2 * |semis| || m == |s| == 2 * |semis| + 1) &&
    forall k :: 0 <= k < |semis| ==> semis[k] == (s[2 * k], s[2 * k + 1])
  }

  /** Pairing the next two teams of the list extends the consecutive pairing. */
  lemma ConsecutivePairs(s: seq<Tim>, semis: seq<(Tim, Tim)>, m: nat)
    requires m == 2 * |semis| && m + 1 < |s|
    requires forall k :: 0 <= k < |semis| ==> semis[k] == (s[2 * k], s[2 * k + 1])
    ensures forall k :: 0 <= k <= |semis| ==> (semis + [(s[m], s[m + 1])])[k] == (s[2 * k], s[2 * k + 1])
  {
  }

  /** What one pass of the semifinal loop finds and leaves behind, for a duplicate-free list. */
  lemma InListOrderTurn(s: seq<Tim>, semis: seq<(Tim, Tim)>, used: set<Tim>, m: nat)
    requires Distinct(s) && InListOrder(s, semis, used, m)
    ensures FirstUnused(s, used) == if m < |s| then Some(s[m]) else None
    ensures m < |s| ==> FirstUnused(s, used + {s[m]}) == if m + 1 < |s| then Some(s[m + 1]) else None
    ensures m + 1 < |s| ==> InListOrder(s, semis + [(s[m], s[m + 1])], used + {s[m]} + {s[m + 1]}, m + 2)
    ensures m + 1 == |s| ==> InListOrder(s, semis, used + {s[m]}, m + 1)
  {
    NextUnused(s, m);
    if m < |s| {
      NextUnusedAfter(s, used, m);
      if m + 1 < |s| {
        InListOrderPair(s, semis, used, m);
      } else {
        InListOrderLast(s, semis, used, m);
      }
    }
  }

  /** Once the team at `m` is taken as well, the first unused team is the one after it. */
  lemma NextUnusedAfter(s: seq<Tim>, used: set<Tim>, m: nat)
    requires Distinct(s) && m < |s| && used == Taken(s, m)
    ensures FirstUnused(s, used + {s[m]}) == if m + 1 < |s| then Some(s[m + 1]) else None
  {
    TakeOneMore(s, m);
    NextUnused(s, m + 1);
  }

  /** Pairing the next two teams keeps the list order. */
  lemma InListOrderPair(s: seq<Tim>, semis: seq<(Tim, Tim)>, used: set<Tim>, m: nat)
    requires InListOrder(s, semis, used, m) && m + 1 < |s|
    ensures InListOrder(s, semis + [(s[m], s[m + 1])], used + {s[m]} + {s[m + 1]}, m + 2)
  {
    TakeOneMore(s, m);
    TakeOneMore(s, m + 1);
    ConsecutivePairs(s, semis, m);
  }

  /** Taking the last team of the list, with no partner left for it, keeps the list order. */
  lemma InListOrderLast(s: seq<Tim>, semis: seq<(Tim, Tim)>, used: set<Tim>, m: nat)
    requires InListOrder(s, semis, used, m) && m + 1 == |s|
    ensures InListOrder(s, semis, used + {s[m]}, m + 1)
  {
    TakeOneMore(s, m);
  }

  /**
   * One pass of the semifinal loop's body: take the first unused team and, if another unused team
   * follows, pair the two. `stuck` reports a pass that finds no unused team and so changes nothing.
   */
  method SemifinalTurn(s: seq<Tim>, semis: seq<(Tim, Tim)>, used: set<Tim>, ghost m: nat)
    returns (semis': seq<(Tim, Tim)>, used': set<Tim>, ghost m': nat, stuck: bool)
    requires SemifinalState(s, semis, used) && |semis| < 2
    requires Distinct(s) ==> InListOrder(s, semis, used, m)
    ensures stuck ==> semis' == semis && used' == used && FirstUnused(s, used) == None
    ensures stuck && Distinct(s) ==> m == |s|
    ensures !stuck ==> SemifinalState(s, semis', used') && UnusedCount(s, used') < UnusedCount(s, used)
    ensures !stuck && Distinct(s) ==> InListOrder(s, semis', used', m')
    ensures var first := FirstUnused(s, used);
            (stuck <==> first.None?) &&
            (first.Some? ==>
               var second := FirstUnused(s, used + {first.value});
               (second.Some? ==> semis' == semis + [(first.value, second.value)] &&
                                 used' == used + {first.value, second.value}) &&
               (second.None? ==> semis' == semis && used' == used + {first.value}))
  {
    semis', used', m', stuck := semis, used, m, false;
    if Distinct(s) {
      InListOrderTurn(s, semis, used, m);
    }
    var first := FirstUnused(s, used);
    if first.None? {
      stuck := true;
      return;
    }
    var team1 := first.value;
    used' := used + {team1};
    var second := FirstUnused(s, used');
    if second.Some? {
      var team2 := second.value;
      PairStep(s, semis, used, team1, team2);
      used' := used' + {team2};
      semis' := semis + [(team1, team2)];
    } else {
      SingleStep(s, semis, used, team1);
    }
    if Distinct(s) {
      m' := if second.Some? then m + 2 else m + 1;
    }
  }

  /** Pairing two unused semifinalists keeps the pairing state and uses up two more teams. */
  lemma PairStep(s: seq<Tim>, semis: seq<(Tim, Tim)>, used: set<Tim>, a: Tim, b: Tim)
    requires SemifinalState(s, semis, used) && |semis| < 2
    requires a in s && a !in used && b in s && b !in used + {a}
    ensures SemifinalState(s, semis + [(a, b)], used + {a} + {b})
    ensures UnusedCount(s, used + {a} + {b}) < UnusedCount(s, used)
  {
    AddPair(semis, used, a, b);
    UseOne(s, used, a);
    UseOne(s, used + {a}, b);
  }

  /** Taking the last unused semifinalist alone keeps the pairing state and uses up one more team. */
  lemma SingleStep(s: seq<Tim>, semis: seq<(Tim, Tim)>, used: set<Tim>, a: Tim)
    requires SemifinalState(s, semis, used)
    requires a in s && a !in used
    ensures SemifinalState(s, semis, used + {a})
    ensures UnusedCount(s, used + {a}) < UnusedCount(s, used)
  {
    UseOne(s, used, a);
  }

  /**
   * `semis` pairs the list's teams two by two from the front, `(s[0], s[1])` then `(s[2], s[3])`,
   * as many pairs as fit, at most two.
   */
  predicate InListOrderPairs(semis: seq<(Tim, Tim)>, s: seq<Tim>)
  {
    |semis| == Min(2, |s| / 2) &&
    forall k :: 0 <= k < |semis| ==> semis[k] == (s[2 * k], s[2 * k + 1])
  }

  /**
   * The semifinal pairing of `PerformEliminationPhase`: the first unused semifinalist is paired
   * with the next unused one, in list order, until two pairs exist. With two or three
   * semifinalists the source never leaves this loop: once every team is used nothing changes any
   * more. The model stops there with `stuck`, and `used` is the set the loop would keep seeing.
   */
  method PairSemifinals(semifinalists: seq<Tim>) returns (semis: seq<(Tim, Tim)>, used: set<Tim>, stuck: bool)
    ensures |semis| <= 2
    ensures forall k :: 0 <= k < |semis| ==> semis[k].0 in semifinalists && semis[k].1 in semifinalists
    ensures Distinct(Paired(semis))
    ensures !stuck ==> |semis| == 2 || |semifinalists| < 2
    ensures stuck ==> |semis| < 2 && 2 <= |semifinalists| && FirstUnused(semifinalists, used) == None
    ensures |semifinalists| < 2 ==> semis == [] && !stuck
    ensures Distinct(semifinalists) ==> (stuck <==> 2 <= |semifinalists| < 4)
    ensures Distinct(semifinalists) ==>
              InListOrderPairs(semis, semifinalists)
  {
    var s := semifinalists;
    semis, used, stuck := [], {}, false;
    ghost var m := 0;
    while |semis| < 2 && 2 <= |s|
      invariant !stuck && SemifinalState(s, semis, used) && (|s| < 2 ==> semis == [])
      invariant Distinct(s) ==> InListOrder(s, semis, used, m)
      decreases UnusedCount(s, used)
    {
      var semis', used', stuck';
      semis', used', m, stuck' := SemifinalTurn(s, semis, used, m);
      if stuck' {
        stuck := true;
        break;
      }
      semis, used := semis', used';
    }
  }

  /** The winners of the results, in order. */
  function Winners(rs: seq<MatchResult>): (ws: seq<Tim>)
    ensures |ws| == |rs| && forall k :: 0 <= k < |rs| ==> ws[k] == rs[k].winner
    decreases |rs|
  {
    if rs == [] then [] else Winners(rs[..|rs| - 1]) + [rs[|rs| - 1].winner]
  }

  /** The losers of the results, in order. */
  function Losers(rs: seq<MatchResult>): (ls: seq<Tim>)
    ensures |ls| == |rs| && forall k :: 0 <= k < |rs| ==> ls[k] == rs[k].loser
    decreases |rs|
  {
    if rs == [] then [] else Losers(rs[..|rs| - 1]) + [rs[|rs| - 1].loser]
  }

  /** `results` are the matches of `pairs`, the `k`-th decided by the draw numbered `start + k`. */
  predicate PlayedAs(results: seq<MatchResult>, pairs: seq<(Tim, Tim)>, draw: nat -> MatchDraw, start: nat)
  {
    |results| == |pairs| &&
    forall k :: 0 <= k < |pairs| ==> results[k] == Decide(pairs[k].0, pairs[k].1, draw(start + k))
  }

  /** Both teams of every pair appear in the list of paired teams. */
  lemma {:induction false} PairedHolds(pairs: seq<(Tim, Tim)>, k: int)
    requires 0 <= k < |pairs|
    ensures Paired(pairs)[2 * k] == pairs[k].0 && Paired(pairs)[2 * k + 1] == pairs[k].1
    decreases |pairs|
  {
    if k < |pairs| - 1 {
      PairedHolds(pairs[..|pairs| - 1], k);
    }
  }

  /**
   * Matches between the teams of duplicate-free pairs have duplicate-free winners and losers, and
   * no team both wins and loses.
   */
  lemma WinnersDistinct(results: seq<MatchResult>, pairs: seq<(Tim, Tim)>, draw: nat -> MatchDraw, start: nat)
    requires PlayedAs(results, pairs, draw, start) && Distinct(Paired(pairs))
    ensures Distinct(Winners(results)) && Distinct(Losers(results))
    ensures forall k, l :: 0 <= k < |results| && 0 <= l < |results| ==> results[k].winner != results[l].loser
  {
    var ps := Paired(pairs);
    forall k, l | 0 <= k < |results| && 0 <= l < |results|
      ensures k != l ==> results[k].winner != results[l].winner && results[k].loser != results[l].loser
      ensures results[k].winner != results[l].loser
    {
      PairedHolds(pairs, k);
      PairedHolds(pairs, l);
    }
  }

  /** Playing the next pair's match extends the played prefix by one. */
  lemma PlayedOneMore(results: seq<MatchResult>, pairs: seq<(Tim, Tim)>, draw: nat -> MatchDraw, start: nat,
                      k: nat, r: MatchResult)
    requires k < |pairs| && PlayedAs(results, pairs[..k], draw, start)
    requires r == Decide(pairs[k].0, pairs[k].1, draw(start + k))
    ensures PlayedAs(results + [r], pairs[..k + 1], draw, start)
  {
  }

  /**
   * The `foreach` over drawn pairs: each pair plays one match, in order, the `k`-th with the draw
   * numbered `start + k`, and every team of `pool` ends with the statistics the extended history gives it.
   */
  method PlayMatches(pairs: seq<(Tim, Tim)>, draw: nat -> MatchDraw, start: nat,
                     ghost pool: seq<Tim>, ghost initial: seq<Stats>, ghost played: seq<MatchResult>)
    returns (results: seq<MatchResult>)
    requires forall k :: 0 <= k < |pairs| ==> pairs[k].0 in pool && pairs[k].1 in pool
    requires Tracks(pool, initial, played)
    modifies pool
    ensures PlayedAs(results, pairs, draw, start)
    ensures Tracks(pool, initial, played + results)
  {
    results := [];
    assert played + results == played;
    for k := 0 to |pairs|
      invariant PlayedAs(results, pairs[..k], draw, start)
      invariant Tracks(pool, initial, played + results)
    {
      results := PlayNextMatch(pairs, draw, start, k, results, pool, initial, played);
    }
    assert pairs[..|pairs|] == pairs;
  }

  /** One pass of the `foreach` over drawn pairs: pair `k` plays its match. */
  method PlayNextMatch(pairs: seq<(Tim, Tim)>, draw: nat -> MatchDraw, start: nat, k: nat, results: seq<MatchResult>,
                       ghost pool: seq<Tim>, ghost initial: seq<Stats>, ghost played: seq<MatchResult>)
    returns (results': seq<MatchResult>)
    requires k < |pairs| && pairs[k].0 in pool && pairs[k].1 in pool
    requires PlayedAs(results, pairs[..k], draw, start)
    requires Tracks(pool, initial, played + results)
    modifies pool
    ensures PlayedAs(results', pairs[..k + 1], draw, start)
    ensures Tracks(pool, initial, played + results')
  {
    var result := SimulateTracked(pool, pairs[k].0, pairs[k].1, draw(start + k), initial, played + results);
    PlayedOneMore(results, pairs, draw, start, k, result);
    assert played + results + [result] == played + (results + [result]);
    results' := results + [result];
  }

  /** `Take(n)`: the first `n` elements, or all of them when there are fewer. */
  function Take(s: seq<Tim>, n: nat): (r: seq<Tim>)
    ensures |r| == Min(n, |s|) && r == s[..|r|]
  {
    if |s| > n then s[..n] else s
  }

  /** The three medal names; a name stays empty when its match was not played. */
  datatype Medals = Medals(gold: string, silver: string, bronze: string)

  /** How far the elimination phase got: a draw loop that never ends, or the medal matches. */
  datatype Progress = QuarterfinalDrawStuck | SemifinalDrawStuck | Finished

  /** Everything the elimination phase decides, in the order it decides it. */
  datatype Elimination = Elimination(
    progress: Progress,
    quarterfinals: seq<(Tim, Tim)>,
    unpaired: seq<Tim>,
    quarterfinalResults: seq<MatchResult>,
    semifinals: seq<(Tim, Tim)>,
    semifinalResults: seq<MatchResult>,
    bronzeMatch: Option<MatchResult>,
    finalMatch: Option<MatchResult>,
    medals: Medals)
  {
    /** Every match played, in the order played: quarterfinals, semifinals, bronze, final. */
    function Played(): seq<MatchResult>
    {
      quarterfinalResults + semifinalResults + Optional(bronzeMatch) + Optional(finalMatch)
    }

    /**
     * The medals name the final's winner and loser and the bronze match's winner; a medal whose
     * match was not played keeps the empty name.
     */
    predicate MedalsAwarded()
    {
      Awarded(medals, bronzeMatch, finalMatch)
    }

    /**
     * The semifinals are the next matches after the quarterfinals; when two were played, the two
     * losers then play for bronze and the two winners, in semifinal order, play the final.
     */
    predicate MedalRounds(draw: nat -> MatchDraw)
    {
      var start := |quarterfinals|;
      PlayedAs(semifinalResults, semifinals, draw, start) &&
      (|semifinals| == 0 || |semifinals| == 2) &&
      (bronzeMatch.Some? <==> |semifinals| == 2) &&
      (finalMatch.Some? <==> |semifinals| == 2) &&
      (|semifinals| == 2 ==>
         bronzeMatch.value == Decide(semifinalResults[0].loser, semifinalResults[1].loser, draw(start + 2)) &&
         finalMatch.value == Decide(semifinalResults[0].winner, semifinalResults[1].winner, draw(start + 3)))
    }
  }

  /**
   * The medals name the final's winner and loser and the bronze match's winner; a medal whose
   * match was not played keeps the empty name.
   */
  predicate Awarded(medals: Medals, bronzeMatch: Option<MatchResult>, finalMatch: Option<MatchResult>)
  {
    (finalMatch.Some? ==> medals.gold == finalMatch.value.winner.Team && medals.silver == finalMatch.value.loser.Team) &&
    (finalMatch.None? ==> medals.gold == "" && medals.silver == "") &&
    (bronzeMatch.Some? ==> medals.bronze == bronzeMatch.value.winner.Team) &&
    (bronzeMatch.None? ==> medals.bronze == "")
  }

  /** A medal match that was played was played between teams of `pool`. */
  predicate PlayedWithin(m: Option<MatchResult>, pool: seq<Tim>)
  {
    m.Some? ==> m.value.winner in pool && m.value.loser in pool
  }

  /** No two different teams share a name, so the medals' names tell the teams apart. */
  predicate UniqueNames(teams: seq<Tim>)
  {
    forall t, u :: t in teams && u in teams && t != u ==> t.Team != u.Team
  }

  /** A medal match is played, with draw `d`, exactly when its list holds two teams. */
  predicate MedalMatch(pair: seq<Tim>, d: MatchDraw, m: Option<MatchResult>)
  {
    (m.Some? <==> |pair| == 2) && (|pair| == 2 ==> m.value == Decide(pair[0], pair[1], d))
  }

  /** The match of an optional result, as a sequence of none or one. */
  function Optional(r: Option<MatchResult>): (s: seq<MatchResult>)
    ensures r.Some? ==> s == [r.value]
    ensures r.None? ==> s == []
  {
    if r.Some? then [r.value] else []
  }

  /**
   * The bronze match and the final, in that order, each played only when exactly two teams are
   * there for it; a medal whose match was not played keeps the empty name.
   */
  method PlayMedalMatches(losers: seq<Tim>, finalists: seq<Tim>, draw: nat -> MatchDraw, start: nat,
                          ghost pool: seq<Tim>, ghost initial: seq<Stats>, ghost played: seq<MatchResult>)
    returns (bronzeMatch: Option<MatchResult>, finalMatch: Option<MatchResult>, medals: Medals)
    requires forall i :: 0 <= i < |losers| ==> losers[i] in pool
    requires forall i :: 0 <= i < |finalists| ==> finalists[i] in pool
    requires Tracks(pool, initial, played)
    modifies pool
    ensures MedalMatch(losers, draw(start), bronzeMatch)
    ensures MedalMatch(finalists, draw(if |losers| == 2 then start + 1 else start), finalMatch)
    ensures Awarded(medals, bronzeMatch, finalMatch)
    ensures PlayedWithin(finalMatch, pool)
    ensures Tracks(pool, initial, played + Optional(bronzeMatch) + Optional(finalMatch))
  {
    var thirdPlace, fourthPlace;
    bronzeMatch, thirdPlace, fourthPlace := PlayIfTwo(losers, draw(start), pool, initial, played);
    var next := if bronzeMatch.Some? then start + 1 else start;
    var firstPlace, secondPlace;
    finalMatch, firstPlace, secondPlace := PlayIfTwo(finalists, draw(next), pool, initial, played + Optional(bronzeMatch));
    medals := Medals(firstPlace, secondPlace, thirdPlace);
  }

  /**
   * A medal match: played between the two teams of `pair` when it holds exactly two, skipped
   * otherwise; the names of its winner and loser, which stay empty when it is skipped.
   */
  method PlayIfTwo(pair: seq<Tim>, d: MatchDraw, ghost pool: seq<Tim>, ghost initial: seq<Stats>, ghost played: seq<MatchResult>)
    returns (m: Option<MatchResult>, winnerName: string, loserName: string)
    requires forall i :: 0 <= i < |pair| ==> pair[i] in pool
    requires Tracks(pool, initial, played)
    modifies pool
    ensures MedalMatch(pair, d, m)
    ensures m.Some? ==> winnerName == m.value.winner.Team && loserName == m.value.loser.Team
    ensures m.None? ==> winnerName == "" && loserName == ""
    ensures PlayedWithin(m, pool)
    ensures Tracks(pool, initial, played + Optional(m))
  {
    m, winnerName, loserName := None, "", "";
    if |pair| == 2 {
      var result := SimulateTracked(pool, pair[0], pair[1], d, initial, played);
      m := Some(result);
      winnerName, loserName := result.winner.Team, result.loser.Team;
    } else {
      assert played + Optional(m) == played;
    }
  }

  /** A team of a pair drawn from `teams` is a team of `teams`. */
  lemma PairIn(pairs: seq<(Tim, Tim)>, teams: seq<Tim>, k: int)
    requires multiset(Paired(pairs)) <= multiset(teams) && 0 <= k < |pairs|
    ensures pairs[k].0 in teams && pairs[k].1 in teams
  {
    PairedHolds(pairs, k);
    assert pairs[k].0 in multiset(Paired(pairs)) && pairs[k].1 in multiset(Paired(pairs));
  }

  /** The teams of pairs drawn from `teams` are teams of `teams`. */
  lemma PairsIn(pairs: seq<(Tim, Tim)>, teams: seq<Tim>)
    requires multiset(Paired(pairs)) <= multiset(teams)
    ensures forall k :: 0 <= k < |pairs| ==> pairs[k].0 in teams && pairs[k].1 in teams
  {
    forall k | 0 <= k < |pairs| ensures pairs[k].0 in teams && pairs[k].1 in teams {
      PairIn(pairs, teams, k);
    }
  }

  /** The winners and losers of matches between teams of `pool` are teams of `pool`. */
  lemma ResultsIn(results: seq<MatchResult>, pairs: seq<(Tim, Tim)>, draw: nat -> MatchDraw, start: nat, pool: seq<Tim>)
    requires PlayedAs(results, pairs, draw, start)
    requires forall k :: 0 <= k < |pairs| ==> pairs[k].0 in pool && pairs[k].1 in pool
    ensures forall k :: 0 <= k < |results| ==> results[k].winner in pool && results[k].loser in pool
  {
  }

  /** Pairs of teams from a list of teams of `pool` are pairs of teams of `pool`. */
  lemma PairsFrom(pairs: seq<(Tim, Tim)>, s: seq<Tim>, pool: seq<Tim>)
    requires forall k :: 0 <= k < |pairs| ==> pairs[k].0 in s && pairs[k].1 in s
    requires forall i :: 0 <= i < |s| ==> s[i] in pool
    ensures forall k :: 0 <= k < |pairs| ==> pairs[k].0 in pool && pairs[k].1 in pool
  {
  }

  /** The front part of a duplicate-free sequence is duplicate-free. */
  lemma DistinctFront<T>(a: seq<T>, b: seq<T>)
    requires Distinct(a + b)
    ensures Distinct(a)
  {
    forall i, j | 0 <= i < j < |a| ensures a[i] != a[j] {
      assert a[i] == (a + b)[i] && a[j] == (a + b)[j];
    }
  }

  /**
   * The semifinals, then the bronze match between their losers and the final between their
   * winners, cut to the first two by `Take(2)`.
   */
  method PlaySemifinalsAndMedals(semifinals: seq<(Tim, Tim)>, draw: nat -> MatchDraw, start: nat,
                                 ghost pool: seq<Tim>, ghost initial: seq<Stats>, ghost played: seq<MatchResult>)
    returns (semifinalResults: seq<MatchResult>, bronzeMatch: Option<MatchResult>, finalMatch: Option<MatchResult>,
             medals: Medals)
    requires (|semifinals| == 0 || |semifinals| == 2) && Distinct(Paired(semifinals))
    requires forall k :: 0 <= k < |semifinals| ==> semifinals[k].0 in pool && semifinals[k].1 in pool
    requires Tracks(pool, initial, played)
    modifies pool
    ensures PlayedAs(semifinalResults, semifinals, draw, start)
    ensures bronzeMatch.Some? <==> |semifinals| == 2
    ensures finalMatch.Some? <==> |semifinals| == 2
    ensures |semifinals| == 2 ==>
              bronzeMatch.value == Decide(semifinalResults[0].loser, semifinalResults[1].loser, draw(start + 2)) &&
              finalMatch.value == Decide(semifinalResults[0].winner, semifinalResults[1].winner, draw(start + 3)) &&
              finalMatch.value.winner != finalMatch.value.loser
    ensures Awarded(medals, bronzeMatch, finalMatch)
    ensures PlayedWithin(finalMatch, pool)
    ensures Tracks(pool, initial, played + semifinalResults + Optional(bronzeMatch) + Optional(finalMatch))
  {
    semifinalResults := PlayMatches(semifinals, draw, start, pool, initial, played);
    ResultsIn(semifinalResults, semifinals, draw, start, pool);
    WinnersDistinct(semifinalResults, semifinals, draw, start);
    bronzeMatch, finalMatch, medals :=
      PlayMedalRounds(semifinalResults, draw, start + |semifinals|, pool, initial, played + semifinalResults);
  }

  /**
   * The rounds after the semifinals: the losers play for bronze, the first two winners play the final
   * (each only when there are exactly two of them), and the medals are handed out.
   */
  method PlayMedalRounds(semifinalResults: seq<MatchResult>, draw: nat -> MatchDraw, start: nat,
                         ghost pool: seq<Tim>, ghost initial: seq<Stats>, ghost played: seq<MatchResult>)
    returns (bronzeMatch: Option<MatchResult>, finalMatch: Option<MatchResult>, medals: Medals)
    requires |semifinalResults| == 0 || |semifinalResults| == 2
    requires forall k :: 0 <= k < |semifinalResults| ==>
               semifinalResults[k].winner in pool && semifinalResults[k].loser in pool
    requires |semifinalResults| == 2 ==> semifinalResults[0].winner != semifinalResults[1].winner
    requires Tracks(pool, initial, played)
    modifies pool
    ensures bronzeMatch.Some? <==> |semifinalResults| == 2
    ensures finalMatch.Some? <==> |semifinalResults| == 2
    ensures |semifinalResults| == 2 ==>
              bronzeMatch.value == Decide(semifinalResults[0].loser, semifinalResults[1].loser, draw(start)) &&
              finalMatch.value == Decide(semifinalResults[0].winner, semifinalResults[1].winner, draw(start + 1)) &&
              finalMatch.value.winner != finalMatch.value.loser
    ensures Awarded(medals, bronzeMatch, finalMatch)
    ensures PlayedWithin(finalMatch, pool)
    ensures Tracks(pool, initial, played + Optional(bronzeMatch) + Optional(finalMatch))
  {
    var finalists := Winners(semifinalResults);
    var losersForBronze := Losers(semifinalResults);
    finalists := Take(finalists, 2);
    bronzeMatch, finalMatch, medals := PlayMedalMatches(losersForBronze, finalists, draw, start, pool, initial, played);
  }

  /** The quarterfinals: the drawn pairs play in draw order, with the phase's first draws. */
  method PlayQuarterfinals(teams: seq<Tim>, quarterfinals: seq<(Tim, Tim)>, draw: nat -> MatchDraw, ghost initial: seq<Stats>)
    returns (quarterfinalResults: seq<MatchResult>)
    requires multiset(Paired(quarterfinals)) <= multiset(teams)
    requires Distinct(teams) ==> Distinct(Paired(quarterfinals))
    requires Tracks(teams, initial, [])
    modifies teams
    ensures PlayedAs(quarterfinalResults, quarterfinals, draw, 0)
    ensures forall i :: 0 <= i < |quarterfinalResults| ==> Winners(quarterfinalResults)[i] in teams
    ensures Distinct(teams) ==> Distinct(Winners(quarterfinalResults))
    ensures Tracks(teams, initial, quarterfinalResults)
  {
    PairsIn(quarterfinals, teams);
    quarterfinalResults := PlayMatches(quarterfinals, draw, 0, teams, initial, []);
    assert [] + quarterfinalResults == quarterfinalResults;
    ResultsIn(quarterfinalResults, quarterfinals, draw, 0, teams);
    if Distinct(teams) {
      WinnersDistinct(quarterfinalResults, quarterfinals, draw, 0);
    }
  }

  /**
   * Everything after the quarterfinals: the semifinal pairing of their winners and, unless that
   * pairing never ends, the semifinals and the medal matches.
   */
  method PlayFromSemifinalPairing(teams: seq<Tim>, quarterfinals: seq<(Tim, Tim)>, remaining: seq<Tim>,
                                  quarterfinalResults: seq<MatchResult>, draw: nat -> MatchDraw, ghost initial: seq<Stats>)
    returns (outcome: Elimination)
    requires forall i :: 0 <= i < |quarterfinalResults| ==> Winners(quarterfinalResults)[i] in teams
    requires Tracks(teams, initial, quarterfinalResults)
    modifies teams
    ensures outcome.progress != QuarterfinalDrawStuck
    ensures outcome.quarterfinals == quarterfinals && outcome.unpaired == remaining
    ensures outcome.quarterfinalResults == quarterfinalResults
    ensures outcome.progress == SemifinalDrawStuck ==>
              |outcome.semifinals| < 2 && 2 <= |quarterfinalResults| && outcome.Played() == quarterfinalResults
    ensures Distinct(Winners(quarterfinalResults)) ==>
              (outcome.progress == SemifinalDrawStuck <==> 2 <= |quarterfinalResults| < 4) &&
              InListOrderPairs(outcome.semifinals, Winners(quarterfinalResults))
    ensures outcome.progress == Finished ==> outcome.MedalRounds(draw)
    ensures outcome.finalMatch.Some? ==> outcome.finalMatch.value.winner != outcome.finalMatch.value.loser
    ensures outcome.MedalsAwarded()
    ensures PlayedWithin(outcome.finalMatch, teams)
    ensures Tracks(teams, initial, outcome.Played())
  {
    var semifinalists := Winners(quarterfinalResults);
    var semifinals, usedTeams, pairingStuck := PairSemifinals(semifinalists);
    if pairingStuck {
      outcome := Elimination(SemifinalDrawStuck, quarterfinals, remaining, quarterfinalResults, semifinals, [],
                             None, None, Medals("", "", ""));
      assert Optional(None) == [];
      assert quarterfinalResults + [] == quarterfinalResults;
      assert outcome.Played() == quarterfinalResults;
      return;
    }
    PairsFrom(semifinals, semifinalists, teams);
    var semifinalResults, bronzeMatch, finalMatch, medals :=
      PlaySemifinalsAndMedals(semifinals, draw, |quarterfinals|, teams, initial, quarterfinalResults);
    outcome := Elimination(Finished, quarterfinals, remaining, quarterfinalResults, semifinals, semifinalResults,
                           bronzeMatch, finalMatch, medals);
    assert outcome.Played() == quarterfinalResults + semifinalResults + Optional(bronzeMatch) + Optional(finalMatch);
  }

  /**
   * `PerformEliminationPhase(teams)`: the quarterfinal draw, the quarterfinals, the semifinal
   * pairing, the semifinals, then the bronze match and the final. The `k`-th match of the phase
   * is decided by `draw(k)`; the quarterfinal draw's turn `n` uses `pick(n)` and `choose(n)`.
   * A draw loop that the source never leaves ends the model's run with the matching `progress`.
   */
  method PerformEliminationPhase(teams: seq<Tim>, pick: nat -> nat, choose: nat -> nat, draw: nat -> MatchDraw)
    returns (outcome: Elimination)
    modifies teams
    ensures (outcome.quarterfinals, outcome.unpaired, outcome.progress == QuarterfinalDrawStuck) ==
            DrawFrom([], teams, pick, choose, 0)
    ensures var qf := outcome.quarterfinals;
            |qf| <= 4 && multiset(Paired(qf)) + multiset(outcome.unpaired) == multiset(teams) &&
            forall k :: 0 <= k < |qf| ==> qf[k].0.Group != qf[k].1.Group
    ensures outcome.progress == QuarterfinalDrawStuck ==>
              |outcome.quarterfinals| < 4 && 2 <= |outcome.unpaired| && SameGroup(outcome.unpaired) &&
              outcome.Played() == []
    ensures outcome.progress != QuarterfinalDrawStuck ==>
              (|outcome.quarterfinals| == 4 || |outcome.unpaired| < 2) &&
              PlayedAs(outcome.quarterfinalResults, outcome.quarterfinals, draw, 0)
    ensures outcome.progress == SemifinalDrawStuck ==>
              |outcome.semifinals| < 2 && 2 <= |outcome.quarterfinalResults| &&
              outcome.Played() == outcome.quarterfinalResults
    ensures Distinct(teams) && outcome.progress != QuarterfinalDrawStuck ==>
              var s := Winners(outcome.quarterfinalResults);
              (outcome.progress == SemifinalDrawStuck <==> 2 <= |s| < 4) &&
              InListOrderPairs(outcome.semifinals, s)
    ensures outcome.progress == Finished ==> outcome.MedalRounds(draw)
    ensures outcome.finalMatch.Some? ==> outcome.finalMatch.value.winner != outcome.finalMatch.value.loser
    ensures outcome.MedalsAwarded()
    ensures PlayedWithin(outcome.finalMatch, teams)
    ensures UniqueNames(teams) && outcome.finalMatch.Some? ==> outcome.medals.gold != outcome.medals.silver
    ensures Tracks(teams, old(Snapshot(teams)), outcome.Played())
  {
    ghost var initial := Snapshot(teams);
    TracksSnapshot(teams);
    var quarterfinals, remainingTeams, drawStuck := DrawQuarterfinals(teams, pick, choose);
    if drawStuck {
      outcome := Elimination(QuarterfinalDrawStuck, quarterfinals, remainingTeams, [], [], [], None, None, Medals("", "", ""));
      assert outcome.Played() == [];
      return;
    }
    outcome := PlayDrawnBracket(teams, quarterfinals, remainingTeams, draw, initial);
    MedalNamesDiffer(teams, outcome.medals, outcome.bronzeMatch, outcome.finalMatch);
  }

  /** A final between two different teams of `teams` awards gold and silver to different names when no two teams share a name. */
  lemma MedalNamesDiffer(teams: seq<Tim>, medals: Medals, bronzeMatch: Option<MatchResult>, finalMatch: Option<MatchResult>)
    requires Awarded(medals, bronzeMatch, finalMatch) && PlayedWithin(finalMatch, teams)
    requires finalMatch.Some? ==> finalMatch.value.winner != finalMatch.value.loser
    ensures UniqueNames(teams) && finalMatch.Some? ==> medals.gold != medals.silver
  {
  }

  /** Everything after a quarterfinal draw that ended: the matches, the semifinal pairing and the medal rounds. */
  method PlayDrawnBracket(teams: seq<Tim>, quarterfinals: seq<(Tim, Tim)>, remaining: seq<Tim>,
                          draw: nat -> MatchDraw, ghost initial: seq<Stats>)
    returns (outcome: Elimination)
    requires multiset(Paired(quarterfinals)) + multiset(remaining) == multiset(teams)
    requires Distinct(teams) ==> Distinct(Paired(quarterfinals) + remaining)
    requires Tracks(teams, initial, [])
    modifies teams
    ensures outcome.progress != QuarterfinalDrawStuck
    ensures outcome.quarterfinals == quarterfinals && outcome.unpaired == remaining
    ensures PlayedAs(outcome.quarterfinalResults, quarterfinals, draw, 0)
    ensures outcome.progress == SemifinalDrawStuck ==>
              |outcome.semifinals| < 2 && 2 <= |outcome.quarterfinalResults| &&
              outcome.Played() == outcome.quarterfinalResults
    ensures Distinct(teams) ==>
              var s := Winners(outcome.quarterfinalResults);
              (outcome.progress == SemifinalDrawStuck <==> 2 <= |s| < 4) &&
              InListOrderPairs(outcome.semifinals, s)
    ensures outcome.progress == Finished ==> outcome.MedalRounds(draw)
    ensures outcome.finalMatch.Some? ==> outcome.finalMatch.value.winner != outcome.finalMatch.value.loser
    ensures outcome.MedalsAwarded()
    ensures PlayedWithin(outcome.finalMatch, teams)
    ensures Tracks(teams, initial, outcome.Played())
  {
    assert multiset(Paired(quarterfinals)) <= multiset(teams);
    if Distinct(teams) {
      DistinctFront(Paired(quarterfinals), remaining);
    }
    var quarterfinalResults := PlayQuarterfinals(teams, quarterfinals, draw, initial);
    outcome := PlayFromSemifinalPairing(teams, quarterfinals, remaining, quarterfinalResults, draw, initial);
  }

  /** Before any match, every team's statistics are those of its own snapshot. */
  lemma TracksSnapshot(pool: seq<Tim>)
    ensures Tracks(pool, Snapshot(pool), [])
  {
  }
}
