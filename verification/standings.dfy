/**
 * The standings: the stable descending sort of a team list by (points, goal difference,
 * points scored), its use on every group (`RankTeamsInGroups`, which writes the new order
 * back into the group and records it by group name) and the seeding list for the draw
 * (`RankTeamsForDraw`: the group winners, then the runners-up, then the third-placed teams,
 * each tier sorted the same way).
 *
 * The sort itself works on entries that pair a team with its key as read when the sort
 * starts (LINQ's `OrderBy` evaluates each key once, too); `SortByStanding` reads the keys
 * of a team list and sorts its entries.
 */
module Standings {
  import opened Teams
  import opened GroupStage

  /** The order relation of the standings is total. */
  lemma RanksAtLeastTotal(a: Standing, b: Standing)
    ensures RanksAtLeast(a, b) || RanksAtLeast(b, a)
  {
  }

  /** A team with its sort key. */
  datatype Entry = Entry(team: Tim, key: Standing)

  /** The entries of `s`, each team with its current key. */
  function Keyed(s: seq<Tim>): (es: seq<Entry>)
    reads s
    ensures |es| == |s| && forall i :: 0 <= i < |s| ==> es[i] == Entry(s[i], s[i].Key())
  {
    seq(|s|, i reads s requires 0 <= i < |s| => Entry(s[i], s[i].Key()))
  }

  /** The teams of the entries, in order. */
  function TeamsOf(es: seq<Entry>): (s: seq<Tim>)
    ensures |s| == |es| && forall i :: 0 <= i < |es| ==> s[i] == es[i].team
    decreases |es|
  {
    if es == [] then [] else [es[0].team] + TeamsOf(es[1..])
  }

  /** Every entry carries its team's current key. */
  ghost predicate Current(es: seq<Entry>)
    reads set e | e in es :: e.team
  {
    forall i :: 0 <= i < |es| ==> es[i].key == es[i].team.Key()
  }

  /** `es` is in standings order: every entry ranks at least every entry after it. */
  predicate SortedEntries(es: seq<Entry>)
  {
    forall i, j :: 0 <= i < j < |es| ==> RanksAtLeast(es[i].key, es[j].key)
  }

  /**
   * Inserts `e`, which came before every entry of `es` in the original order, in front of the
   * first entry it ranks at least: ahead of the entries it ties with, as a stable sort demands.
   */
  function Insert(e: Entry, es: seq<Entry>): (r: seq<Entry>)
    ensures |r| == |es| + 1
    decreases |es|
  {
    if es == [] then [e]
    else if RanksAtLeast(e.key, es[0].key) then
      assert ([e] + es)[1..] == es;
      [e] + es
    else
      assert es == [es[0]] + es[1..];
      var r := [es[0]] + Insert(e, es[1..]);
      assert r[1..] == Insert(e, es[1..]);
      r
  }

  /**
   * `OrderByDescending(Points).ThenByDescending(GoalDifference).ThenByDescending(Scored)`
   * on the entries: insertion sort from the back, which keeps equal keys in their order.
   */
  function Sort(es: seq<Entry>): (r: seq<Entry>)
    ensures |r| == |es|
    decreases |es|
  {
    if es == [] then []
    else
      assert es == [es[0]] + es[1..];
      Insert(es[0], Sort(es[1..]))
  }

  /** The entries of `es` whose key is `k`, in their order in `es`. */
  function WithKey(es: seq<Entry>, k: Standing): seq<Entry>
    decreases |es|
  {
    if es == [] then []
    else (if es[0].key == k then [es[0]] else []) + WithKey(es[1..], k)
  }

  /** Insertion adds `e` and loses nothing. */
  lemma {:induction false} InsertPermutes(e: Entry, es: seq<Entry>)
    ensures multiset(Insert(e, es)) == multiset(es) + multiset{e}
    decreases |es|
  {
    if es != [] && !RanksAtLeast(e.key, es[0].key) {
      InsertPermutes(e, es[1..]);
      assert es == [es[0]] + es[1..];
    }
  }

  /** The sort's result is a permutation of its input. */
  lemma {:induction false} SortPermutes(es: seq<Entry>)
    ensures multiset(Sort(es)) == multiset(es)
    decreases |es|
  {
    if es != [] {
      SortPermutes(es[1..]);
      InsertPermutes(es[0], Sort(es[1..]));
      assert es == [es[0]] + es[1..];
    }
  }

  lemma {:induction false} InsertSorted(e: Entry, es: seq<Entry>)
    requires SortedEntries(es)
    ensures SortedEntries(Insert(e, es))
    decreases |es|
  {
    if es != [] && !RanksAtLeast(e.key, es[0].key) {
      var rest := Insert(e, es[1..]);
      InsertSorted(e, es[1..]);
      InsertPermutes(e, es[1..]);
      RanksAtLeastTotal(e.key, es[0].key);
      forall j | 0 <= j < |rest|
        ensures RanksAtLeast(es[0].key, rest[j].key)
      {
        assert rest[j] in multiset(rest);
        if rest[j] != e {
          assert rest[j] in multiset(es[1..]);
          var m :| 0 <= m < |es[1..]| && es[1..][m] == rest[j];
          assert es[m + 1] == rest[j];
        }
      }
    }
  }

  /** Inserting `e` into a sorted list puts it first among the entries with its key. */
  lemma {:induction false} InsertWithKey(e: Entry, es: seq<Entry>, k: Standing)
    requires SortedEntries(es)
    ensures WithKey(Insert(e, es), k) == (if e.key == k then [e] else []) + WithKey(es, k)
    decreases |es|
  {
    if es == [] {
    } else if RanksAtLeast(e.key, es[0].key) {
      assert ([e] + es)[1..] == es;
    } else {
      InsertWithKey(e, es[1..], k);
      assert ([es[0]] + Insert(e, es[1..]))[1..] == Insert(e, es[1..]);
    }
  }

  /** The sort's result is in standings order. */
  lemma {:induction false} SortSorted(es: seq<Entry>)
    ensures SortedEntries(Sort(es))
    decreases |es|
  {
    if es != [] {
      SortSorted(es[1..]);
      InsertSorted(es[0], Sort(es[1..]));
    }
  }

  /**
   * The sort is stable: the entries sharing any one key appear in the result in the order
   * they had before.
   */
  lemma {:induction false} SortStable(es: seq<Entry>, k: Standing)
    ensures WithKey(Sort(es), k) == WithKey(es, k)
    decreases |es|
  {
    if es != [] {
      SortStable(es[1..], k);
      SortSorted(es[1..]);
      InsertWithKey(es[0], Sort(es[1..]), k);
    }
  }

  /** A list already in standings order is left as it is. */
  lemma {:induction false} SortOfSorted(es: seq<Entry>)
    requires SortedEntries(es)
    ensures Sort(es) == es
    decreases |es|
  {
    if es != [] {
      assert SortedEntries(es[1..]) by {
        forall i, j | 0 <= i < j < |es[1..]|
          ensures RanksAtLeast(es[1..][i].key, es[1..][j].key)
        {
          assert es[1..][i] == es[i + 1] && es[1..][j] == es[j + 1];
        }
      }
      SortOfSorted(es[1..]);
      assert [es[0]] + es[1..] == es;
    }
  }

  /** The teams of `s` in standings order, by the keys they have now. */
  function SortByStanding(s: seq<Tim>): (r: seq<Tim>)
    reads s
  {
    TeamsOf(Sort(Keyed(s)))
  }

  /** `s` is in standings order. */
  predicate Sorted(s: seq<Tim>)
    reads s
  {
    forall i, j :: 0 <= i < j < |s| ==> RanksAtLeast(s[i].Key(), s[j].Key())
  }

  /** The teams of `s` whose key is `k`, in their order in `s`. */
  function TeamsWithKey(s: seq<Tim>, k: Standing): seq<Tim>
    reads s
    decreases |s|
  {
    if s == [] then []
    else (if s[0].Key() == k then [s[0]] else []) + TeamsWithKey(s[1..], k)
  }

  /** Taking the element at `m` out of a list takes one copy of it out of the list's multiset. */
  lemma RemoveAtMultiset<T>(s: seq<T>, m: nat)
    requires m < |s|
    ensures multiset(s) == multiset(s[..m] + s[m + 1..]) + multiset{s[m]}
    ensures multiset(s[..m] + s[m + 1..]) == multiset(s) - multiset{s[m]}
  {
    assert s == s[..m] + [s[m]] + s[m + 1..];
  }

  /** Taking one entry out of a list takes its team out of the list's teams. */
  lemma TeamsOfRemoveAt(b: seq<Entry>, m: nat)
    requires m < |b|
    ensures multiset(TeamsOf(b)) == multiset(TeamsOf(b[..m] + b[m + 1..])) + multiset{b[m].team}
  {
    TeamsOfSlices(b, m);
    RemoveAtMultiset(TeamsOf(b), m);
  }

  /** The teams of a list with one entry taken out are its teams with that team taken out. */
  lemma TeamsOfSlices(b: seq<Entry>, m: nat)
    requires m < |b|
    ensures TeamsOf(b[..m] + b[m + 1..]) == TeamsOf(b)[..m] + TeamsOf(b)[m + 1..]
  {
    var rest := b[..m] + b[m + 1..];
    var s, r := TeamsOf(b), TeamsOf(rest);
    forall i | 0 <= i < m
      ensures r[i] == s[i]
    {
      assert rest[i] == b[i];
    }
    forall i | m <= i < |r|
      ensures r[i] == s[i + 1]
    {
      assert rest[i] == b[i + 1];
    }
  }

  /** Taking the first entry off a list takes its team off the list's teams. */
  lemma TeamsOfFirst(a: seq<Entry>)
    requires a != []
    ensures multiset(a[1..]) == multiset(a) - multiset{a[0]}
    ensures multiset(TeamsOf(a)) == multiset(TeamsOf(a[1..])) + multiset{a[0].team}
  {
    FirstMultiset(a);
    FirstMultiset(TeamsOf(a));
    assert TeamsOf(a)[1..] == TeamsOf(a[1..]);
  }

  /** The multiset of a non-empty list is that of its tail plus its first element. */
  lemma FirstMultiset<T>(s: seq<T>)
    requires s != []
    ensures multiset(s) == multiset(s[1..]) + multiset{s[0]}
    ensures multiset(s[1..]) == multiset(s) - multiset{s[0]}
  {
    assert s == [s[0]] + s[1..];
  }

  /** Entries that are a permutation of each other name teams that are a permutation of each other. */
  lemma {:induction false} TeamsOfPermutation(a: seq<Entry>, b: seq<Entry>)
    requires multiset(a) == multiset(b)
    ensures multiset(TeamsOf(a)) == multiset(TeamsOf(b))
    decreases |a|
  {
    if a != [] {
      assert a[0] in multiset(b);
      var m :| 0 <= m < |b| && b[m] == a[0];
      var rest := b[..m] + b[m + 1..];
      TeamsOfFirst(a);
      RemoveAtMultiset(b, m);
      TeamsOfPermutation(a[1..], rest);
      TeamsOfRemoveAt(b, m);
    }
  }

  /** The entries read from a team list name exactly that list. */
  lemma TeamsOfKeyed(s: seq<Tim>)
    ensures TeamsOf(Keyed(s)) == s
  {
  }

  /** Sorting freshly read entries gives entries that still carry their teams' keys. */
  lemma SortCurrent(s: seq<Tim>)
    ensures Current(Sort(Keyed(s)))
    ensures Keyed(SortByStanding(s)) == Sort(Keyed(s))
  {
    var es := Sort(Keyed(s));
    SortPermutes(Keyed(s));
    forall i | 0 <= i < |es|
      ensures es[i].key == es[i].team.Key()
    {
      assert es[i] in multiset(Keyed(s));
      var m :| 0 <= m < |Keyed(s)| && Keyed(s)[m] == es[i];
    }
  }

  /** Filtering current entries by key and then taking the teams filters the teams by key. */
  lemma {:induction false} TeamsWithKeyOf(es: seq<Entry>, k: Standing)
    requires Current(es)
    ensures TeamsWithKey(TeamsOf(es), k) == TeamsOf(WithKey(es, k))
    decreases |es|
  {
    if es != [] {
      assert Current(es[1..]) by {
        forall i | 0 <= i < |es[1..]| ensures es[1..][i].key == es[1..][i].team.Key() {
          assert es[1..][i] == es[i + 1];
        }
      }
      TeamsWithKeyOf(es[1..], k);
      assert TeamsOf(es)[1..] == TeamsOf(es[1..]);
      var head := if es[0].key == k then [es[0]] else [];
      assert WithKey(es, k) == head + WithKey(es[1..], k);
      assert TeamsOf(head + WithKey(es[1..], k)) == TeamsOf(head) + TeamsOf(WithKey(es[1..], k));
    }
  }

  /**
   * What `OrderByDescending(...).ThenByDescending(...).ThenByDescending(...)` promises: the
   * result is a permutation of `s`, in standings order, and the teams sharing a key keep
   * their relative order.
   */
  lemma SortByStandingSpec(s: seq<Tim>)
    ensures multiset(SortByStanding(s)) == multiset(s)
    ensures Sorted(SortByStanding(s))
    ensures forall k :: TeamsWithKey(SortByStanding(s), k) == TeamsWithKey(s, k)
  {
    var es := Sort(Keyed(s));
    TeamsOfKeyed(s);
    SortPermutes(Keyed(s));
    TeamsOfPermutation(es, Keyed(s));
    SortCurrent(s);
    SortSorted(Keyed(s));
    var r := SortByStanding(s);
    forall i, j | 0 <= i < j < |r|
      ensures RanksAtLeast(r[i].Key(), r[j].Key())
    {
      assert r[i] == es[i].team && r[j] == es[j].team;
    }
    forall k
      ensures TeamsWithKey(r, k) == TeamsWithKey(s, k)
    {
      SortStable(Keyed(s), k);
      TeamsWithKeyOf(es, k);
      assert Current(Keyed(s));
      TeamsWithKeyOf(Keyed(s), k);
    }
  }

  /** Sorting twice is sorting once. */
  lemma SortByStandingIdempotent(s: seq<Tim>)
    ensures SortByStanding(SortByStanding(s)) == SortByStanding(s)
  {
    SortCurrent(s);
    SortSorted(Keyed(s));
    SortOfSorted(Sort(Keyed(s)));
  }

  /**
   * The `Dictionary<string, List<Tim>>` of final rankings: the keys in the dictionary's
   * enumeration order (the order in which they were first added, since nothing is ever
   * removed) and the value stored under each.
   */
  datatype Rankings = Rankings(order: seq<string>, table: map<string, seq<Tim>>)
  {
    /** Every key is enumerated exactly once. */
    ghost predicate Valid()
    {
      Distinct(order) && forall k :: k in order <==> k in table
    }

    /**
     * `dictionary[key] = v`: an existing key keeps its place and gets the new value, a new key
     * is enumerated after all the others.
     */
    function Put(key: string, v: seq<Tim>): (r: Rankings)
      requires Valid()
      ensures r.Valid()
      ensures r.order == if key in table then order else order + [key]
      ensures r.table == table[key := v]
    {
      if key in table then Rankings(order, table[key := v])
      else
        var r := Rankings(order + [key], table[key := v]);
        assert forall i :: 0 <= i < |order| ==> r.order[i] == order[i];
        r
    }

    /** `dictionary.Values`: the stored lists in enumeration order. */
    function Values(): (vs: seq<seq<Tim>>)
      requires Valid()
      ensures |vs| == |order| && forall i :: 0 <= i < |order| ==> vs[i] == table[order[i]]
    {
      seq(|order|, i requires 0 <= i < |order| && Valid() => table[order[i]])
    }
  }

  /** The rankings dictionary after `lists[i]` has been stored under `names[i]`, for each i in order. */
  function Ranked(names: seq<string>, lists: seq<seq<Tim>>): (r: Rankings)
    requires |names| == |lists|
    ensures r.Valid()
    decreases |names|
  {
    if names == [] then Rankings([], map[])
    else Ranked(names[..|names| - 1], lists[..|lists| - 1]).Put(names[|names| - 1], lists[|lists| - 1])
  }

  /** The dictionary holds exactly the names stored, enumerated in storing order when no name repeats. */
  lemma RankedKeys(names: seq<string>, lists: seq<seq<Tim>>)
    requires |names| == |lists|
    ensures forall k :: k in Ranked(names, lists).table <==> k in names
    ensures Distinct(names) ==> Ranked(names, lists).order == names
  {
    RankedTable(names, lists);
    if Distinct(names) {
      RankedOrder(names, lists);
    }
  }

  lemma {:induction false} RankedTable(names: seq<string>, lists: seq<seq<Tim>>)
    requires |names| == |lists|
    ensures forall k :: k in Ranked(names, lists).table <==> k in names
    decreases |names|
  {
    if names != [] {
      var n := |names| - 1;
      RankedTable(names[..n], lists[..n]);
      assert names == names[..n] + [names[n]];
    }
  }

  lemma {:induction false} RankedOrder(names: seq<string>, lists: seq<seq<Tim>>)
    requires |names| == |lists| && Distinct(names)
    ensures Ranked(names, lists).order == names
    decreases |names|
  {
    if names != [] {
      var n := |names| - 1;
      var ns, ls := names[..n], lists[..n];
      var prev := Ranked(ns, ls);
      assert prev.order == ns by {
        DistinctLast(names);
        RankedOrder(ns, ls);
      }
      assert names[n] !in prev.table by {
        DistinctLast(names);
        RankedTable(ns, ls);
      }
      assert Ranked(names, lists).order == prev.order + [names[n]];
      assert names == ns + [names[n]];
    }
  }

  /** Dropping the last element of a duplicate-free list leaves a duplicate-free list without it. */
  lemma DistinctLast<T>(s: seq<T>)
    requires |s| > 0 && Distinct(s)
    ensures Distinct(s[..|s| - 1]) && s[|s| - 1] !in s[..|s| - 1]
  {
  }

  /** Under each name the dictionary holds the list stored last under that name. */
  lemma {:induction false} RankedLast(names: seq<string>, lists: seq<seq<Tim>>, i: int)
    requires |names| == |lists| && 0 <= i < |names| && LastWithName(names, i)
    ensures names[i] in Ranked(names, lists).table && Ranked(names, lists).table[names[i]] == lists[i]
    decreases |names|
  {
    var n := |names| - 1;
    var ns, ls := names[..n], lists[..n];
    var prev := Ranked(ns, ls);
    assert Ranked(names, lists).table == prev.table[names[n] := lists[n]];
    if i < n {
      assert names[i] in prev.table && prev.table[names[i]] == lists[i] by {
        assert LastWithName(ns, i) by {
          forall j | i < j < n ensures ns[j] != ns[i] {
            assert ns[j] == names[j];
          }
        }
        RankedLast(ns, ls, i);
      }
      assert names[i] != names[n];
    }
  }

  /** With distinct group names, the dictionary's values are the stored lists, in storing order. */
  lemma RankedValues(names: seq<string>, lists: seq<seq<Tim>>)
    requires |names| == |lists| && Distinct(names)
    ensures Ranked(names, lists).Values() == lists
  {
    var r := Ranked(names, lists);
    RankedOrder(names, lists);
    forall i | 0 <= i < |names|
      ensures r.Values()[i] == lists[i]
    {
      RankedLast(names, lists, i);
    }
  }

  /** A snapshot of the keys of the teams in its domain, which still holds. */
  ghost predicate KeysHold(keys: map<Tim, Standing>)
    reads keys.Keys
  {
    forall t :: t in keys ==> t.Key() == keys[t]
  }

  /** The current keys of all the teams of the lists `ls`. */
  lemma KeySnapshot(ls: seq<seq<Tim>>) returns (keys: map<Tim, Standing>)
    ensures KeysHold(keys) && Covers(keys, ls)
  {
    keys := map i, k | 0 <= i < |ls| && 0 <= k < |ls[i]| :: ls[i][k] := ls[i][k].Key();
  }

  /** The teams of `s` in standings order, by the keys of the snapshot. */
  ghost function SortBy(s: seq<Tim>, keys: map<Tim, Standing>): seq<Tim>
    requires forall k :: 0 <= k < |s| ==> s[k] in keys
  {
    TeamsOf(Sort(seq(|s|, k requires 0 <= k < |s| && s[k] in keys => Entry(s[k], keys[s[k]]))))
  }

  /** While the snapshot holds, sorting by the current keys is sorting by the snapshot. */
  lemma SortBySnapshot(s: seq<Tim>, keys: map<Tim, Standing>)
    requires KeysHold(keys) && forall k :: 0 <= k < |s| ==> s[k] in keys
    ensures SortByStanding(s) == SortBy(s, keys)
  {
    assert Keyed(s) == seq(|s|, k requires 0 <= k < |s| && s[k] in keys => Entry(s[k], keys[s[k]]));
  }

  /** Every team of the lists `ls` is in the snapshot `keys`. */
  ghost predicate Covers(keys: map<Tim, Standing>, ls: seq<seq<Tim>>)
  {
    forall i, k :: 0 <= i < |ls| && 0 <= k < |ls[i]| ==> ls[i][k] in keys
  }

  /** Each list of `ls` sorted by the snapshot. */
  ghost function SortEachBy(ls: seq<seq<Tim>>, keys: map<Tim, Standing>): (r: seq<seq<Tim>>)
    requires Covers(keys, ls)
    ensures |r| == |ls|
    decreases |ls|
  {
    if ls == [] then [] else SortEachBy(ls[..|ls| - 1], keys) + [SortBy(ls[|ls| - 1], keys)]
  }

  lemma {:induction false} SortEachByAt(ls: seq<seq<Tim>>, keys: map<Tim, Standing>, i: int)
    requires Covers(keys, ls) && 0 <= i < |ls|
    ensures SortEachBy(ls, keys)[i] == SortBy(ls[i], keys)
    decreases |ls|
  {
    if i < |ls| - 1 {
      SortEachByAt(ls[..|ls| - 1], keys, i);
    }
  }

  /**
   * The state of `RankTeamsInGroups` after the first `gi` groups: those hold their sorted
   * lists `after`, the others still `before` (or `after`, when an earlier entry of `groups`
   * was the same object), and the dictionary holds what was stored for the first `gi`.
   */
  ghost predicate RankedUpTo(groups: seq<Group>, names: seq<string>, before: seq<seq<Tim>>,
                             after: seq<seq<Tim>>, gi: int, rankings: Rankings)
    reads set g | g in groups
  {
    |names| == |before| == |after| == |groups| && 0 <= gi <= |groups| &&
    (forall i :: 0 <= i < gi ==> groups[i].Teams == after[i]) &&
    (forall i :: gi <= i < |groups| ==> groups[i].Teams == before[i] || groups[i].Teams == after[i]) &&
    (forall i, j :: 0 <= i < |groups| && 0 <= j < |groups| && groups[i] == groups[j] ==> before[i] == before[j]) &&
    (forall i :: 0 <= i < |groups| ==> names[i] == groups[i].GroupName) &&
    rankings == Ranked(names[..gi], after[..gi])
  }

  /** One turn of `RankTeamsInGroups`: sorts group `gi` and stores its list under its name. */
  method RankGroup(groups: seq<Group>, gi: int, rankings: Rankings, ghost names: seq<string>,
                   ghost before: seq<seq<Tim>>, ghost after: seq<seq<Tim>>, ghost keys: map<Tim, Standing>)
    returns (next: Rankings)
    requires RankedUpTo(groups, names, before, after, gi, rankings) && gi < |groups|
    requires Covers(keys, before) && KeysHold(keys) && after == SortEachBy(before, keys)
    modifies groups[gi]
    ensures RankedUpTo(groups, names, before, after, gi + 1, next)
  {
    var group := groups[gi];
    SortEachByAt(before, keys, gi);
    SortBySnapshot(before[gi], keys);
    SortByStandingIdempotent(before[gi]);
    group.Teams := SortByStanding(group.Teams);
    forall i | 0 <= i < |groups| && groups[i] == group
      ensures groups[i].Teams == after[i]
    {
      SortEachByAt(before, keys, i);
    }
    next := rankings.Put(group.GroupName, group.Teams);
    assert group.GroupName == names[gi] && group.Teams == after[gi];
    RankedStep(names, after, gi);
  }

  /** Storing one more list extends the rankings of the lists before it. */
  lemma RankedStep(names: seq<string>, lists: seq<seq<Tim>>, gi: int)
    requires |names| == |lists| && 0 <= gi < |names|
    ensures Ranked(names[..gi + 1], lists[..gi + 1]) == Ranked(names[..gi], lists[..gi]).Put(names[gi], lists[gi])
  {
    assert names[..gi + 1][..gi] == names[..gi] && lists[..gi + 1][..gi] == lists[..gi];
  }

  /**
   * `RankTeamsInGroups`: puts every group's teams in standings order in place and stores each
   * group's sorted list in the rankings dictionary under the group's name.
   */
  method RankTeamsInGroups(groups: seq<Group>) returns (rankings: Rankings)
    modifies set g | g in groups
    ensures forall i :: 0 <= i < |groups| ==> groups[i].Teams == SortByStanding(old(groups[i].Teams))
    ensures rankings == Ranked(Names(groups), Lineups(groups))
  {
    ghost var names := Names(groups);
    ghost var before := Lineups(groups);
    ghost var keys := KeySnapshot(before);
    ghost var after := SortEachBy(before, keys);
    rankings := Rankings([], map[]);
    for gi := 0 to |groups|
      invariant RankedUpTo(groups, names, before, after, gi, rankings)
      invariant KeysHold(keys)
    {
      rankings := RankGroup(groups, gi, rankings, names, before, after, keys);
    }
    assert names[..|groups|] == names && after[..|groups|] == after;
    assert Lineups(groups) == after;
    forall i | 0 <= i < |groups|
      ensures groups[i].Teams == SortByStanding(old(groups[i].Teams))
    {
      SortEachByAt(before, keys, i);
      SortBySnapshot(before[i], keys);
    }
  }

  /** Every list holds at least three teams, so that places 0, 1 and 2 exist. */
  predicate AtLeastThree(lists: seq<seq<Tim>>)
  {
    forall i :: 0 <= i < |lists| ==> 3 <= |lists[i]|
  }

  /** The team in place `place` of every list, in list order: `Values.Select(teams => teams[place])`. */
  function Tier(lists: seq<seq<Tim>>, place: nat): (tier: seq<Tim>)
    requires forall i :: 0 <= i < |lists| ==> place < |lists[i]|
    ensures |tier| == |lists| && forall i :: 0 <= i < |lists| ==> tier[i] == lists[i][place]
  {
    seq(|lists|, i requires 0 <= i < |lists| && place < |lists[i]| => lists[i][place])
  }

  /** `r` is `s` in standings order: a permutation, sorted, and stable. */
  ghost predicate StandingsOrderOf(r: seq<Tim>, s: seq<Tim>)
    reads r, s
  {
    multiset(r) == multiset(s) && Sorted(r) && forall k :: TeamsWithKey(r, k) == TeamsWithKey(s, k)
  }

  /**
   * `RankTeamsForDraw`: the group winners in standings order, then the runners-up, then the
   * third-placed teams, each tier taken from the stored lists in dictionary order.
   */
  function RankTeamsForDraw(rankings: Rankings): (draw: seq<Tim>)
    requires rankings.Valid()
    requires AtLeastThree(rankings.Values())
    reads Tier(rankings.Values(), 0), Tier(rankings.Values(), 1), Tier(rankings.Values(), 2)
    ensures |draw| == 3 * |rankings.order|
  {
    var vs := rankings.Values();
    SortByStanding(Tier(vs, 0)) + SortByStanding(Tier(vs, 1)) + SortByStanding(Tier(vs, 2))
  }

  /** Third `place` of a list of length 3 * n. */
  function Third<T>(s: seq<T>, n: nat, place: nat): seq<T>
    requires |s| == 3 * n && place < 3
  {
    if place == 0 then s[..n] else if place == 1 then s[n..2 * n] else s[2 * n..]
  }

  /** The thirds of `a + b + c`, for three lists of one length, are `a`, `b` and `c`. */
  lemma ThirdOfConcat<T>(a: seq<T>, b: seq<T>, c: seq<T>, place: nat)
    requires |a| == |b| == |c| && place < 3
    ensures Third(a + b + c, |a|, place) == [a, b, c][place]
  {
    var n := |a|;
    assert (a + b + c)[..n] == a && (a + b + c)[n..2 * n] == b && (a + b + c)[2 * n..] == c;
  }

  /** `SortByStanding` as one predicate: a stable sort into standings order. */
  lemma SortByStandingOrder(s: seq<Tim>)
    ensures StandingsOrderOf(SortByStanding(s), s)
  {
    SortByStandingSpec(s);
  }

  /**
   * Third `place` of the draw list (0: the group winners, 1: the runners-up, 2: the
   * third-placed teams) is the tier of that place in standings order.
   */
  lemma RankTeamsForDrawTiers(rankings: Rankings, place: nat)
    requires rankings.Valid()
    requires AtLeastThree(rankings.Values())
    requires place < 3
    ensures StandingsOrderOf(Third(RankTeamsForDraw(rankings), |rankings.order|, place), Tier(rankings.Values(), place))
  {
    var vs := rankings.Values();
    var tier := Tier(vs, place);
    var a, b, c := SortByStanding(Tier(vs, 0)), SortByStanding(Tier(vs, 1)), SortByStanding(Tier(vs, 2));
    ThirdOfConcat(a, b, c, place);
    assert [a, b, c][place] == SortByStanding(tier);
    assert RankTeamsForDraw(rankings) == a + b + c;
    SortByStandingOrder(tier);
  }

  /** No team stands in two places of the lists. */
  predicate NoTeamTwice(lists: seq<seq<Tim>>)
  {
    forall i, p, j, q ::
      0 <= i < |lists| && 0 <= p < |lists[i]| && 0 <= j < |lists| && 0 <= q < |lists[j]| && (i != j || p != q) ==>
        lists[i][p] != lists[j][q]
  }

  /** Every team of the draw list is in place 0, 1 or 2 of some list. */
  lemma DrawnFromTiers(rankings: Rankings, m: int) returns (j: int, place: nat)
    requires rankings.Valid()
    requires AtLeastThree(rankings.Values())
    requires 0 <= m < |RankTeamsForDraw(rankings)|
    ensures var vs := rankings.Values();
            0 <= j < |vs| && place < 3 && RankTeamsForDraw(rankings)[m] == vs[j][place]
  {
    var n := |rankings.Values()|;
    var draw := RankTeamsForDraw(rankings);
    place := if m < n then 0 else if m < 2 * n then 1 else 2;
    ThirdAt(draw, n, place, m);
    j := InTier(rankings, place, draw[m]);
  }

  /** Entry `m` of a list of length 3 * n lies in the third `m / n` of it. */
  lemma ThirdAt<T>(s: seq<T>, n: nat, place: nat, m: int)
    requires |s| == 3 * n && place < 3 && place * n <= m < (place + 1) * n
    ensures s[m] in Third(s, n, place)
  {
    assert Third(s, n, place)[m - place * n] == s[m];
  }

  /** A team of third `place` of the draw list stands in place `place` of some list. */
  lemma InTier(rankings: Rankings, place: nat, x: Tim) returns (j: int)
    requires rankings.Valid()
    requires AtLeastThree(rankings.Values())
    requires place < 3
    requires x in Third(RankTeamsForDraw(rankings), |rankings.order|, place)
    ensures 0 <= j < |rankings.Values()| && x == rankings.Values()[j][place]
  {
    RankTeamsForDrawTiers(rankings, place);
    var tier := Tier(rankings.Values(), place);
    assert x in multiset(tier);
    j :| 0 <= j < |tier| && tier[j] == x;
  }

  /** When no team is listed twice, no team placed fourth or lower enters the draw list. */
  lemma FourthPlaceExcluded(rankings: Rankings)
    requires rankings.Valid()
    requires AtLeastThree(rankings.Values())
    requires NoTeamTwice(rankings.Values())
    ensures var vs := rankings.Values();
            forall i, p :: 0 <= i < |vs| && 3 <= p < |vs[i]| ==> vs[i][p] !in RankTeamsForDraw(rankings)
  {
    var vs := rankings.Values();
    var draw := RankTeamsForDraw(rankings);
    forall i, p | 0 <= i < |vs| && 3 <= p < |vs[i]|
      ensures vs[i][p] !in draw
    {
      if vs[i][p] in draw {
        var m :| 0 <= m < |draw| && draw[m] == vs[i][p];
        var j, place := DrawnFromTiers(rankings, m);
        assert false;
      }
    }
  }
}
