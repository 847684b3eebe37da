/** Making duplicated serial numbers unique, and moving the annotations that were keyed by
    the old ones. */
module SerialRenaming {
  import opened Common
  import opened Decimals
  import opened Sorting

  /** One episode row; an absent serial or grade is the empty text. */
  datatype Row = Row(episode: int, serial: string, grade: string)

  ghost predicate DistinctEpisodes(rows: seq<Row>) {
    forall i, j :: 0 <= i < j < |rows| ==> rows[i].episode != rows[j].episode
  }

  predicate AtMost(a: int, b: int) { a <= b }

  /** The episodes of one serial, in row order. */
  function EpisodesOf(rows: seq<Row>, serial: string): seq<int> {
    if rows == [] then []
    else EpisodesOf(rows[..|rows| - 1], serial) +
         (if rows[|rows| - 1].serial == serial then [rows[|rows| - 1].episode] else [])
  }

  /** The serials present, each once, in the order they are first met. */
  function Serials(rows: seq<Row>): seq<string> {
    if rows == [] then []
    else
      var front, last := Serials(rows[..|rows| - 1]), rows[|rows| - 1];
      if last.serial == "" || last.serial in front then front else front + [last.serial]
  }

  /** `f"{serial}_{suffix}"`. */
  function Name(serial: string, suffix: nat): string {
    serial + "_" + Decimal(suffix)
  }

  predicate HasRow(rows: seq<Row>, episode: int, serial: string) {
    exists i :: 0 <= i < |rows| && rows[i].episode == episode && rows[i].serial == serial
  }

  lemma {:induction false} EpisodesOfExact(rows: seq<Row>, serial: string)
    ensures forall e :: e in EpisodesOf(rows, serial) <==> HasRow(rows, e, serial)
  {
    if rows != [] {
      var front, last := rows[..|rows| - 1], rows[|rows| - 1];
      EpisodesOfExact(front, serial);
      forall e
        ensures HasRow(rows, e, serial) <==> HasRow(front, e, serial) || (last.serial == serial && last.episode == e)
      {
        if i :| 0 <= i < |front| && front[i].episode == e && front[i].serial == serial {
          assert rows[i] == front[i];
        }
        if i :| 0 <= i < |rows| && rows[i].episode == e && rows[i].serial == serial {
          assert i < |front| ==> front[i] == rows[i];
        }
      }
    }
  }

  lemma {:induction false} SerialsExact(rows: seq<Row>)
    ensures forall s :: s in Serials(rows) <==> s != "" && exists i :: 0 <= i < |rows| && rows[i].serial == s
    ensures forall i, j :: 0 <= i < j < |Serials(rows)| ==> Serials(rows)[i] != Serials(rows)[j]
  {
    if rows != [] {
      var front, last := rows[..|rows| - 1], rows[|rows| - 1];
      SerialsExact(front);
      assert forall i :: 0 <= i < |front| ==> rows[i] == front[i];
      assert rows == front + [last];
    }
  }

  lemma NamesDiffer(serial: string, a: nat, b: nat)
    requires Name(serial, a) == Name(serial, b)
    ensures a == b
  {
    var prefix := serial + "_";
    assert Name(serial, a)[|prefix|..] == Decimal(a) && Name(serial, b)[|prefix|..] == Decimal(b);
    DecimalIsInjective(a, b);
  }

  /** A name is the serial, an underscore and a number. */
  lemma NameExtends(serial: string, suffix: nat)
    ensures var name := Name(serial, suffix);
      && serial <= name && |name| > |serial| + 1 && name[|serial|] == '_'
      && IsDecimal(name[|serial| + 1..]) && ReadDecimal(name[|serial| + 1..]) == suffix
  {
    DecimalReadsBack(suffix);
    assert Name(serial, suffix)[|serial| + 1..] == Decimal(suffix);
  }

  // ------------------------------------------------------------------ the suffix search

  /** The names of a serial with suffixes from `low` up to `high`. */
  function Names(serial: string, low: nat, high: nat): set<string>
    requires low <= high
  {
    set k | low <= k < high :: Name(serial, k)
  }

  lemma {:induction false} NamesAreMany(serial: string, low: nat, high: nat)
    requires low <= high
    ensures |Names(serial, low, high)| == high - low
    decreases high
  {
    if low < high {
      NamesAreMany(serial, low, high - 1);
      var fewer := Names(serial, low, high - 1);
      if Name(serial, high - 1) in fewer {
        var k :| low <= k < high - 1 && Name(serial, k) == Name(serial, high - 1);
        NamesDiffer(serial, k, high - 1);
      }
      assert Names(serial, low, high) == fewer + {Name(serial, high - 1)};
    }
  }

  lemma SubsetIsSmaller<T>(a: set<T>, b: set<T>)
    requires a <= b
    ensures |a| <= |b|
  {
    assert b == a + (b - a);
  }

  /** The first free name from a suffix on. The search ends because every name it passes is
      in use and the names are all different. */
  method FreeName(serial: string, start: nat, used: set<string>) returns (name: string, ghost suffix: nat)
    ensures name == Name(serial, suffix) && suffix >= start && name !in used
    ensures forall k :: start <= k < suffix ==> Name(serial, k) in used
  {
    var at := start;
    name := Name(serial, at);
    while name in used
      invariant start <= at && name == Name(serial, at)
      invariant Names(serial, start, at) <= used
      decreases |used| + start - at
    {
      assert Names(serial, start, at + 1) == Names(serial, start, at) + {name};
      NamesAreMany(serial, start, at + 1);
      SubsetIsSmaller(Names(serial, start, at + 1), used);
      at := at + 1;
      name := Name(serial, at);
    }
    suffix := at;
    assert forall k :: start <= k < suffix ==> Name(serial, k) in Names(serial, start, at);
  }

  // ------------------------------------------------------------------ the plan

  predicate IsUnique(rows: seq<Row>, serial: string) {
    |EpisodesOf(rows, serial)| == 1
  }

  /** What a new serial is: the old one where that was unique, else the old one and a suffix. */
  ghost predicate Extends(rows: seq<Row>, serial: string, name: string) {
    if IsUnique(rows, serial) then name == serial else exists k: nat :: name == Name(serial, k)
  }

  ghost predicate Injective(plan: map<int, string>) {
    forall d, e :: d in plan && e in plan && d != e ==> plan[d] != plan[e]
  }

  /** Every episode with a serial has a new one, all are different, and each is or extends a
      serial of the episode. */
  ghost predicate GoodPlan(rows: seq<Row>, plan: map<int, string>) {
    && (forall e, s :: s != "" && HasRow(rows, e, s) ==> e in plan)
    && Injective(plan)
    && (forall e :: e in plan ==> exists s :: s != "" && HasRow(rows, e, s) && Extends(rows, s, plan[e]))
  }

  /** With one row an episode, its new serial is its old one or extends it. */
  lemma OldSerialIsExtended(rows: seq<Row>, plan: map<int, string>, e: int, s: string)
    requires DistinctEpisodes(rows) && GoodPlan(rows, plan) && s != "" && HasRow(rows, e, s)
    ensures e in plan && Extends(rows, s, plan[e])
    ensures plan[e] == s || (s <= plan[e] && |plan[e]| > |s| + 1 && plan[e][|s|] == '_'
                             && IsDecimal(plan[e][|s| + 1..]))
  {
    if !IsUnique(rows, s) {
      forall k: nat
        ensures var name := Name(s, k);
          s <= name && |name| > |s| + 1 && name[|s|] == '_' && IsDecimal(name[|s| + 1..])
      {
        NameExtends(s, k);
      }
      hide Name;
    }
    var t :| t != "" && HasRow(rows, e, t) && Extends(rows, t, plan[e]);
    OneRowEach(rows, e, s, t);
  }

  /** What holds once the first groups have their serials. */
  ghost predicate Planned(rows: seq<Row>, done: set<string>, plan: map<int, string>, used: set<string>) {
    && (forall e :: e in plan ==>
          plan[e] in used && exists s :: s in done && HasRow(rows, e, s) && Extends(rows, s, plan[e]))
    && Injective(plan)
    && (forall e, s :: s in done && HasRow(rows, e, s) ==> e in plan)
    && (forall s :: s in Serials(rows) && IsUnique(rows, s) ==> s in used)
    && (forall e :: e in plan && plan[e] in Serials(rows) && IsUnique(rows, plan[e]) ==> HasRow(rows, e, plan[e]))
  }

  lemma OneRowEach(rows: seq<Row>, episode: int, a: string, b: string)
    requires DistinctEpisodes(rows) && HasRow(rows, episode, a) && HasRow(rows, episode, b)
    ensures a == b
  {
  }

  lemma OnlyEpisode(rows: seq<Row>, serial: string, d: int, e: int)
    requires IsUnique(rows, serial) && HasRow(rows, d, serial) && HasRow(rows, e, serial)
    ensures d == e
  {
    EpisodesOfExact(rows, serial);
    assert d in EpisodesOf(rows, serial) && e in EpisodesOf(rows, serial);
  }

  /** A group with one episode keeps its serial. */
  lemma UniqueKeepsPlan(rows: seq<Row>, done: set<string>, plan: map<int, string>, used: set<string>,
                        serial: string, e: int)
    requires Planned(rows, done, plan, used)
    requires serial in Serials(rows) && serial !in done && IsUnique(rows, serial) && HasRow(rows, e, serial)
    ensures Planned(rows, done + {serial}, plan[e := serial], used)
  {
    var next := plan[e := serial];
    assert Extends(rows, serial, next[e]);
    hide Extends, HasRow;
    forall d | d in plan && d != e
      ensures plan[d] != serial
    {
      if plan[d] == serial {
        OnlyEpisode(rows, serial, d, e);
      }
    }
    forall d, s | s in done + {serial} && HasRow(rows, d, s)
      ensures d in next
    {
      if s == serial {
        OnlyEpisode(rows, serial, d, e);
      }
    }
    forall d | d in next
      ensures exists s :: s in done + {serial} && HasRow(rows, d, s) && Extends(rows, s, next[d])
    {
      if d != e {
        var s :| s in done && HasRow(rows, d, s) && Extends(rows, s, plan[d]);
        assert s in done + {serial} && next[d] == plan[d];
      }
    }
  }

  /** What holds inside a group with several episodes, the first of which have theirs. */
  ghost predicate PlannedTo(rows: seq<Row>, done: set<string>, plan: map<int, string>, used: set<string>,
                            serial: string, some: set<int>) {
    && (forall e :: e in plan ==>
          plan[e] in used && ((exists s :: s in done && HasRow(rows, e, s) && Extends(rows, s, plan[e])) || e in some))
    && Injective(plan)
    && (forall e, s :: s in done && HasRow(rows, e, s) ==> e in plan)
    && (forall e :: e in some ==> e in plan && HasRow(rows, e, serial) && exists k: nat :: plan[e] == Name(serial, k))
    && (forall s :: s in Serials(rows) && IsUnique(rows, s) ==> s in used)
    && (forall e :: e in plan && plan[e] in Serials(rows) && IsUnique(rows, plan[e]) ==> HasRow(rows, e, plan[e]))
  }

  lemma NoneOfTheGroup(rows: seq<Row>, done: set<string>, plan: map<int, string>, used: set<string>, serial: string)
    requires Planned(rows, done, plan, used)
    ensures PlannedTo(rows, done, plan, used, serial, {})
  {
    hide Extends, HasRow, Serials, IsUnique, Name;
  }

  lemma SuffixKeepsPlan(rows: seq<Row>, done: set<string>, plan: map<int, string>, used: set<string>,
                        serial: string, some: set<int>, e: int, k: nat)
    requires PlannedTo(rows, done, plan, used, serial, some)
    requires serial !in done && HasRow(rows, e, serial) && Name(serial, k) !in used
    ensures PlannedTo(rows, done, plan[e := Name(serial, k)], used + {Name(serial, k)}, serial, some + {e})
  {
    var next := plan[e := Name(serial, k)];
    forall d | d in next && d !in some + {e}
      ensures exists s :: s in done && HasRow(rows, d, s) && Extends(rows, s, next[d])
    {
      var s :| s in done && HasRow(rows, d, s) && Extends(rows, s, plan[d]);
      assert next[d] == plan[d];
    }
  }

  /** A name that some episode has, or had alone before. */
  predicate Taken(rows: seq<Row>, plan: map<int, string>, name: string) {
    (name in Serials(rows) && IsUnique(rows, name)) || exists e :: e in plan && plan[e] == name
  }

  /** The episode's new serial has a suffix of at least its place among the episodes of the old
      one, counted from 1, and the names with smaller ones from there on are taken. */
  ghost predicate TakesFirst(rows: seq<Row>, plan: map<int, string>, serial: string, e: int) {
    exists at: nat, k: nat ::
      && at < |Sort(EpisodesOf(rows, serial), AtMost)| && Sort(EpisodesOf(rows, serial), AtMost)[at] == e
      && k > at && e in plan && plan[e] == Name(serial, k)
      && forall j: nat :: at < j < k ==> Taken(rows, plan, Name(serial, j))
  }

  /** What holds of the suffixes once the first groups have their serials. */
  ghost predicate Suffixed(rows: seq<Row>, done: set<string>, plan: map<int, string>, used: set<string>) {
    && (forall name :: name in used ==> Taken(rows, plan, name))
    && (forall e, s :: s in done && !IsUnique(rows, s) && HasRow(rows, e, s) ==> TakesFirst(rows, plan, s, e))
  }

  /** A plan that only grows keeps its suffixes. */
  lemma TakesFirstStays(rows: seq<Row>, plan: map<int, string>, more: map<int, string>, serial: string, e: int)
    requires TakesFirst(rows, plan, serial, e)
    requires forall d :: d in plan ==> d in more && more[d] == plan[d]
    ensures TakesFirst(rows, more, serial, e)
  {
    hide Serials, Sort, EpisodesOf, Name, IsUnique;
    var at: nat, k: nat :|
      && at < |Sort(EpisodesOf(rows, serial), AtMost)| && Sort(EpisodesOf(rows, serial), AtMost)[at] == e
      && k > at && e in plan && plan[e] == Name(serial, k)
      && forall j: nat :: at < j < k ==> Taken(rows, plan, Name(serial, j));
    forall j: nat | at < j < k
      ensures Taken(rows, more, Name(serial, j))
    {
      assert Taken(rows, plan, Name(serial, j));
    }
  }

  lemma SuffixedStays(rows: seq<Row>, done: set<string>, plan: map<int, string>, used: set<string>,
                      more: map<int, string>, names: set<string>)
    requires Suffixed(rows, done, plan, used)
    requires forall d :: d in plan ==> d in more && more[d] == plan[d]
    requires forall name :: name in names ==> name in used || exists d :: d in more && more[d] == name
    ensures Suffixed(rows, done, more, names)
  {
    hide TakesFirst, IsUnique, HasRow, Serials;
    forall e, s | s in done && !IsUnique(rows, s) && HasRow(rows, e, s)
      ensures TakesFirst(rows, more, s, e)
    {
      TakesFirstStays(rows, plan, more, s, e);
    }
  }

  /** With one row an episode, a planned one has its serial from its own group. */
  lemma PlannedInItsGroup(rows: seq<Row>, done: set<string>, plan: map<int, string>, used: set<string>,
                          serial: string, e: int)
    requires DistinctEpisodes(rows) && Planned(rows, done, plan, used) && e in plan && HasRow(rows, e, serial)
    ensures serial in done
  {
    var s :| s in done && HasRow(rows, e, s) && Extends(rows, s, plan[e]);
    OneRowEach(rows, e, s, serial);
  }

  lemma NotPlannedYet(rows: seq<Row>, done: set<string>, plan: map<int, string>, used: set<string>, serial: string,
                      e: int)
    requires DistinctEpisodes(rows) && Planned(rows, done, plan, used) && serial !in done && HasRow(rows, e, serial)
    ensures e !in plan
  {
    if e in plan {
      PlannedInItsGroup(rows, done, plan, used, serial, e);
    }
  }

  lemma SuffixedInItsGroup(rows: seq<Row>, done: set<string>, plan: map<int, string>, used: set<string>,
                           serial: string, some: set<int>, e: int)
    requires DistinctEpisodes(rows) && PlannedTo(rows, done, plan, used, serial, some)
    requires e in plan && HasRow(rows, e, serial)
    ensures serial in done || e in some
  {
    if s :| s in done && HasRow(rows, e, s) && Extends(rows, s, plan[e]) {
      OneRowEach(rows, e, s, serial);
    }
  }

  /** The episodes of one serial, in order. */
  lemma GroupInOrder(rows: seq<Row>, serial: string)
    ensures var episodes := Sort(EpisodesOf(rows, serial), AtMost);
      && (IsUnique(rows, serial) <==> |episodes| == 1)
      && (forall e :: e in episodes <==> HasRow(rows, e, serial))
  {
    EpisodesOfExact(rows, serial);
    assert TotalOrder(AtMost);
    SortIsOrdered(EpisodesOf(rows, serial), AtMost);
    SortKeepsLength(EpisodesOf(rows, serial), AtMost);
  }

  /** A unique serial is kept, and no suffix that was given before changes. */
  lemma UniqueKeepsBoth(rows: seq<Row>, done: set<string>, plan: map<int, string>, used: set<string>,
                        serial: string, e: int)
    requires Planned(rows, done, plan, used)
    requires serial in Serials(rows) && serial !in done && IsUnique(rows, serial) && HasRow(rows, e, serial)
    requires DistinctEpisodes(rows) ==> Suffixed(rows, done, plan, used)
    ensures Planned(rows, done + {serial}, plan[e := serial], used)
    ensures DistinctEpisodes(rows) ==> Suffixed(rows, done + {serial}, plan[e := serial], used)
  {
    hide Planned, Suffixed, IsUnique, HasRow, DistinctEpisodes;
    UniqueKeepsPlan(rows, done, plan, used, serial, e);
    if DistinctEpisodes(rows) {
      NotPlannedYet(rows, done, plan, used, serial, e);
      SuffixedStays(rows, done, plan, used, plan[e := serial], used);
      OneMoreUnique(rows, done, plan[e := serial], used, serial);
    }
  }

  /** `_plan_new_serials`. */
  method PlanNewSerials(rows: seq<Row>) returns (plan: map<int, string>)
    ensures GoodPlan(rows, plan)
    ensures DistinctEpisodes(rows) ==> forall e, s :: s != "" && !IsUnique(rows, s) && HasRow(rows, e, s) ==>
      TakesFirst(rows, plan, s, e)
  {
    var serials := Serials(rows);
    SerialsExact(rows);
    var used := set s | s in serials && IsUnique(rows, s);
    plan := map[];
    ghost var done: set<string> := {};
    for g := 0 to |serials|
      invariant done == (set i | 0 <= i < g :: serials[i])
      invariant Planned(rows, done, plan, used)
      invariant DistinctEpisodes(rows) ==> Suffixed(rows, done, plan, used)
    {
      var serial := serials[g];
      assert serial in serials && serial !in done;
      var episodes := Sort(EpisodesOf(rows, serial), AtMost);
      GroupInOrder(rows, serial);
      hide Planned, Suffixed, IsUnique, HasRow, DistinctEpisodes, EpisodesOf, Serials;
      if |episodes| == 1 {
        assert episodes[0] in episodes;
        UniqueKeepsBoth(rows, done, plan, used, serial, episodes[0]);
        plan := plan[episodes[0] := serial];
      } else {
        plan, used := PlanGroup(rows, done, plan, used, serial, episodes);
      }
      done := done + {serial};
    }
    AllPlanned(rows, done, plan, used);
  }

  lemma OneMoreUnique(rows: seq<Row>, done: set<string>, plan: map<int, string>, used: set<string>, serial: string)
    requires Suffixed(rows, done, plan, used) && IsUnique(rows, serial)
    ensures Suffixed(rows, done + {serial}, plan, used)
  {
    hide TakesFirst, IsUnique, HasRow, Taken;
  }

  lemma {:induction false} SortKeepsLength<T>(s: seq<T>, le: (T, T) -> bool)
    ensures |Sort(s, le)| == |s|
  {
    if s != [] {
      SortKeepsLength(s[..|s| - 1], le);
      InsertIsLonger(Sort(s[..|s| - 1], le), s[|s| - 1], le);
    }
  }

  lemma {:induction false} InsertIsLonger<T>(s: seq<T>, x: T, le: (T, T) -> bool)
    ensures |Insert(s, x, le)| == |s| + 1
  {
    if s != [] {
      InsertIsLonger(s[1..], x, le);
    }
  }

  /** The episodes of a duplicated serial, in order, each with the first suffix that is free. */
  method PlanGroup(rows: seq<Row>, ghost done: set<string>, plan0: map<int, string>, used0: set<string>,
                   serial: string, episodes: seq<int>)
    returns (plan: map<int, string>, used: set<string>)
    requires Planned(rows, done, plan0, used0)
    requires serial !in done && !IsUnique(rows, serial)
    requires forall e :: e in episodes <==> HasRow(rows, e, serial)
    requires episodes == Sort(EpisodesOf(rows, serial), AtMost)
    requires DistinctEpisodes(rows) ==> Suffixed(rows, done, plan0, used0)
    ensures Planned(rows, done + {serial}, plan, used)
    ensures DistinctEpisodes(rows) ==> Suffixed(rows, done + {serial}, plan, used)
  {
    plan, used := plan0, used0;
    ghost var some: set<int> := {};
    NoneOfTheGroup(rows, done, plan, used, serial);
    hide PlannedTo, Planned, Suffixed, TakesFirst, DistinctEpisodes, IsUnique, EpisodesOf, Sort, Name;
    for pos := 0 to |episodes|
      invariant some == (set i | 0 <= i < pos :: episodes[i])
      invariant PlannedTo(rows, done, plan, used, serial, some)
      invariant DistinctEpisodes(rows) ==> SuffixedTo(rows, done, plan, used, serial, episodes, pos)
    {
      var e := episodes[pos];
      assert e in episodes;
      var name, suffix := FreeName(serial, pos + 1, used);
      SuffixKeepsPlan(rows, done, plan, used, serial, some, e, suffix);
      if DistinctEpisodes(rows) {
        OneMoreSuffix(rows, done, plan, used, serial, episodes, pos, suffix);
      }
      plan, used := plan[e := name], used + {name};
      some := some + {e};
    }
    GroupIsPlanned(rows, done, plan, used, serial, episodes);
    if DistinctEpisodes(rows) {
      GroupTakesFirst(rows, done, plan, used, serial, episodes);
    }
  }

  /** The same, with the first episodes of one more group. */
  ghost predicate SuffixedTo(rows: seq<Row>, done: set<string>, plan: map<int, string>, used: set<string>,
                             serial: string, episodes: seq<int>, n: nat)
    requires n <= |episodes|
  {
    Suffixed(rows, done, plan, used) && forall i :: 0 <= i < n ==> TakesFirst(rows, plan, serial, episodes[i])
  }

  lemma NotInTheGroupYet(rows: seq<Row>, done: set<string>, plan: map<int, string>, used: set<string>, serial: string,
                         episodes: seq<int>, pos: nat)
    requires DistinctEpisodes(rows) && episodes == Sort(EpisodesOf(rows, serial), AtMost) && pos < |episodes|
    requires serial !in done && PlannedTo(rows, done, plan, used, serial, set i | 0 <= i < pos :: episodes[i])
    ensures episodes[pos] !in plan
  {
    var e := episodes[pos];
    EpisodesInOrder(rows, serial);
    hide PlannedTo, EpisodesOf, Sort, Serials, Name;
    assert e in episodes;
    var some := set i | 0 <= i < pos :: episodes[i];
    assert e !in some;
    if e in plan {
      SuffixedInItsGroup(rows, done, plan, used, serial, some, e);
    }
  }

  lemma OneMoreSuffix(rows: seq<Row>, done: set<string>, plan: map<int, string>, used: set<string>, serial: string,
                      episodes: seq<int>, pos: nat, suffix: nat)
    requires DistinctEpisodes(rows) && episodes == Sort(EpisodesOf(rows, serial), AtMost) && pos < |episodes|
    requires serial !in done && SuffixedTo(rows, done, plan, used, serial, episodes, pos)
    requires PlannedTo(rows, done, plan, used, serial, set i | 0 <= i < pos :: episodes[i])
    requires suffix > pos && forall j :: pos < j < suffix ==> Name(serial, j) in used
    ensures SuffixedTo(rows, done, plan[episodes[pos] := Name(serial, suffix)], used + {Name(serial, suffix)},
                       serial, episodes, pos + 1)
  {
    var e, name := episodes[pos], Name(serial, suffix);
    var more := plan[e := name];
    NotInTheGroupYet(rows, done, plan, used, serial, episodes, pos);
    hide PlannedTo, Serials, EpisodesOf, Sort, Name, HasRow, DistinctEpisodes, IsUnique;
    assert e in more && more[e] == name;
    SuffixedStays(rows, done, plan, used, more, used + {name});
    forall i | 0 <= i < pos
      ensures TakesFirst(rows, more, serial, episodes[i])
    {
      TakesFirstStays(rows, plan, more, serial, episodes[i]);
    }
    forall j: nat | pos < j < suffix
      ensures Taken(rows, more, Name(serial, j))
    {
      assert Name(serial, j) in used + {name};
    }
    assert TakesFirst(rows, more, serial, e);
  }

  lemma GroupTakesFirst(rows: seq<Row>, done: set<string>, plan: map<int, string>, used: set<string>, serial: string,
                        episodes: seq<int>)
    requires Suffixed(rows, done, plan, used) && forall e :: e in episodes <==> HasRow(rows, e, serial)
    requires forall i :: 0 <= i < |episodes| ==> TakesFirst(rows, plan, serial, episodes[i])
    ensures Suffixed(rows, done + {serial}, plan, used)
  {
    hide TakesFirst, IsUnique, HasRow, Taken;
    forall e | HasRow(rows, e, serial)
      ensures TakesFirst(rows, plan, serial, e)
    {
      assert e in episodes;
    }
  }

  lemma GroupIsPlanned(rows: seq<Row>, done: set<string>, plan: map<int, string>, used: set<string>,
                       serial: string, episodes: seq<int>)
    requires PlannedTo(rows, done, plan, used, serial, set i | 0 <= i < |episodes| :: episodes[i])
    requires !IsUnique(rows, serial) && forall e :: e in episodes <==> HasRow(rows, e, serial)
    ensures Planned(rows, done + {serial}, plan, used)
  {
    var some := set i | 0 <= i < |episodes| :: episodes[i];
    forall e, s | s in done + {serial} && HasRow(rows, e, s)
      ensures e in plan
    {
      if s == serial {
        assert e in episodes;
        assert e in some;
      }
    }
    forall e | e in plan
      ensures exists s :: s in done + {serial} && HasRow(rows, e, s) && Extends(rows, s, plan[e])
    {
      if e in some {
        assert serial in done + {serial} && Extends(rows, serial, plan[e]);
      } else {
        var s :| s in done && HasRow(rows, e, s) && Extends(rows, s, plan[e]);
        assert s in done + {serial};
      }
    }
  }

  lemma AllPlanned(rows: seq<Row>, done: set<string>, plan: map<int, string>, used: set<string>)
    requires Planned(rows, done, plan, used) && done == set s | s in Serials(rows)
    ensures GoodPlan(rows, plan)
  {
    SerialsExact(rows);
    forall e, s | s != "" && HasRow(rows, e, s)
      ensures s in done
    {
      assert s in Serials(rows);
    }
    forall e | e in plan
      ensures exists s :: s != "" && HasRow(rows, e, s) && Extends(rows, s, plan[e])
    {
      var s :| s in done && HasRow(rows, e, s) && Extends(rows, s, plan[e]);
      assert s in Serials(rows);
    }
  }

  // ------------------------------------------------------------------ running it again

  /** The rows as they are rewritten. */
  function Rewritten(rows: seq<Row>, plan: map<int, string>): seq<Row> {
    seq(|rows|, i requires 0 <= i < |rows| =>
      if rows[i].serial != "" && rows[i].episode in plan then rows[i].(serial := plan[rows[i].episode]) else rows[i])
  }

  /** After a rewrite every serial is unique, so any further plan changes nothing. */
  lemma SecondRunIsIdentity(rows: seq<Row>, plan: map<int, string>, again: map<int, string>)
    requires DistinctEpisodes(rows) && GoodPlan(rows, plan) && GoodPlan(Rewritten(rows, plan), again)
    ensures Rewritten(Rewritten(rows, plan), again) == Rewritten(rows, plan)
  {
    var once := Rewritten(rows, plan);
    forall i | 0 <= i < |once| && once[i].serial != ""
      ensures once[i].episode in again && again[once[i].episode] == once[i].serial
    {
      var s := once[i].serial;
      assert HasRow(once, once[i].episode, s);
      RewrittenIsUnique(rows, plan, i);
      OldSerialIsExtended(once, again, once[i].episode, s);
    }
  }

  lemma RewrittenIsUnique(rows: seq<Row>, plan: map<int, string>, i: nat)
    requires DistinctEpisodes(rows) && GoodPlan(rows, plan)
    requires i < |rows| && Rewritten(rows, plan)[i].serial != ""
    ensures IsUnique(Rewritten(rows, plan), Rewritten(rows, plan)[i].serial)
  {
    var once := Rewritten(rows, plan);
    forall j | 0 <= j < |once| && once[j].serial == once[i].serial
      ensures j == i
    {
      assert HasRow(rows, rows[i].episode, rows[i].serial) && HasRow(rows, rows[j].episode, rows[j].serial);
      assert rows[i].serial != "" && rows[j].serial != "";
    }
    OneEpisode(once, once[i].serial, i);
  }

  lemma {:induction false} OneEpisode(rows: seq<Row>, serial: string, i: nat)
    requires i < |rows| && rows[i].serial == serial
    requires forall j :: 0 <= j < |rows| && rows[j].serial == serial ==> j == i
    ensures |EpisodesOf(rows, serial)| == 1
    decreases |rows|
  {
    var front := rows[..|rows| - 1];
    if i == |rows| - 1 {
      NoEpisode(front, serial);
    } else {
      OneEpisode(front, serial, i);
    }
  }

  lemma {:induction false} NoEpisode(rows: seq<Row>, serial: string)
    requires forall j :: 0 <= j < |rows| ==> rows[j].serial != serial
    ensures EpisodesOf(rows, serial) == []
    decreases |rows|
  {
    if rows != [] {
      NoEpisode(rows[..|rows| - 1], serial);
    }
  }

  // ------------------------------------------------------------------ annotations

  /** An old annotation, keyed by the old serial; an absent grade or reason is the empty text. */
  datatype Annotation = Annotation(serial: string, grade: string, reason: string)

  datatype NewAnnotation = NewAnnotation(grade: string, reason: string)

  /** The annotation kept for a serial: the last one read. */
  function Old(annotations: seq<Annotation>, serial: string): Option<Annotation> {
    if annotations == [] then None
    else if annotations[|annotations| - 1].serial == serial then Some(annotations[|annotations| - 1])
    else Old(annotations[..|annotations| - 1], serial)
  }

  predicate Deserves(annotations: seq<Annotation>, r: Row) {
    && r.serial != "" && r.grade != ""
    && Old(annotations, r.serial).Some?
    && Old(annotations, r.serial).value.grade == r.grade && Old(annotations, r.serial).value.reason != ""
  }

  /** The row an old reason goes to: the lowest episode of its serial with its grade. */
  predicate Wins(rows: seq<Row>, annotations: seq<Annotation>, r: Row) {
    && Deserves(annotations, r)
    && forall i :: 0 <= i < |rows| && rows[i].serial == r.serial && rows[i].grade == r.grade ==>
      r.episode <= rows[i].episode
  }

  /** A row wins a reason exactly so: of the old annotations with its serial the last one has its
      grade and a reason, and no row with that serial and grade has a lower episode. */
  lemma WinsMeans(rows: seq<Row>, annotations: seq<Annotation>, r: Row)
    ensures Wins(rows, annotations, r) <==>
      && r.serial != "" && r.grade != ""
      && (exists k :: 0 <= k < |annotations| && IsLastOf(annotations, r.serial, k)
                      && annotations[k].grade == r.grade && annotations[k].reason != "")
      && (forall i :: 0 <= i < |rows| && rows[i].serial == r.serial && rows[i].grade == r.grade ==>
            r.episode <= rows[i].episode)
  {
    OldIsLast(annotations, r.serial);
    hide Old;
  }

  /** No later annotation has the serial. */
  predicate IsLastOf(annotations: seq<Annotation>, serial: string, k: nat)
    requires k < |annotations|
  {
    annotations[k].serial == serial && forall j :: k < j < |annotations| ==> annotations[j].serial != serial
  }

  lemma {:induction false} OldIsLast(annotations: seq<Annotation>, serial: string)
    ensures forall k :: 0 <= k < |annotations| && IsLastOf(annotations, serial, k) ==>
      Old(annotations, serial) == Some(annotations[k])
    ensures Old(annotations, serial).Some? ==>
      exists k :: 0 <= k < |annotations| && IsLastOf(annotations, serial, k)
  {
    if annotations != [] {
      var n := |annotations| - 1;
      var front := annotations[..n];
      OldIsLast(front, serial);
      if annotations[n].serial == serial {
        assert IsLastOf(annotations, serial, n);
      } else {
        forall k | 0 <= k < n
          ensures IsLastOf(annotations, serial, k) <==> IsLastOf(front, serial, k)
        {
          assert forall j :: 0 <= j < n ==> front[j] == annotations[j];
        }
      }
    }
  }

  /** An old reason reaches one episode at most. */
  lemma OneWinner(rows: seq<Row>, annotations: seq<Annotation>, a: Row, b: Row)
    requires DistinctEpisodes(rows) && a in rows && b in rows && a.serial == b.serial
    requires Wins(rows, annotations, a) && Wins(rows, annotations, b)
    ensures a == b
  {
    var i :| 0 <= i < |rows| && rows[i] == a;
    var j :| 0 <= j < |rows| && rows[j] == b;
  }

  function Annotated(rows: seq<Row>, annotations: seq<Annotation>, r: Row): NewAnnotation {
    NewAnnotation(r.grade, if Wins(rows, annotations, r) then Old(annotations, r.serial).value.reason else "")
  }

  function RowAt(rows: seq<Row>, episode: int): (r: Row)
    requires exists i :: 0 <= i < |rows| && rows[i].episode == episode
    ensures r in rows && r.episode == episode
  {
    if rows[|rows| - 1].episode == episode then rows[|rows| - 1]
    else
      assert forall i :: 0 <= i < |rows| - 1 ==> rows[..|rows| - 1][i] == rows[i];
      RowAt(rows[..|rows| - 1], episode)
  }

  /** What holds of the new annotations once some rows have been seen. */
  ghost predicate Migrated(rows: seq<Row>, plan: map<int, string>, annotations: seq<Annotation>, seen: set<Row>,
                           out: map<string, NewAnnotation>)
    requires forall r :: r in rows && r.serial != "" ==> r.episode in plan
  {
    && (forall r :: r in rows && r in seen && r.serial != "" && r.grade != "" ==>
          plan[r.episode] in out && out[plan[r.episode]] == Annotated(rows, annotations, r))
    && (forall name :: name in out ==>
          exists r :: r in rows && r in seen && r.serial != "" && r.grade != "" && plan[r.episode] == name)
  }

  ghost predicate HasWinner(rows: seq<Row>, annotations: seq<Annotation>, serial: string) {
    exists r :: r in rows && r.serial == serial && Wins(rows, annotations, r)
  }

  /** One row more. */
  lemma MigrateRow(rows: seq<Row>, plan: map<int, string>, annotations: seq<Annotation>, seen: set<Row>,
                   out: map<string, NewAnnotation>, r: Row)
    requires DistinctEpisodes(rows) && Injective(plan)
    requires forall q :: q in rows && q.serial != "" ==> q.episode in plan
    requires Migrated(rows, plan, annotations, seen, out) && r in rows && r.serial != ""
    ensures r.grade != "" ==>
      Migrated(rows, plan, annotations, seen + {r}, out[plan[r.episode] := Annotated(rows, annotations, r)])
    ensures r.grade == "" ==> Migrated(rows, plan, annotations, seen + {r}, out)
  {
    if r.grade != "" {
      var next := out[plan[r.episode] := Annotated(rows, annotations, r)];
      forall q | q in rows && q in seen + {r} && q.serial != "" && q.grade != ""
        ensures plan[q.episode] in next && next[plan[q.episode]] == Annotated(rows, annotations, q)
      {
        if q.episode == r.episode {
          var i :| 0 <= i < |rows| && rows[i] == q;
          var j :| 0 <= j < |rows| && rows[j] == r;
          assert i == j;
        }
      }
    }
  }

  /** The rows of one serial, by episode. */
  method MigrateGroup(rows: seq<Row>, plan: map<int, string>, annotations: seq<Annotation>, serial: string,
                      ghost seen0: set<Row>, out0: map<string, NewAnnotation>)
    returns (out: map<string, NewAnnotation>, attached: bool, ghost seen: set<Row>)
    requires DistinctEpisodes(rows) && Injective(plan) && serial != ""
    requires forall q :: q in rows && q.serial != "" ==> q.episode in plan
    requires Migrated(rows, plan, annotations, seen0, out0)
    ensures Migrated(rows, plan, annotations, seen, out)
    ensures forall r :: r in rows ==> (r in seen <==> r in seen0 || r.serial == serial)
    ensures attached <==> HasWinner(rows, annotations, serial)
  {
    var episodes := Sort(EpisodesOf(rows, serial), AtMost);
    EpisodesInOrder(rows, serial);
    out, attached, seen := out0, false, seen0;
    for k := 0 to |episodes|
      invariant Migrated(rows, plan, annotations, seen, out)
      invariant forall r :: r in rows ==>
        (r in seen <==> r in seen0 || (r.serial == serial && InFirst(episodes, k, r.episode)))
      invariant attached <==> WonBy(rows, annotations, serial, episodes, k)
    {
      var e := episodes[k];
      assert e in episodes && HasRow(rows, e, serial);
      var r := RowAt(rows, e);
      HasRowAt(rows, e, serial);
      WinsByOrder(rows, annotations, serial, episodes, k, r);
      MigrateRow(rows, plan, annotations, seen, out, r);
      FirstStep(episodes, k);
      hide Migrated, Wins, Injective;
      if r.grade != "" {
        var reason := "";
        if Deserves(annotations, r) && !attached {
          reason := Old(annotations, serial).value.reason;
          attached := true;
        }
        out := out[plan[e] := NewAnnotation(r.grade, reason)];
      }
      seen := seen + {r};
    }
    GroupIsThrough(rows, annotations, serial, episodes);
    hide Migrated, WonBy, HasWinner, Injective, InFirst, Wins;
  }

  lemma GroupIsThrough(rows: seq<Row>, annotations: seq<Annotation>, serial: string, episodes: seq<int>)
    requires forall e :: e in episodes <==> HasRow(rows, e, serial)
    ensures forall r :: r in rows && r.serial == serial ==> InFirst(episodes, |episodes|, r.episode)
    ensures WonBy(rows, annotations, serial, episodes, |episodes|) <==> HasWinner(rows, annotations, serial)
  {
    hide Wins;
    forall r | r in rows && r.serial == serial
      ensures InFirst(episodes, |episodes|, r.episode)
    {
      var i :| 0 <= i < |rows| && rows[i] == r;
      assert HasRow(rows, r.episode, serial);
      var k :| 0 <= k < |episodes| && episodes[k] == r.episode;
    }
  }

  /** The winner of this serial is among the first `k` episodes. */
  ghost predicate WonBy(rows: seq<Row>, annotations: seq<Annotation>, serial: string, episodes: seq<int>, k: nat)
    requires k <= |episodes|
  {
    exists r :: r in rows && r.serial == serial && Wins(rows, annotations, r) && InFirst(episodes, k, r.episode)
  }

  function Next(e: int): int { e + 1 }

  function Itself(e: int): int { e }

  /** The sorted episodes of a serial are exactly its episodes, in strict order. */
  lemma EpisodesInOrder(rows: seq<Row>, serial: string)
    requires DistinctEpisodes(rows)
    ensures var episodes := Sort(EpisodesOf(rows, serial), AtMost);
      && (forall e :: e in episodes <==> HasRow(rows, e, serial))
      && (forall i, j :: 0 <= i < j < |episodes| ==> episodes[i] < episodes[j])
  {
    var plain := EpisodesOf(rows, serial);
    var episodes := Sort(plain, AtMost);
    EpisodesOfExact(rows, serial);
    assert TotalOrder(AtMost);
    SortIsOrdered(plain, AtMost);
    forall i, j | 0 <= i < j < |episodes|
      ensures episodes[i] < episodes[j]
    {
      assert AtMost(episodes[i], episodes[j]);
      if episodes[i] == episodes[j] {
        CoverTwice(episodes, Itself, Next, i, j, episodes[i]);
        SortKeepsCover(plain, AtMost, Itself, Next, episodes[i]);
        EpisodesOfOnce(rows, serial, episodes[i]);
        assert false;
      }
    }
  }

  lemma {:induction false} EpisodesOfOnce(rows: seq<Row>, serial: string, e: int)
    requires DistinctEpisodes(rows)
    ensures Cover(EpisodesOf(rows, serial), Itself, Next, e) <= 1
    ensures (forall i :: 0 <= i < |rows| ==> rows[i].episode != e) ==>
      Cover(EpisodesOf(rows, serial), Itself, Next, e) == 0
  {
    if rows != [] {
      var front, last := rows[..|rows| - 1], rows[|rows| - 1];
      EpisodesOfOnce(front, serial, e);
      assert forall i :: 0 <= i < |front| ==> front[i] == rows[i];
      if last.serial == serial {
        CoverAppend(EpisodesOf(front, serial), [last.episode], Itself, Next, e);
        assert Cover([last.episode], Itself, Next, e) == One(last.episode, Itself, Next, e);
      } else {
        assert EpisodesOf(rows, serial) == EpisodesOf(front, serial);
      }
    }
  }

  lemma HasRowAt(rows: seq<Row>, e: int, serial: string)
    requires DistinctEpisodes(rows) && HasRow(rows, e, serial)
    ensures RowAt(rows, e).serial == serial
    ensures forall r :: r in rows && r.episode == e ==> r == RowAt(rows, e)
  {
    var i :| 0 <= i < |rows| && rows[i].episode == e && rows[i].serial == serial;
    var j :| 0 <= j < |rows| && rows[j] == RowAt(rows, e);
    forall r | r in rows && r.episode == e
      ensures r == RowAt(rows, e)
    {
      var k :| 0 <= k < |rows| && rows[k] == r;
    }
  }

  /** Among the rows of a serial with a grade, one has the lowest episode. */
  lemma {:induction false} Lowest(rows: seq<Row>, serial: string, grade: string, i: nat) returns (w: Row)
    requires i < |rows| && rows[i].serial == serial && rows[i].grade == grade
    ensures w in rows && w.serial == serial && w.grade == grade
    ensures forall j :: 0 <= j < |rows| && rows[j].serial == serial && rows[j].grade == grade ==>
      w.episode <= rows[j].episode
    decreases |rows|
  {
    var front, last := rows[..|rows| - 1], rows[|rows| - 1];
    if j :| 0 <= j < |front| && front[j].serial == serial && front[j].grade == grade {
      w := Lowest(front, serial, grade, j);
      assert forall t :: 0 <= t < |front| ==> rows[t] == front[t];
      if last.serial == serial && last.grade == grade && last.episode < w.episode {
        w := last;
      }
    } else {
      w := last;
      assert forall t :: 0 <= t < |front| ==> rows[t] == front[t];
    }
  }

  /** Going by episode, a row wins exactly when it deserves the reason and no row before it won. */
  lemma WinsByOrder(rows: seq<Row>, annotations: seq<Annotation>, serial: string, episodes: seq<int>, k: nat, r: Row)
    requires DistinctEpisodes(rows) && k < |episodes|
    requires forall e :: e in episodes <==> HasRow(rows, e, serial)
    requires forall i, j :: 0 <= i < j < |episodes| ==> episodes[i] < episodes[j]
    requires r in rows && r.serial == serial && r.episode == episodes[k]
    ensures Wins(rows, annotations, r) <==> Deserves(annotations, r) && !WonBy(rows, annotations, serial, episodes, k)
  {
    if Wins(rows, annotations, r) {
      forall w | w in rows && w.serial == serial && Wins(rows, annotations, w)
        ensures !InFirst(episodes, k, w.episode)
      {
        OneWinner(rows, annotations, r, w);
      }
    }
    if Deserves(annotations, r) && !WonBy(rows, annotations, serial, episodes, k) {
      var i :| 0 <= i < |rows| && rows[i] == r;
      var w := Lowest(rows, serial, r.grade, i);
      assert Wins(rows, annotations, w);
      var t :| 0 <= t < |rows| && rows[t] == w;
      assert HasRow(rows, w.episode, serial);
      assert w.episode in episodes;
      var p :| 0 <= p < |episodes| && episodes[p] == w.episode;
      assert forall i :: 0 <= i < k ==> InFirst(episodes, k, episodes[i]);
      assert w.episode >= r.episode;
    }
  }

  predicate InFirst(episodes: seq<int>, k: nat, e: int)
    requires k <= |episodes|
  {
    exists i :: 0 <= i < k && episodes[i] == e
  }

  lemma FirstStep(episodes: seq<int>, k: nat)
    requires k < |episodes|
    ensures forall e :: InFirst(episodes, k + 1, e) <==> InFirst(episodes, k, e) || e == episodes[k]
  {
  }

  // ------------------------------------------------------------------ the whole migration

  /** The annotations with a reason whose serial is not in the set. */
  function Orphans(annotations: seq<Annotation>, attached: set<string>): nat {
    if annotations == [] then 0
    else Orphans(annotations[1..], attached) +
         (if annotations[0].reason != "" && annotations[0].serial !in attached then 1 else 0)
  }

  function Reasons(annotations: seq<Annotation>): nat {
    if annotations == [] then 0
    else Reasons(annotations[1..]) + (if annotations[0].reason != "" then 1 else 0)
  }

  ghost predicate DistinctSerials(annotations: seq<Annotation>) {
    forall i, j :: 0 <= i < j < |annotations| ==> annotations[i].serial != annotations[j].serial
  }

  predicate HasReason(annotations: seq<Annotation>, serial: string) {
    exists i :: 0 <= i < |annotations| && annotations[i].serial == serial && annotations[i].reason != ""
  }

  /** Each reason is recovered or orphaned, when no two annotations have the same serial. */
  lemma {:induction false} ReasonsAddUp(annotations: seq<Annotation>, attached: set<string>)
    requires DistinctSerials(annotations) && forall s :: s in attached ==> HasReason(annotations, s)
    ensures |attached| + Orphans(annotations, attached) == Reasons(annotations)
  {
    if annotations == [] {
      assert attached == {};
    } else {
      var first, rest := annotations[0], annotations[1..];
      var others := attached - {first.serial};
      RestHasReasons(annotations, attached);
      ReasonsAddUp(rest, others);
      SameOrphans(rest, attached, others, first.serial);
      hide HasReason, DistinctSerials;
      if first.serial in attached {
        assert attached == others + {first.serial};
      } else {
        assert attached == others;
      }
    }
  }

  lemma RestHasReasons(annotations: seq<Annotation>, attached: set<string>)
    requires annotations != [] && DistinctSerials(annotations) && forall s :: s in attached ==>
      HasReason(annotations, s)
    ensures var first, rest := annotations[0], annotations[1..];
      && DistinctSerials(rest)
      && (forall s :: s in attached - {first.serial} ==> HasReason(rest, s))
      && (forall i :: 0 <= i < |rest| ==> rest[i].serial != first.serial)
      && (first.serial in attached ==> first.reason != "")
  {
    var first, rest := annotations[0], annotations[1..];
    assert forall i :: 0 <= i < |rest| ==> rest[i] == annotations[i + 1];
    forall s | s in attached - {first.serial}
      ensures HasReason(rest, s)
    {
      var i :| 0 <= i < |annotations| && annotations[i].serial == s && annotations[i].reason != "";
      assert rest[i - 1] == annotations[i];
    }
    if first.serial in attached {
      var i :| 0 <= i < |annotations| && annotations[i].serial == first.serial && annotations[i].reason != "";
    }
  }

  lemma {:induction false} SameOrphans(annotations: seq<Annotation>, a: set<string>, b: set<string>, serial: string)
    requires b == a - {serial} && forall i :: 0 <= i < |annotations| ==> annotations[i].serial != serial
    ensures Orphans(annotations, a) == Orphans(annotations, b)
  {
    if annotations != [] {
      SameOrphans(annotations[1..], a, b, serial);
    }
  }

  lemma {:induction false} OldHasReason(annotations: seq<Annotation>, serial: string)
    requires Old(annotations, serial).Some? && Old(annotations, serial).value.reason != ""
    ensures HasReason(annotations, serial)
  {
    var front, last := annotations[..|annotations| - 1], annotations[|annotations| - 1];
    if last.serial != serial {
      OldHasReason(front, serial);
      var i :| 0 <= i < |front| && front[i].serial == serial && front[i].reason != "";
      assert annotations[i] == front[i];
    }
  }

  /** The rows as a dictionary by episode holds them: of two with one episode, the later. */
  function ByEpisode(rows: seq<Row>): seq<Row> {
    if rows == [] then []
    else
      var front, last := ByEpisode(rows[..|rows| - 1]), rows[|rows| - 1];
      Without(front, last.episode) + [last]
  }

  function Without(rows: seq<Row>, episode: int): seq<Row> {
    if rows == [] then []
    else if rows[0].episode == episode then Without(rows[1..], episode)
    else [rows[0]] + Without(rows[1..], episode)
  }

  lemma {:induction false} WithoutExact(rows: seq<Row>, episode: int)
    ensures forall r :: r in Without(rows, episode) <==> r in rows && r.episode != episode
    ensures DistinctEpisodes(rows) ==> DistinctEpisodes(Without(rows, episode))
  {
    if rows != [] {
      WithoutExact(rows[1..], episode);
      assert rows == [rows[0]] + rows[1..];
      if DistinctEpisodes(rows) {
        assert DistinctEpisodes(rows[1..]);
        assert forall r :: r in rows[1..] ==> r.episode != rows[0].episode;
      }
    }
  }

  /** The last row of its episode. */
  predicate IsLatest(rows: seq<Row>, r: Row) {
    exists i :: 0 <= i < |rows| && rows[i] == r && forall j :: i < j < |rows| ==> rows[j].episode != r.episode
  }

  lemma LatestOfMore(front: seq<Row>, last: Row, r: Row)
    ensures IsLatest(front + [last], r) <==> r == last || (IsLatest(front, r) && r.episode != last.episode)
  {
    var rows := front + [last];
    assert rows[|front|] == last && forall j :: 0 <= j < |front| ==> rows[j] == front[j];
    if IsLatest(rows, r) && r != last {
      var i :| 0 <= i < |rows| && rows[i] == r && forall j :: i < j < |rows| ==> rows[j].episode != r.episode;
      assert i < |front| && front[i] == r;
      assert forall j :: i < j < |front| ==> front[j].episode == rows[j].episode;
    }
    if IsLatest(front, r) && r.episode != last.episode {
      var i :| 0 <= i < |front| && front[i] == r && forall j :: i < j < |front| ==> front[j].episode != r.episode;
      assert rows[i] == r && forall j :: i < j < |rows| ==> rows[j].episode != r.episode;
    }
  }

  /** It has one row an episode, the last one there is. */
  lemma {:induction false} ByEpisodeExact(rows: seq<Row>)
    ensures DistinctEpisodes(ByEpisode(rows))
    ensures forall r :: r in ByEpisode(rows) <==> IsLatest(rows, r)
  {
    if rows != [] {
      var front, last := rows[..|rows| - 1], rows[|rows| - 1];
      ByEpisodeExact(front);
      var others := Without(ByEpisode(front), last.episode);
      WithoutExact(ByEpisode(front), last.episode);
      assert rows == front + [last];
      assert ByEpisode(rows) == others + [last];
      OneMoreEpisode(others, last);
      hide DistinctEpisodes, IsLatest, ByEpisode, Without;
      forall r
        ensures r in others + [last] <==> IsLatest(rows, r)
      {
        LatestOfMore(front, last, r);
      }
    }
  }

  lemma OneMoreEpisode(others: seq<Row>, last: Row)
    requires DistinctEpisodes(others) && forall r :: r in others ==> r.episode != last.episode
    ensures DistinctEpisodes(others + [last])
  {
    assert forall i :: 0 <= i < |others| ==> others[i] in others;
  }

  /** `_plan_db_migration`: of each episode's rows the last one counts. If it has a grade and a
      serial it gets an annotation under its new serial, carrying the old reason exactly when
      it is the row that wins it; the recovered reasons are those with a winner, and when no
      two old annotations have the same serial, recovered and orphaned reasons are all the
      reasons there were. */
  method PlanMigration(rows: seq<Row>, plan: map<int, string>, annotations: seq<Annotation>)
    returns (out: map<string, NewAnnotation>, recovered: nat, orphaned: nat)
    requires GoodPlan(rows, plan)
    ensures forall r :: r in rows && r.serial != "" ==> r.episode in plan
    ensures forall r :: IsLatest(rows, r) && r.serial != "" && r.grade != "" ==>
      r.episode in plan && plan[r.episode] in out
      && out[plan[r.episode]] == Annotated(ByEpisode(rows), annotations, r)
    ensures forall name :: name in out ==>
      exists r :: IsLatest(rows, r) && r.serial != "" && r.grade != "" && r.episode in plan && plan[r.episode] == name
    ensures exists attached: set<string> ::
      && IsAttached(ByEpisode(rows), annotations, attached)
      && recovered == |attached| && orphaned == Orphans(annotations, attached)
    ensures DistinctSerials(annotations) ==> recovered + orphaned == Reasons(annotations)
  {
    PlannedRows(rows, plan);
    ByEpisodeExact(rows);
    var latest := ByEpisode(rows);
    forall r | r in latest && r.serial != ""
      ensures r.episode in plan
    {
      assert IsLatest(rows, r);
    }
    var attached;
    ghost var seen;
    hide ByEpisode, IsLatest;
    out, attached, seen := MigrateGroups(latest, plan, annotations);
    SeenAll(latest, plan, annotations, seen, out);
    hide *;
    recovered, orphaned := |attached|, Orphans(annotations, attached);
    if DistinctSerials(annotations) {
      AttachedAddUp(latest, annotations, attached);
    }
  }

  /** One of the first `g` serials. */
  predicate Among(serials: seq<string>, g: nat, s: string)
    requires g <= |serials|
  {
    exists i :: 0 <= i < g && serials[i] == s
  }

  lemma AmongStep(serials: seq<string>, g: nat)
    requires g < |serials|
    ensures forall s :: Among(serials, g + 1, s) <==> Among(serials, g, s) || s == serials[g]
  {
    forall s
      ensures Among(serials, g + 1, s) <==> Among(serials, g, s) || s == serials[g]
    {
      if i :| 0 <= i < g && serials[i] == s {
        assert 0 <= i < g + 1 && serials[i] == s;
      }
      if s == serials[g] {
        assert 0 <= g < g + 1 && serials[g] == s;
      }
    }
  }

  method MigrateGroups(rows: seq<Row>, plan: map<int, string>, annotations: seq<Annotation>)
    returns (out: map<string, NewAnnotation>, attached: set<string>, ghost seen: set<Row>)
    requires DistinctEpisodes(rows) && Injective(plan)
    requires forall r :: r in rows && r.serial != "" ==> r.episode in plan
    ensures Migrated(rows, plan, annotations, seen, out) && IsAttached(rows, annotations, attached)
    ensures forall r :: r in rows ==> (r in seen <==> r.serial in Serials(rows))
  {
    var serials := Serials(rows);
    SerialsExact(rows);
    out, attached, seen := map[], {}, {};
    hide Injective, HasWinner, Among, IsAttached;
    assert forall s :: !Among(serials, 0, s) by { NoneAmong(serials); }
    for g := 0 to |serials|
      invariant Migrated(rows, plan, annotations, seen, out)
      invariant forall r :: r in rows ==> (r in seen <==> Among(serials, g, r.serial))
      invariant forall s :: s in attached <==> Among(serials, g, s) && HasWinner(rows, annotations, s)
    {
      var serial := serials[g];
      assert serial in serials;
      AmongStep(serials, g);
      hide Migrated;
      var won;
      out, won, seen := MigrateGroup(rows, plan, annotations, serial, seen, out);
      if won {
        attached := attached + {serial};
      }
    }
    AllAmong(serials);
    AllAttached(rows, annotations, attached);
    forall r | r in rows
      ensures r in seen <==> r.serial in Serials(rows)
    {
      assert Among(serials, |serials|, r.serial) <==> r.serial in serials;
    }
  }

  lemma NoneAmong(serials: seq<string>)
    ensures forall s :: !Among(serials, 0, s)
  {
  }

  lemma AllAmong(serials: seq<string>)
    ensures forall s :: Among(serials, |serials|, s) <==> s in serials
  {
  }

  /** The serials whose reason has reached an episode. */
  ghost predicate IsAttached(rows: seq<Row>, annotations: seq<Annotation>, attached: set<string>) {
    forall s :: s in attached <==> s != "" && HasWinner(rows, annotations, s)
  }

  lemma AllAttached(rows: seq<Row>, annotations: seq<Annotation>, attached: set<string>)
    requires forall s :: s in attached <==> s in Serials(rows) && HasWinner(rows, annotations, s)
    ensures IsAttached(rows, annotations, attached)
  {
    SerialsExact(rows);
    forall s
      ensures s in attached <==> s != "" && HasWinner(rows, annotations, s)
    {
      if s != "" && HasWinner(rows, annotations, s) {
        var r :| r in rows && r.serial == s && Wins(rows, annotations, r);
        var i :| 0 <= i < |rows| && rows[i] == r;
      }
    }
  }

  lemma AttachedAddUp(rows: seq<Row>, annotations: seq<Annotation>, attached: set<string>)
    requires DistinctSerials(annotations) && IsAttached(rows, annotations, attached)
    ensures |attached| + Orphans(annotations, attached) == Reasons(annotations)
  {
    forall s | s in attached
      ensures HasReason(annotations, s)
    {
      var r :| r in rows && r.serial == s && Wins(rows, annotations, r);
      OldHasReason(annotations, s);
    }
    ReasonsAddUp(annotations, attached);
  }

  lemma PlannedRows(rows: seq<Row>, plan: map<int, string>)
    requires GoodPlan(rows, plan)
    ensures forall r :: r in rows && r.serial != "" ==> r.episode in plan
  {
    forall r | r in rows && r.serial != ""
      ensures r.episode in plan
    {
      assert HasRow(rows, r.episode, r.serial);
    }
  }

  lemma SeenAll(rows: seq<Row>, plan: map<int, string>, annotations: seq<Annotation>, seen: set<Row>,
                out: map<string, NewAnnotation>)
    requires forall r :: r in rows && r.serial != "" ==> r.episode in plan
    requires Migrated(rows, plan, annotations, seen, out)
    requires forall r :: r in rows ==> (r in seen <==> r.serial in Serials(rows))
    ensures forall r :: r in rows && r.serial != "" && r.grade != "" ==>
      plan[r.episode] in out && out[plan[r.episode]] == Annotated(rows, annotations, r)
    ensures forall name :: name in out ==>
      exists r :: r in rows && r.serial != "" && r.grade != "" && plan[r.episode] == name
  {
    SerialsExact(rows);
    forall r | r in rows && r.serial != ""
      ensures r in seen
    {
      var i :| 0 <= i < |rows| && rows[i] == r;
      assert r.serial in Serials(rows);
    }
  }
}
