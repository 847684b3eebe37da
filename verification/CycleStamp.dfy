/** The ends of gripper cycles: the one-pass detector, and the flags that stamping gives
    every row of a dataset. */
module CycleStamp {
  import opened Sorting

  const CLOSED: real := 0.5
  const OPEN: real := 0.8

  // ------------------------------------------------------------------ one arm

  /** A frame ends a cycle: the gripper is open, and since some earlier frame on which it was
      closed it has not been open. */
  ghost predicate CycleEnd(v: seq<real>, i: nat) {
    i < |v| && v[i] > OPEN && ClosedSince(v, i)
  }

  ghost predicate ClosedSince(v: seq<real>, i: nat)
    requires i <= |v|
  {
    exists j :: 0 <= j < i && v[j] < CLOSED && NotOpenBetween(v, j, i)
  }

  predicate NotOpenBetween(v: seq<real>, j: nat, i: nat)
    requires i <= |v|
  {
    forall k :: j < k < i ==> v[k] <= OPEN
  }

  /** `_detect_arm_cycle_ends`. */
  method DetectArm(v: seq<real>) returns (ends: seq<nat>)
    ensures forall i, j :: 0 <= i < j < |ends| ==> ends[i] < ends[j]
    ensures forall i: nat :: i in ends <==> CycleEnd(v, i)
  {
    ends := [];
    if v == [] { return; }
    var searching := v[0] < CLOSED;
    for i := 0 to |v|
      invariant i == 0 ==> searching == (v[0] < CLOSED)
      invariant i > 0 ==> (searching <==> ClosedSince(v, i))
      invariant forall a, b :: 0 <= a < b < |ends| ==> ends[a] < ends[b]
      invariant forall a :: 0 <= a < |ends| ==> ends[a] < i
      invariant forall e: nat :: e in ends <==> e < i && CycleEnd(v, e)
    {
      ClosedStep(v, i);
      if searching {
        if v[i] > OPEN {
          ends := ends + [i];
          searching := false;
        }
      } else if v[i] < CLOSED {
        searching := true;
      }
    }
  }

  /** How being closed since carries over one frame. */
  lemma ClosedStep(v: seq<real>, i: nat)
    requires i < |v|
    ensures ClosedSince(v, i + 1) <==> v[i] < CLOSED || (ClosedSince(v, i) && v[i] <= OPEN)
  {
    if v[i] < CLOSED {
      assert NotOpenBetween(v, i, i + 1);
    } else if ClosedSince(v, i) && v[i] <= OPEN {
      var j :| 0 <= j < i && v[j] < CLOSED && NotOpenBetween(v, j, i);
      assert NotOpenBetween(v, j, i + 1);
    }
    if ClosedSince(v, i + 1) && v[i] >= CLOSED {
      var j :| 0 <= j < i + 1 && v[j] < CLOSED && NotOpenBetween(v, j, i + 1);
      assert NotOpenBetween(v, j, i);
    }
  }

  /** `detect_cycle_ends`: the ends of both arms, in order and once each. */
  method Detect(left: seq<real>, right: seq<real>) returns (ends: seq<nat>)
    ensures forall i, j :: 0 <= i < j < |ends| ==> ends[i] < ends[j]
    ensures forall i: nat :: i in ends <==> CycleEnd(left, i) || CycleEnd(right, i)
  {
    var l := DetectArm(left);
    var r := DetectArm(right);
    ends := Merge(l, r);
  }

  /** `sorted(set(a + b))` of two ascending lists. */
  function Merge(a: seq<nat>, b: seq<nat>): (r: seq<nat>)
    requires forall i, j :: 0 <= i < j < |a| ==> a[i] < a[j]
    requires forall i, j :: 0 <= i < j < |b| ==> b[i] < b[j]
    ensures forall i, j :: 0 <= i < j < |r| ==> r[i] < r[j]
    ensures forall x :: x in r <==> x in a || x in b
    decreases |a| + |b|
  {
    if a == [] then b
    else if b == [] then a
    else if a[0] < b[0] then Cons(a[0], Merge(a[1..], b), a[1..], b)
    else if b[0] < a[0] then Cons(b[0], Merge(a, b[1..]), a, b[1..])
    else Cons(a[0], Merge(a[1..], b[1..]), a[1..], b[1..])
  }

  function Cons(x: nat, r: seq<nat>, ghost a: seq<nat>, ghost b: seq<nat>): (s: seq<nat>)
    requires forall i, j :: 0 <= i < j < |r| ==> r[i] < r[j]
    requires forall y :: y in r <==> y in a || y in b
    requires forall i :: 0 <= i < |a| ==> x < a[i]
    requires forall i :: 0 <= i < |b| ==> x < b[i]
    ensures s == [x] + r
    ensures forall i, j :: 0 <= i < j < |s| ==> s[i] < s[j]
  {
    assert forall i :: 0 <= i < |r| ==> r[i] in r;
    [x] + r
  }

  // ------------------------------------------------------------------ a dataset

  /** One row: its episode, its frame within it, and the two gripper values. */
  datatype Row = Row(episode: int, frame: int, left: real, right: real)

  /** Rows are ordered within an episode by frame, and by where they are stored when two of
      them have the same frame. */
  predicate Earlier(rows: seq<Row>, p: nat, n: nat)
    requires p < |rows| && n < |rows|
  {
    rows[p].episode == rows[n].episode &&
    (rows[p].frame < rows[n].frame || (rows[p].frame == rows[n].frame && p < n))
  }

  datatype Arm = Left | Right

  function Value(r: Row, arm: Arm): real {
    if arm.Left? then r.left else r.right
  }

  /** A row ends a cycle of one arm, said of the rows and not of any list of them. */
  ghost predicate ArmEnds(rows: seq<Row>, arm: Arm, n: nat)
    requires n < |rows|
  {
    Value(rows[n], arm) > OPEN &&
    exists p :: 0 <= p < |rows| && Earlier(rows, p, n) && Value(rows[p], arm) < CLOSED && NotOpen(rows, arm, p, n)
  }

  predicate NotOpen(rows: seq<Row>, arm: Arm, p: nat, n: nat)
    requires p < |rows| && n < |rows|
  {
    forall m :: 0 <= m < |rows| && Earlier(rows, p, m) && Earlier(rows, m, n) ==> Value(rows[m], arm) <= OPEN
  }

  ghost predicate Terminal(rows: seq<Row>, n: nat)
    requires n < |rows|
  {
    ArmEnds(rows, Left, n) || ArmEnds(rows, Right, n)
  }

  ghost predicate Last(rows: seq<Row>, n: nat)
    requires n < |rows|
  {
    forall m :: 0 <= m < |rows| && rows[m].episode == rows[n].episode ==> m == n || Earlier(rows, m, n)
  }

  /** What it is for a row to end a cycle: in one of the two grippers it is open, on an earlier
      frame of the episode that gripper was closed, and on none between them was it open. */
  lemma TerminalMeans(rows: seq<Row>, n: nat)
    requires n < |rows|
    ensures Terminal(rows, n) <==>
      || (rows[n].left > 0.8 && exists p ::
            && 0 <= p < |rows| && Earlier(rows, p, n) && rows[p].left < 0.5
            && forall m :: 0 <= m < |rows| && Earlier(rows, p, m) && Earlier(rows, m, n) ==> rows[m].left <= 0.8)
      || (rows[n].right > 0.8 && exists p ::
            && 0 <= p < |rows| && Earlier(rows, p, n) && rows[p].right < 0.5
            && forall m :: 0 <= m < |rows| && Earlier(rows, p, m) && Earlier(rows, m, n) ==> rows[m].right <= 0.8)
  {
    forall p: nat | p < |rows|
      ensures NotOpen(rows, Left, p, n) <==>
        forall m :: 0 <= m < |rows| && Earlier(rows, p, m) && Earlier(rows, m, n) ==> rows[m].left <= 0.8
      ensures NotOpen(rows, Right, p, n) <==>
        forall m :: 0 <= m < |rows| && Earlier(rows, p, m) && Earlier(rows, m, n) ==> rows[m].right <= 0.8
    {
    }
  }

  function CountTrue(flags: seq<bool>): nat {
    if flags == [] then 0 else (if flags[0] then 1 else 0) + CountTrue(flags[1..])
  }

  lemma {:induction false} CountSet(flags: seq<bool>, n: nat)
    requires n < |flags| && !flags[n]
    ensures CountTrue(flags[n := true]) == CountTrue(flags) + 1
  {
    if n > 0 {
      CountSet(flags[1..], n - 1);
      assert flags[n := true][1..] == flags[1..][n - 1 := true];
    } else {
      assert flags[n := true][1..] == flags[1..];
    }
  }

  lemma {:induction false} CountNone(n: nat)
    ensures CountTrue(seq(n, i => false)) == 0
  {
    if n > 0 {
      CountNone(n - 1);
      assert seq(n, i => false)[1..] == seq(n - 1, i => false);
    }
  }

  // ------------------------------------------------------------------ the rows of one episode, in order

  /** A row with its position in the files, taken one after the other. */
  datatype Item = Item(n: nat, row: Row)

  predicate ItemBefore(a: Item, b: Item) {
    a.row.frame < b.row.frame || (a.row.frame == b.row.frame && a.n <= b.n)
  }

  function ItemAt(i: Item): int { i.n }

  function ItemNext(i: Item): int { i.n + 1 }

  /** The rows of an episode among the first `k`, as they are stored. */
  function Collect(rows: seq<Row>, episode: int, k: nat): seq<Item>
    requires k <= |rows|
  {
    if k == 0 then []
    else Collect(rows, episode, k - 1) + (if rows[k - 1].episode == episode then [Item(k - 1, rows[k - 1])] else [])
  }

  lemma {:induction false} CollectExact(rows: seq<Row>, episode: int, k: nat)
    requires k <= |rows|
    ensures forall x :: x in Collect(rows, episode, k) <==>
      x.n < k && x.row == rows[x.n] && rows[x.n].episode == episode
    ensures forall n :: Cover(Collect(rows, episode, k), ItemAt, ItemNext, n) <= 1
    ensures forall n :: n >= k ==> Cover(Collect(rows, episode, k), ItemAt, ItemNext, n) == 0
  {
    if k > 0 {
      CollectExact(rows, episode, k - 1);
      var front := Collect(rows, episode, k - 1);
      if rows[k - 1].episode == episode {
        var last := Item(k - 1, rows[k - 1]);
        forall n
          ensures Cover(front + [last], ItemAt, ItemNext, n) ==
                  Cover(front, ItemAt, ItemNext, n) + (if n == k - 1 then 1 else 0)
        {
          CoverAppend(front, [last], ItemAt, ItemNext, n);
          assert Cover([last], ItemAt, ItemNext, n) == One(last, ItemAt, ItemNext, n);
        }
      } else {
        assert Collect(rows, episode, k) == front;
      }
    }
  }

  function OrderedRows(rows: seq<Row>, episode: int): seq<Item> {
    Sort(Collect(rows, episode, |rows|), ItemBefore)
  }

  /** The sorted rows of an episode are exactly its rows, each once and in order. */
  ghost predicate IsOrder(rows: seq<Row>, episode: int, ordered: seq<Item>) {
    && (forall i :: 0 <= i < |ordered| ==>
          ordered[i].n < |rows| && ordered[i].row == rows[ordered[i].n] && ordered[i].row.episode == episode)
    && (forall i, j :: 0 <= i < j < |ordered| ==> Earlier(rows, ordered[i].n, ordered[j].n))
    && (forall n :: 0 <= n < |rows| && rows[n].episode == episode ==> Has(ordered, n))
  }

  predicate Has(ordered: seq<Item>, n: nat) {
    exists i :: 0 <= i < |ordered| && ordered[i].n == n
  }

  lemma OrderedRowsAreInOrder(rows: seq<Row>, episode: int)
    ensures IsOrder(rows, episode, OrderedRows(rows, episode))
  {
    var items := Collect(rows, episode, |rows|);
    var ordered := OrderedRows(rows, episode);
    CollectExact(rows, episode, |rows|);
    assert TotalOrder(ItemBefore);
    SortIsOrdered(items, ItemBefore);
    forall i | 0 <= i < |ordered|
      ensures ordered[i].n < |rows| && ordered[i].row == rows[ordered[i].n] && ordered[i].row.episode == episode
    {
      assert ordered[i] in ordered;
    }
    forall i, j | 0 <= i < j < |ordered|
      ensures Earlier(rows, ordered[i].n, ordered[j].n)
    {
      assert ItemBefore(ordered[i], ordered[j]);
      SortKeepsCover(items, ItemBefore, ItemAt, ItemNext, ordered[i].n);
      if ordered[i].n == ordered[j].n {
        CoverTwice(ordered, ItemAt, ItemNext, i, j, ordered[i].n);
      }
    }
    forall n | 0 <= n < |rows| && rows[n].episode == episode
      ensures Has(ordered, n)
    {
      assert Item(n, rows[n]) in ordered;
    }
  }

  function Values(ordered: seq<Item>, arm: Arm): seq<real> {
    seq(|ordered|, i requires 0 <= i < |ordered| => Value(ordered[i].row, arm))
  }

  /** In an ordered episode the detector's verdict on a place is the verdict on its row. */
  lemma EndsByPlace(rows: seq<Row>, episode: int, ordered: seq<Item>, arm: Arm, i: nat)
    requires IsOrder(rows, episode, ordered) && i < |ordered|
    ensures CycleEnd(Values(ordered, arm), i) <==> ArmEnds(rows, arm, ordered[i].n)
  {
    if CycleEnd(Values(ordered, arm), i) {
      PlaceGivesRow(rows, episode, ordered, arm, i);
    }
    if ArmEnds(rows, arm, ordered[i].n) {
      RowGivesPlace(rows, episode, ordered, arm, i);
    }
  }

  lemma PlaceGivesRow(rows: seq<Row>, episode: int, ordered: seq<Item>, arm: Arm, i: nat)
    requires IsOrder(rows, episode, ordered) && i < |ordered| && CycleEnd(Values(ordered, arm), i)
    ensures ArmEnds(rows, arm, ordered[i].n)
  {
    var v, n := Values(ordered, arm), ordered[i].n;
    var j :| 0 <= j < i && v[j] < CLOSED && NotOpenBetween(v, j, i);
    var p := ordered[j].n;
    assert Earlier(rows, p, n);
    forall m | 0 <= m < |rows| && Earlier(rows, p, m) && Earlier(rows, m, n)
      ensures Value(rows[m], arm) <= OPEN
    {
      var k := PlaceOf(rows, episode, ordered, m);
      PlacesAgree(rows, episode, ordered, j, k);
      PlacesAgree(rows, episode, ordered, k, i);
      assert v[k] == Value(rows[m], arm);
    }
    assert NotOpen(rows, arm, p, n);
  }

  lemma RowGivesPlace(rows: seq<Row>, episode: int, ordered: seq<Item>, arm: Arm, i: nat)
    requires IsOrder(rows, episode, ordered) && i < |ordered| && ArmEnds(rows, arm, ordered[i].n)
    ensures CycleEnd(Values(ordered, arm), i)
  {
    var v, n := Values(ordered, arm), ordered[i].n;
    var p :| 0 <= p < |rows| && Earlier(rows, p, n) && Value(rows[p], arm) < CLOSED && NotOpen(rows, arm, p, n);
    var j := PlaceOf(rows, episode, ordered, p);
    PlacesAgree(rows, episode, ordered, j, i);
    forall k | j < k < i
      ensures v[k] <= OPEN
    {
      assert Earlier(rows, p, ordered[k].n) && Earlier(rows, ordered[k].n, n);
    }
    assert NotOpenBetween(v, j, i);
  }

  lemma PlaceOf(rows: seq<Row>, episode: int, ordered: seq<Item>, n: nat) returns (i: nat)
    requires IsOrder(rows, episode, ordered) && n < |rows| && rows[n].episode == episode
    ensures i < |ordered| && ordered[i].n == n
  {
    assert Has(ordered, n);
    i :| 0 <= i < |ordered| && ordered[i].n == n;
  }

  lemma PlacesAgree(rows: seq<Row>, episode: int, ordered: seq<Item>, i: nat, j: nat)
    requires IsOrder(rows, episode, ordered) && i < |ordered| && j < |ordered|
    ensures Earlier(rows, ordered[i].n, ordered[j].n) <==> i < j
  {
    if j < i {
      assert Earlier(rows, ordered[j].n, ordered[i].n);
    }
  }

  // ------------------------------------------------------------------ stamping

  /** The flags are right for every row of the episodes seen so far, and unset elsewhere. */
  ghost predicate FlagsFor(rows: seq<Row>, seen: set<int>, terminal: seq<bool>, last: seq<bool>) {
    && |terminal| == |rows| == |last|
    && (forall n :: 0 <= n < |rows| ==> (terminal[n] <==> rows[n].episode in seen && Terminal(rows, n)))
    && (forall n :: 0 <= n < |rows| ==> (last[n] <==> rows[n].episode in seen && Last(rows, n)))
  }

  /** The flags of one episode's rows. */
  method StampEpisode(rows: seq<Row>, episode: int, ghost seen: set<int>, terminal0: seq<bool>, last0: seq<bool>)
    returns (terminal: seq<bool>, last: seq<bool>, terminals: nat)
    requires FlagsFor(rows, seen, terminal0, last0) && episode !in seen
    requires exists n :: 0 <= n < |rows| && rows[n].episode == episode
    ensures FlagsFor(rows, seen + {episode}, terminal, last)
    ensures CountTrue(terminal) == CountTrue(terminal0) + terminals
    ensures CountTrue(last) == CountTrue(last0) + 1
  {
    var ordered := OrderedRows(rows, episode);
    OrderedRowsAreInOrder(rows, episode);
    hide OrderedRows, Terminal, Last, CountTrue;
    terminal, terminals := StampEnds(rows, episode, ordered, seen, terminal0);
    ghost var some :| 0 <= some < |rows| && rows[some].episode == episode;
    ghost var place := PlaceOf(rows, episode, ordered, some);
    var final := ordered[|ordered| - 1].n;
    LastIsFinal(rows, episode, ordered);
    CountSet(last0, final);
    last := last0[final := true];
  }

  lemma LastIsFinal(rows: seq<Row>, episode: int, ordered: seq<Item>)
    requires IsOrder(rows, episode, ordered) && ordered != []
    ensures forall n :: 0 <= n < |rows| && rows[n].episode == episode ==>
      (Last(rows, n) <==> n == ordered[|ordered| - 1].n)
  {
    var final := ordered[|ordered| - 1].n;
    forall n | 0 <= n < |rows| && rows[n].episode == episode
      ensures Last(rows, n) <==> n == final
    {
      var i := PlaceOf(rows, episode, ordered, n);
      if n == final {
        forall m | 0 <= m < |rows| && rows[m].episode == rows[n].episode
          ensures m == n || Earlier(rows, m, n)
        {
          var j := PlaceOf(rows, episode, ordered, m);
          PlacesAgree(rows, episode, ordered, j, |ordered| - 1);
        }
      } else {
        PlacesAgree(rows, episode, ordered, i, |ordered| - 1);
        PlacesAgree(rows, episode, ordered, |ordered| - 1, i);
        assert !Earlier(rows, final, n);
      }
    }
  }

  /** One flag and one count for each end that is detected: no row is flagged twice. */
  method StampEnds(rows: seq<Row>, episode: int, ordered: seq<Item>, ghost seen: set<int>, terminal0: seq<bool>)
    returns (terminal: seq<bool>, terminals: nat)
    requires IsOrder(rows, episode, ordered) && |terminal0| == |rows| && episode !in seen
    requires forall n :: 0 <= n < |rows| ==> (terminal0[n] <==> rows[n].episode in seen && Terminal(rows, n))
    ensures |terminal| == |rows| && CountTrue(terminal) == CountTrue(terminal0) + terminals
    ensures forall n :: 0 <= n < |rows| ==> (terminal[n] <==> rows[n].episode in seen + {episode} && Terminal(rows, n))
  {
    var ends := Detect(Values(ordered, Left), Values(ordered, Right));
    forall i: nat | i < |ordered|
      ensures i in ends <==> Terminal(rows, ordered[i].n)
    {
      EndsByPlace(rows, episode, ordered, Left, i);
      EndsByPlace(rows, episode, ordered, Right, i);
    }
    terminal, terminals := terminal0, 0;
    for k := 0 to |ends|
      invariant |terminal| == |rows| && CountTrue(terminal) == CountTrue(terminal0) + terminals && terminals == k
      invariant forall n :: 0 <= n < |rows| ==>
        (terminal[n] <==> terminal0[n] || Stamped(ordered, ends, k, n))
    {
      assert ends[k] in ends;
      assert ends[k] < |ordered|;
      var n := ordered[ends[k]].n;
      NotStampedYet(rows, episode, ordered, ends, k);
      CountSet(terminal, n);
      StampedStep(ordered, ends, k);
      terminal, terminals := terminal[n := true], terminals + 1;
    }
    forall n | 0 <= n < |rows|
      ensures terminal[n] <==> rows[n].episode in seen + {episode} && Terminal(rows, n)
    {
      if rows[n].episode == episode {
        var i := PlaceOf(rows, episode, ordered, n);
        if i in ends {
          var k :| 0 <= k < |ends| && ends[k] == i;
          assert Stamped(ordered, ends, |ends|, n);
        } else if Stamped(ordered, ends, |ends|, n) {
          StampedIsEnd(rows, episode, ordered, ends, n, i);
        }
      }
    }
  }

  /** One of the first `k` ends is at row `n`. */
  predicate Stamped(ordered: seq<Item>, ends: seq<nat>, k: nat, n: nat)
    requires k <= |ends|
  {
    exists j :: 0 <= j < k && ends[j] < |ordered| && ordered[ends[j]].n == n
  }

  lemma StampedStep(ordered: seq<Item>, ends: seq<nat>, k: nat)
    requires k < |ends| && ends[k] < |ordered|
    ensures forall n :: Stamped(ordered, ends, k + 1, n) <==> Stamped(ordered, ends, k, n) || n == ordered[ends[k]].n
  {
  }

  lemma NotStampedYet(rows: seq<Row>, episode: int, ordered: seq<Item>, ends: seq<nat>, k: nat)
    requires IsOrder(rows, episode, ordered) && k < |ends| && ends[k] < |ordered|
    requires forall i, j :: 0 <= i < j < |ends| ==> ends[i] < ends[j]
    ensures !Stamped(ordered, ends, k, ordered[ends[k]].n)
  {
    if Stamped(ordered, ends, k, ordered[ends[k]].n) {
      var j :| 0 <= j < k && ends[j] < |ordered| && ordered[ends[j]].n == ordered[ends[k]].n;
      PlacesAgree(rows, episode, ordered, ends[j], ends[k]);
    }
  }

  lemma StampedIsEnd(rows: seq<Row>, episode: int, ordered: seq<Item>, ends: seq<nat>, n: nat, i: nat)
    requires IsOrder(rows, episode, ordered) && i < |ordered| && ordered[i].n == n
    requires Stamped(ordered, ends, |ends|, n)
    ensures i in ends
  {
    var j :| 0 <= j < |ends| && ends[j] < |ordered| && ordered[ends[j]].n == n;
    PlacesAgree(rows, episode, ordered, ends[j], i);
    PlacesAgree(rows, episode, ordered, i, ends[j]);
  }

  function Episodes(rows: seq<Row>): set<int> {
    set n | 0 <= n < |rows| :: rows[n].episode
  }

  /** `stamp_dataset_cycles` on rows taken from the files one after the other: every row is
      flagged by what the rows are, each episode gets one last row, and the counts are the
      numbers of flags set. */
  method Stamp(rows: seq<Row>) returns (terminal: seq<bool>, last: seq<bool>, episodes: nat, terminals: nat, lasts: nat)
    ensures |terminal| == |rows| == |last|
    ensures forall n :: 0 <= n < |rows| ==> (terminal[n] <==> Terminal(rows, n))
    ensures forall n :: 0 <= n < |rows| ==> (last[n] <==> Last(rows, n))
    ensures terminals == CountTrue(terminal) && lasts == CountTrue(last)
    ensures episodes == |Episodes(rows)| && lasts == episodes
  {
    hide *;
    terminal, last := seq(|rows|, i => false), seq(|rows|, i => false);
    NothingSeen(rows);
    var todo := Episodes(rows);
    ghost var seen: set<int> := {};
    episodes, terminals, lasts := |todo|, 0, 0;
    while todo != {}
      invariant seen !! todo && seen + todo == Episodes(rows)
      invariant FlagsFor(rows, seen, terminal, last)
      invariant terminals == CountTrue(terminal) && lasts == CountTrue(last) && lasts + |todo| == episodes
      decreases |todo|
    {
      EpisodeLeft(rows, todo);
      var episode :| episode in todo;
      EpisodeHasRow(rows, episode);
      var more;
      terminal, last, more := StampEpisode(rows, episode, seen, terminal, last);
      terminals, lasts := terminals + more, lasts + 1;
      seen, todo := seen + {episode}, todo - {episode};
    }
    assert seen == Episodes(rows);
    AllSeen(rows, terminal, last);
  }

  lemma EpisodeLeft(rows: seq<Row>, todo: set<int>)
    requires todo != {} && todo <= Episodes(rows)
    ensures exists e :: e in todo
  {
    var e :| e in todo;
  }

  lemma NothingSeen(rows: seq<Row>)
    ensures var none := seq(|rows|, i => false); FlagsFor(rows, {}, none, none) && CountTrue(none) == 0
  {
    CountNone(|rows|);
  }

  lemma EpisodeHasRow(rows: seq<Row>, episode: int)
    requires episode in Episodes(rows)
    ensures exists n :: 0 <= n < |rows| && rows[n].episode == episode
  {
  }

  lemma AllSeen(rows: seq<Row>, terminal: seq<bool>, last: seq<bool>)
    requires FlagsFor(rows, Episodes(rows), terminal, last)
    ensures |terminal| == |rows| == |last|
    ensures forall n :: 0 <= n < |rows| ==> (terminal[n] <==> Terminal(rows, n))
    ensures forall n :: 0 <= n < |rows| ==> (last[n] <==> Last(rows, n))
  {
    assert forall n :: 0 <= n < |rows| ==> rows[n].episode in Episodes(rows);
  }

  // ------------------------------------------------------------------ independence

  ghost predicate DistinctFrames(rows: seq<Row>) {
    forall m, n :: 0 <= m < n < |rows| && rows[m].episode == rows[n].episode ==> rows[m].frame != rows[n].frame
  }

  ghost predicate SameRows(a: seq<Row>, b: seq<Row>) {
    forall r :: r in a <==> r in b
  }

  /** With distinct frames in every episode, a row's flags are the same however the rows are
      ordered and spread over files. */
  lemma FlagsDoNotDependOnOrder(a: seq<Row>, b: seq<Row>, m: nat, n: nat)
    requires SameRows(a, b) && DistinctFrames(a) && DistinctFrames(b)
    requires m < |a| && n < |b| && a[m] == b[n]
    ensures Terminal(a, m) <==> Terminal(b, n)
    ensures Last(a, m) <==> Last(b, n)
  {
    EndsCarryOver(a, b, Left, m, n);
    EndsCarryOver(b, a, Left, n, m);
    EndsCarryOver(a, b, Right, m, n);
    EndsCarryOver(b, a, Right, n, m);
    LastCarriesOver(a, b, m, n);
    LastCarriesOver(b, a, n, m);
  }

  lemma Counterpart(a: seq<Row>, b: seq<Row>, p: nat) returns (q: nat)
    requires SameRows(a, b) && p < |a|
    ensures q < |b| && b[q] == a[p]
  {
    assert a[p] in b;
    q :| 0 <= q < |b| && b[q] == a[p];
  }

  lemma EarlierCarriesOver(a: seq<Row>, b: seq<Row>, p: nat, m: nat, q: nat, n: nat)
    requires DistinctFrames(a) && DistinctFrames(b)
    requires p < |a| && m < |a| && q < |b| && n < |b| && b[q] == a[p] && b[n] == a[m]
    ensures Earlier(a, p, m) <==> Earlier(b, q, n)
  {
  }

  lemma EndsCarryOver(a: seq<Row>, b: seq<Row>, arm: Arm, m: nat, n: nat)
    requires SameRows(a, b) && DistinctFrames(a) && DistinctFrames(b)
    requires m < |a| && n < |b| && a[m] == b[n]
    ensures ArmEnds(a, arm, m) ==> ArmEnds(b, arm, n)
  {
    if ArmEnds(a, arm, m) {
      var p :| 0 <= p < |a| && Earlier(a, p, m) && Value(a[p], arm) < CLOSED && NotOpen(a, arm, p, m);
      var q := Counterpart(a, b, p);
      EarlierCarriesOver(a, b, p, m, q, n);
      forall t | 0 <= t < |b| && Earlier(b, q, t) && Earlier(b, t, n)
        ensures Value(b[t], arm) <= OPEN
      {
        var s := Counterpart(b, a, t);
        EarlierCarriesOver(a, b, p, s, q, t);
        EarlierCarriesOver(a, b, s, m, t, n);
      }
      assert NotOpen(b, arm, q, n);
    }
  }

  lemma LastCarriesOver(a: seq<Row>, b: seq<Row>, m: nat, n: nat)
    requires SameRows(a, b) && DistinctFrames(a) && DistinctFrames(b)
    requires m < |a| && n < |b| && a[m] == b[n]
    ensures Last(a, m) ==> Last(b, n)
  {
    if Last(a, m) {
      forall t | 0 <= t < |b| && b[t].episode == b[n].episode
        ensures t == n || Earlier(b, t, n)
      {
        var s := Counterpart(b, a, t);
        if s != m {
          EarlierCarriesOver(a, b, s, m, t, n);
        } else {
          assert b[t] == b[n];
        }
      }
    }
  }
}
