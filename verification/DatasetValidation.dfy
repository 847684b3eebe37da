/** The two fast checks of a converted dataset: the sorted sweep over the episode ranges
    and the two-pointer sweep over the data rows, and what they accept. */
module DatasetValidation {
  import opened Common
  import opened Sorting

  datatype Reason = BadRange | RowsMismatch | EndMismatch | IndexMismatch | EpisodeMismatch | TaskMismatch

  datatype Verdict = Accepted | Failed(reason: Reason)

  datatype Range = Range(start: int, end: int)

  /** The two range columns of one episode table. */
  datatype EpisodeTable = EpisodeTable(starts: seq<int>, ends: seq<int>)

  function Start(r: Range): int { r.start }

  function End(r: Range): int { r.end }

  predicate Before(a: Range, b: Range) {
    a.start < b.start || (a.start == b.start && a.end <= b.end)
  }

  lemma BeforeIsTotal()
    ensures TotalOrder(Before)
  {
  }

  function RangesOf(t: EpisodeTable): seq<Range>
    requires |t.starts| == |t.ends|
  {
    seq(|t.starts|, i requires 0 <= i < |t.starts| => Range(t.starts[i], t.ends[i]))
  }

  predicate WellShaped(tables: seq<EpisodeTable>) {
    forall i :: 0 <= i < |tables| ==> |tables[i].starts| == |tables[i].ends|
  }

  /** Every range of every table, in order. */
  function AllRanges(tables: seq<EpisodeTable>): seq<Range>
    requires WellShaped(tables)
  {
    if tables == [] then []
    else AllRanges(tables[..|tables| - 1]) + RangesOf(tables[|tables| - 1])
  }

  predicate GoodRange(r: Range) {
    0 <= r.start < r.end
  }

  predicate AllGood(s: seq<Range>) {
    forall i :: 0 <= i < |s| ==> GoodRange(s[i])
  }

  /** The sweep over the ranges in order. */
  method Sweep(ranges: seq<Range>, rows: nat) returns (v: Verdict)
    ensures v.Accepted? <==> Chained(ranges, Start, End, 0, rows)
  {
    var cursor := 0;
    for k := 0 to |ranges|
      invariant Chained(ranges, Start, End, 0, rows) <==> Chained(ranges[k..], Start, End, cursor, rows)
    {
      assert ranges[k..][1..] == ranges[k + 1..];
      if ranges[k].start != cursor { return Failed(RowsMismatch); }
      cursor := ranges[k].end;
    }
    if cursor != rows { return Failed(EndMismatch); }
    return Accepted;
  }

  /** The ranges of one table, if they are all good. */
  method CollectRanges(t: EpisodeTable) returns (r: Option<seq<Range>>)
    requires |t.starts| == |t.ends|
    ensures r.Some? <==> AllGood(RangesOf(t))
    ensures r.Some? ==> r.value == RangesOf(t)
  {
    var ranges := [];
    for i := 0 to |t.starts|
      invariant ranges == RangesOf(t)[..i] && AllGood(ranges)
    {
      var start, end := t.starts[i], t.ends[i];
      if start < 0 || end <= start {
        assert !GoodRange(RangesOf(t)[i]);
        return None;
      }
      ranges := ranges + [Range(start, end)];
    }
    return Some(ranges);
  }

  /** `_validate_episode_ranges`: accepted exactly when every range is good and the ranges of
      all tables together cover each of the rows once and nothing else. */
  method ValidateEpisodeRanges(tables: seq<EpisodeTable>, rows: nat) returns (v: Verdict)
    ensures v.Accepted? <==>
      WellShaped(tables) && AllGood(AllRanges(tables)) && CoversOnce(AllRanges(tables), Start, End, 0, rows)
  {
    var ranges: seq<Range> := [];
    for k := 0 to |tables|
      invariant WellShaped(tables[..k]) && ranges == AllRanges(tables[..k]) && AllGood(ranges)
    {
      var t := tables[k];
      assert tables[..k + 1][..k] == tables[..k];
      if |t.starts| != |t.ends| { return Failed(BadRange); }
      var found := CollectRanges(t);
      if found.None? {
        BadStaysBad(tables, k);
        return Failed(BadRange);
      }
      ranges := ranges + found.value;
    }
    assert tables[..|tables|] == tables;
    var ordered := Sort(ranges, Before);
    SortedRanges(ranges, rows);
    v := Sweep(ordered, rows);
  }

  lemma {:induction false} BadStaysBad(tables: seq<EpisodeTable>, k: nat)
    requires k < |tables| && |tables[k].starts| == |tables[k].ends| && !AllGood(RangesOf(tables[k]))
    ensures WellShaped(tables) ==> !AllGood(AllRanges(tables))
    decreases |tables|
  {
    if WellShaped(tables) {
      var front, last := tables[..|tables| - 1], tables[|tables| - 1];
      if k == |tables| - 1 {
        var i :| 0 <= i < |RangesOf(last)| && !GoodRange(RangesOf(last)[i]);
        assert AllRanges(tables)[|AllRanges(front)| + i] == RangesOf(last)[i];
      } else {
        BadStaysBad(front, k);
        var i :| 0 <= i < |AllRanges(front)| && !GoodRange(AllRanges(front)[i]);
        assert AllRanges(tables)[i] == AllRanges(front)[i];
      }
    }
  }

  /** Sorting changes neither what is covered nor which ranges are good. */
  lemma SortedRanges(ranges: seq<Range>, rows: nat)
    requires AllGood(ranges)
    ensures Chained(Sort(ranges, Before), Start, End, 0, rows) <==> CoversOnce(ranges, Start, End, 0, rows)
  {
    var ordered := Sort(ranges, Before);
    BeforeIsTotal();
    SortIsOrdered(ranges, Before);
    forall i | 0 <= i < |ordered|
      ensures GoodRange(ordered[i])
    {
      assert ordered[i] in ordered;
    }
    forall x
      ensures Cover(ordered, Start, End, x) == Cover(ranges, Start, End, x)
    {
      SortKeepsCover(ranges, Before, Start, End, x);
    }
    ChainedCoversOnce(ordered, Start, End, 0, rows);
    assert CoversOnce(ordered, Start, End, 0, rows) <==> CoversOnce(ranges, Start, End, 0, rows);
  }

  // ------------------------------------------------------------------ data references

  datatype Segment = Segment(start: int, end: int, episode: int, tasks: set<int>)

  /** One data row's own idea of where it is. */
  datatype Ref = Ref(index: int, episode: int, task: int)

  function SegmentStart(s: Segment): int { s.start }

  function SegmentEnd(s: Segment): int { s.end }

  function RefIndex(r: Ref): int { r.index }

  function RefNext(r: Ref): int { r.index + 1 }

  predicate SegmentBefore(a: Segment, b: Segment) { a.start <= b.start }

  predicate RefBefore(a: Ref, b: Ref) { a.index <= b.index }

  function Flatten<T>(tables: seq<seq<T>>): seq<T> {
    if tables == [] then [] else Flatten(tables[..|tables| - 1]) + tables[|tables| - 1]
  }

  /** How many rows the first `k` tables have. */
  function Offset<T>(tables: seq<seq<T>>, k: nat): nat
    requires k <= |tables|
  {
    if k == 0 then 0 else Offset(tables, k - 1) + |tables[k - 1]|
  }

  /** The tables one after the other: each row of each table has its own place, and there are
      no others. */
  lemma {:induction false} FlattenPlaces<T>(tables: seq<seq<T>>, t: nat, j: nat)
    ensures |Flatten(tables)| == Offset(tables, |tables|)
    ensures t < |tables| && j < |tables[t]| ==>
      Offset(tables, t) + j < |Flatten(tables)| && Flatten(tables)[Offset(tables, t) + j] == tables[t][j]
    decreases |tables|
  {
    if tables != [] {
      var front := tables[..|tables| - 1];
      FlattenPlaces(front, t, j);
      OffsetOfPrefix(tables, |front|, |front|);
      assert tables[..|front|] == front;
      if t < |front| {
        OffsetOfPrefix(tables, |front|, t);
      }
    }
  }

  lemma {:induction false} OffsetOfPrefix<T>(tables: seq<seq<T>>, n: nat, k: nat)
    requires k <= n <= |tables|
    ensures Offset(tables[..n], k) == Offset(tables, k)
  {
    if k > 0 {
      OffsetOfPrefix(tables, n, k - 1);
    }
  }

  predicate Contains(s: Segment, index: int) {
    s.start <= index < s.end
  }

  /** The row's episode and task are those of a segment that contains it. */
  predicate Agrees(r: Ref, segments: seq<Segment>) {
    exists i :: 0 <= i < |segments| && Contains(segments[i], r.index)
                && r.episode == segments[i].episode && r.task in segments[i].tasks
  }

  ghost predicate AllAgree(refs: seq<Ref>, segments: seq<Segment>) {
    forall r :: r in refs ==> Agrees(r, segments)
  }

  /** The indices are `0 .. n-1`, in this order. */
  predicate Counted(refs: seq<Ref>, n: nat) {
    |refs| == n && forall i :: 0 <= i < n ==> refs[i].index == i
  }

  /** Segments in order from `from` on, each starting where the one before it ends. */
  lemma OnlyOneContains(segments: seq<Segment>, from: int, n: int, k: nat, index: int, j: nat)
    requires Chained(segments, SegmentStart, SegmentEnd, from, n)
    requires forall i :: 0 <= i < |segments| ==> segments[i].start < segments[i].end
    requires k < |segments| && Contains(segments[k], index)
    requires j < |segments| && Contains(segments[j], index)
    ensures j == k
  {
    ChainOrder(segments, from, n);
  }

  lemma {:induction false} ChainOrder(segments: seq<Segment>, from: int, n: int)
    requires Chained(segments, SegmentStart, SegmentEnd, from, n)
    requires forall i :: 0 <= i < |segments| ==> segments[i].start < segments[i].end
    ensures forall i :: 0 <= i < |segments| ==> from <= segments[i].start && segments[i].end <= n
    ensures forall i, j :: 0 <= i < j < |segments| ==> segments[i].end <= segments[j].start
    decreases |segments|
  {
    if segments != [] {
      var rest := segments[1..];
      ChainOrder(rest, segments[0].end, n);
      ChainEnd(rest, SegmentStart, SegmentEnd, segments[0].end, n);
      forall i, j | 0 <= i < j < |segments|
        ensures segments[i].end <= segments[j].start
      {
        assert segments[j] == rest[j - 1];
        assert i > 0 ==> segments[i] == rest[i - 1];
      }
      forall i | 0 <= i < |segments|
        ensures from <= segments[i].start && segments[i].end <= n
      {
        assert i > 0 ==> segments[i] == rest[i - 1];
      }
    }
  }

  /** The first segment, in order, that ends behind a row. */
  predicate IsFirstBehind(segments: seq<Segment>, index: int, k: nat) {
    k < |segments| && index < segments[k].end && forall i :: 0 <= i < k ==> segments[i].end <= index
  }

  /** That segment is there, has begun, and has the row's episode and task. */
  predicate Fits(r: Ref, segments: seq<Segment>) {
    exists k :: 0 <= k < |segments| && IsFirstBehind(segments, r.index, k) && segments[k].start <= r.index
                && r.episode == segments[k].episode && r.task in segments[k].tasks
  }

  ghost predicate AllFit(refs: seq<Ref>, segments: seq<Segment>) {
    forall r :: r in refs ==> Fits(r, segments)
  }

  /** The two-pointer sweep over rows counted from 0, whatever the segments are: the pointer
      never passes the first segment that ends behind the row. */
  method SweepRows(refs: seq<Ref>, segments: seq<Segment>, rows: nat) returns (v: Verdict)
    requires Counted(refs, rows)
    ensures v.Accepted? <==> AllFit(refs, segments)
  {
    var at := 0;
    for k := 0 to |refs|
      invariant 0 <= at <= |segments|
      invariant forall i :: 0 <= i < at ==> segments[i].end <= k
      invariant forall i :: 0 <= i < k ==> Fits(refs[i], segments)
    {
      var r := refs[k];
      while at < |segments| && r.index >= segments[at].end
        invariant 0 <= at <= |segments|
        invariant forall i :: 0 <= i < at ==> segments[i].end <= k
      {
        at := at + 1;
      }
      assert at < |segments| ==> IsFirstBehind(segments, k, at);
      assert forall j: nat :: IsFirstBehind(segments, k, j) ==> j == at;
      assert r in refs && r.index == k;
      if at >= |segments| || r.index < segments[at].start { return Failed(IndexMismatch); }
      if r.episode != segments[at].episode { return Failed(EpisodeMismatch); }
      if r.task !in segments[at].tasks { return Failed(TaskMismatch); }
    }
    return Accepted;
  }

  /** Where segments follow each other, the first that ends behind a row is the only one that
      contains it. */
  lemma FitsIsAgrees(r: Ref, segments: seq<Segment>, rows: nat)
    requires Chained(segments, SegmentStart, SegmentEnd, 0, rows) && GoodSegments(segments) && 0 <= r.index < rows
    ensures Fits(r, segments) <==> Agrees(r, segments)
  {
    ChainOrder(segments, 0, rows);
    var home := Reaches(segments, 0, rows, r.index);
    assert IsFirstBehind(segments, r.index, home);
    forall i | 0 <= i < |segments| && Contains(segments[i], r.index)
      ensures i == home
    {
      OnlyOneContains(segments, 0, rows, home, r.index, i);
    }
  }

  /** Every row lies in some segment. */
  lemma {:induction false} Reaches(segments: seq<Segment>, from: int, n: int, x: int) returns (i: nat)
    requires Chained(segments, SegmentStart, SegmentEnd, from, n) && from <= x < n
    ensures i < |segments| && Contains(segments[i], x)
    decreases |segments|
  {
    if x < segments[0].end {
      i := 0;
    } else {
      var j := Reaches(segments[1..], segments[0].end, n, x);
      i := j + 1;
    }
  }

  predicate GoodSegments(segments: seq<Segment>) {
    forall i :: 0 <= i < |segments| ==> 0 <= segments[i].start < segments[i].end
  }

  /** `_validate_data_references`. Accepted exactly when each index from 0 to `rows - 1` occurs
      once, no other does, and every row fits the first segment, by start, that ends behind
      it. For segments that the range check accepts this is: every row agrees with the one
      segment that contains it, however rows and tables are ordered. */
  method ValidateDataReferences(dataTables: seq<seq<Ref>>, episodeTables: seq<seq<Segment>>, rows: nat)
    returns (v: Verdict)
    ensures v.Accepted? <==>
      && CoversOnce(Flatten(dataTables), RefIndex, RefNext, 0, rows)
      && AllFit(Flatten(dataTables), Sort(Flatten(episodeTables), SegmentBefore))
    ensures GoodSegments(Flatten(episodeTables))
            && CoversOnce(Flatten(episodeTables), SegmentStart, SegmentEnd, 0, rows) ==>
      (v.Accepted? <==>
        && CoversOnce(Flatten(dataTables), RefIndex, RefNext, 0, rows)
        && AllAgree(Flatten(dataTables), Flatten(episodeTables)))
  {
    var segments := Sort(Flatten(episodeTables), SegmentBefore);
    var refs := Sort(Flatten(dataTables), RefBefore);
    SortedRefs(Flatten(dataTables), rows);
    if !Counted(refs, rows) { return Failed(IndexMismatch); }
    v := SweepRows(refs, segments, rows);
    SameFit(Flatten(dataTables), segments);
    if GoodSegments(Flatten(episodeTables)) && CoversOnce(Flatten(episodeTables), SegmentStart, SegmentEnd, 0, rows) {
      SortedSegments(Flatten(episodeTables), rows);
      AllFitIsAllAgree(refs, segments, rows);
      SameAgreement(Flatten(dataTables), Flatten(episodeTables));
    }
  }

  lemma AllFitIsAllAgree(refs: seq<Ref>, segments: seq<Segment>, rows: nat)
    requires Counted(refs, rows) && GoodSegments(segments) && Chained(segments, SegmentStart, SegmentEnd, 0, rows)
    ensures AllFit(refs, segments) <==> AllAgree(refs, segments)
  {
    forall r | r in refs
      ensures Fits(r, segments) <==> Agrees(r, segments)
    {
      var i :| 0 <= i < |refs| && refs[i] == r;
      FitsIsAgrees(r, segments, rows);
    }
  }

  lemma SameFit(refs: seq<Ref>, segments: seq<Segment>)
    ensures AllFit(Sort(refs, RefBefore), segments) <==> AllFit(refs, segments)
  {
    assert TotalOrder(RefBefore);
    SortIsOrdered(refs, RefBefore);
  }

  lemma SortedSegments(segments: seq<Segment>, rows: nat)
    requires GoodSegments(segments) && CoversOnce(segments, SegmentStart, SegmentEnd, 0, rows)
    ensures var ordered := Sort(segments, SegmentBefore);
      GoodSegments(ordered) && Chained(ordered, SegmentStart, SegmentEnd, 0, rows)
  {
    var ordered := Sort(segments, SegmentBefore);
    assert TotalOrder(SegmentBefore);
    SortIsOrdered(segments, SegmentBefore);
    forall i | 0 <= i < |ordered|
      ensures 0 <= ordered[i].start < ordered[i].end
    {
      assert ordered[i] in ordered;
    }
    forall x
      ensures Cover(ordered, SegmentStart, SegmentEnd, x) == Cover(segments, SegmentStart, SegmentEnd, x)
    {
      SortKeepsCover(segments, SegmentBefore, SegmentStart, SegmentEnd, x);
    }
    assert CoversOnce(ordered, SegmentStart, SegmentEnd, 0, rows);
    ChainedCoversOnce(ordered, SegmentStart, SegmentEnd, 0, rows);
  }

  lemma SortedRefs(refs: seq<Ref>, rows: nat)
    ensures Counted(Sort(refs, RefBefore), rows) <==> CoversOnce(refs, RefIndex, RefNext, 0, rows)
  {
    var ordered := Sort(refs, RefBefore);
    assert TotalOrder(RefBefore);
    SortIsOrdered(refs, RefBefore);
    forall x
      ensures Cover(ordered, RefIndex, RefNext, x) == Cover(refs, RefIndex, RefNext, x)
    {
      SortKeepsCover(refs, RefBefore, RefIndex, RefNext, x);
    }
    ChainedCoversOnce(ordered, RefIndex, RefNext, 0, rows);
    CountedIsChained(ordered, 0, rows);
    assert CoversOnce(ordered, RefIndex, RefNext, 0, rows) <==> CoversOnce(refs, RefIndex, RefNext, 0, rows);
  }

  lemma {:induction false} CountedIsChained(refs: seq<Ref>, from: int, n: int)
    requires from <= n
    ensures Chained(refs, RefIndex, RefNext, from, n) <==>
      |refs| == n - from && forall i :: 0 <= i < |refs| ==> refs[i].index == from + i
    decreases |refs|
  {
    if refs != [] {
      var rest := refs[1..];
      if from < n {
        CountedIsChained(rest, from + 1, n);
        assert forall i :: 1 <= i < |refs| ==> refs[i] == rest[i - 1];
      } else if Chained(refs, RefIndex, RefNext, from, n) {
        ChainEnd(rest, RefIndex, RefNext, from + 1, n);
      }
    }
  }

  lemma SameAgreement(refs: seq<Ref>, segments: seq<Segment>)
    ensures AllAgree(Sort(refs, RefBefore), Sort(segments, SegmentBefore)) <==> AllAgree(refs, segments)
  {
    var orderedRefs, orderedSegments := Sort(refs, RefBefore), Sort(segments, SegmentBefore);
    assert TotalOrder(RefBefore) && TotalOrder(SegmentBefore);
    SortIsOrdered(refs, RefBefore);
    SortIsOrdered(segments, SegmentBefore);
    hide Agrees, Sort;
    forall r
      ensures Agrees(r, orderedSegments) <==> Agrees(r, segments)
    {
      AgreesByMembers(r, segments, orderedSegments);
      AgreesByMembers(r, orderedSegments, segments);
    }
  }

  lemma AgreesByMembers(r: Ref, a: seq<Segment>, b: seq<Segment>)
    requires forall s :: s in a ==> s in b
    ensures Agrees(r, a) ==> Agrees(r, b)
  {
    if Agrees(r, a) {
      var i :| 0 <= i < |a| && Contains(a[i], r.index) && r.episode == a[i].episode && r.task in a[i].tasks;
      assert a[i] in b;
      var j :| 0 <= j < |b| && b[j] == a[i];
    }
  }
}
