/** Reading the contract manifest: the checks that turn it, and the destinations the caller
    names, into a request. */
module PartitionManifest {
  import opened Common
  import opened PartitionModel
  import opened PartitionDisk
  import opened PartitionBootstrap
  import opened PartitionCommands
  import opened PartitionRuns
  import opened Sorting
  import J = Json

  /** The digest of a contract's canonical encoding, the pattern for serial numbers, and the
      parts of the source task's path. */
  datatype Rules = Rules(digest: J.Entry -> Digest, name: string -> bool, source: seq<string>)

  /** A field that is missing or not of its type is `None`; a serial of another type is a
      name that the pattern rejects. */
  datatype Partition = Partition(digest: Option<Digest>, contract: Option<J.Entry>, serials: Option<seq<Serial>>)

  datatype Recording = Recording(serial: Option<Serial>, digest: Option<Digest>, resolved: bool)

  datatype Summary = Summary(invalid: int, partitions: int, resolved: int, total: int)

  /** `invalid` is the list of recordings that resolved to no contract, `task` the parts of a
      path if the field is one, and whether it is absolute. */
  datatype Header = Header(
    version: int, contractVersion: int, algorithm: string, invariants: map<string, bool>,
    invalid: Option<seq<Serial>>, task: Option<seq<string>>, absolute: bool)

  const Invariants: map<string, bool> := map[
    "partition_intersections_empty" := true,
    "raw_mutation_performed" := false,
    "recorded_exactly_once" := true,
    "resolved_invalid_intersection_empty" := true]

  datatype Manifest = Manifest(header: Header, partitions: seq<Partition>, recordings: seq<Recording>, summary: Summary)

  type Table = map<Digest, seq<Serial>>

  // ------------------------------------------------------------------ what is accepted

  /** The source task's path ends in the relative path the manifest names. */
  predicate NamesSource(task: seq<string>, source: seq<string>) {
    && task != [] && (forall i :: 0 <= i < |task| ==> task[i] != "" && task[i] != "." && task[i] != "..")
    && exists before :: 0 <= before <= |source| && source[before..] == task
  }

  predicate GoodHeader(rules: Rules, h: Header) {
    && h.version == 1 && h.contractVersion == 1 && h.algorithm == "sha256"
    && h.invariants == Invariants && h.invalid == Some([])
    && h.task.Some? && !h.absolute && NamesSource(h.task.value, rules.source)
  }

  function SerialsOf(p: Partition): seq<Serial> {
    if p.serials.Some? then p.serials.value else []
  }

  ghost predicate GoodNames(rules: Rules, serials: seq<Serial>) {
    && (forall i :: 0 <= i < |serials| ==> rules.name(serials[i]))
    && J.Ascending(serials)
  }

  ghost predicate GoodPartition(rules: Rules, p: Partition) {
    && p.digest.Some? && p.contract.Some? && rules.digest(p.contract.value) == p.digest.value
    && p.serials.Some? && p.serials.value != [] && GoodNames(rules, p.serials.value)
  }

  ghost predicate Apart(p: Partition, q: Partition) {
    p.digest != q.digest && forall s :: s in SerialsOf(p) ==> s !in SerialsOf(q)
  }

  ghost predicate GoodPartitions(rules: Rules, ps: seq<Partition>) {
    && (forall i :: 0 <= i < |ps| ==> GoodPartition(rules, ps[i]))
    && (forall i, j :: 0 <= i < j < |ps| ==> Apart(ps[i], ps[j]))
  }

  /** A partition of contract `d` lists `s`. */
  ghost predicate Lists(ps: seq<Partition>, d: Digest, s: Serial) {
    exists i :: 0 <= i < |ps| && ps[i].digest == Some(d) && s in SerialsOf(ps[i])
  }

  ghost predicate HasDigest(ps: seq<Partition>, d: Digest) {
    exists i :: 0 <= i < |ps| && ps[i].digest == Some(d)
  }

  ghost predicate GoodRecording(rules: Rules, ps: seq<Partition>, r: Recording) {
    && r.resolved && r.serial.Some? && rules.name(r.serial.value)
    && r.digest.Some? && HasDigest(ps, r.digest.value)
  }

  ghost predicate GoodRecordings(rules: Rules, ps: seq<Partition>, rs: seq<Recording>) {
    && (forall i :: 0 <= i < |rs| ==> GoodRecording(rules, ps, rs[i]))
    && (forall i, j :: 0 <= i < j < |rs| ==> rs[i].serial != rs[j].serial)
  }

  ghost predicate Records(rs: seq<Recording>, d: Digest, s: Serial) {
    exists i :: 0 <= i < |rs| && rs[i].serial == Some(s) && rs[i].digest == Some(d)
  }

  /** Both lists say the same of every serial, and the summary counts them. */
  ghost predicate Accepted(rules: Rules, m: Manifest) {
    && GoodHeader(rules, m.header) && m.partitions != []
    && GoodPartitions(rules, m.partitions)
    && GoodRecordings(rules, m.partitions, m.recordings)
    && (forall d: Digest, s: Serial :: Records(m.recordings, d, s) <==> Lists(m.partitions, d, s))
    && m.summary == Summary(0, |m.partitions|, |m.recordings|, |m.recordings|)
  }

  /** The partitions as a dictionary. */
  ghost predicate IsTable(ps: seq<Partition>, table: Table) {
    && |table| == |ps|
    && (forall d: Digest :: d in table <==> HasDigest(ps, d))
    && (forall d: Digest, s: Serial :: d in table ==> (s in table[d] <==> Lists(ps, d, s)))
    && (forall i :: 0 <= i < |ps| ==>
          && ps[i].digest.Some? && ps[i].digest.value in table
          && table[ps[i].digest.value] == SerialsOf(ps[i]))
  }

  ghost predicate IsOwners(rs: seq<Recording>, owners: map<Serial, Digest>) {
    && |owners| == |rs|
    && forall d: Digest, s: Serial :: (s in owners && owners[s] == d) <==> Records(rs, d, s)
  }

  // ------------------------------------------------------------------ partitions

  /** One partition's serials: names, new to the manifest, and in order. */
  method ReadSerials(rules: Rules, serials: seq<Serial>, seen0: set<Serial>) returns (ok: bool, seen: set<Serial>)
    ensures ok <==> GoodNames(rules, serials) && forall s :: s in serials ==> s !in seen0
    ensures ok ==> forall s :: s in seen <==> s in seen0 || s in serials
  {
    seen := seen0;
    for k := 0 to |serials|
      invariant forall i :: 0 <= i < k ==> rules.name(serials[i]) && serials[i] !in seen0
      invariant forall s :: s in seen <==> s in seen0 || s in serials[..k]
    {
      assert serials[..k + 1] == serials[..k] + [serials[k]];
      if !rules.name(serials[k]) || serials[k] in seen {
        Repeated(serials, k);
        return false, seen;
      }
      seen := seen + {serials[k]};
    }
    assert serials[..|serials|] == serials;
    J.SortedSetIsSorted(serials);
    if J.SortedSet(serials) == serials {
      return true, seen;
    }
    if J.Ascending(serials) {
      J.SortedSetOfSorted(serials);
    }
    ok := false;
  }

  /** A name that was there before makes the list not ascending. */
  lemma Repeated(serials: seq<Serial>, k: nat)
    requires k < |serials|
    ensures serials[k] in serials[..k] ==> !J.Ascending(serials)
  {
    J.LessIsTotal(serials[k], serials[k]);
  }

  /** The serials of the first `k` partitions. */
  ghost predicate IsSeen(ps: seq<Partition>, k: nat, seen: set<Serial>)
    requires k <= |ps|
  {
    forall s :: s in seen <==> exists i :: 0 <= i < k && s in SerialsOf(ps[i])
  }

  lemma SeenStep(ps: seq<Partition>, k: nat, seen: set<Serial>, seen': set<Serial>)
    requires k < |ps| && IsSeen(ps, k, seen)
    requires forall s :: s in seen' <==> s in seen || s in SerialsOf(ps[k])
    ensures IsSeen(ps, k + 1, seen')
  {
  }

  lemma NothingRead(rules: Rules, ps: seq<Partition>, rs: seq<Recording>)
    ensures GoodPartitions(rules, ps[..0]) && IsTable(ps[..0], map[]) && IsSeen(ps, 0, {})
    ensures GoodRecordings(rules, ps, rs[..0]) && IsOwners(rs[..0], map[]) && IsOwned(rs, 0, map[])
  {
  }

  /** The loop over the partitions. */
  method ReadPartitions(rules: Rules, ps: seq<Partition>) returns (r: Option<Table>)
    ensures r.Some? <==> GoodPartitions(rules, ps)
    ensures r.Some? ==> IsTable(ps, r.value)
  {
    hide GoodPartitions, IsTable, IsSeen, GoodNames;
    var table: Table := map[];
    var seen: set<Serial> := {};
    NothingRead(rules, ps, []);
    for k := 0 to |ps|
      invariant GoodPartitions(rules, ps[..k]) && IsTable(ps[..k], table) && IsSeen(ps, k, seen)
    {
      var p := ps[k];
      if p.digest.None? || p.contract.None? || p.serials.None? || p.digest.value in table
         || rules.digest(p.contract.value) != p.digest.value || p.serials.value == [] {
        RefusedPartition(rules, ps, table, k);
        return None;
      }
      var ok, seen' := ReadSerials(rules, p.serials.value, seen);
      if !ok {
        SeenBefore(rules, ps, seen, k);
        return None;
      }
      OnePartition(rules, ps, table, seen, k);
      SeenStep(ps, k, seen, seen');
      table, seen := table[p.digest.value := p.serials.value], seen';
    }
    assert ps[..|ps|] == ps;
    r := Some(table);
  }

  lemma RefusedPartition(rules: Rules, ps: seq<Partition>, table: Table, k: nat)
    requires k < |ps| && IsTable(ps[..k], table)
    requires var p := ps[k];
      || p.digest.None? || p.contract.None? || p.serials.None? || p.digest.value in table
      || rules.digest(p.contract.value) != p.digest.value || p.serials.value == []
    ensures !GoodPartitions(rules, ps)
  {
    if ps[k].digest.Some? && ps[k].digest.value in table {
      var i :| 0 <= i < |ps[..k]| && ps[..k][i].digest == ps[k].digest;
      assert !Apart(ps[i], ps[k]);
    } else {
      assert !GoodPartition(rules, ps[k]);
    }
  }

  lemma SeenBefore(rules: Rules, ps: seq<Partition>, seen: set<Serial>, k: nat)
    requires k < |ps| && ps[k].serials.Some? && IsSeen(ps, k, seen)
    requires !GoodNames(rules, SerialsOf(ps[k])) || exists s :: s in SerialsOf(ps[k]) && s in seen
    ensures !GoodPartitions(rules, ps)
  {
    if GoodNames(rules, SerialsOf(ps[k])) {
      var s :| s in SerialsOf(ps[k]) && s in seen;
      var i :| 0 <= i < k && s in SerialsOf(ps[i]);
      assert !Apart(ps[i], ps[k]);
    } else {
      assert !GoodPartition(rules, ps[k]);
    }
  }

  /** One good partition more. */
  lemma OnePartition(rules: Rules, ps: seq<Partition>, table: Table, seen: set<Serial>, k: nat)
    requires k < |ps| && GoodPartitions(rules, ps[..k]) && IsTable(ps[..k], table) && IsSeen(ps, k, seen)
    requires GoodPartition(rules, ps[k]) && ps[k].digest.value !in table
    requires forall s :: s in SerialsOf(ps[k]) ==> s !in seen
    ensures GoodPartitions(rules, ps[..k + 1])
    ensures IsTable(ps[..k + 1], table[ps[k].digest.value := ps[k].serials.value])
  {
    assert ps[..k + 1] == ps[..k] + [ps[k]];
    forall i | 0 <= i < k
      ensures Apart(ps[..k][i], ps[k])
    {
      assert HasDigest(ps[..k], ps[..k][i].digest.value);
    }
    hide IsSeen, Lists, HasDigest, GoodNames;
    PartitionsWith(rules, ps[..k], ps[k]);
    TableWith(ps[..k], table, ps[k]);
  }

  lemma PartitionsWith(rules: Rules, a: seq<Partition>, p: Partition)
    requires GoodPartitions(rules, a) && GoodPartition(rules, p)
    requires forall i :: 0 <= i < |a| ==> Apart(a[i], p)
    ensures GoodPartitions(rules, a + [p])
  {
  }

  lemma ListsWith(a: seq<Partition>, p: Partition, d: Digest, s: Serial)
    ensures HasDigest(a + [p], d) <==> HasDigest(a, d) || p.digest == Some(d)
    ensures Lists(a + [p], d, s) <==> Lists(a, d, s) || (p.digest == Some(d) && s in SerialsOf(p))
  {
    var b := a + [p];
    assert b[|a|] == p && forall i :: 0 <= i < |a| ==> b[i] == a[i];
    if HasDigest(a, d) {
      var i :| 0 <= i < |a| && a[i].digest == Some(d);
      assert b[i].digest == Some(d);
    }
    if Lists(a, d, s) {
      var i :| 0 <= i < |a| && a[i].digest == Some(d) && s in SerialsOf(a[i]);
      assert b[i].digest == Some(d) && s in SerialsOf(b[i]);
    }
  }

  lemma TableWith(a: seq<Partition>, table: Table, p: Partition)
    requires IsTable(a, table) && p.digest.Some? && p.serials.Some? && p.digest.value !in table
    ensures IsTable(a + [p], table[p.digest.value := p.serials.value])
  {
    var b, t := a + [p], table[p.digest.value := p.serials.value];
    forall d: Digest
      ensures d in t <==> HasDigest(b, d)
    {
      ListsWith(a, p, d, "");
    }
    forall d: Digest, s: Serial | d in t
      ensures s in t[d] <==> Lists(b, d, s)
    {
      ListsWith(a, p, d, s);
      if Lists(a, d, s) {
        ListedHasDigest(a, d, s);
      }
    }
    hide HasDigest, Lists;
    forall i | 0 <= i < |b|
      ensures b[i].digest.Some? && b[i].digest.value in t && t[b[i].digest.value] == SerialsOf(b[i])
    {
      assert i < |a| ==> b[i] == a[i];
    }
  }

  lemma ListedHasDigest(ps: seq<Partition>, d: Digest, s: Serial)
    requires Lists(ps, d, s)
    ensures HasDigest(ps, d)
  {
  }

  // ------------------------------------------------------------------ recordings

  ghost predicate IsOwned(rs: seq<Recording>, k: nat, owners: map<Serial, Digest>)
    requires k <= |rs|
  {
    forall s :: s in owners <==> exists i :: 0 <= i < k && rs[i].serial == Some(s)
  }

  lemma OwnedStep(rs: seq<Recording>, k: nat, owners: map<Serial, Digest>, d: Digest)
    requires k < |rs| && rs[k].serial.Some? && IsOwned(rs, k, owners)
    ensures IsOwned(rs, k + 1, owners[rs[k].serial.value := d])
  {
  }

  /** The loop over the recordings. */
  method ReadRecordings(rules: Rules, ps: seq<Partition>, table: Table, rs: seq<Recording>)
    returns (r: Option<map<Serial, Digest>>)
    requires IsTable(ps, table)
    ensures r.Some? <==> GoodRecordings(rules, ps, rs)
    ensures r.Some? ==> IsOwners(rs, r.value)
  {
    hide GoodRecordings, IsOwners, IsOwned, IsTable, HasDigest;
    var owners: map<Serial, Digest> := map[];
    NothingRead(rules, ps, rs);
    for k := 0 to |rs|
      invariant GoodRecordings(rules, ps, rs[..k]) && IsOwners(rs[..k], owners) && IsOwned(rs, k, owners)
    {
      var e := rs[k];
      if e.digest.Some? {
        InTable(ps, table, e.digest.value);
      }
      if !e.resolved || e.serial.None? || !rules.name(e.serial.value) || e.serial.value in owners
         || e.digest.None? || e.digest.value !in table {
        RefusedRecording(rules, ps, rs, owners, k);
        return None;
      }
      OneRecording(rules, ps, rs, owners, k);
      OwnedStep(rs, k, owners, e.digest.value);
      owners := owners[e.serial.value := e.digest.value];
    }
    assert rs[..|rs|] == rs;
    r := Some(owners);
  }

  lemma InTable(ps: seq<Partition>, table: Table, d: Digest)
    requires IsTable(ps, table)
    ensures d in table <==> HasDigest(ps, d)
  {
  }

  lemma RefusedRecording(rules: Rules, ps: seq<Partition>, rs: seq<Recording>, owners: map<Serial, Digest>, k: nat)
    requires k < |rs| && IsOwned(rs, k, owners)
    requires !GoodRecording(rules, ps, rs[k]) || rs[k].serial.value in owners
    ensures !GoodRecordings(rules, ps, rs)
  {
  }

  lemma OneRecording(rules: Rules, ps: seq<Partition>, rs: seq<Recording>, owners: map<Serial, Digest>, k: nat)
    requires k < |rs| && GoodRecordings(rules, ps, rs[..k]) && IsOwners(rs[..k], owners)
    requires IsOwned(rs, k, owners)
    requires GoodRecording(rules, ps, rs[k]) && rs[k].serial.value !in owners
    ensures GoodRecordings(rules, ps, rs[..k + 1])
    ensures IsOwners(rs[..k + 1], owners[rs[k].serial.value := rs[k].digest.value])
  {
    var a, b := rs[..k], rs[..k + 1];
    assert b == a + [rs[k]];
    assert forall i :: 0 <= i < k ==> a[i] == rs[i] && rs[i].serial != rs[k].serial;
    assert GoodRecordings(rules, ps, b);
    hide GoodRecordings, GoodRecording, IsOwned;
    forall d: Digest, s: Serial
      ensures Records(b, d, s) <==> Records(a, d, s) || (rs[k].serial == Some(s) && rs[k].digest == Some(d))
    {
      if Records(a, d, s) {
        var i :| 0 <= i < |a| && a[i].serial == Some(s) && a[i].digest == Some(d);
        assert b[i].serial == Some(s) && b[i].digest == Some(d);
      }
      if rs[k].serial == Some(s) && rs[k].digest == Some(d) {
        assert b[k].serial == Some(s);
      }
    }
  }

  // ------------------------------------------------------------------ the manifest

  ghost predicate OwnedOnce(table: Table) {
    forall d: Digest, e: Digest, s: Serial :: d in table && e in table && s in table[d] && s in table[e] ==> d == e
  }

  /** The owner of each serial by the partitions. */
  function Expected(table: Table): (r: map<Serial, Digest>)
    requires OwnedOnce(table)
    ensures forall d: Digest, s: Serial :: (s in r && r[s] == d) <==> (d in table && s in table[d])
  {
    map d, s | d in table && s in table[d] :: s := d
  }

  lemma ListedOnce(rules: Rules, ps: seq<Partition>, d: Digest, e: Digest, s: Serial)
    requires GoodPartitions(rules, ps) && Lists(ps, d, s) && Lists(ps, e, s)
    ensures d == e
  {
    var i :| 0 <= i < |ps| && ps[i].digest == Some(d) && s in SerialsOf(ps[i]);
    var j :| 0 <= j < |ps| && ps[j].digest == Some(e) && s in SerialsOf(ps[j]);
    assert i < j ==> Apart(ps[i], ps[j]);
    assert j < i ==> Apart(ps[j], ps[i]);
  }

  lemma GoodIsOwnedOnce(rules: Rules, ps: seq<Partition>, table: Table)
    requires GoodPartitions(rules, ps) && IsTable(ps, table)
    ensures OwnedOnce(table)
  {
    hide Lists, HasDigest, GoodPartitions;
    forall d: Digest, e: Digest, s: Serial | d in table && e in table && s in table[d] && s in table[e]
      ensures d == e
    {
      assert Lists(ps, d, s) && Lists(ps, e, s);
      ListedOnce(rules, ps, d, e, s);
    }
  }

  /** Comparing the dictionaries compares the lists. */
  lemma SameOwners(m: Manifest, table: Table, owners: map<Serial, Digest>)
    requires IsTable(m.partitions, table) && OwnedOnce(table) && IsOwners(m.recordings, owners)
    ensures owners == Expected(table) <==>
      forall d: Digest, s: Serial :: Records(m.recordings, d, s) <==> Lists(m.partitions, d, s)
  {
    var expected := Expected(table);
    forall d: Digest, s: Serial
      ensures Lists(m.partitions, d, s) <==> (s in expected && expected[s] == d)
    {
      ListedIsExpected(m.partitions, table, d, s);
    }
    hide IsTable, OwnedOnce, Lists, Records, HasDigest, Expected;
    if forall d: Digest, s: Serial :: Records(m.recordings, d, s) <==> Lists(m.partitions, d, s) {
      assert forall s: Serial :: s in owners ==> Records(m.recordings, owners[s], s);
      assert forall s: Serial :: s in expected ==> Lists(m.partitions, expected[s], s);
      SameMaps(owners, expected);
    }
  }

  lemma SameMaps(a: map<Serial, Digest>, b: map<Serial, Digest>)
    requires forall s :: s in a ==> s in b && b[s] == a[s]
    requires forall s :: s in b ==> s in a
    ensures a == b
  {
  }

  lemma ListedIsExpected(ps: seq<Partition>, table: Table, d: Digest, s: Serial)
    requires IsTable(ps, table) && OwnedOnce(table)
    ensures var expected := Expected(table); Lists(ps, d, s) <==> (s in expected && expected[s] == d)
  {
    if Lists(ps, d, s) {
      ListedHasDigest(ps, d, s);
    }
  }

  /** What comes before the partitions. */
  method ReadHeader(rules: Rules, h: Header) returns (ok: bool)
    ensures ok <==> GoodHeader(rules, h)
  {
    if h.version != 1 || h.contractVersion != 1 || h.algorithm != "sha256"
       || h.invariants != Invariants || h.invalid != Some([]) {
      return false;
    }
    if h.task.None? {
      return false;
    }
    var task, source := h.task.value, rules.source;
    if task == [] || h.absolute {
      return false;
    }
    for i := 0 to |task|
      invariant forall j :: 0 <= j < i ==> task[j] != "" && task[j] != "." && task[j] != ".."
    {
      if task[i] == "" || task[i] == "." || task[i] == ".." {
        return false;
      }
    }
    var before := if |task| <= |source| then |source| - |task| else 0;
    assert forall b :: 0 <= b <= |source| && source[b..] == task ==> b == before;
    ok := source[before..] == task;
  }

  /** `_validate_contract_manifest`, with the owners it compared. */
  method ValidateManifest(rules: Rules, m: Manifest) returns (r: Option<(Table, map<Serial, Digest>)>)
    ensures r.Some? <==> Accepted(rules, m)
    ensures r.Some? ==> IsTable(m.partitions, r.value.0) && IsOwners(m.recordings, r.value.1)
  {
    var good := ReadHeader(rules, m.header);
    if !good || m.partitions == [] {
      return None;
    }
    var table := ReadPartitions(rules, m.partitions);
    if table.None? {
      return None;
    }
    var owners := ReadRecordings(rules, m.partitions, table.value, m.recordings);
    if owners.None? {
      return None;
    }
    GoodIsOwnedOnce(rules, m.partitions, table.value);
    SameOwners(m, table.value, owners.value);
    hide GoodHeader, GoodPartitions, GoodRecordings, Lists, Records, HasDigest, OwnedOnce;
    var expected := Expected(table.value);
    if owners.value != expected {
      return None;
    }
    if m.summary != Summary(0, |table.value|, |expected|, |expected|) {
      return None;
    }
    r := Some((table.value, owners.value));
  }

  // ------------------------------------------------------------------ the request

  function At(d: Digest): int { d }
  function After(d: Digest): int { d + 1 }
  predicate AtMost(a: Digest, b: Digest) { a <= b }

  function DigestsOf(ps: seq<Partition>): (r: seq<Digest>)
    requires forall i :: 0 <= i < |ps| ==> ps[i].digest.Some?
    ensures |r| == |ps| && forall i :: 0 <= i < |ps| ==> r[i] == ps[i].digest.value
  {
    seq(|ps|, i requires 0 <= i < |ps| => ps[i].digest.value)
  }

  lemma {:induction false} CoveredOnce(s: seq<Digest>, d: Digest)
    requires NoDuplicates(s)
    ensures Cover(s, At, After, d) <= 1
    ensures d !in s ==> Cover(s, At, After, d) == 0
  {
    if s != [] {
      assert s == [s[0]] + s[1..];
      assert s[0] !in s[1..];
      assert NoDuplicates(s[1..]);
      CoveredOnce(s[1..], d);
    }
  }

  /** Sorting different digests orders them strictly. */
  lemma SortIsStrict(s: seq<Digest>)
    requires NoDuplicates(s)
    ensures Sorted(Sort(s, AtMost)) && forall d: Digest :: d in Sort(s, AtMost) <==> d in s
  {
    var order := Sort(s, AtMost);
    assert TotalOrder(AtMost);
    SortIsOrdered(s, AtMost);
    forall i, j | 0 <= i < j < |order|
      ensures order[i] < order[j]
    {
      assert AtMost(order[i], order[j]);
      if order[i] == order[j] {
        CoverTwice(order, At, After, i, j, order[i]);
        SortKeepsCover(s, AtMost, At, After, order[i]);
        CoveredOnce(s, order[i]);
        assert false;
      }
    }
  }

  ghost predicate Wanted(ps: seq<Partition>, keep: Digest, destinations: set<Digest>) {
    HasDigest(ps, keep) && forall d: Digest :: d in destinations <==> HasDigest(ps, d) && d != keep
  }

  /** The request says what the manifest says. */
  ghost predicate Requests(m: Manifest, keep: Digest, request: Request) {
    && request.keep == keep
    && IsTable(m.partitions, request.partitions)
    && IsOwners(m.recordings, request.digestOf)
  }

  /** From the manifest and the caller's destinations to the request: made exactly when the
      manifest is accepted and there is one destination for each contract that leaves, and
      then it is a valid one. */
  method ReadRequest(rules: Rules, m: Manifest, keep: Digest, destinations: set<Digest>) returns (r: Option<Request>)
    ensures r.Some? <==> Accepted(rules, m) && Wanted(m.partitions, keep, destinations)
    ensures r.Some? ==> ValidRequest(r.value) && Requests(m, keep, r.value)
  {
    var read := ValidateManifest(rules, m);
    if read.None? {
      return None;
    }
    var table, owners := read.value.0, read.value.1;
    HaveDigests(rules, m);
    WantedExact(m.partitions, table, keep, destinations);
    hide Accepted, IsOwners, ValidRequest, HasDigest, Lists, Sort, Wanted;
    if keep !in table || destinations != table.Keys - {keep} {
      return None;
    }
    var order := Sort(DigestsOf(m.partitions), AtMost);
    var request := Request(keep, order, table, owners, destinations);
    RequestIsValid(rules, m, request);
    r := Some(request);
  }

  lemma WantedExact(ps: seq<Partition>, table: Table, keep: Digest, destinations: set<Digest>)
    requires IsTable(ps, table)
    ensures Wanted(ps, keep, destinations) <==> keep in table && destinations == table.Keys - {keep}
  {
    hide Lists, HasDigest;
  }

  lemma HaveDigests(rules: Rules, m: Manifest)
    requires Accepted(rules, m)
    ensures forall i :: 0 <= i < |m.partitions| ==> m.partitions[i].digest.Some?
  {
  }

  lemma RequestIsValid(rules: Rules, m: Manifest, request: Request)
    requires Accepted(rules, m) && Requests(m, request.keep, request)
    requires request.keep in request.partitions && request.destinations == request.partitions.Keys - {request.keep}
    requires request.order == Sort(DigestsOf(m.partitions), AtMost)
    ensures ValidRequest(request)
  {
    hide Lists, Records, Sort, Accepted, HasDigest, Sorted;
    OwnersAreRight(rules, m, request);
    OrderIsRight(rules, m);
    PartitionsAreRight(rules, m, request.partitions);
    OrderedLikeTable(m.partitions, request.partitions, request.order);
    hide Requests, IsTable;
  }

  lemma OrderedLikeTable(ps: seq<Partition>, table: Table, order: seq<Digest>)
    requires IsTable(ps, table) && forall d: Digest :: d in order <==> HasDigest(ps, d)
    ensures forall d: Digest :: d in order <==> d in table
  {
    hide Lists, HasDigest;
    forall d: Digest
      ensures d in order <==> d in table
    {
      InTable(ps, table, d);
    }
  }

  lemma OrderIsRight(rules: Rules, m: Manifest)
    requires Accepted(rules, m)
    ensures forall i :: 0 <= i < |m.partitions| ==> m.partitions[i].digest.Some?
    ensures var order := Sort(DigestsOf(m.partitions), AtMost);
      Sorted(order) && forall d: Digest :: d in order <==> HasDigest(m.partitions, d)
  {
    var ps := m.partitions;
    var digests := DigestsOf(ps);
    forall i, j | 0 <= i < j < |digests|
      ensures digests[i] != digests[j]
    {
      assert Apart(ps[i], ps[j]);
    }
    SortIsStrict(digests);
    forall d: Digest
      ensures d in digests <==> HasDigest(ps, d)
    {
      if HasDigest(ps, d) {
        var i :| 0 <= i < |ps| && ps[i].digest == Some(d);
        assert digests[i] == d;
      }
    }
  }

  lemma PartitionsAreRight(rules: Rules, m: Manifest, table: Table)
    requires Accepted(rules, m) && IsTable(m.partitions, table)
    ensures forall d: Digest :: d in table ==> table[d] != [] && NoDuplicates(table[d])
  {
    var ps := m.partitions;
    forall d: Digest | d in table
      ensures table[d] != [] && NoDuplicates(table[d])
    {
      var i :| 0 <= i < |ps| && ps[i].digest == Some(d);
      assert GoodPartition(rules, ps[i]);
      AscendingHasNoDuplicates(table[d]);
    }
  }

  lemma OwnersAreRight(rules: Rules, m: Manifest, request: Request)
    requires Accepted(rules, m) && Requests(m, request.keep, request)
    ensures forall d: Digest, s: Serial :: d in request.partitions && s in request.partitions[d] ==>
      s in request.digestOf && request.digestOf[s] == d
    ensures forall s: Serial :: s in request.digestOf ==>
      request.digestOf[s] in request.partitions && s in request.partitions[request.digestOf[s]]
  {
    forall d: Digest, s: Serial | d in request.partitions && s in request.partitions[d]
      ensures s in request.digestOf && request.digestOf[s] == d
    {
      assert Records(m.recordings, d, s);
    }
    forall s: Serial | s in request.digestOf
      ensures request.digestOf[s] in request.partitions && s in request.partitions[request.digestOf[s]]
    {
      var d := request.digestOf[s];
      assert Records(m.recordings, d, s);
      ListedHasDigest(m.partitions, d, s);
    }
  }

  lemma AscendingHasNoDuplicates(s: seq<Serial>)
    requires J.Ascending(s)
    ensures NoDuplicates(s)
  {
    forall i, j | 0 <= i < j < |s|
      ensures s[i] != s[j]
    {
      J.LessIsTotal(s[i], s[j]);
    }
  }

  // ------------------------------------------------------------------ from manifest to disk

  /** A recording of contract `d` is in the source or in the destination of `d`. */
  ghost predicate PlacedAs(keep: Digest, fs: Fs, s: Serial, d: Digest) {
    if d == keep then s in fs.source.recordings
    else s !in fs.source.recordings && InDestination(fs, d, s)
  }

  /** Every recording of the manifest is where the manifest says. */
  ghost predicate Obeyed(m: Manifest, keep: Digest, fs: Fs) {
    forall d: Digest, s: Serial :: Records(m.recordings, d, s) ==> PlacedAs(keep, fs, s, d)
  }

  lemma CommittedObeys(m: Manifest, keep: Digest, fs: Fs, p: Plan)
    requires ValidRequest(p.request) && CommittedState(fs, p) && Requests(m, keep, p.request)
    ensures Obeyed(m, keep, fs)
  {
    hide ValidRequest, CommittedState, Records, PlacedAs, IsTable;
    forall d: Digest, s: Serial | Records(m.recordings, d, s)
      ensures PlacedAs(keep, fs, s, d)
    {
      CommittedPlaces(fs, p, s);
    }
  }

  lemma CommittedPlaces(fs: Fs, p: Plan, s: Serial)
    requires ValidRequest(p.request) && CommittedState(fs, p) && s in p.request.digestOf
    ensures PlacedAs(p.request.keep, fs, s, p.request.digestOf[s])
  {
    var d := p.request.digestOf[s];
    assert d in p.request.partitions;
    if d != p.request.keep {
      assert d in p.request.destinations;
      assert HoldsExactly(SlotOf(fs, d).published.value, p, d);
    }
  }

  /** Nothing has been done yet: no journal, the source holds exactly the recordings that the
      manifest lists, and none of the destinations exists. */
  ghost predicate Untouched(m: Manifest, destinations: set<Digest>, fs: Fs, log: Log) {
    && (log == NoLog(false) || log == Bare)
    && (forall s: Serial :: s in fs.source.recordings <==>
          exists i :: 0 <= i < |m.recordings| && m.recordings[i].serial == Some(s))
    && (forall d: Digest :: d in destinations ==>
          SlotOf(fs, d).construction.None? && SlotOf(fs, d).published.None?)
  }

  /** A valid request that says what the manifest says; there is only one. */
  ghost predicate Says(m: Manifest, keep: Digest, request: Request) {
    ValidRequest(request) && Requests(m, keep, request)
  }

  lemma RequestIsUnique(m: Manifest, keep: Digest, a: Request, b: Request)
    requires Says(m, keep, a) && Says(m, keep, b)
    ensures a == b
  {
    hide HasDigest, Lists, Records, Sorted;
    assert a.keep == b.keep == keep && a.destinations == a.partitions.Keys - {keep};
    assert b.destinations == b.partitions.Keys - {keep};
    hide ValidRequest;
    assert a.partitions.Keys == b.partitions.Keys by {
      forall d: Digest
        ensures d in a.partitions <==> d in b.partitions
      {
        assert d in a.partitions <==> HasDigest(m.partitions, d);
      }
    }
    forall d: Digest | d in a.partitions
      ensures a.partitions[d] == b.partitions[d]
    {
      assert HasDigest(m.partitions, d);
      SameList(m.partitions, a.partitions, b.partitions, d);
    }
    assert a.partitions == b.partitions;
    forall s: Serial
      ensures s in a.digestOf ==> s in b.digestOf && b.digestOf[s] == a.digestOf[s]
      ensures s in b.digestOf ==> s in a.digestOf
    {
      assert s in a.digestOf ==> Records(m.recordings, a.digestOf[s], s);
      assert s in b.digestOf ==> Records(m.recordings, b.digestOf[s], s);
    }
    assert a.digestOf == b.digestOf;
    OrderIsUnique(a.order, b.order);
  }

  lemma SameList(ps: seq<Partition>, a: Table, b: Table, d: Digest)
    requires IsTable(ps, a) && IsTable(ps, b) && d in a && d in b
    ensures a[d] == b[d]
  {
    var i :| 0 <= i < |ps| && ps[i].digest == Some(d);
    assert a[ps[i].digest.value] == SerialsOf(ps[i]);
  }

  lemma {:induction false} OrderIsUnique(a: seq<Digest>, b: seq<Digest>)
    requires Sorted(a) && Sorted(b) && forall d: Digest :: d in a <==> d in b
    ensures a == b
  {
    if a == [] || b == [] {
      SomethingIn(a);
      SomethingIn(b);
    } else {
      FirstIsLeast(a, b[0]);
      FirstIsLeast(b, a[0]);
      forall d: Digest
        ensures d in a[1..] <==> d in b[1..]
      {
        RestOfSorted(a, d);
        RestOfSorted(b, d);
      }
      OrderIsUnique(a[1..], b[1..]);
    }
  }

  lemma SomethingIn(s: seq<Digest>)
    ensures s != [] ==> exists d: Digest :: d in s
  {
    if s != [] {
      assert s[0] in s;
    }
  }

  lemma FirstIsLeast(s: seq<Digest>, d: Digest)
    requires Sorted(s) && d in s
    ensures s[0] <= d
  {
  }

  lemma RestOfSorted(s: seq<Digest>, d: Digest)
    requires Sorted(s) && s != []
    ensures d in s[1..] <==> d in s && d != s[0]
  {
    assert s == [s[0]] + s[1..];
  }

  /** On an untouched disk the request is not refused. */
  lemma UntouchedIsApplied(rules: Rules, m: Manifest, keep: Digest, destinations: set<Digest>, request: Request,
                           fs: Fs, log: Log)
    requires Accepted(rules, m) && Wanted(m.partitions, keep, destinations) && Says(m, keep, request)
    requires Untouched(m, destinations, fs, log)
    ensures !ApplyRefuses(fs, log, request)
  {
    hide Accepted, Wanted, IsTable, IsOwners, HasDigest, ApplyRefuses;
    SameRecordings(rules, m, keep, request, fs.source.recordings.Keys);
    WantedExact(m.partitions, request.partitions, keep, destinations);
    assert request.keep == keep && request.destinations == destinations;
    hide ValidRequest;
    NothingInTheWay(request, fs, log);
  }

  lemma NothingInTheWay(request: Request, fs: Fs, log: Log)
    requires ValidRequest(request) && (log == NoLog(false) || log == Bare)
    requires fs.source.recordings.Keys == request.digestOf.Keys
    requires forall d: Digest :: d in request.destinations ==> Vacant(SlotOf(fs, d))
    ensures !ApplyRefuses(fs, log, request)
  {
    hide ValidRequest, SlotOf;
  }

  /** The manifest lists the recordings that the request has owners for. */
  lemma SameRecordings(rules: Rules, m: Manifest, keep: Digest, request: Request, there: set<Serial>)
    requires Accepted(rules, m) && Says(m, keep, request)
    requires forall s: Serial :: s in there <==>
      exists i :: 0 <= i < |m.recordings| && m.recordings[i].serial == Some(s)
    ensures there == request.digestOf.Keys
  {
    hide Lists, GoodPartitions, GoodHeader, ValidRequest, IsTable;
    forall s: Serial
      ensures s in there <==> s in request.digestOf
    {
      if s in there {
        var i :| 0 <= i < |m.recordings| && m.recordings[i].serial == Some(s);
        assert GoodRecording(rules, m.partitions, m.recordings[i]);
        assert Records(m.recordings, m.recordings[i].digest.value, s);
      }
      if s in request.digestOf {
        assert Records(m.recordings, request.digestOf[s], s);
      }
    }
  }

  /** `apply` from the manifest on: a manifest that is not accepted, or destinations that do
      not fit it, change nothing; any other is refused exactly where the request is, and never
      on an untouched disk; a completed apply has put every recording of the manifest where the
      manifest says. */
  method ApplyManifest(disk: Disk, rules: Rules, m: Manifest, keep: Digest, destinations: set<Digest>, token: nat)
    returns (r: Result)
    requires disk.Ok()
    modifies disk
    ensures disk.Ok() && Agrees(old(disk.log), disk.log)
    ensures !Accepted(rules, m) || !Wanted(m.partitions, keep, destinations) ==>
      r.Refused? && disk.fs == old(disk.fs) && disk.log == old(disk.log)
    ensures r.Refused? ==> disk.fs == old(disk.fs)
    ensures Accepted(rules, m) && Wanted(m.partitions, keep, destinations) ==>
      forall q: Request :: Says(m, keep, q) ==>
      && (r.Refused? ==> ApplyRefuses(old(disk.fs), old(disk.log), q))
      && (r.Done? ==> !ApplyRefuses(old(disk.fs), old(disk.log), q))
    ensures Accepted(rules, m) && Wanted(m.partitions, keep, destinations) && old(disk.life).Immortal?
            && Untouched(m, destinations, old(disk.fs), old(disk.log)) ==>
      r.Done?
    ensures r.Done? ==> HasState(disk.log) && Last(disk.log).phase.Committed? && Obeyed(m, keep, disk.fs)
    ensures r.Killed? ==> old(disk.life).Mortal?
  {
    hide Consistent, History, CommittedState, Obeyed, Accepted, Wanted, Untouched, Requests, ValidRequest, ApplyRefuses;
    var request := ReadRequest(rules, m, keep, destinations);
    if request.None? {
      return Refused(BadRequest);
    }
    forall q: Request | Says(m, keep, q)
      ensures q == request.value
    {
      RequestIsUnique(m, keep, q, request.value);
    }
    if Untouched(m, destinations, disk.fs, disk.log) {
      UntouchedIsApplied(rules, m, keep, destinations, request.value, disk.fs, disk.log);
    }
    r := Apply(disk, request.value, token);
    if r.Done? {
      CommittedObeys(m, keep, disk.fs, disk.log.plan);
    }
  }
}
