/** The fingerprinted cache of loaded datasets under concurrency: each call is a sequence of
    atomic steps, any number of calls interleave, and the files are rewritten meanwhile. */
module DatasetRegistry {
  import opened Common

  type Path = nat
  type Key = nat

  /** How often a metadata file has been written, created or removed: its size and time. */
  type Version = nat

  /** The versions of all metadata files of a dataset: its fingerprint, or what is on disk. */
  type Versions = seq<Version>

  /** A loaded dataset: which object it is, the fingerprint it was loaded under, and the
      versions its files were read at, in the order of reading. */
  datatype Context = Context(id: nat, path: Path, fingerprint: Versions, parts: Versions)

  datatype Slot = Slot(path: Path, context: Context)

  /** What a call does next. Fingerprints are taken and files are read one file at a time.
      `moment` numbers a state of the disk that the call has lived through. */
  datatype Stage =
    | Lookup(key: Key)
    | Begin
    | Compare(cached: Context, moment: nat, seen: Versions)
    | Confirm(cached: Context, moment: nat)
    | ScanBefore(attempt: nat, seen: Versions)
    | Loading(attempt: nat, before: Versions, moment: nat, parts: Versions)
    | ScanAfter(attempt: nat, before: Versions, moment: nat, parts: Versions, after: Versions)
    | Publish(loaded: Context, moment: nat)
    | Returned(result: Context, moment: nat, until: nat)
    | Raised

  /** One call and the state of the disk it began in. */
  datatype Call = Call(path: Path, begun: nat, stage: Stage)

  /** The attempts before a load gives up. */
  const ATTEMPTS: nat := 2

  /** A fingerprint takes info, tasks and then the episode shards; a load reads the tasks
      last. This is the file read as number `j` of `n`. */
  function LoadOrder(j: nat, n: nat): (i: nat)
    requires j < n
    ensures i < n
  {
    if j == 0 then 0 else if j == n - 1 then 1 else j + 1
  }

  // ------------------------------------------------------------------ the ordered dictionary

  function Find(items: seq<Slot>, path: Path): (r: Option<Context>)
    ensures r.Some? ==> Slot(path, r.value) in items
    ensures r.None? ==> forall s :: s in items ==> s.path != path
  {
    if items == [] then None
    else if items[0].path == path then Some(items[0].context)
    else Find(items[1..], path)
  }

  function Without(items: seq<Slot>, path: Path): seq<Slot> {
    if items == [] then []
    else if items[0].path == path then Without(items[1..], path)
    else [items[0]] + Without(items[1..], path)
  }

  /** `d[path] = context; d.move_to_end(path)`. */
  function Put(items: seq<Slot>, path: Path, context: Context): seq<Slot> {
    Without(items, path) + [Slot(path, context)]
  }

  /** `while len(d) > size: d.popitem(last=False)`. */
  function Newest(items: seq<Slot>, size: nat): seq<Slot> {
    if |items| <= size then items else items[|items| - size..]
  }

  /** The slots are in the order of their last use, one for each path, from `low` on. */
  ghost predicate InUseOrder(items: seq<Slot>, used: Path -> nat, low: nat, clock: nat) {
    if items == [] then true
    else
      var u := used(items[0].path);
      low <= u < clock && InUseOrder(items[1..], used, u + 1, clock)
  }

  function Used(used: Path -> nat, path: Path, clock: nat): Path -> nat {
    p => if p == path then clock else used(p)
  }

  lemma {:induction false} OrderAt(items: seq<Slot>, used: Path -> nat, low: nat, clock: nat)
    requires InUseOrder(items, used, low, clock)
    ensures forall i :: 0 <= i < |items| ==> low <= used(items[i].path) < clock
    ensures forall i, j :: 0 <= i < j < |items| ==> used(items[i].path) < used(items[j].path)
  {
    if items != [] {
      OrderAt(items[1..], used, used(items[0].path) + 1, clock);
      assert forall i :: 1 <= i < |items| ==> items[i] == items[1..][i - 1];
    }
  }

  lemma OrderFrom(items: seq<Slot>, used: Path -> nat, low: nat, lower: nat, clock: nat)
    requires InUseOrder(items, used, low, clock) && lower <= low
    ensures InUseOrder(items, used, lower, clock)
  {
  }

  /** Dropping a path keeps the order of the others, and nothing of it is left. */
  lemma {:induction false} WithoutKeepsOrder(items: seq<Slot>, path: Path, used: Path -> nat, low: nat, clock: nat)
    requires InUseOrder(items, used, low, clock)
    ensures var kept := Without(items, path);
      && InUseOrder(kept, used, low, clock) && |kept| <= |items|
      && (Find(items, path).Some? ==> |kept| < |items|)
  {
    if items != [] {
      var u := used(items[0].path);
      WithoutKeepsOrder(items[1..], path, used, u + 1, clock);
      if items[0].path == path {
        OrderFrom(Without(items[1..], path), used, u + 1, low, clock);
      }
    }
  }

  lemma {:induction false} WithoutMembers(items: seq<Slot>, path: Path)
    ensures forall s :: s in Without(items, path) <==> s in items && s.path != path
    ensures Find(Without(items, path), path).None?
  {
    if items != [] {
      WithoutMembers(items[1..], path);
      assert items == [items[0]] + items[1..];
      if items[0].path != path {
        assert Without(items, path)[1..] == Without(items[1..], path);
      }
    }
  }

  lemma {:induction false} AppendKeepsOrder(items: seq<Slot>, s: Slot, used: Path -> nat, low: nat, clock: nat)
    requires InUseOrder(items, used, low, clock) && low <= clock
    requires forall x :: x in items ==> x.path != s.path
    ensures InUseOrder(items + [s], Used(used, s.path, clock), low, clock + 1)
  {
    if items == [] {
      assert (items + [s])[1..] == [];
    } else {
      var u := used(items[0].path);
      assert items[0] in items && forall x :: x in items[1..] ==> x in items;
      AppendKeepsOrder(items[1..], s, used, u + 1, clock);
      assert (items + [s])[1..] == items[1..] + [s];
    }
  }

  /** Using a path makes it the newest. */
  lemma PutKeepsOrder(items: seq<Slot>, path: Path, context: Context, used: Path -> nat, clock: nat)
    requires InUseOrder(items, used, 0, clock)
    ensures InUseOrder(Put(items, path, context), Used(used, path, clock), 0, clock + 1)
    ensures |Put(items, path, context)| <= |items| + 1
    ensures Find(items, path).Some? ==> |Put(items, path, context)| <= |items|
    ensures forall s :: s in Put(items, path, context) <==> (s in items && s.path != path) || s == Slot(path, context)
  {
    WithoutKeepsOrder(items, path, used, 0, clock);
    WithoutMembers(items, path);
    AppendKeepsOrder(Without(items, path), Slot(path, context), used, 0, clock);
  }

  lemma {:induction false} SuffixKeepsOrder(items: seq<Slot>, k: nat, used: Path -> nat, low: nat, clock: nat)
    requires InUseOrder(items, used, low, clock) && k <= |items|
    ensures InUseOrder(items[k..], used, low, clock)
    decreases k
  {
    if k > 0 {
      SuffixKeepsOrder(items[1..], k - 1, used, used(items[0].path) + 1, clock);
      assert items[k..] == items[1..][k - 1..];
      OrderFrom(items[k..], used, used(items[0].path) + 1, low, clock);
    }
  }

  lemma PlaceInFront(items: seq<Slot>, from: nat, s: Slot) returns (i: nat)
    requires from <= |items| && s in items && s !in items[from..]
    ensures i < from && items[i] == s
  {
    assert items == items[..from] + items[from..];
    i :| i < from && items[..from][i] == s;
  }

  /** What is evicted was used before everything that is kept. */
  lemma NewestAreKept(items: seq<Slot>, size: nat, used: Path -> nat, clock: nat)
    requires InUseOrder(items, used, 0, clock)
    ensures InUseOrder(Newest(items, size), used, 0, clock)
    ensures |Newest(items, size)| == if |items| < size then |items| else size
    ensures forall kept :: kept in Newest(items, size) ==> kept in items
    ensures forall evicted, kept ::
      evicted in items && evicted !in Newest(items, size) && kept in Newest(items, size) ==>
      used(evicted.path) < used(kept.path)
  {
    var newest := Newest(items, size);
    var from := |items| - |newest|;
    assert newest == items[from..];
    SuffixKeepsOrder(items, from, used, 0, clock);
    OrderAt(items, used, 0, clock);
    hide Newest, InUseOrder;
    forall kept | kept in newest
      ensures kept in items
    {
      var j :| 0 <= j < |newest| && newest[j] == kept;
      assert kept == items[from + j];
    }
    forall evicted, kept | evicted in items && evicted !in newest && kept in newest
      ensures used(evicted.path) < used(kept.path)
    {
      var i := PlaceInFront(items, from, evicted);
      var j :| 0 <= j < |newest| && newest[j] == kept;
      assert kept == items[from + j];
    }
  }

  /** A path is stored as the newest, and the oldest ones go. */
  lemma InsertKeepsOrder(items: seq<Slot>, s: Slot, size: nat, used: Path -> nat, clock: nat)
    requires InUseOrder(items, used, 0, clock) && size >= 1
    ensures var kept, used' := Newest(Put(items, s.path, s.context), size), Used(used, s.path, clock);
      && InUseOrder(kept, used', 0, clock + 1) && |kept| <= size && s in kept
      && (forall x :: x in kept ==> x == s || (x in items && x.path != s.path))
      && (forall x, y :: x in items && x.path != s.path && x !in kept && y in kept ==> used'(x.path) < used'(y.path))
  {
    var all, used' := Put(items, s.path, s.context), Used(used, s.path, clock);
    PutKeepsOrder(items, s.path, s.context, used, clock);
    NewestAreKept(all, size, used', clock + 1);
    var kept := Newest(all, size);
    assert all[|all| - 1] == s;
    assert kept[|kept| - 1] == s;
    hide Put, Newest, InUseOrder, Used;
  }

  // ------------------------------------------------------------------ what is always so

  /** Each version of a prefix is at most the other's. */
  predicate Below(a: Versions, b: Versions) {
    |a| <= |b| && forall i :: 0 <= i < |a| ==> a[i] <= b[i]
  }

  /** The states of the disk, one after the other: versions never go back. */
  ghost predicate Grows(history: seq<Versions>, n: nat) {
    && history != []
    && (forall m :: 0 <= m < |history| ==> |history[m]| == n)
    && (forall l, m :: 0 <= l < m < |history| ==> Below(history[l], history[m]))
  }

  function Now(history: seq<Versions>): Versions
    requires history != []
  {
    history[|history| - 1]
  }

  /** Every file was read at the version in the fingerprint. */
  predicate Unmixed(c: Context, n: nat) {
    |c.fingerprint| == n && |c.parts| == n && forall j :: 0 <= j < n ==> c.parts[j] == c.fingerprint[LoadOrder(j, n)]
  }

  /** A state of the disk that the call has lived through. */
  predicate During(c: Call, moment: nat, history: seq<Versions>) {
    c.begun <= moment < |history|
  }

  ghost predicate ValidSlot(s: Slot, history: seq<Versions>, n: nat) {
    && s.context.path == s.path && Unmixed(s.context, n)
    && exists m :: 0 <= m < |history| && history[m] == s.context.fingerprint
  }

  ghost predicate ValidItems(items: seq<Slot>, history: Path -> seq<Versions>, filesOf: Path -> nat) {
    forall s :: s in items ==> ValidSlot(s, history(s.path), filesOf(s.path))
  }

  /** Versions read in the order of loading, none older than a state of the disk. */
  predicate ReadSince(parts: Versions, state: Versions) {
    |parts| <= |state| && forall j :: 0 <= j < |parts| ==> state[LoadOrder(j, |state|)] <= parts[j]
  }

  predicate ReadUpTo(parts: Versions, state: Versions) {
    |parts| <= |state| && forall j :: 0 <= j < |parts| ==> parts[j] <= state[LoadOrder(j, |state|)]
  }

  /** A fingerprint being taken after the load: no entry is older than what was read. */
  predicate TakenAfter(after: Versions, parts: Versions, n: nat) {
    |parts| == n && forall j :: 0 <= j < n && LoadOrder(j, n) < |after| ==> parts[j] <= after[LoadOrder(j, n)]
  }

  /** What a call knows. */
  ghost predicate ValidCall(c: Call, history: seq<Versions>, n: nat)
    requires Grows(history, n)
  {
    match c.stage
    case Lookup(_) => true
    case Raised => true
    case Begin => c.begun < |history|
    case Compare(cached, moment, seen) =>
      && cached.path == c.path && Unmixed(cached, n) && During(c, moment, history)
      && Below(cached.fingerprint, history[moment])
      && |seen| <= n && Below(history[moment][..|seen|], seen)
    case Confirm(cached, moment) =>
      && cached.path == c.path && Unmixed(cached, n) && During(c, moment, history)
      && history[moment] == cached.fingerprint
    case ScanBefore(attempt, seen) =>
      c.begun < |history| && attempt < ATTEMPTS && Below(seen, Now(history))
    case Loading(attempt, before, moment, parts) =>
      && During(c, moment, history) && attempt < ATTEMPTS
      && |before| == n && Below(before, history[moment])
      && ReadSince(parts, history[moment]) && ReadUpTo(parts, Now(history))
    case ScanAfter(attempt, before, moment, parts, after) =>
      && During(c, moment, history) && attempt < ATTEMPTS
      && |before| == n && Below(before, history[moment])
      && ReadSince(parts, history[moment]) && ReadUpTo(parts, Now(history))
      && |after| <= n && TakenAfter(after, parts, n)
    case Publish(loaded, moment) =>
      && loaded.path == c.path && Unmixed(loaded, n) && During(c, moment, history)
      && history[moment] == loaded.fingerprint
    case Returned(result, moment, until) =>
      && result.path == c.path && Unmixed(result, n) && During(c, moment, history)
      && history[moment] == result.fingerprint && moment <= until < |history|
  }

  /** A load whose two fingerprints agree has read one state of the disk, the one between
      the fingerprints, even if files changed while a fingerprint was being taken. */
  lemma StableLoadIsUnmixed(before: Versions, state: Versions, parts: Versions, after: Versions, c: Context)
    requires Below(before, state) && |before| == |state| && ReadSince(parts, state) && |parts| == |state|
    requires TakenAfter(after, parts, |state|) && after == before
    requires c.fingerprint == before && c.parts == parts
    ensures Unmixed(c, |state|) && state == before
  {
    var n := |state|;
    forall i | 0 <= i < n
      ensures state[i] == before[i]
    {
      var j := ReadAs(i, n);
      assert parts[j] <= after[LoadOrder(j, n)];
    }
  }

  /** The place of a file in the order of loading. */
  function ReadAs(i: nat, n: nat): (j: nat)
    requires i < n
    ensures j < n && LoadOrder(j, n) == i
  {
    if i == 0 then 0 else if i == 1 then n - 1 else i - 1
  }

  /** A fingerprint taken during the call that equals a cached one of an earlier state: the
      disk was in that very state when the fingerprint was begun. */
  lemma UnchangedIsCurrent(cached: Versions, state: Versions, seen: Versions)
    requires |cached| == |state| == |seen| && Below(cached, state) && Below(state, seen) && seen == cached
    ensures state == cached
  {
  }

  /** What an attempt and those after it still take, for `n` files. */
  function Attempts(attempt: nat, n: nat): nat {
    if attempt == 0 then 2 * (3 * n + 3) + 1 else 3 * n + 4
  }

  /** A bound on the steps a call still takes, whatever the others do. */
  function Remaining(stage: Stage, n: nat): int {
    match stage
    case Lookup(_) => 1
    case Begin => Attempts(0, n) + n + 3
    case Compare(_, _, seen) => Attempts(0, n) + n + 2 - |seen|
    case Confirm(_, _) => Attempts(0, n) + 1
    case ScanBefore(attempt, seen) => Attempts(attempt, n) - |seen|
    case Loading(attempt, _, _, parts) => Attempts(attempt, n) - (n + 1) - |parts|
    case ScanAfter(attempt, _, _, _, after) => Attempts(attempt, n) - 2 * (n + 1) - |after|
    case Publish(_, _) => 1
    case _ => 0
  }

  /** All that a call has seen of the disk is what is there now. */
  predicate Steady(stage: Stage, now: Versions) {
    match stage
    case Lookup(_) => false
    case Raised => false
    case Compare(_, _, seen) => |seen| <= |now| && seen == now[..|seen|]
    case ScanBefore(_, seen) => |seen| <= |now| && seen == now[..|seen|]
    case Loading(_, before, _, _) => before == now
    case ScanAfter(_, before, _, _, after) => before == now && |after| <= |now| && after == now[..|after|]
    case _ => true
  }

  /** A call on the way to returning what was cached when it began. */
  predicate Hits(stage: Stage, cached: Context) {
    match stage
    case Begin => true
    case Compare(c, _, _) => c == cached
    case Confirm(c, _) => c == cached
    case Returned(c, _, _) => c == cached
    case _ => false
  }

  /** What a step of a call does when nothing disturbs it: what it has seen stays current, and
      a cached context that is current is on its way to be returned. */
  predicate Settles(before: Stage, after: Stage, held: Option<Context>, now: Versions) {
    && (Steady(before, now) ==> Steady(after, now))
    && (Steady(before, now) && held.Some? && held.value.fingerprint == now && Hits(before, held.value) ==>
          Hits(after, held.value))
  }

  /** A load gives up only after its second attempt, and only if the fingerprints differ. */
  predicate GivesUp(before: Stage, after: Stage) {
    after.Raised? ==>
      before.Lookup? || (before.ScanAfter? && before.attempt == 1 && before.after != before.before)
  }

  predicate Ended(stage: Stage) {
    stage.Returned? || stage.Raised?
  }

  datatype Event =
    | Get(path: Path)
    | GetByKey(key: Key)
    | Advance(call: nat)
    | Invalidate(path: Path)
    | Rewrite(path: Path, file: nat)

  function CallsIn(events: seq<Event>): nat {
    if events == [] then 0
    else
      var last := events[|events| - 1];
      CallsIn(events[..|events| - 1]) + (if last.Get? || last.GetByKey? then 1 else 0)
  }

  lemma CountOne(events: seq<Event>, k: nat)
    requires k < |events|
    ensures CallsIn(events[..k + 1]) == CallsIn(events[..k]) + if events[k].Get? || events[k].GetByKey? then 1 else 0
  {
    assert events[..k + 1][..k] == events[..k];
  }

  class Registry {
    const maxSize: nat
    var items: seq<Slot>
    var keys: map<Key, Path>
    var calls: seq<Call>
    /** Every state each dataset's files have been in; the last one is on disk. */
    var history: Path -> seq<Versions>
    var nextId: nat
    const keyOf: Path -> Key
    /** How many metadata files each dataset has, those not there counted too. */
    const filesOf: Path -> nat
    /** When each path was last used. */
    ghost var used: Path -> nat
    ghost var clock: nat

    ghost predicate Valid()
      reads this
    {
      && (forall p: Path :: Grows(history(p), filesOf(p)))
      && InUseOrder(items, used, 0, clock) && ValidItems(items, history, filesOf) && |items| <= maxSize
      && forall k :: 0 <= k < |calls| ==> ValidCall(calls[k], history(calls[k].path), filesOf(calls[k].path))
    }

    constructor (size: nat, keyOf: Path -> Key, filesOf: Path -> nat)
      requires size >= 1
      ensures Valid() && maxSize == size && calls == [] && items == []
    {
      maxSize := size;
      this.keyOf, this.filesOf := keyOf, filesOf;
      items, calls, keys, nextId := [], [], map[], 0;
      history := p => [seq(filesOf(p), i => 0)];
      used, clock := p => 0, 0;
    }

    /** The state of the disk that the path's files are in now, by number. */
    function Moment(path: Path): nat
      reads this
      requires Valid()
    {
      |history(path)| - 1
    }

    /** Under the lock: the path has just been used. */
    method Touch(path: Path, context: Context)
      requires Valid() && ValidSlot(Slot(path, context), history(path), filesOf(path)) && Find(items, path).Some?
      modifies this`items, this`used, this`clock
      ensures Valid() && items == Newest(Put(old(items), path, context), maxSize)
    {
      PutKeepsOrder(items, path, context, used, clock);
      assert Put(items, path, context) == Newest(Put(items, path, context), maxSize);
      hide Put, Used, InUseOrder, Grows, ValidCall, ValidSlot;
      items := Put(items, path, context);
      used, clock := Used(used, path, clock), clock + 1;
    }

    /** Under the lock: the loaded context is published and the cache is cut to its size.
        What goes was used before everything that stays. */
    method Insert(path: Path, context: Context)
      requires Valid() && ValidSlot(Slot(path, context), history(path), filesOf(path)) && maxSize >= 1
      modifies this`items, this`keys, this`used, this`clock
      ensures Valid() && items == Newest(Put(old(items), path, context), maxSize)
      ensures Slot(path, context) in items && keys == old(keys)[keyOf(path) := path]
      ensures used == Used(old(used), path, old(clock))
      ensures forall s, kept :: s in old(items) && s.path != path && s !in items && kept in items ==>
        used(s.path) < used(kept.path)
    {
      hide Grows, ValidCall, ValidSlot;
      InsertKeepsOrder(items, Slot(path, context), maxSize, used, clock);
      hide Put, Used, InUseOrder, Newest;
      items := Newest(Put(items, path, context), maxSize);
      used, clock := Used(used, path, clock), clock + 1;
      keys := keys[keyOf(path) := path];
    }

    /** The next atomic step of a call: what the call becomes. It is brought nearer its end;
        if it returns, the path it returns for is the most recently used, and otherwise the
        cache is untouched. */
    method Next(c: Call) returns (d: Call)
      requires Valid() && maxSize >= 1 && ValidCall(c, history(c.path), filesOf(c.path)) && !Ended(c.stage)
      modifies this`items, this`keys, this`used, this`clock, this`nextId
      ensures Valid() && ValidCall(d, history(d.path), filesOf(d.path))
      ensures 0 <= Remaining(d.stage, filesOf(d.path))
      ensures if c.stage.Lookup? then d.stage.Begin? || d.stage.Raised?
              else d.path == c.path && d.begun == c.begun && !d.stage.Lookup?
                   && Remaining(d.stage, filesOf(c.path)) < Remaining(c.stage, filesOf(c.path))
      ensures d.stage.Returned? ==> items == Newest(Put(old(items), d.path, d.stage.result), maxSize)
      ensures !d.stage.Returned? ==> items == old(items) && keys == old(keys)
      ensures !c.stage.Lookup? ==> Settles(c.stage, d.stage, old(Find(items, c.path)), Now(history(c.path)))
      ensures GivesUp(c.stage, d.stage)
    {
      hide Grows, ValidCall, Remaining, InUseOrder, Put, Newest, Used, Without, ValidItems, ValidSlot;
      match c.stage
      case Lookup(key) => d := FindByKey(c);
      case Begin => d := LookInCache(c);
      case Confirm(_, _) => d := ReturnCached(c);
      case Publish(_, _) => d := PublishLoaded(c);
      case Compare(_, _, _) => d := ReadOne(c);
      case ScanBefore(_, _) => d := ReadOne(c);
      case Loading(_, _, _, _) => d := ReadOne(c);
      case ScanAfter(_, _, _, _, _) => d := ReadOne(c);
    }

    /** The path last loaded under a key, looked up under the lock. */
    method FindByKey(c: Call) returns (d: Call)
      requires Valid() && c.stage.Lookup?
      ensures d.stage.Begin? || d.stage.Raised?
      ensures ValidCall(d, history(d.path), filesOf(d.path)) && 0 <= Remaining(d.stage, filesOf(d.path))
      ensures d.stage.Begin? <==> c.stage.key in keys
      ensures d.stage.Begin? ==> d.path == keys[c.stage.key] && d.begun == Moment(d.path)
    {
      hide InUseOrder, ValidItems, ValidSlot;
      var key := c.stage.key;
      d := if key in keys then Call(keys[key], Moment(keys[key]), Begin) else c.(stage := Raised);
    }

    /** One file is looked at, or a scan is settled. */
    method ReadOne(c: Call) returns (d: Call)
      requires Valid() && ValidCall(c, history(c.path), filesOf(c.path)) && Reads(c.stage)
      modifies this`nextId
      ensures Valid() && ValidCall(d, history(d.path), filesOf(d.path))
      ensures d.path == c.path && d.begun == c.begun && !d.stage.Lookup? && !d.stage.Returned?
      ensures 0 <= Remaining(d.stage, filesOf(c.path)) < Remaining(c.stage, filesOf(c.path))
      ensures Settles(c.stage, d.stage, Find(items, c.path), Now(history(c.path)))
      ensures GivesUp(c.stage, d.stage)
    {
      ReadIsValid(c, history(c.path), filesOf(c.path), nextId);
      ReadSettles(c.stage, Find(items, c.path), Now(history(c.path)), Moment(c.path), filesOf(c.path), c.path, nextId);
      hide Settles, GivesUp, Find;
      hide Grows, ValidCall, Remaining, ReadNext, InUseOrder, ValidItems;
      d := c.(stage := ReadNext(c.stage, Now(history(c.path)), Moment(c.path), filesOf(c.path), c.path, nextId));
      nextId := nextId + 1;
    }

    /** A stable load is published and returned. */
    method PublishLoaded(c: Call) returns (d: Call)
      requires Valid() && maxSize >= 1 && ValidCall(c, history(c.path), filesOf(c.path)) && c.stage.Publish?
      modifies this`items, this`keys, this`used, this`clock
      ensures Valid() && ValidCall(d, history(d.path), filesOf(d.path))
      ensures d.path == c.path && d.begun == c.begun && d.stage.Returned?
      ensures 0 <= Remaining(d.stage, filesOf(c.path)) < Remaining(c.stage, filesOf(c.path))
      ensures items == Newest(Put(old(items), d.path, d.stage.result), maxSize)
      ensures d.stage.result == c.stage.loaded
      ensures Settles(c.stage, d.stage, old(Find(items, c.path)), Now(history(c.path)))
    {
      hide InUseOrder, Put, Newest, Used, ValidItems;
      PublishedIsValid(c, history(c.path), filesOf(c.path));
      d := c.(stage := Returned(c.stage.loaded, c.stage.moment, Moment(c.path)));
      assert ValidCall(d, history(c.path), filesOf(c.path));
      hide Grows, ValidSlot, ValidCall;
      Insert(c.path, c.stage.loaded);
    }

    /** A call begins: what the cache holds for its path, looked up under the lock. */
    method LookInCache(c: Call) returns (d: Call)
      requires Valid() && ValidCall(c, history(c.path), filesOf(c.path)) && c.stage.Begin?
      ensures d.path == c.path && d.begun == c.begun && (d.stage.Compare? || d.stage.ScanBefore?)
      ensures ValidCall(d, history(d.path), filesOf(d.path))
      ensures 0 <= Remaining(d.stage, filesOf(c.path)) < Remaining(c.stage, filesOf(c.path))
      ensures Settles(c.stage, d.stage, Find(items, c.path), Now(history(c.path)))
    {
      hide InUseOrder, ValidItems, ValidSlot;
      var cached := Find(items, c.path);
      if cached.Some? {
        CachedIsOlder(items, c.path, history, filesOf);
        return c.(stage := Compare(cached.value, Moment(c.path), []));
      }
      return c.(stage := ScanBefore(0, []));
    }

    /** The cached context is current: it, or an equally current one that took its place, is
        returned, unless the path has been dropped or replaced meanwhile. */
    method ReturnCached(c: Call) returns (d: Call)
      requires Valid() && ValidCall(c, history(c.path), filesOf(c.path)) && c.stage.Confirm?
      modifies this`items, this`used, this`clock
      ensures Valid() && ValidCall(d, history(d.path), filesOf(d.path))
      ensures d.path == c.path && d.begun == c.begun && (d.stage.Returned? || d.stage.ScanBefore?)
      ensures 0 <= Remaining(d.stage, filesOf(c.path)) < Remaining(c.stage, filesOf(c.path))
      ensures if d.stage.Returned? then items == Newest(Put(old(items), d.path, d.stage.result), maxSize)
              else items == old(items)
      ensures Settles(c.stage, d.stage, old(Find(items, c.path)), Now(history(c.path)))
    {
      hide InUseOrder, Put, Newest, Used, Without, ValidItems, ValidSlot;
      var cached, held := c.stage.cached, Find(items, c.path);
      if held.Some? && (held.value == cached || held.value.fingerprint == cached.fingerprint) {
        CachedIsOlder(items, c.path, history, filesOf);
        d := c.(stage := Returned(held.value, c.stage.moment, Moment(c.path)));
        assert ValidCall(d, history(c.path), filesOf(c.path));
        hide Grows;
        Touch(c.path, held.value);
      } else {
        d := c.(stage := ScanBefore(0, []));
      }
    }

    /** One atomic step of one call, the others standing still. */
    method Step(k: nat)
      requires Valid() && k < |calls| && maxSize >= 1
      modifies this`items, this`keys, this`calls, this`used, this`clock, this`nextId
      ensures Valid() && |calls| == |old(calls)|
      ensures forall j :: 0 <= j < |calls| && j != k ==> calls[j] == old(calls)[j]
      ensures var before, after := old(calls)[k], calls[k];
        if Ended(before.stage) then calls == old(calls) && items == old(items)
        else if before.stage.Lookup? then after.stage.Begin? || after.stage.Raised?
        else after.path == before.path && after.begun == before.begun && !after.stage.Lookup?
             && Settles(before.stage, after.stage, old(Find(items, before.path)), Now(history(before.path)))
             && GivesUp(before.stage, after.stage)
             && 0 <= Remaining(after.stage, filesOf(after.path)) < Remaining(before.stage, filesOf(before.path))
      ensures calls[k].stage.Returned? && !old(calls)[k].stage.Returned? ==>
        items == Newest(Put(old(items), calls[k].path, calls[k].stage.result), maxSize)
      ensures !calls[k].stage.Returned? ==> items == old(items) && keys == old(keys)
    {
      if !Ended(calls[k].stage) {
        hide ValidCall, Remaining, Put, Newest, InUseOrder, ValidItems, Grows, Settles, GivesUp, Find;
        var d := Next(calls[k]);
        calls := calls[k := d];
      }
    }

    /** A call with nothing else going on: it ends, it does not raise, and it returns the dataset
        as it is on disk, from the cache if that is current, and it stays cached. */
    method GetAlone(path: Path) returns (context: Context)
      requires Valid() && maxSize >= 1
      modifies this`items, this`keys, this`calls, this`used, this`clock, this`nextId
      ensures Valid() && context.path == path && Unmixed(context, filesOf(path))
      ensures context.fingerprint == Now(history(path))
      ensures old(Find(items, path)).Some? && old(Find(items, path)).value.fingerprint == Now(history(path)) ==>
        context == old(Find(items, path)).value
      ensures items == Newest(Put(old(items), path, context), maxSize)
    {
      var k, n := |calls|, filesOf(path);
      ghost var held := Find(items, path);
      calls := calls + [Call(path, Moment(path), Begin)];
      assert Now(history(path)) == history(path)[Moment(path)];
      hide Grows, ValidCall, InUseOrder, ValidItems, Put, Newest, Remaining, Find;
      while !Ended(calls[k].stage)
        invariant Valid() && k < |calls| && calls[k].path == path && !calls[k].stage.Lookup?
        invariant calls[k].begun == Moment(path) && Steady(calls[k].stage, Now(history(path)))
        invariant held.Some? && held.value.fingerprint == Now(history(path)) ==> Hits(calls[k].stage, held.value)
        invariant if calls[k].stage.Returned?
                  then items == Newest(Put(old(items), path, calls[k].stage.result), maxSize)
                  else items == old(items)
        decreases Remaining(calls[k].stage, n)
      {
        Step(k);
      }
      ReturnedIsFresh(k);
      context := calls[k].stage.result;
    }

    /** `invalidate`. */
    method Drop(path: Path)
      requires Valid()
      modifies this`items, this`keys
      ensures Valid() && items == Without(old(items), path)
      ensures Find(items, path).None?
      ensures forall key :: key in keys <==> key in old(keys) && old(keys)[key] != path
    {
      hide Grows, ValidCall, ValidSlot;
      WithoutKeepsOrder(items, path, used, 0, clock);
      WithoutMembers(items, path);
      items := Without(items, path);
      keys := map key | key in keys && keys[key] != path :: keys[key];
    }

    /** The environment writes, creates or removes one metadata file of a dataset. */
    method RewriteFile(path: Path, file: nat)
      requires Valid() && file < filesOf(path)
      modifies this`history
      ensures Valid()
      ensures var now := Now(old(history)(path));
        file < |now| && history(path) == old(history)(path) + [now[file := now[file] + 1]]
      ensures forall p :: p != path ==> history(p) == old(history)(p)
    {
      var before := history;
      var now := Now(before(path));
      var after := before(path) + [now[file := now[file] + 1]];
      OneMoreState(before(path), now[file := now[file] + 1], filesOf(path));
      history := p => if p == path then after else before(p);
      forall k | 0 <= k < |calls|
        ensures ValidCall(calls[k], history(calls[k].path), filesOf(calls[k].path))
      {
        if calls[k].path == path {
          LaterIsFine(calls[k], before(path), after, filesOf(path));
        }
      }
      forall s | s in items
        ensures ValidSlot(s, history(s.path), filesOf(s.path))
      {
        if s.path == path {
          SlotStays(s, before(path), after, filesOf(path));
        }
      }
    }

    /** Any interleaving of calls, invalidations and rewrites of single files. */
    method RunAll(events: seq<Event>)
      requires Valid() && maxSize >= 1
      modifies this
      ensures Valid()
      ensures forall p :: old(history)(p) <= history(p)
      ensures |calls| == |old(calls)| + CallsIn(events)
    {
      for k := 0 to |events|
        invariant Valid() && forall p :: old(history)(p) <= history(p)
        invariant |calls| == |old(calls)| + CallsIn(events[..k])
      {
        CountOne(events, k);
        hide CallsIn;
        match events[k]
        case Get(path) =>
          calls := calls + [Call(path, Moment(path), Begin)];
        case GetByKey(key) =>
          calls := calls + [Call(0, 0, Lookup(key))];
        case Advance(call) =>
          hide Grows, ValidCall, ValidItems, InUseOrder;
          if call < |calls| { Step(call); }
        case Invalidate(path) =>
          hide Grows, ValidCall, ValidItems, InUseOrder;
          Drop(path);
        case Rewrite(path, file) =>
          hide Grows, ValidCall, ValidItems, InUseOrder;
          if file < filesOf(path) { RewriteFile(path, file); }
      }
      assert events[..|events|] == events;
    }

    /** What every returned context guarantees, in every reachable state: its files were all
        read at the versions in its fingerprint, and those were, all together, what was on
        disk at some moment of the call. */
    lemma ReturnedIsFresh(k: nat)
      requires Valid() && k < |calls| && calls[k].stage.Returned?
      ensures var c, states := calls[k], history(calls[k].path);
        && c.stage.result.path == c.path && Unmixed(c.stage.result, filesOf(c.path))
        && c.begun <= c.stage.moment <= c.stage.until < |states|
        && states[c.stage.moment] == c.stage.result.fingerprint
      ensures |items| <= maxSize
    {
      assert ValidCall(calls[k], history(calls[k].path), filesOf(calls[k].path));
    }
  }

  // ------------------------------------------------------------------ reading file by file

  /** The steps that look at one file, or settle what to do next: fingerprints before and
      after, the load between them, and the comparison with a cached fingerprint. */
  function ReadNext(stage: Stage, now: Versions, moment: nat, n: nat, path: Path, id: nat): Stage
    requires |now| == n
  {
    match stage
    case Compare(cached, at, seen) =>
      if |seen| < n then Compare(cached, at, seen + [now[|seen|]])
      else if seen == cached.fingerprint then Confirm(cached, at)
      else ScanBefore(0, [])
    case ScanBefore(attempt, seen) =>
      if |seen| < n then ScanBefore(attempt, seen + [now[|seen|]]) else Loading(attempt, seen, moment, [])
    case Loading(attempt, before, at, parts) =>
      if |parts| < n then Loading(attempt, before, at, parts + [now[LoadOrder(|parts|, n)]])
      else ScanAfter(attempt, before, at, parts, [])
    case ScanAfter(attempt, before, at, parts, after) =>
      if |after| < n then ScanAfter(attempt, before, at, parts, after + [now[|after|]])
      else if before == after then Publish(Context(id, path, before, parts), at)
      else if attempt + 1 < ATTEMPTS then ScanBefore(attempt + 1, [])
      else Raised
    case _ => stage
  }

  predicate Reads(stage: Stage) {
    stage.Compare? || stage.ScanBefore? || stage.Loading? || stage.ScanAfter?
  }

  lemma ReadIsValid(c: Call, history: seq<Versions>, n: nat, id: nat)
    requires Grows(history, n) && ValidCall(c, history, n) && Reads(c.stage)
    ensures |Now(history)| == n
    ensures var d := c.(stage := ReadNext(c.stage, Now(history), |history| - 1, n, c.path, id));
      && ValidCall(d, history, n) && !d.stage.Lookup? && !d.stage.Returned?
      && 0 <= Remaining(d.stage, n) < Remaining(c.stage, n)
  {
    match c.stage
    case Compare(cached, at, seen) => CompareIsValid(c, history, n, id);
    case ScanBefore(attempt, seen) => ScanIsValid(c, history, n, id);
    case Loading(attempt, before, at, parts) => LoadIsValid(c, history, n, id);
    case ScanAfter(attempt, before, at, parts, after) => AfterIsValid(c, history, n, id);
  }

  lemma ReadSettles(stage: Stage, held: Option<Context>, now: Versions, moment: nat, n: nat, path: Path, id: nat)
    requires |now| == n && Reads(stage) && (stage.ScanAfter? ==> stage.attempt < 2)
    ensures var next := ReadNext(stage, now, moment, n, path, id);
      GivesUp(stage, next) && Settles(stage, next, held, now)
  {
    var next := ReadNext(stage, now, moment, n, path, id);
    assert now[..n] == now && now[..0] == [];
    match stage
    case Compare(c, at, seen) => OneMoreSeen(seen, now);
    case ScanBefore(attempt, seen) => OneMoreSeen(seen, now);
    case Loading(attempt, before, at, parts) =>
    case ScanAfter(attempt, before, at, parts, after) => OneMoreSeen(after, now);
  }

  lemma OneMoreSeen(seen: Versions, now: Versions)
    ensures |seen| < |now| && seen == now[..|seen|] ==> seen + [now[|seen|]] == now[..|seen| + 1]
    ensures |seen| == |now| && seen == now[..|seen|] ==> seen == now
  {
  }

  lemma CompareIsValid(c: Call, history: seq<Versions>, n: nat, id: nat)
    requires Grows(history, n) && ValidCall(c, history, n) && c.stage.Compare?
    ensures var d := c.(stage := ReadNext(c.stage, Now(history), |history| - 1, n, c.path, id));
      ValidCall(d, history, n) && 0 <= Remaining(d.stage, n) < Remaining(c.stage, n)
  {
    var state, seen := history[c.stage.moment], c.stage.seen;
    assert Below(state, Now(history));
    if |seen| == n {
      assert state[..n] == state;
      if seen == c.stage.cached.fingerprint {
        UnchangedIsCurrent(c.stage.cached.fingerprint, state, seen);
      }
    }
  }

  lemma ScanIsValid(c: Call, history: seq<Versions>, n: nat, id: nat)
    requires Grows(history, n) && ValidCall(c, history, n) && c.stage.ScanBefore?
    ensures var d := c.(stage := ReadNext(c.stage, Now(history), |history| - 1, n, c.path, id));
      ValidCall(d, history, n) && 0 <= Remaining(d.stage, n) < Remaining(c.stage, n)
  {
  }

  lemma LoadIsValid(c: Call, history: seq<Versions>, n: nat, id: nat)
    requires Grows(history, n) && ValidCall(c, history, n) && c.stage.Loading?
    ensures var d := c.(stage := ReadNext(c.stage, Now(history), |history| - 1, n, c.path, id));
      ValidCall(d, history, n) && 0 <= Remaining(d.stage, n) < Remaining(c.stage, n)
  {
    var state, parts := history[c.stage.moment], c.stage.parts;
    assert Below(state, Now(history));
  }

  lemma AfterIsValid(c: Call, history: seq<Versions>, n: nat, id: nat)
    requires Grows(history, n) && ValidCall(c, history, n) && c.stage.ScanAfter?
    ensures var d := c.(stage := ReadNext(c.stage, Now(history), |history| - 1, n, c.path, id));
      ValidCall(d, history, n) && 0 <= Remaining(d.stage, n) < Remaining(c.stage, n)
  {
    var d := c.(stage := ReadNext(c.stage, Now(history), |history| - 1, n, c.path, id));
    if d.stage.Publish? {
      StableLoadIsUnmixed(c.stage.before, history[c.stage.moment], c.stage.parts, c.stage.after, d.stage.loaded);
    }
  }

  lemma PublishedIsValid(c: Call, history: seq<Versions>, n: nat)
    requires Grows(history, n) && ValidCall(c, history, n) && c.stage.Publish?
    ensures ValidSlot(Slot(c.path, c.stage.loaded), history, n)
  {
  }

  /** A cached context was on disk before. */
  lemma CachedIsOlder(items: seq<Slot>, path: Path, history: Path -> seq<Versions>, filesOf: Path -> nat)
    requires ValidItems(items, history, filesOf) && Grows(history(path), filesOf(path))
    requires Find(items, path).Some?
    ensures var cached := Find(items, path).value;
      && cached.path == path && Unmixed(cached, filesOf(path))
      && Below(cached.fingerprint, Now(history(path)))
      && ValidSlot(Slot(path, cached), history(path), filesOf(path))
  {
    var cached := Find(items, path).value;
    assert ValidSlot(Slot(path, cached), history(path), filesOf(path));
    var m :| 0 <= m < |history(path)| && history(path)[m] == cached.fingerprint;
    assert m < |history(path)| - 1 ==> Below(history(path)[m], Now(history(path)));
  }

  // ------------------------------------------------------------------ a new state of the disk

  lemma OneMoreState(history: seq<Versions>, state: Versions, n: nat)
    requires Grows(history, n) && |state| == n && Below(Now(history), state)
    ensures Grows(history + [state], n)
  {
    var after := history + [state];
    forall l, m | 0 <= l < m < |after|
      ensures Below(after[l], after[m])
    {
      if m == |history| && l < |history| - 1 {
        assert Below(history[l], Now(history));
      }
    }
  }

  lemma LaterIsFine(c: Call, before: seq<Versions>, after: seq<Versions>, n: nat)
    requires Grows(before, n) && Grows(after, n) && before <= after && ValidCall(c, before, n)
    ensures ValidCall(c, after, n)
  {
    assert forall m :: 0 <= m < |before| ==> after[m] == before[m];
    assert |before| < |after| ==> Below(after[|before| - 1], after[|after| - 1]);
    assert Below(Now(before), Now(after));
  }

  lemma SlotStays(s: Slot, before: seq<Versions>, after: seq<Versions>, n: nat)
    requires before <= after && ValidSlot(s, before, n)
    ensures ValidSlot(s, after, n)
  {
    var m :| 0 <= m < |before| && before[m] == s.context.fingerprint;
    assert after[m] == before[m];
  }
}
