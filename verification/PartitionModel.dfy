/** Data model of the contract partition: the plan, the filesystem it works on, the
    durable log, and the invariant that relates them.

    A directory holds recordings (visible names), hidden entries, and at most one
    ownership marker of this transaction.  Every object carries an identity number, the
    counterpart of the device and inode recorded in the journal. */
module PartitionModel {
  import opened Common

  type Digest = nat     // a contract digest; fixed-width lowercase hex sorts as a number
  type Serial = string

  const WORKING_MODE: nat := 448  // 0o700

  datatype Dir = Dir(
    inode: nat,
    mode: nat,
    marker: Option<nat>,
    recordings: map<Serial, nat>,
    hidden: map<string, nat>)

  /** The two names one destination can have: its construction name and its final name. */
  datatype Slot = Slot(construction: Option<Dir>, published: Option<Dir>)

  datatype Fs = Fs(source: Dir, slots: map<Digest, Slot>, nextInode: nat)

  /** What the caller asks for: a validated contract manifest, the contract that stays,
      and one destination per other contract.  `order` lists the digests sorted. */
  datatype Request = Request(
    keep: Digest,
    order: seq<Digest>,
    partitions: map<Digest, seq<Serial>>,
    digestOf: map<Serial, Digest>,
    destinations: set<Digest>)

  datatype Plan = Plan(request: Request, inventory: Dir, token: nat)

  datatype Phase = Reserved | Applying | Finalizing | Committed | RollingBack | RolledBack

  /** The directory identity recorded for a destination once it has been adopted. */
  datatype Binding = Binding(inode: nat, mode: nat, marker: nat)

  datatype Journal = Journal(plan: Plan, phase: Phase, bindings: map<Digest, Binding>)

  /** The journal file.  `CutAtNewline` lacks only the final line feed, so it still parses. */
  datatype JournalFile = Missing | Cut | CutAtNewline | Whole

  /** The state log: absent, present without a complete bootstrap record, or started.
      `records` are the complete state records; `torn` says that bytes follow the last one. */
  datatype Log =
    | NoLog(foreignJournal: bool)
    | Bare
    | Booted(plan: Plan, journalFile: JournalFile, records: seq<Journal>, torn: bool)

  datatype Refusal =
    | BadRequest | DestinationExists | SourceMismatch | InvocationChanged | ForeignJournal
    | JournalMismatch | RollbackDirection | ForeignContent | LiveStateInvalid
    | IdentityChanged | NothingToRollBack | DurableStateInconsistent

  // ---------------------------------------------------------------- requests and plans

  predicate Sorted(order: seq<Digest>) {
    forall i, j | 0 <= i < j < |order| :: order[i] < order[j]
  }

  predicate NoDuplicates<T(==)>(s: seq<T>) {
    forall i, j | 0 <= i < j < |s| :: s[i] != s[j]
  }

  predicate ValidRequest(r: Request) {
    && Sorted(r.order)
    && (forall d | d in r.order :: d in r.partitions)
    && (forall d | d in r.partitions :: d in r.order)
    && r.keep in r.partitions
    && r.destinations == r.partitions.Keys - {r.keep}
    && (forall d | d in r.partitions :: r.partitions[d] != [] && NoDuplicates(r.partitions[d]))
    && (forall d, s | d in r.partitions && s in r.partitions[d] :: s in r.digestOf && r.digestOf[s] == d)
    && (forall s | s in r.digestOf :: r.digestOf[s] in r.partitions && s in r.partitions[r.digestOf[s]])
  }

  ghost predicate ValidPlan(p: Plan) {
    && ValidRequest(p.request)
    && p.inventory.recordings.Keys == p.request.digestOf.Keys
    && p.inventory.marker.None?
  }

  predicate Leaves(p: Plan, s: Serial)
    requires s in p.request.digestOf
  {
    p.request.digestOf[s] != p.request.keep
  }

  // ---------------------------------------------------------------- the filesystem

  function SlotOf(fs: Fs, d: Digest): Slot {
    if d in fs.slots then fs.slots[d] else Slot(None, None)
  }

  function SetSlot(fs: Fs, d: Digest, slot: Slot): (r: Fs)
    ensures SlotOf(r, d) == slot
    ensures forall e :: e != d ==> SlotOf(r, e) == SlotOf(fs, e)
    ensures r.source == fs.source && r.nextInode == fs.nextInode
  {
    fs.(slots := fs.slots[d := slot])
  }

  predicate InDestination(fs: Fs, d: Digest, s: Serial) {
    SlotOf(fs, d).published.Some? && s in SlotOf(fs, d).published.value.recordings
  }

  function BindingOf(j: Journal, d: Digest): Option<Binding> {
    if d in j.bindings then Some(j.bindings[d]) else None
  }

  /** A directory holds nothing but recordings of contract `d`, each the inventoried object. */
  ghost predicate HoldsOnly(dir: Dir, p: Plan, d: Digest) {
    && dir.hidden == map[]
    && (forall s :: s in dir.recordings ==>
          && s in p.request.digestOf && p.request.digestOf[s] == d
          && s in p.inventory.recordings && dir.recordings[s] == p.inventory.recordings[s])
  }

  ghost predicate FreshDestination(dir: Dir) {
    dir.mode == WORKING_MODE && dir.recordings == map[] && dir.hidden == map[]
  }

  predicate Vacant(slot: Slot) {
    slot.construction.None? && slot.published.None?
  }

  /** What a destination that has not been adopted can look like. */
  ghost predicate UnboundSlotOk(slot: Slot, phase: Phase) {
    if phase.Reserved? then
      && (slot.construction.None? || slot.published.None?)
      && (slot.construction.Some? ==> FreshDestination(slot.construction.value))
      && (slot.published.Some? ==> FreshDestination(slot.published.value) && slot.published.value.marker.Some?)
    else
      (phase.RollingBack? || phase.RolledBack?) && Vacant(slot)
  }

  ghost predicate EitherMode(mode: nat, committed: nat) {
    mode == WORKING_MODE || mode == committed
  }

  ghost predicate MarkerOrGone(dir: Dir, b: Binding) {
    dir.marker.None? || dir.marker.value == b.marker
  }

  ghost predicate MarkerPresent(dir: Dir, b: Binding) {
    dir.marker.Some? && dir.marker.value == b.marker
  }

  /** Mode and marker a destination may have in each phase. */
  ghost predicate PhaseAllows(dir: Dir, b: Binding, phase: Phase, committed: nat) {
    match phase
    case Reserved => MarkerPresent(dir, b) && dir.mode == b.mode == WORKING_MODE
    case Applying => MarkerPresent(dir, b) && dir.mode == b.mode == WORKING_MODE
    case Finalizing =>
      MarkerOrGone(dir, b) && EitherMode(dir.mode, committed) && b.mode == WORKING_MODE
    case RollingBack =>
      MarkerOrGone(dir, b) && EitherMode(dir.mode, committed) && EitherMode(b.mode, committed)
    case Committed => dir.marker.None? && dir.mode == b.mode == committed
    case RolledBack => dir.marker.None? && dir.mode == b.mode == committed
  }

  ghost predicate BoundSlotOk(slot: Slot, b: Binding, p: Plan, d: Digest, phase: Phase) {
    && slot.construction.None?
    && slot.published.Some?
    && var dir := slot.published.value;
    && dir.inode == b.inode
    && HoldsOnly(dir, p, d)
    && PhaseAllows(dir, b, phase, p.inventory.mode)
  }

  ghost predicate SlotOk(fs: Fs, j: Journal, d: Digest) {
    match BindingOf(j, d)
    case None => UnboundSlotOk(SlotOf(fs, d), j.phase)
    case Some(b) => BoundSlotOk(SlotOf(fs, d), b, j.plan, d, j.phase)
  }

  ghost predicate SourceOk(fs: Fs, p: Plan) {
    && fs.source.inode == p.inventory.inode
    && fs.source.mode == p.inventory.mode
    && fs.source.marker.None?
    && fs.source.hidden == p.inventory.hidden
    && (forall s :: s in fs.source.recordings ==>
          s in p.inventory.recordings && fs.source.recordings[s] == p.inventory.recordings[s])
  }

  /** Recording `s` is in the source or in the destination of its own contract, not both. */
  ghost predicate PlacedOnce(fs: Fs, p: Plan, s: Serial)
    requires s in p.request.digestOf
  {
    s in fs.source.recordings <==> !(Leaves(p, s) && InDestination(fs, p.request.digestOf[s], s))
  }

  ghost predicate AllHome(fs: Fs, p: Plan) {
    forall s :: s in p.request.digestOf ==> s in fs.source.recordings
  }

  ghost predicate AllMoved(fs: Fs, p: Plan) {
    forall s :: s in p.request.digestOf ==> (s in fs.source.recordings <==> !Leaves(p, s))
  }

  ghost predicate ContentsOk(fs: Fs, j: Journal) {
    match j.phase
    case Reserved => AllHome(fs, j.plan)
    case Finalizing => AllMoved(fs, j.plan)
    case Committed => AllMoved(fs, j.plan)
    case RolledBack => AllHome(fs, j.plan)
    case _ => true
  }

  ghost predicate BindingsOk(j: Journal) {
    && j.bindings.Keys <= j.plan.request.destinations
    && (j.phase.Applying? || j.phase.Finalizing? || j.phase.Committed? ==>
          j.bindings.Keys == j.plan.request.destinations)
  }

  /** The invariant: `fs` is a state the journal `j` can be the last durable record of. */
  ghost predicate Consistent(fs: Fs, j: Journal) {
    && ValidPlan(j.plan)
    && BindingsOk(j)
    && SourceOk(fs, j.plan)
    && (forall d :: d in j.plan.request.destinations ==> SlotOk(fs, j, d))
    && (forall s :: s in j.plan.request.digestOf ==> PlacedOnce(fs, j.plan, s))
    && ContentsOk(fs, j)
  }

  /** The state in which a plan is made. */
  ghost predicate Pristine(fs: Fs, p: Plan) {
    && fs.source == p.inventory
    && (forall d :: d in p.request.destinations ==> Vacant(SlotOf(fs, d)))
  }

  // ---------------------------------------------------------------- the log

  function FirstJournal(p: Plan): Journal {
    Journal(p, Reserved, map[])
  }

  function Rank(phase: Phase): nat {
    match phase
    case Reserved => 0
    case Applying => 1
    case Finalizing => 2
    case Committed => 3
    case RollingBack => 4
    case RolledBack => 5
  }

  predicate HasState(log: Log) {
    log.Booted? && log.records != []
  }

  function Last(log: Log): Journal
    requires HasState(log)
  {
    log.records[|log.records| - 1]
  }

  /** One unchanging plan, and phases that never go backwards. */
  ghost predicate History(p: Plan, records: seq<Journal>) {
    && (forall i :: 0 <= i < |records| ==> records[i].plan == p)
    && (forall i, j :: 0 <= i < j < |records| ==> Rank(records[i].phase) <= Rank(records[j].phase))
    && (records != [] ==> records[0] == FirstJournal(p))
  }

  /** What appending the record `j` does to a log: all of it is there and nothing behind it, or
      the records are the old ones, with or without a torn tail. */
  predicate Wrote(before: Log, after: Log, j: Journal, whole: bool)
    requires before.Booted?
  {
    if whole then after == before.(records := before.records + [j], torn := false)
    else after.Booted? && after == before.(torn := after.torn)
  }

  ghost predicate DiskConsistent(fs: Fs, log: Log) {
    && fs.source.marker.None?
    && (log.Booted? ==>
          && ValidPlan(log.plan)
          && History(log.plan, log.records)
          && (log.records == [] ==> Pristine(fs, log.plan))
          && (log.records != [] ==> log.journalFile.Whole? && Consistent(fs, Last(log))))
  }

  // ---------------------------------------------------------------- what the invariant gives

  /** The number of places among the source and all destinations that hold `s`. */
  ghost function Places(fs: Fs, p: Plan, s: Serial): set<Option<Digest>> {
    (if s in fs.source.recordings then {None} else {})
    + (set d | d in p.request.destinations && InDestination(fs, d, s) :: Some(d))
  }

  ghost function Home(fs: Fs, p: Plan, s: Serial): Option<Digest>
    requires s in p.request.digestOf
  {
    if s in fs.source.recordings then None else Some(p.request.digestOf[s])
  }

  /** A recording is in exactly one place, the source or the destination of its own contract;
      a recording of the kept contract is in the source; and no directory holds a name the
      plan does not know. */
  ghost predicate ExactlyOnce(fs: Fs, p: Plan) {
    && (forall s :: s in p.request.digestOf ==> Places(fs, p, s) == {Home(fs, p, s)})
    && (forall s :: s in p.request.digestOf && !Leaves(p, s) ==> s in fs.source.recordings)
    && fs.source.hidden == p.inventory.hidden
    && fs.source.recordings.Keys <= p.request.digestOf.Keys
    && (forall d :: d in p.request.destinations && SlotOf(fs, d).published.Some? ==>
          && SlotOf(fs, d).published.value.hidden == map[]
          && SlotOf(fs, d).published.value.recordings.Keys <= p.request.digestOf.Keys)
  }

  lemma PublishedHoldsOnly(fs: Fs, j: Journal, d: Digest)
    requires SlotOk(fs, j, d) && SlotOf(fs, d).published.Some?
    ensures HoldsOnly(SlotOf(fs, d).published.value, j.plan, d)
  {
  }

  lemma OnePlace(fs: Fs, p: Plan, s: Serial)
    requires ValidPlan(p) && s in p.request.digestOf && PlacedOnce(fs, p, s)
    requires forall d :: d in p.request.destinations && SlotOf(fs, d).published.Some? ==>
      HoldsOnly(SlotOf(fs, d).published.value, p, d)
    ensures Places(fs, p, s) == {Home(fs, p, s)}
  {
    forall d | d in p.request.destinations && InDestination(fs, d, s)
      ensures d == p.request.digestOf[s]
    {
      assert HoldsOnly(SlotOf(fs, d).published.value, p, d);
    }
  }

  lemma ConsistentIsSafe(fs: Fs, j: Journal)
    requires Consistent(fs, j)
    ensures ExactlyOnce(fs, j.plan)
  {
    var p := j.plan;
    forall d | d in p.request.destinations && SlotOf(fs, d).published.Some?
      ensures HoldsOnly(SlotOf(fs, d).published.value, p, d)
    {
      PublishedHoldsOnly(fs, j, d);
    }
    forall s | s in p.request.digestOf
      ensures Places(fs, p, s) == {Home(fs, p, s)}
      ensures !Leaves(p, s) ==> s in fs.source.recordings
    {
      hide SlotOk, SourceOk, HoldsOnly, ContentsOk, BindingsOk;
      OnePlace(fs, p, s);
    }
    hide SlotOk, PlacedOnce, ContentsOk, BindingsOk, Places;
  }

  lemma PristineIsConsistent(fs: Fs, p: Plan)
    requires ValidPlan(p) && Pristine(fs, p)
    ensures Consistent(fs, FirstJournal(p))
  {
  }
}
