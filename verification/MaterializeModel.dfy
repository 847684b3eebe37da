/** Replacing a task that is a view of links by a tree of hardlinks: the names involved,
    the manifest, how each name is classified, and the states a run can be found in. */
module MaterializeModel {
  import opened Common

  /** A recording to be linked: how many files it has, and whether `mkdir` gives its
      directory the wanted mode at once, the process's umask permitting. */
  datatype Recording = Recording(files: nat, honoured: bool)

  type Recordings = seq<Recording>

  /** A recording's directory under construction. */
  datatype Staged = Staged(modeSet: bool, files: set<nat>)

  /** A staging root, by identity: the reservation marker in it and what has been linked. */
  datatype Root = Root(id: nat, marker: Option<nat>, content: map<nat, Staged>)

  datatype Entry = View | Tree(root: Root)

  datatype Phase =
    | Reserved | Preparing | StagingQuarantining | StagingReplacing | Prepared | ViewArchived
    | Committed | RolledBack | RollbackFailed | RecoveryFailed

  datatype Quarantine = Quarantine(path: nat, id: nat, marker: nat)

  datatype Manifest = Manifest(phase: Phase, identity: Option<nat>, reservation: nat, quarantines: seq<Quarantine>)

  /** The original view is one object; it is wherever `View` is. Constructions and
      quarantines are named by tokens. */
  datatype Names = Names(source: Option<Entry>, staging: Option<Entry>, rollback: Option<Entry>,
                         constructions: map<nat, Root>, quarantined: map<nat, Root>)

  // ------------------------------------------------------------------ classification

  datatype Kind = Missing | IsView | Hardlink | Partial | Foreign

  predicate Within(files: set<nat>, n: nat) {
    forall f :: f in files ==> f < n
  }

  predicate Full(files: set<nat>, n: nat) {
    Within(files, n) && forall f :: 0 <= f < n ==> f in files
  }

  /** Every directory in the root is a planned one, with its mode set, holding planned files. */
  predicate WellFormed(recordings: Recordings, content: map<nat, Staged>) {
    forall k :: k in content ==> k < |recordings| && content[k].modeSet && Within(content[k].files, recordings[k].files)
  }

  predicate Complete(recordings: Recordings, content: map<nat, Staged>) {
    && WellFormed(recordings, content)
    && (forall k :: 0 <= k < |recordings| ==> k in content && Full(content[k].files, recordings[k].files))
  }

  predicate Owned(m: Manifest, e: Option<Entry>) {
    && e.Some? && e.value.Tree?
    && m.identity == Some(e.value.root.id) && e.value.root.marker == Some(m.reservation)
  }

  function ClassifyView(e: Option<Entry>): Kind {
    if e.None? then Missing else if e.value.View? then IsView else Foreign
  }

  function ClassifyTree(recordings: Recordings, m: Manifest, e: Option<Entry>): Kind {
    if e.None? then Missing
    else if !Owned(m, e) || !WellFormed(recordings, e.value.root.content) then Foreign
    else if Complete(recordings, e.value.root.content) then Hardlink else Partial
  }

  function ClassifySource(recordings: Recordings, m: Manifest, e: Option<Entry>): Kind {
    if ClassifyView(e).IsView? then IsView else ClassifyTree(recordings, m, e)
  }

  // ------------------------------------------------------------------ what is always so

  predicate IsComplete(recordings: Recordings, e: Option<Entry>) {
    e.Some? && e.value.Tree? && Complete(recordings, e.value.root.content)
  }

  /** The original view is at exactly one of the task's name and the rollback name; in its
      absence the task's name holds nothing or the complete tree. */
  predicate Safe(recordings: Recordings, fs: Names) {
    || (fs.source == Some(View) && fs.rollback.None?)
    || (fs.rollback == Some(View) && (fs.source.None? || IsComplete(recordings, fs.source)))
  }

  function Holds(e: Option<Entry>): nat {
    if e == Some(View) then 1 else 0
  }

  lemma SafeMeansViewOnce(recordings: Recordings, fs: Names)
    requires Safe(recordings, fs)
    ensures Holds(fs.source) + Holds(fs.rollback) == 1
    ensures fs.source.Some? ==> fs.source == Some(View) || IsComplete(recordings, fs.source)
  {
  }

  predicate HasRoot(fs: Names, id: nat) {
    || (fs.source.Some? && fs.source.value.Tree? && fs.source.value.root.id == id)
    || (fs.staging.Some? && fs.staging.value.Tree? && fs.staging.value.root.id == id)
    || (exists t :: t in fs.constructions && fs.constructions[t].id == id)
    || (exists t :: t in fs.quarantined && fs.quarantined[t].id == id)
  }

  /** No staging root is ever removed. */
  ghost predicate KeepsRoots(before: Names, after: Names) {
    forall id :: HasRoot(before, id) ==> HasRoot(after, id)
  }

  // ------------------------------------------------------------------ what a call can resume

  predicate IsHeld(fs: Names, q: Quarantine) {
    q.path in fs.quarantined && fs.quarantined[q.path].id == q.id && fs.quarantined[q.path].marker == Some(q.marker)
  }

  predicate QuarantinesHeld(fs: Names, m: Manifest, n: nat)
    requires n <= |m.quarantines|
  {
    forall i :: 0 <= i < n ==> IsHeld(fs, m.quarantines[i])
  }

  predicate IsReserved(m: Manifest, r: Root) {
    r.marker == Some(m.reservation) && r.content == map[]
  }

  /** A root is being constructed under the reserved name, or has been published. */
  predicate ReservationFits(fs: Names, m: Manifest) {
    if fs.staging.None? then
      m.reservation in fs.constructions ==>
        fs.constructions[m.reservation].content == map[] &&
        (fs.constructions[m.reservation].marker.None? || IsReserved(m, fs.constructions[m.reservation]))
    else
      m.reservation !in fs.constructions && fs.staging.value.Tree? && IsReserved(m, fs.staging.value.root)
  }

  predicate NoIdentityYet(p: Phase) {
    p.Reserved? || p.StagingReplacing? || p.RolledBack?
  }

  predicate BeingQuarantined(fs: Names, m: Manifest) {
    && |m.quarantines| > 0
    && var q := m.quarantines[|m.quarantines| - 1];
    && m.identity == Some(q.id) && q.marker == m.reservation
    && QuarantinesHeld(fs, m, |m.quarantines| - 1)
    && (if fs.staging.Some? then Owned(m, fs.staging) && q.path !in fs.quarantined
        else IsHeld(fs, q))
  }

  /** Planned directories only, and only the one being made may lack its mode. */
  predicate WellPlaced(recordings: Recordings, content: map<nat, Staged>) {
    forall k :: k in content ==> k < |recordings| && Within(content[k].files, recordings[k].files)
                                 && (recordings[k].honoured ==> content[k].modeSet)
  }

  /** Where the view and the tree are once a staging root is recorded. */
  predicate Positions(recordings: Recordings, fs: Names, m: Manifest) {
    if fs.source == Some(View) then
      && fs.rollback.None? && Owned(m, fs.staging) && !m.phase.Committed?
      && WellPlaced(recordings, fs.staging.value.root.content)
    else if fs.source.None? then
      fs.rollback == Some(View) && Owned(m, fs.staging) && IsComplete(recordings, fs.staging) && !m.phase.Committed?
    else
      fs.rollback == Some(View) && Owned(m, fs.source) && IsComplete(recordings, fs.source) && fs.staging.None?
  }

  /** The state one manifest describes. */
  predicate Resumable(recordings: Recordings, fs: Names, m: Manifest) {
    && Safe(recordings, fs)
    && if NoIdentityYet(m.phase) then
         && m.identity.None? && fs.source == Some(View)
         && QuarantinesHeld(fs, m, |m.quarantines|) && ReservationFits(fs, m)
       else if m.phase.StagingQuarantining? then
         fs.source == Some(View) && BeingQuarantined(fs, m)
       else
         m.identity.Some? && QuarantinesHeld(fs, m, |m.quarantines|) && Positions(recordings, fs, m)
  }

  /** A task nothing has been done to, or one that an interrupted call left behind. */
  predicate Reachable(recordings: Recordings, fs: Names, disk: Option<Manifest>) {
    if disk.None? then fs == Names(Some(View), None, None, map[], map[])
    else Resumable(recordings, fs, disk.value)
  }

  /** `_validate_materialization_quarantines`. */
  predicate QuarantinesValid(fs: Names, m: Manifest) {
    forall i :: 0 <= i < |m.quarantines| ==>
      if m.quarantines[i].path in fs.quarantined then IsHeld(fs, m.quarantines[i])
      else m.phase.StagingQuarantining? && i == |m.quarantines| - 1
  }

  /** A quarantine is named where nothing is, and it is not the one being filled. */
  predicate Holed(fs: Names, m: Manifest) {
    exists i :: 0 <= i < |m.quarantines| && m.quarantines[i].path !in fs.quarantined
                && !(m.phase.StagingQuarantining? && i == |m.quarantines| - 1)
  }

  /** `_load_materialization_manifest`, as far as the staging identity goes. */
  predicate Loadable(m: Manifest) {
    NoIdentityYet(m.phase) <==> m.identity.None?
  }

  /** No directory was left half made: created, but killed before its mode was set. */
  predicate Presentable(recordings: Recordings, fs: Names, disk: Option<Manifest>) {
    disk.Some? && !NoIdentityYet(disk.value.phase) && !disk.value.phase.StagingQuarantining?
      && fs.source == Some(View) && fs.staging.Some? && fs.staging.value.Tree? ==>
        forall k :: k in fs.staging.value.root.content ==> fs.staging.value.root.content[k].modeSet
  }

  /** A staging root is recorded and gone from its public name, with the view still in place. */
  predicate Gone(fs: Names, m: Manifest) {
    && m.identity.Some? && !m.phase.StagingQuarantining?
    && fs.source == Some(View) && fs.rollback.None? && fs.staging.None?
  }

  /** What no call passes: a manifest that does not load, one that names a quarantine which is
      not there, or one whose staging root is gone. */
  predicate Stuck(fs: Names, m: Manifest) {
    !Loadable(m) || !QuarantinesValid(fs, m) || Gone(fs, m)
  }

  /** Everything that calls can leave behind, whatever kills them and however many of their
      steps fail, before or after their effect. */
  predicate Left(recordings: Recordings, fs: Names, disk: Option<Manifest>) {
    Reachable(recordings, fs, disk) || (disk.Some? && Stuck(fs, disk.value))
  }

  /** What lets a call through: the three guards on the manifest, and no directory half made. */
  predicate CanResume(recordings: Recordings, fs: Names, disk: Option<Manifest>) {
    && (disk.Some? ==> !Stuck(fs, disk.value))
    && Presentable(recordings, fs, disk)
  }

  /** The two guards on the manifest, field by field: an identity is recorded in exactly the
      phases that have one, and every recorded quarantine is the root with its identity and its
      marker, but for the last one while it is being filled. */
  lemma GuardsMean(fs: Names, m: Manifest)
    ensures Loadable(m) <==>
      (m.identity.None? <==> m.phase.Reserved? || m.phase.StagingReplacing? || m.phase.RolledBack?)
    ensures QuarantinesValid(fs, m) <==> forall i: nat :: i < |m.quarantines| ==>
      var q := m.quarantines[i];
      if q.path in fs.quarantined then
        fs.quarantined[q.path].id == q.id && fs.quarantined[q.path].marker == Some(q.marker)
      else
        m.phase.StagingQuarantining? && i == |m.quarantines| - 1
  {
  }

  /** The guards stop nothing that can be resumed. */
  lemma ReachableIsNotStuck(recordings: Recordings, fs: Names, disk: Option<Manifest>)
    requires Reachable(recordings, fs, disk)
    ensures disk.Some? ==> !Stuck(fs, disk.value)
  {
  }

  /** So a call is let through exactly where it can resume. */
  lemma StuckIsRefused(recordings: Recordings, fs: Names, disk: Option<Manifest>)
    requires Left(recordings, fs, disk)
    ensures CanResume(recordings, fs, disk) <==>
      Reachable(recordings, fs, disk) && Presentable(recordings, fs, disk)
  {
    if Reachable(recordings, fs, disk) {
      ReachableIsNotStuck(recordings, fs, disk);
    }
  }

  /** After one error that strikes when its step is done. `nameless`: a fresh staging root has
      been published, but its identity was not yet taken down; the undoing finds it foreign.
      `holed`: an entry has been added to the quarantines, but nothing has been moved; the
      undoing adds another one. */
  lemma OneLateErrorExample() returns (nameless: Names, m: Manifest, holed: Names, n: Manifest)
    ensures Left([Recording(1, true)], nameless, Some(m)) && !Loadable(m) && QuarantinesValid(nameless, m)
    ensures !CanResume([Recording(1, true)], nameless, Some(m))
    ensures Left([Recording(1, true)], holed, Some(n)) && Loadable(n) && !QuarantinesValid(holed, n)
    ensures !CanResume([Recording(1, true)], holed, Some(n))
  {
    var used, entry := Root(5, Some(3), map[]), Quarantine(7, 5, 3);
    m := Manifest(RollbackFailed, None, 8, [entry]);
    nameless := Names(Some(View), Some(Tree(Root(9, Some(8), map[]))), None, map[], map[7 := used]);
    n := Manifest(RollbackFailed, Some(5), 3, [Quarantine(6, 5, 3), entry]);
    holed := Names(Some(View), None, None, map[], map[7 := used]);
    assert n.quarantines[0].path !in holed.quarantined;
  }

  /** After two, the second of which strikes in the undoing. `unfilled`: the quarantine was
      recorded and nothing moved. `unnamed`: the root was moved and the new reservation could
      not be written. `gone`: the root was moved and the rename then failed; here the manifest
      loads and its quarantines are valid. */
  lemma TwoErrorsExample()
    returns (unfilled: Names, m: Manifest, unnamed: Names, n: Manifest, gone: Names, k: Manifest)
    ensures Left([Recording(1, true)], unfilled, Some(m)) && Loadable(m) && !QuarantinesValid(unfilled, m)
    ensures Left([Recording(1, true)], unnamed, Some(n)) && !Loadable(n) && QuarantinesValid(unnamed, n)
    ensures Left([Recording(1, true)], gone, Some(k)) && Loadable(k) && QuarantinesValid(gone, k) && Gone(gone, k)
    ensures !CanResume([Recording(1, true)], gone, Some(k)) && Presentable([Recording(1, true)], gone, Some(k))
  {
    var root, entry := Root(5, Some(3), map[]), Quarantine(7, 5, 3);
    m := Manifest(RollbackFailed, Some(5), 3, [entry]);
    unfilled := Names(Some(View), Some(Tree(root)), None, map[], map[]);
    assert m.quarantines[0].path !in unfilled.quarantined;
    n := Manifest(RollbackFailed, None, 8, [entry]);
    unnamed := Names(Some(View), None, None, map[], map[7 := root]);
    k := m;
    gone := unnamed;
    assert IsHeld(unnamed, entry);
  }

  /** A failed undoing that no call is stopped by: the view could not be moved back. */
  lemma FailedMoveBackResumes() returns (recordings: Recordings, fs: Names, m: Manifest)
    ensures m.phase.RollbackFailed? && Left(recordings, fs, Some(m)) && CanResume(recordings, fs, Some(m))
  {
    recordings := [Recording(1, true)];
    m := Manifest(RollbackFailed, Some(5), 3, []);
    fs := Names(None, Some(Tree(Root(5, Some(3), map[0 := Staged(true, {0})]))), Some(View), map[], map[]);
    assert IsComplete(recordings, fs.staging);
    assert Reachable(recordings, fs, Some(m));
    StuckIsRefused(recordings, fs, Some(m));
  }

  predicate AllHonoured(recordings: Recordings) {
    forall k :: 0 <= k < |recordings| ==> recordings[k].honoured
  }

  /** When the umask leaves the wanted modes alone no directory is ever left half made. */
  lemma HonouredIsPresentable(recordings: Recordings, fs: Names, disk: Option<Manifest>)
    requires Reachable(recordings, fs, disk)
    requires AllHonoured(recordings)
    ensures Presentable(recordings, fs, disk)
  {
  }
}
