/** The live-state check that every phase change passes through. */
module PartitionLive {
  import opened Common
  import opened PartitionModel

  function AllowedModes(phase: Phase, committed: nat): set<nat> {
    match phase
    case Reserved => {WORKING_MODE}
    case Applying => {WORKING_MODE}
    case Finalizing => {WORKING_MODE, committed}
    case RollingBack => {WORKING_MODE, committed}
    case Committed => {committed}
    case RolledBack => {committed}
  }

  predicate MarkerRequired(phase: Phase) {
    phase == Reserved || phase == Applying
  }

  predicate MarkerForbidden(phase: Phase) {
    phase == Committed || phase == RolledBack
  }

  /** The source directory is the inventoried one and its hidden entries are unchanged. */
  predicate SourceLive(fs: Fs, p: Plan) {
    && fs.source.inode == p.inventory.inode
    && fs.source.mode == p.inventory.mode
    && fs.source.marker.None?
    && fs.source.hidden == p.inventory.hidden
    && fs.source.recordings.Keys <= p.request.digestOf.Keys
  }

  predicate DestinationLive(fs: Fs, j: Journal, d: Digest) {
    var published := SlotOf(fs, d).published;
    if d !in j.bindings then
      published.None?
    else
      var b := j.bindings[d];
      && published.Some?
      && published.value.inode == b.inode
      && published.value.mode in AllowedModes(j.phase, j.plan.inventory.mode)
      && (published.value.marker.Some? ==> published.value.marker.value == b.marker && !MarkerForbidden(j.phase))
      && (MarkerRequired(j.phase) ==> published.value.marker.Some?)
      && published.value.hidden == map[]
      && published.value.recordings.Keys <= j.plan.request.digestOf.Keys
  }

  /** The bound destinations in which a name is present. */
  function Holders(fs: Fs, j: Journal, s: Serial): set<Digest> {
    set d | d in j.bindings && InDestination(fs, d, s)
  }

  predicate RecordingLive(fs: Fs, j: Journal, s: Serial)
    requires s in j.plan.request.digestOf
  {
    var d := j.plan.request.digestOf[s];
    if s in fs.source.recordings then
      && Holders(fs, j, s) == {}
      && s in j.plan.inventory.recordings
      && fs.source.recordings[s] == j.plan.inventory.recordings[s]
    else
      && Holders(fs, j, s) == {d}
      && d != j.plan.request.keep
      && s in j.plan.inventory.recordings
      && InDestination(fs, d, s)
      && SlotOf(fs, d).published.value.recordings[s] == j.plan.inventory.recordings[s]
  }

  /** The `expected_phase` argument of the check. */
  datatype Expected = AnyContents | CommittedContents | RolledBackContents

  predicate ExpectedContents(fs: Fs, p: Plan, expected: Expected) {
    match expected
    case CommittedContents => forall s | s in p.request.digestOf :: s in fs.source.recordings <==> !Leaves(p, s)
    case RolledBackContents => forall s | s in p.request.digestOf :: s in fs.source.recordings
    case AnyContents => true
  }

  predicate LiveOk(fs: Fs, j: Journal, expected: Expected) {
    && SourceLive(fs, j.plan)
    && (forall d | d in j.plan.request.destinations :: DestinationLive(fs, j, d))
    && (forall s | s in j.plan.request.digestOf :: RecordingLive(fs, j, s))
    && ExpectedContents(fs, j.plan, expected)
  }

  /** Two journals that may differ in the recorded modes only. */
  ghost predicate SameButModes(a: Journal, b: Journal) {
    && a.plan == b.plan && a.phase == b.phase && a.bindings.Keys == b.bindings.Keys
    && forall d :: d in a.bindings ==>
         a.bindings[d].inode == b.bindings[d].inode && a.bindings[d].marker == b.bindings[d].marker
  }

  ghost predicate NothingHalfBuilt(fs: Fs, j: Journal) {
    forall d :: d in j.plan.request.destinations && d !in j.bindings ==> SlotOf(fs, d).published.None?
  }

  /** The check accepts every consistent state whose destinations are all adopted. */
  lemma ConsistentIsLive(fs: Fs, j: Journal, live: Journal, expected: Expected)
    requires Consistent(fs, j) && SameButModes(j, live) && NothingHalfBuilt(fs, j)
    requires expected.CommittedContents? ==> AllMoved(fs, j.plan)
    requires expected.RolledBackContents? ==> AllHome(fs, j.plan)
    ensures LiveOk(fs, live, expected)
  {
    forall d | d in j.plan.request.destinations
      ensures DestinationLive(fs, live, d)
    {
      DestinationIsLive(fs, j, live, d);
    }
    forall s | s in j.plan.request.digestOf
      ensures RecordingLive(fs, live, s)
    {
      RecordingIsLive(fs, j, live, s);
    }
  }

  lemma DestinationIsLive(fs: Fs, j: Journal, live: Journal, d: Digest)
    requires SlotOk(fs, j, d) && SameButModes(j, live) && ValidPlan(j.plan)
    requires d !in j.bindings ==> SlotOf(fs, d).published.None?
    ensures DestinationLive(fs, live, d)
  {
    if d in j.bindings {
      var dir := SlotOf(fs, d).published.value;
      assert HoldsOnly(dir, j.plan, d);
      assert dir.recordings.Keys <= j.plan.request.digestOf.Keys;
    }
  }

  /** In a consistent state only the destination of its own contract can hold a recording. */
  lemma HoldersExact(fs: Fs, j: Journal, live: Journal, s: Serial)
    requires Consistent(fs, j) && live.bindings.Keys == j.bindings.Keys
    ensures forall e :: e in Holders(fs, live, s) ==> s in j.plan.request.digestOf && e == j.plan.request.digestOf[s]
  {
    forall e | e in Holders(fs, live, s)
      ensures s in j.plan.request.digestOf && e == j.plan.request.digestOf[s]
    {
      assert SlotOk(fs, j, e);
    }
  }

  lemma RecordingIsLive(fs: Fs, j: Journal, live: Journal, s: Serial)
    requires Consistent(fs, j) && SameButModes(j, live) && s in j.plan.request.digestOf
    ensures RecordingLive(fs, live, s)
  {
    HoldersExact(fs, j, live, s);
    var d := j.plan.request.digestOf[s];
    assert PlacedOnce(fs, j.plan, s);
    if s !in fs.source.recordings {
      assert SlotOk(fs, j, d);
      AwayIsLive(fs, j, live, s);
    } else {
      hide SlotOk, Consistent, ContentsOk;
      HomeIsLive(fs, j, live, s);
    }
  }

  lemma HomeIsLive(fs: Fs, j: Journal, live: Journal, s: Serial)
    requires SameButModes(j, live) && s in j.plan.request.digestOf && PlacedOnce(fs, j.plan, s)
    requires SourceOk(fs, j.plan) && s in fs.source.recordings
    requires j.bindings.Keys <= j.plan.request.destinations && j.plan.request.keep !in j.plan.request.destinations
    requires forall e :: e in Holders(fs, live, s) ==> e == j.plan.request.digestOf[s]
    ensures RecordingLive(fs, live, s)
  {
    assert j.plan.request.digestOf[s] !in Holders(fs, live, s);
    assert Holders(fs, live, s) == {};
  }

  lemma AwayIsLive(fs: Fs, j: Journal, live: Journal, s: Serial)
    requires SameButModes(j, live) && s in j.plan.request.digestOf && PlacedOnce(fs, j.plan, s)
    requires s !in fs.source.recordings && SlotOk(fs, j, j.plan.request.digestOf[s])
    requires forall e :: e in Holders(fs, live, s) ==> e == j.plan.request.digestOf[s]
    ensures RecordingLive(fs, live, s)
  {
    var d := j.plan.request.digestOf[s];
    assert d in Holders(fs, live, s);
    assert Holders(fs, live, s) == {d};
  }

  lemma LivePlaced(fs: Fs, j: Journal, s: Serial)
    requires s in j.plan.request.digestOf && RecordingLive(fs, j, s)
    requires Leaves(j.plan, s) ==> DestinationLive(fs, j, j.plan.request.digestOf[s])
    ensures PlacedOnce(fs, j.plan, s)
  {
    var d := j.plan.request.digestOf[s];
    if Leaves(j.plan, s) && InDestination(fs, d, s) {
      assert d in Holders(fs, j, s);
    }
  }

  lemma LiveHolds(fs: Fs, j: Journal, d: Digest)
    requires d in j.bindings && DestinationLive(fs, j, d)
    requires forall s :: s in j.plan.request.digestOf ==> RecordingLive(fs, j, s)
    ensures HoldsOnly(SlotOf(fs, d).published.value, j.plan, d)
  {
    var dir := SlotOf(fs, d).published.value;
    forall s | s in dir.recordings
      ensures s in j.plan.request.digestOf && j.plan.request.digestOf[s] == d
      ensures s in j.plan.inventory.recordings && dir.recordings[s] == j.plan.inventory.recordings[s]
    {
      assert RecordingLive(fs, j, s);
      assert d in Holders(fs, j, s);
    }
  }

  lemma LiveSource(fs: Fs, j: Journal)
    requires SourceLive(fs, j.plan)
    requires forall s :: s in j.plan.request.digestOf ==> RecordingLive(fs, j, s)
    ensures SourceOk(fs, j.plan)
  {
    forall s | s in fs.source.recordings
      ensures s in j.plan.inventory.recordings && fs.source.recordings[s] == j.plan.inventory.recordings[s]
    {
      assert RecordingLive(fs, j, s);
    }
  }

  /** What an accepted live state guarantees, whatever the journal: every recording is the
      inventoried object and is in exactly one of the source and its own destination. */
  lemma LiveIsSafe(fs: Fs, j: Journal, expected: Expected)
    requires ValidPlan(j.plan) && BindingsOk(j) && LiveOk(fs, j, expected)
    ensures SourceOk(fs, j.plan)
    ensures forall s :: s in j.plan.request.digestOf ==> PlacedOnce(fs, j.plan, s)
    ensures forall d :: d in j.bindings ==> HoldsOnly(SlotOf(fs, d).published.value, j.plan, d)
    ensures expected.CommittedContents? ==> AllMoved(fs, j.plan)
    ensures expected.RolledBackContents? ==> AllHome(fs, j.plan)
  {
    forall s | s in j.plan.request.digestOf
      ensures PlacedOnce(fs, j.plan, s)
    {
      LivePlaced(fs, j, s);
    }
    forall d | d in j.bindings
      ensures HoldsOnly(SlotOf(fs, d).published.value, j.plan, d)
    {
      LiveHolds(fs, j, d);
    }
    LiveSource(fs, j);
  }

  /** What the check asks of an adopted destination: the bound directory, with the mode and the
      marker of the phase, and nothing in it that the plan does not name. */
  lemma DestinationAccepted(fs: Fs, j: Journal, d: Digest)
    requires d in j.bindings
    ensures DestinationLive(fs, j, d) <==>
      && SlotOf(fs, d).published.Some?
      && var dir, b, committed := SlotOf(fs, d).published.value, j.bindings[d], j.plan.inventory.mode;
      && dir.inode == b.inode && dir.hidden == map[]
      && (forall s: Serial :: s in dir.recordings ==> s in j.plan.request.digestOf)
      && (j.phase.Reserved? || j.phase.Applying? ==> dir.mode == WORKING_MODE && dir.marker == Some(b.marker))
      && (j.phase.Finalizing? || j.phase.RollingBack? ==>
            (dir.mode == WORKING_MODE || dir.mode == committed) && (dir.marker.None? || dir.marker == Some(b.marker)))
      && (j.phase.Committed? || j.phase.RolledBack? ==> dir.mode == committed && dir.marker.None?)
  {
  }

  /** What the check asks of a recording: at home it is in no adopted destination, away from home
      it is in the destination of its contract and in no other, and it is the inventoried object. */
  lemma RecordingAccepted(fs: Fs, j: Journal, s: Serial)
    requires s in j.plan.request.digestOf
    ensures var d, was := j.plan.request.digestOf[s], j.plan.inventory.recordings;
      RecordingLive(fs, j, s) <==>
      && s in was
      && if s in fs.source.recordings then
           && fs.source.recordings[s] == was[s]
           && forall e :: e in j.bindings ==> !InDestination(fs, e, s)
         else
           && d != j.plan.request.keep && d in j.bindings && InDestination(fs, d, s)
           && SlotOf(fs, d).published.value.recordings[s] == was[s]
           && forall e :: e in j.bindings && InDestination(fs, e, s) ==> e == d
  {
    var d := j.plan.request.digestOf[s];
    if s in fs.source.recordings {
      if forall e :: e in j.bindings ==> !InDestination(fs, e, s) {
        assert Holders(fs, j, s) == {};
      } else {
        var e :| e in j.bindings && InDestination(fs, e, s);
        assert e in Holders(fs, j, s);
      }
    } else if RecordingLive(fs, j, s) {
      assert d in Holders(fs, j, s);
      forall e | e in j.bindings && InDestination(fs, e, s) ensures e == d {
        assert e in Holders(fs, j, s);
      }
    } else if d in j.bindings && InDestination(fs, d, s)
              && (forall e :: e in j.bindings && InDestination(fs, e, s) ==> e == d) {
      assert Holders(fs, j, s) == {d};
    }
  }
}
