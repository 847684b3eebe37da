/** Each durable step of the partition as a function on the filesystem, and why it keeps
    the invariant. */
module PartitionSteps {
  import opened Common
  import opened PartitionModel

  /** One rename out of the source, for a recording that is there. */
  function MoveOut(fs: Fs, d: Digest, s: Serial): Fs
    requires s in fs.source.recordings && SlotOf(fs, d).published.Some?
  {
    var dir := SlotOf(fs, d).published.value;
    SetSlot(fs.(source := fs.source.(recordings := fs.source.recordings - {s})), d,
            SlotOf(fs, d).(published := Some(dir.(recordings := dir.recordings[s := fs.source.recordings[s]]))))
  }

  /** One rename back into the source. */
  function MoveBack(fs: Fs, d: Digest, s: Serial): Fs
    requires InDestination(fs, d, s)
  {
    var dir := SlotOf(fs, d).published.value;
    SetSlot(fs.(source := fs.source.(recordings := fs.source.recordings[s := dir.recordings[s]])), d,
            SlotOf(fs, d).(published := Some(dir.(recordings := dir.recordings - {s}))))
  }

  /** Changing one destination without changing which recordings it holds. */
  lemma SlotStep(fs: Fs, fs': Fs, j: Journal, d: Digest)
    requires Consistent(fs, j) && d in j.plan.request.destinations
    requires fs'.source == fs.source
    requires forall e :: e != d ==> SlotOf(fs', e) == SlotOf(fs, e)
    requires forall s :: InDestination(fs', d, s) <==> InDestination(fs, d, s)
    requires SlotOk(fs', j, d)
    ensures Consistent(fs', j)
  {
    OtherSlotsKept(fs, fs', j, d);
    forall s | s in j.plan.request.digestOf
      ensures PlacedOnce(fs', j.plan, s)
    {
      assert PlacedOnce(fs, j.plan, s);
    }
  }

  /** One durable change of a destination that has not been adopted. */
  function PutSlot(fs: Fs, d: Digest, slot: Slot): Fs {
    SetSlot(fs, d, slot).(nextInode := fs.nextInode + 1)
  }

  lemma PutSlotStep(fs: Fs, j: Journal, d: Digest, slot: Slot)
    requires Consistent(fs, j) && j.phase.Reserved? && d in j.plan.request.destinations && d !in j.bindings
    requires UnboundSlotOk(slot, Reserved)
    ensures Consistent(PutSlot(fs, d, slot), j)
  {
    assert SlotOk(fs, j, d);
    SlotStep(fs, PutSlot(fs, d, slot), j, d);
  }

  ghost predicate Movable(fs: Fs, j: Journal, d: Digest, s: Serial) {
    && d in j.bindings
    && s in j.plan.request.digestOf && j.plan.request.digestOf[s] == d
    && SlotOf(fs, d).published.Some?
  }

  /** One recording changing places keeps every recording in one place. */
  lemma ExchangeKeepsPlaces(fs: Fs, fs': Fs, p: Plan, d: Digest, s: Serial)
    requires forall t :: t in p.request.digestOf ==> PlacedOnce(fs, p, t)
    requires s in p.request.digestOf && p.request.digestOf[s] == d && Leaves(p, s)
    requires forall e :: e != d ==> SlotOf(fs', e) == SlotOf(fs, e)
    requires forall t :: t != s ==> (t in fs'.source.recordings <==> t in fs.source.recordings)
    requires forall t :: t != s ==> (InDestination(fs', d, t) <==> InDestination(fs, d, t))
    requires s in fs'.source.recordings <==> !InDestination(fs', d, s)
    ensures forall t :: t in p.request.digestOf ==> PlacedOnce(fs', p, t)
  {
    forall t | t in p.request.digestOf
      ensures PlacedOnce(fs', p, t)
    {
      assert PlacedOnce(fs, p, t);
    }
  }

  lemma MovedSlotOk(fs: Fs, fs': Fs, j: Journal, d: Digest)
    requires d in j.bindings && SlotOk(fs, j, d)
    requires SlotOf(fs', d).construction.None? && SlotOf(fs', d).published.Some?
    requires var dir, dir' := SlotOf(fs, d).published.value, SlotOf(fs', d).published.value;
             dir' == dir.(recordings := dir'.recordings) && HoldsOnly(dir', j.plan, d)
    ensures SlotOk(fs', j, d)
  {
  }

  /** The comparisons made before a rename out all succeed in a consistent state. */
  lemma MoveOutChecks(fs: Fs, j: Journal, d: Digest, s: Serial)
    requires Consistent(fs, j) && j.phase.Applying? && d in j.bindings
    requires s in j.plan.request.digestOf && j.plan.request.digestOf[s] == d && s in fs.source.recordings
    ensures SlotOf(fs, d).published.Some?
    ensures var dir := SlotOf(fs, d).published.value;
            && fs.source.inode == j.plan.inventory.inode && fs.source.mode == j.plan.inventory.mode
            && dir.inode == j.bindings[d].inode && dir.mode == j.bindings[d].mode
            && s in j.plan.inventory.recordings && fs.source.recordings[s] == j.plan.inventory.recordings[s]
            && s !in dir.recordings
  {
    assert SlotOk(fs, j, d);
    assert PlacedOnce(fs, j.plan, s);
  }

  /** Of the comparisons made before a rename back only the destination's mode can fail. */
  lemma MoveBackChecks(fs: Fs, j: Journal, d: Digest, s: Serial)
    requires Consistent(fs, j) && j.phase.RollingBack? && d in j.bindings
    requires s in j.plan.request.digestOf && j.plan.request.digestOf[s] == d && InDestination(fs, d, s)
    ensures var dir := SlotOf(fs, d).published.value;
            && fs.source.inode == j.plan.inventory.inode && fs.source.mode == j.plan.inventory.mode
            && dir.inode == j.bindings[d].inode
            && s in j.plan.inventory.recordings && dir.recordings[s] == j.plan.inventory.recordings[s]
            && s !in fs.source.recordings
  {
    assert SlotOk(fs, j, d);
    assert PlacedOnce(fs, j.plan, s);
  }

  /** What moving one recording, in either direction, changes. */
  ghost predicate Exchanged(fs: Fs, fs': Fs, d: Digest, s: Serial) {
    && (forall e :: e != d ==> SlotOf(fs', e) == SlotOf(fs, e))
    && (forall t :: t != s ==> (t in fs'.source.recordings <==> t in fs.source.recordings))
    && (forall t :: t != s ==> (InDestination(fs', d, t) <==> InDestination(fs, d, t)))
    && (s in fs'.source.recordings <==> !InDestination(fs', d, s))
  }

  lemma ExchangeStep(fs: Fs, fs': Fs, j: Journal, d: Digest, s: Serial)
    requires Consistent(fs, j) && (j.phase.Applying? || j.phase.RollingBack?) && Movable(fs, j, d, s)
    requires Exchanged(fs, fs', d, s) && SourceOk(fs', j.plan) && SlotOk(fs', j, d)
    ensures Consistent(fs', j)
  {
    hide SlotOk, SourceOk;
    OtherSlotsKept(fs, fs', j, d);
    ExchangeKeepsPlaces(fs, fs', j.plan, d, s);
    hide PlacedOnce, InDestination, ValidRequest;
  }

  lemma MoveOutExchanges(fs: Fs, d: Digest, s: Serial)
    requires s in fs.source.recordings && SlotOf(fs, d).published.Some?
    ensures Exchanged(fs, MoveOut(fs, d, s), d, s)
  {
  }

  lemma MoveBackExchanges(fs: Fs, d: Digest, s: Serial)
    requires InDestination(fs, d, s)
    ensures Exchanged(fs, MoveBack(fs, d, s), d, s)
  {
  }

  lemma MoveOutFits(fs: Fs, j: Journal, d: Digest, s: Serial)
    requires SourceOk(fs, j.plan) && SlotOk(fs, j, d) && Movable(fs, j, d, s) && s in fs.source.recordings
    ensures SourceOk(MoveOut(fs, d, s), j.plan) && SlotOk(MoveOut(fs, d, s), j, d)
  {
    MovedSlotOk(fs, MoveOut(fs, d, s), j, d);
  }

  lemma MoveBackFits(fs: Fs, j: Journal, d: Digest, s: Serial)
    requires SourceOk(fs, j.plan) && SlotOk(fs, j, d) && Movable(fs, j, d, s) && InDestination(fs, d, s)
    ensures SourceOk(MoveBack(fs, d, s), j.plan) && SlotOk(MoveBack(fs, d, s), j, d)
  {
    MovedSlotOk(fs, MoveBack(fs, d, s), j, d);
  }

  lemma MoveOutStep(fs: Fs, j: Journal, d: Digest, s: Serial)
    requires Consistent(fs, j) && j.phase.Applying? && Movable(fs, j, d, s) && s in fs.source.recordings
    ensures Consistent(MoveOut(fs, d, s), j)
  {
    hide SlotOk, SourceOk, PlacedOnce, ValidPlan, Exchanged, MoveOut;
    MoveOutFits(fs, j, d, s);
    MoveOutExchanges(fs, d, s);
    hide Consistent;
    ExchangeStep(fs, MoveOut(fs, d, s), j, d, s);
  }

  lemma MoveBackStep(fs: Fs, j: Journal, d: Digest, s: Serial)
    requires Consistent(fs, j) && j.phase.RollingBack? && Movable(fs, j, d, s) && InDestination(fs, d, s)
    ensures Consistent(MoveBack(fs, d, s), j)
  {
    hide SlotOk, SourceOk, PlacedOnce, ValidPlan, Exchanged, MoveBack;
    MoveBackFits(fs, j, d, s);
    MoveBackExchanges(fs, d, s);
    hide Consistent;
    ExchangeStep(fs, MoveBack(fs, d, s), j, d, s);
  }

  lemma OtherSlotsKept(fs: Fs, fs': Fs, j: Journal, d: Digest)
    requires forall e :: e in j.plan.request.destinations ==> SlotOk(fs, j, e)
    requires forall e :: e != d ==> SlotOf(fs', e) == SlotOf(fs, e)
    requires SlotOk(fs', j, d)
    ensures forall e :: e in j.plan.request.destinations ==> SlotOk(fs', j, e)
  {
    forall e | e in j.plan.request.destinations
      ensures SlotOk(fs', j, e)
    {
      assert SlotOk(fs, j, e);
    }
  }

  /** Adopting a published destination: its identity and marker are recorded. */
  function Adopt(j: Journal, d: Digest, dir: Dir): Journal
    requires dir.marker.Some?
  {
    j.(bindings := j.bindings[d := Binding(dir.inode, dir.mode, dir.marker.value)])
  }

  /** What a published destination looks like before any recording moves: fresh, or bound as
      it was recorded. */
  lemma PublishedShape(fs: Fs, j: Journal, d: Digest)
    requires Consistent(fs, j) && (j.phase.Reserved? || j.phase.Applying?)
    requires d in j.plan.request.destinations && SlotOf(fs, d).published.Some?
    ensures var dir := SlotOf(fs, d).published.value;
      if d in j.bindings then
        dir.inode == j.bindings[d].inode && dir.mode == WORKING_MODE && dir.marker == Some(j.bindings[d].marker)
      else
        j.phase.Reserved? && FreshDestination(dir) && dir.marker.Some?
  {
    assert SlotOk(fs, j, d);
  }

  lemma AdoptStep(fs: Fs, j: Journal, d: Digest)
    requires Consistent(fs, j) && j.phase.Reserved?
    requires d in j.plan.request.destinations && d !in j.bindings && SlotOf(fs, d).published.Some?
    ensures SlotOf(fs, d).published.value.marker.Some?
    ensures Consistent(fs, Adopt(j, d, SlotOf(fs, d).published.value))
  {
    assert SlotOk(fs, j, d);
    var j' := Adopt(j, d, SlotOf(fs, d).published.value);
    forall e | e in j.plan.request.destinations
      ensures SlotOk(fs, j', e)
    {
      assert SlotOk(fs, j, e);
    }
  }

  /** The phase changes that leave every binding alone. */
  lemma StartApplying(fs: Fs, j: Journal)
    requires Consistent(fs, j) && (j.phase.Reserved? || j.phase.Applying?)
    requires j.bindings.Keys == j.plan.request.destinations
    ensures Consistent(fs, j.(phase := Applying))
  {
    forall d | d in j.plan.request.destinations
      ensures SlotOk(fs, j.(phase := Applying), d)
    {
      assert SlotOk(fs, j, d);
    }
  }

  lemma StartFinalizing(fs: Fs, j: Journal)
    requires Consistent(fs, j) && j.phase.Applying? && AllMoved(fs, j.plan)
    ensures Consistent(fs, j.(phase := Finalizing))
  {
    forall d | d in j.plan.request.destinations
      ensures SlotOk(fs, j.(phase := Finalizing), d)
    {
      assert SlotOk(fs, j, d);
    }
  }

  ghost predicate UnboundVacant(fs: Fs, j: Journal) {
    forall d :: d in j.plan.request.destinations && d !in j.bindings ==> Vacant(SlotOf(fs, d))
  }

  lemma StartRollback(fs: Fs, j: Journal)
    requires Consistent(fs, j) && !j.phase.RolledBack? && UnboundVacant(fs, j)
    ensures Consistent(fs, j.(phase := RollingBack))
  {
    forall d | d in j.plan.request.destinations
      ensures SlotOk(fs, j.(phase := RollingBack), d)
    {
      assert SlotOk(fs, j, d);
    }
  }

  /** Every adopted destination has its committed mode and no marker. */
  ghost predicate Finished(fs: Fs, j: Journal) {
    forall d :: d in j.bindings ==> FinishedAt(fs, j, d)
  }

  ghost predicate FinishedAt(fs: Fs, j: Journal, d: Digest) {
    && SlotOf(fs, d).published.Some?
    && SlotOf(fs, d).published.value.marker.None?
    && SlotOf(fs, d).published.value.mode == j.plan.inventory.mode
  }

  /** The journal that the finalization loop leaves in memory. */
  function WithCommittedModes(j: Journal): Journal {
    j.(bindings := map d | d in j.bindings :: j.bindings[d].(mode := j.plan.inventory.mode))
  }

  lemma EndPhase(fs: Fs, j: Journal, end: Phase)
    requires Consistent(fs, j) && Finished(fs, j)
    requires (j.phase.Finalizing? && end.Committed?) || (j.phase.RollingBack? && end.RolledBack?)
    requires end.RolledBack? ==> AllHome(fs, j.plan)
    ensures Consistent(fs, WithCommittedModes(j).(phase := end))
  {
    var j' := WithCommittedModes(j).(phase := end);
    forall d | d in j.plan.request.destinations
      ensures SlotOk(fs, j', d)
    {
      assert SlotOk(fs, j, d);
    }
  }
}
