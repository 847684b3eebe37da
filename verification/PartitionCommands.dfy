/** `apply` and `rollback` as a caller sees them, and what holds over every run of them. */
module PartitionCommands {
  import opened Common
  import opened PartitionModel
  import opened PartitionLive
  import opened PartitionSteps
  import opened PartitionDisk
  import opened PartitionBootstrap
  import opened PartitionApply
  import opened PartitionRollback

  // ------------------------------------------------------------------ end states

  /** `dir` holds exactly the recordings of contract `d`. */
  ghost predicate HoldsExactly(dir: Dir, p: Plan, d: Digest) {
    && HoldsOnly(dir, p, d)
    && forall s :: s in p.request.digestOf && p.request.digestOf[s] == d ==> s in dir.recordings
  }

  /** The end of a completed apply: every contract at its place, final modes, no markers. */
  ghost predicate CommittedState(fs: Fs, p: Plan) {
    && SourceOk(fs, p)
    && AllMoved(fs, p)
    && forall d :: d in p.request.destinations ==>
         && SlotOf(fs, d).construction.None?
         && SlotOf(fs, d).published.Some?
         && SlotOf(fs, d).published.value.marker.None?
         && SlotOf(fs, d).published.value.mode == p.inventory.mode
         && HoldsExactly(SlotOf(fs, d).published.value, p, d)
  }

  /** The end of a completed rollback: the source as inventoried, destinations absent or empty. */
  ghost predicate RolledBackState(fs: Fs, p: Plan) {
    && fs.source == p.inventory
    && forall d :: d in p.request.destinations ==> IsEmptied(fs, p, d)
  }

  ghost predicate IsEmptied(fs: Fs, p: Plan, d: Digest) {
    && SlotOf(fs, d).construction.None?
    && (SlotOf(fs, d).published.Some? ==>
          var dir := SlotOf(fs, d).published.value;
          dir.recordings == map[] && dir.hidden == map[] && dir.marker.None? && dir.mode == p.inventory.mode)
  }

  lemma CommittedDestinationIsFull(fs: Fs, j: Journal, d: Digest)
    requires Consistent(fs, j) && j.phase.Committed? && d in j.plan.request.destinations
    ensures SlotOf(fs, d).published.Some? && HoldsExactly(SlotOf(fs, d).published.value, j.plan, d)
  {
    assert SlotOk(fs, j, d);
    forall s | s in j.plan.request.digestOf && j.plan.request.digestOf[s] == d
      ensures s in SlotOf(fs, d).published.value.recordings
    {
      assert PlacedOnce(fs, j.plan, s);
    }
  }

  lemma CommittedIsFinal(fs: Fs, j: Journal)
    requires Consistent(fs, j) && j.phase.Committed?
    ensures CommittedState(fs, j.plan)
  {
    forall d | d in j.plan.request.destinations
      ensures SlotOk(fs, j, d) && d in j.bindings
      ensures HoldsExactly(SlotOf(fs, d).published.value, j.plan, d)
    {
      assert SlotOk(fs, j, d);
      CommittedDestinationIsFull(fs, j, d);
    }
  }

  /** Two completed applies of one plan differ at most in the identities of the directories
      they created: where each recording is, and every mode and marker, is the same. */
  lemma CommittedStateIsUnique(a: Fs, b: Fs, p: Plan, d: Digest)
    requires ValidPlan(p) && CommittedState(a, p) && CommittedState(b, p)
    requires d in p.request.destinations
    ensures a.source == b.source
    ensures var x, y := SlotOf(a, d).published.value, SlotOf(b, d).published.value;
            SlotOf(a, d) == SlotOf(b, d).(published := Some(y.(inode := x.inode)))
  {
    assert a.source.recordings == b.source.recordings;
    var x, y := SlotOf(a, d).published.value, SlotOf(b, d).published.value;
    assert x.recordings == y.recordings;
  }

  lemma RolledBackIsOriginal(fs: Fs, j: Journal)
    requires Consistent(fs, j) && j.phase.RolledBack?
    ensures RolledBackState(fs, j.plan)
  {
    assert fs.source.recordings == j.plan.inventory.recordings;
    HomeIsEmpty(fs, j);
    forall d | d in j.plan.request.destinations
      ensures IsEmptied(fs, j.plan, d)
    {
      RolledBackSlot(fs, j, d);
    }
    hide SlotOk, PlacedOnce, ContentsOk, BindingsOk, ValidPlan, Empty;
  }

  lemma RolledBackSlot(fs: Fs, j: Journal, d: Digest)
    requires SlotOk(fs, j, d) && j.phase.RolledBack? && Empty(fs, d)
    ensures IsEmptied(fs, j.plan, d)
  {
    if SlotOf(fs, d).published.Some? {
      var dir := SlotOf(fs, d).published.value;
      forall s
        ensures s !in dir.recordings
      {
        assert !InDestination(fs, d, s);
      }
      assert dir.recordings == map[];
    }
  }

  lemma HomeIsEmpty(fs: Fs, j: Journal)
    requires Consistent(fs, j) && AllHome(fs, j.plan) && j.phase.RolledBack?
    ensures forall d :: d in j.plan.request.destinations ==> Empty(fs, d)
  {
    forall d, s | d in j.plan.request.destinations
      ensures !InDestination(fs, d, s)
    {
      assert SlotOk(fs, j, d);
      if s in j.plan.request.digestOf {
        assert PlacedOnce(fs, j.plan, s);
      }
    }
  }

  // ------------------------------------------------------------------ from a durable journal

  predicate RollbackDirected(phase: Phase) {
    phase.RollingBack? || phase.RolledBack?
  }

  /** Destinations and moves, up to a durable `finalizing` record. */
  method ApplyToFinalizing(disk: Disk, mem: Journal) returns (r: Result)
    requires disk.Synced(mem) && (mem.phase.Reserved? || mem.phase.Applying?)
    modifies disk
    ensures disk.Ok() && Agrees(old(disk.log), disk.log) && !r.Refused?
    ensures HasState(disk.log) && !RollbackDirected(Last(disk.log).phase)
    ensures r.Done? ==> Last(disk.log).phase.Finalizing? && disk.Synced(Last(disk.log))
    ensures r.Killed? ==> old(disk.life).Mortal?
    ensures disk.life.Immortal? <==> old(disk.life).Immortal?
  {
    hide Consistent, History, AllMoved;
    var now;
    r, now := PrepareAll(disk, mem);
    if !r.Done? {
      return;
    }
    StartApplying(disk.fs, now);
    now := now.(phase := Applying);
    r := disk.WriteState(now);
    if !r.Done? {
      return;
    }
    ApplyingIsLive(disk.fs, now, AnyContents);
    if !LiveOk(disk.fs, now, AnyContents) {
      return Refused(LiveStateInvalid);
    }
    r := MoveAll(disk, now);
    if !r.Done? {
      return;
    }
    ApplyingIsLive(disk.fs, now, CommittedContents);
    if !LiveOk(disk.fs, now, CommittedContents) {
      return Refused(LiveStateInvalid);
    }
    StartFinalizing(disk.fs, now);
    r := disk.WriteState(now.(phase := Finalizing));
  }

  /** A plan's destinations are all adopted once its journal has left `reserved`. */
  lemma ApplyingIsLive(fs: Fs, j: Journal, expected: Expected)
    requires Consistent(fs, j) && j.phase.Applying?
    requires expected.AnyContents? || (expected.CommittedContents? && AllMoved(fs, j.plan))
    ensures LiveOk(fs, j, expected)
  {
    hide PlacedOnce, SlotOk;
    ConsistentIsLive(fs, j, j, expected);
  }

  method ApplyFrom(disk: Disk, mem: Journal) returns (r: Result)
    requires disk.Synced(mem)
    modifies disk
    ensures disk.Ok() && HasState(disk.log) && Agrees(old(disk.log), disk.log)
    ensures r.Refused? <==> RollbackDirected(mem.phase)
    ensures r.Refused? ==> disk.fs == old(disk.fs) && disk.log == old(disk.log)
    ensures r.Done? ==> Last(disk.log).phase.Committed?
    ensures RollbackDirected(Last(disk.log).phase) <==> RollbackDirected(mem.phase)
    ensures r.Killed? ==> old(disk.life).Mortal?
    ensures disk.life.Immortal? <==> old(disk.life).Immortal?
  {
    if mem.phase.Committed? {
      ConsistentIsLive(disk.fs, mem, mem, CommittedContents);
      if !LiveOk(disk.fs, mem, CommittedContents) {
        return Refused(LiveStateInvalid);
      }
      return Done;
    }
    if RollbackDirected(mem.phase) {
      return Refused(RollbackDirection);
    }
    if mem.phase.Reserved? || mem.phase.Applying? {
      r := ApplyToFinalizing(disk, mem);
      if !r.Done? {
        return;
      }
    }
    r := Finish(disk, Last(disk.log), Committed, CommittedContents);
  }

  /** Adoption does not change whether the reverse renames can complete. */
  lemma AdoptionKeepsRestorable(a: Fs, b: Fs, j: Journal, j': Journal)
    requires Consistent(a, j) && Consistent(b, j')
    requires j'.phase == j.phase && (!j.phase.Reserved? ==> a == b && j == j')
    ensures Restorable(b, j') <==> Restorable(a, j)
  {
    if j.phase.Reserved? {
      SettledIsRestorable(a, j);
      SettledIsRestorable(b, j');
    }
  }

  lemma RestorableIgnoresPhase(fs: Fs, j: Journal, phase: Phase)
    ensures Restorable(fs, j.(phase := phase)) <==> Restorable(fs, j)
  {
    assert forall d :: d in j.bindings ==> (CanEmpty(fs, j.(phase := phase), d) <==> CanEmpty(fs, j, d));
  }

  /** Adopts half-built destinations and records them. */
  method AdoptAndRecord(disk: Disk, mem: Journal) returns (r: Result)
    requires disk.Synced(mem) && !mem.phase.RolledBack?
    modifies disk
    ensures disk.Ok() && HasState(disk.log) && Agrees(old(disk.log), disk.log) && !r.Refused?
    ensures Restorable(disk.fs, Last(disk.log)) <==> Restorable(old(disk.fs), mem)
    ensures r.Done? ==> disk.Synced(Last(disk.log)) && !Last(disk.log).phase.RolledBack?
    ensures r.Done? ==> UnboundVacant(disk.fs, Last(disk.log))
    ensures r.Killed? ==> old(disk.life).Mortal?
    ensures disk.life.Immortal? <==> old(disk.life).Immortal?
  {
    hide Restorable, UnboundVacant, Consistent;
    var now;
    r, now := AdoptAll(disk, mem);
    AdoptionKeepsRestorable(old(disk.fs), disk.fs, mem, mem);
    AdoptionKeepsRestorable(old(disk.fs), disk.fs, mem, now);
    if r.Done? && now.bindings.Keys != mem.bindings.Keys {
      r := disk.WriteState(now);
      assert Last(disk.log) == if r.Done? then now else mem;
    }
  }

  /** Adoption and the durable turn of direction. */
  method TurnBack(disk: Disk, mem: Journal) returns (r: Result)
    requires disk.Synced(mem) && !mem.phase.RolledBack?
    modifies disk
    ensures disk.Ok() && HasState(disk.log) && Agrees(old(disk.log), disk.log) && !r.Refused?
    ensures Restorable(disk.fs, Last(disk.log)) <==> Restorable(old(disk.fs), mem)
    ensures r.Done? ==> disk.Synced(Last(disk.log)) && Last(disk.log).phase.RollingBack?
    ensures r.Killed? ==> old(disk.life).Mortal?
    ensures disk.life.Immortal? <==> old(disk.life).Immortal?
  {
    hide Restorable, UnboundVacant, Consistent;
    r := AdoptAndRecord(disk, mem);
    if !r.Done? {
      return;
    }
    var now := Last(disk.log);
    VacantIsNotHalfBuilt(disk.fs, now);
    ConsistentIsLive(disk.fs, now, now, AnyContents);
    if !LiveOk(disk.fs, now, AnyContents) {
      return Refused(LiveStateInvalid);
    }
    StartRollback(disk.fs, now);
    r := RecordRollback(disk, now);
  }

  method RecordRollback(disk: Disk, now: Journal) returns (r: Result)
    requires disk.Synced(now) && !now.phase.RolledBack? && Consistent(disk.fs, now.(phase := RollingBack))
    modifies disk`log, disk`life
    ensures disk.Ok() && HasState(disk.log) && Agrees(old(disk.log), disk.log) && !r.Refused?
    ensures Restorable(disk.fs, Last(disk.log)) <==> Restorable(disk.fs, now)
    ensures r.Done? ==> disk.Synced(Last(disk.log)) && Last(disk.log).phase.RollingBack?
    ensures r.Killed? ==> old(disk.life).Mortal?
    ensures disk.life.Immortal? <==> old(disk.life).Immortal?
  {
    hide Restorable, Consistent;
    RestorableIgnoresPhase(disk.fs, now, RollingBack);
    r := disk.WriteState(now.(phase := RollingBack));
    assert Last(disk.log) == if r.Done? then now.(phase := RollingBack) else now;
  }

  method RollbackFrom(disk: Disk, mem: Journal) returns (r: Result)
    requires disk.Synced(mem)
    modifies disk
    ensures disk.Ok() && HasState(disk.log) && Agrees(old(disk.log), disk.log)
    ensures Restorable(disk.fs, Last(disk.log)) <==> Restorable(old(disk.fs), mem)
    ensures r.Refused? ==> !Restorable(disk.fs, Last(disk.log)) && Last(disk.log).phase.RollingBack?
    ensures r.Done? ==> Restorable(old(disk.fs), mem) && Last(disk.log).phase.RolledBack?
    ensures r.Killed? ==> old(disk.life).Mortal?
    ensures disk.life.Immortal? <==> old(disk.life).Immortal?
  {
    if mem.phase.RolledBack? {
      ConsistentIsLive(disk.fs, mem, mem, RolledBackContents);
      SettledIsRestorable(disk.fs, mem);
      if !LiveOk(disk.fs, mem, RolledBackContents) {
        return Refused(LiveStateInvalid);
      }
      return Done;
    }
    r := TurnBack(disk, mem);
    if !r.Done? {
      return;
    }
    ghost var turned := Last(disk.log);
    r := RestoreAll(disk, Last(disk.log));
    if !r.Done? {
      return;
    }
    r := Finish(disk, Last(disk.log), RolledBack, RolledBackContents);
    if r.Done? {
      SettledIsRestorable(disk.fs, Last(disk.log));
    } else {
      HomeIsRestorable(disk.fs, turned);
    }
  }
}
