/** The loops of rollback, and exactly when the reverse renames can complete. */
module PartitionRollback {
  import opened Common
  import opened PartitionModel
  import opened PartitionLive
  import opened PartitionSteps
  import opened PartitionDisk
  import opened PartitionApply

  ghost predicate Empty(fs: Fs, d: Digest) {
    forall s :: !InDestination(fs, d, s)
  }

  /** A reverse rename compares the destination with its *recorded* mode. */
  ghost predicate CanEmpty(fs: Fs, j: Journal, d: Digest)
    requires d in j.bindings
  {
    Empty(fs, d) || (SlotOf(fs, d).published.Some? && SlotOf(fs, d).published.value.mode == j.bindings[d].mode)
  }

  ghost predicate Restorable(fs: Fs, j: Journal) {
    forall d :: d in j.bindings ==> CanEmpty(fs, j, d)
  }

  lemma VacantIsNotHalfBuilt(fs: Fs, j: Journal)
    requires UnboundVacant(fs, j)
    ensures NothingHalfBuilt(fs, j)
  {
  }

  /** Outside `finalizing` and `rolling_back` every consistent state can be restored. */
  lemma SettledIsRestorable(fs: Fs, j: Journal)
    requires Consistent(fs, j) && !j.phase.Finalizing? && !j.phase.RollingBack?
    ensures Restorable(fs, j)
  {
    forall d | d in j.bindings
      ensures CanEmpty(fs, j, d)
    {
      assert SlotOk(fs, j, d);
    }
  }

  /** In `finalizing` it can be restored iff no destination has its final mode yet, or that
      mode is the working mode. */
  lemma FinalizingRestorable(fs: Fs, j: Journal)
    requires Consistent(fs, j) && j.phase.Finalizing?
    ensures Restorable(fs, j) <==>
            forall d :: d in j.bindings ==>
              SlotOf(fs, d).published.Some? && SlotOf(fs, d).published.value.mode == WORKING_MODE
  {
    forall d | d in j.bindings
      ensures SlotOf(fs, d).published.Some?
      ensures CanEmpty(fs, j, d) <==> SlotOf(fs, d).published.value.mode == WORKING_MODE
    {
      assert SlotOk(fs, j, d);
      var s := j.plan.request.partitions[d][0];
      InPartition(j.plan, d, 0);
      assert PlacedOnce(fs, j.plan, s);
      assert InDestination(fs, d, s);
    }
  }

  lemma HomeIsRestorable(fs: Fs, j: Journal)
    requires Consistent(fs, j) && AllHome(fs, j.plan)
    ensures Restorable(fs, j)
  {
    forall d | d in j.bindings
      ensures Empty(fs, d)
    {
      assert SlotOk(fs, j, d);
      forall s
        ensures !InDestination(fs, d, s)
      {
        if s in j.plan.request.digestOf {
          assert PlacedOnce(fs, j.plan, s);
        }
      }
    }
  }

  /** One reverse rename changes nothing about what can still be restored. */
  lemma MoveBackKeepsRestorable(fs: Fs, j: Journal, d: Digest, s: Serial)
    requires d in j.bindings && InDestination(fs, d, s)
    requires SlotOf(fs, d).published.value.mode == j.bindings[d].mode
    ensures Restorable(MoveBack(fs, d, s), j) <==> Restorable(fs, j)
  {
    var fs' := MoveBack(fs, d, s);
    assert CanEmpty(fs, j, d) && CanEmpty(fs', j, d);
    forall e | e in j.bindings && e != d
      ensures CanEmpty(fs', j, e) <==> CanEmpty(fs, j, e)
    {
      assert Empty(fs', e) <==> Empty(fs, e) by {
        assert forall t :: InDestination(fs', e, t) <==> InDestination(fs, e, t);
      }
    }
  }

  /** Adopting half-built destinations. */
  method AdoptAll(disk: Disk, mem: Journal) returns (r: Result, mem': Journal)
    requires disk.Synced(mem)
    modifies disk
    ensures disk.Running(mem') && !r.Refused? && disk.log == old(disk.log)
    ensures r.Done? ==> UnboundVacant(disk.fs, mem')
    ensures !mem.phase.Reserved? ==> mem' == mem && disk.fs == old(disk.fs)
    ensures mem'.bindings.Keys == mem.bindings.Keys ==> mem' == mem
    ensures r.Killed? ==> old(disk.life).Mortal?
    ensures disk.life.Immortal? <==> old(disk.life).Immortal?
  {
    mem' := mem;
    var order := mem.plan.request.order;
    hide *;
    NoneAdoptedYet(disk, mem);
    for i := 0 to |order|
      invariant disk.Running(mem') && disk.log == old(disk.log) && mem'.plan == mem.plan
      invariant AdoptedUpTo(disk.fs, mem', i)
      invariant !mem.phase.Reserved? ==> mem' == mem && disk.fs == old(disk.fs)
      invariant mem.bindings.Keys <= mem'.bindings.Keys
      invariant mem'.bindings.Keys == mem.bindings.Keys ==> mem' == mem
      invariant disk.life.Immortal? <==> old(disk.life).Immortal?
    {
      ghost var before, j := disk.fs, mem';
      assert order[i] in order;
      r, mem' := AdoptOne(disk, mem', order[i]);
      if !r.Done? {
        return;
      }
      OneMoreAdopted(before, disk.fs, j, mem', i);
    }
    RunningIsConsistent(disk, mem');
    AdoptedEverywhere(disk.fs, mem');
    r := Done;
  }

  lemma RunningIsConsistent(disk: Disk, mem: Journal)
    requires disk.Running(mem)
    ensures Consistent(disk.fs, mem)
  {
  }

  ghost predicate AdoptedUpTo(fs: Fs, j: Journal, n: nat)
    requires n <= |j.plan.request.order|
  {
    forall k :: 0 <= k < n ==> AdoptedOrVacant(fs, j, j.plan.request.order[k])
  }

  ghost predicate AdoptedOrVacant(fs: Fs, j: Journal, d: Digest) {
    d == j.plan.request.keep || d in j.bindings || Vacant(SlotOf(fs, d))
  }

  /** One destination, if something of it is there. */
  method AdoptOne(disk: Disk, mem: Journal, d: Digest) returns (r: Result, mem': Journal)
    requires disk.Running(mem) && d in mem.plan.request.order
    modifies disk
    ensures disk.Running(mem') && !r.Refused? && disk.log == old(disk.log) && mem'.plan == mem.plan
    ensures OnlySlotChanged(old(disk.fs), disk.fs, d) && mem.bindings.Keys <= mem'.bindings.Keys
    ensures r.Done? ==> AdoptedOrVacant(disk.fs, mem', d)
    ensures !mem.phase.Reserved? ==> mem' == mem && disk.fs == old(disk.fs)
    ensures mem'.bindings.Keys == mem.bindings.Keys ==> mem' == mem
    ensures r.Killed? ==> old(disk.life).Mortal?
    ensures disk.life.Immortal? <==> old(disk.life).Immortal?
  {
    hide Consistent, History, ValidPlan;
    if d == mem.plan.request.keep || d in mem.bindings || Vacant(SlotOf(disk.fs, d)) {
      return Done, mem;
    }
    HalfBuiltIsReserved(disk.fs, mem, d);
    r, mem' := disk.PrepareDestination(mem, d);
  }

  lemma NoneAdoptedYet(disk: Disk, mem: Journal)
    requires disk.Synced(mem)
    ensures disk.Running(mem) && Sorted(mem.plan.request.order) && AdoptedUpTo(disk.fs, mem, 0)
  {
    hide SlotOk, SourceOk, PlacedOnce;
  }

  lemma OneMoreAdopted(a: Fs, b: Fs, j: Journal, j': Journal, n: nat)
    requires n < |j.plan.request.order| && AdoptedUpTo(a, j, n) && Sorted(j.plan.request.order)
    requires j'.plan == j.plan && j.bindings.Keys <= j'.bindings.Keys
    requires OnlySlotChanged(a, b, j.plan.request.order[n])
    requires AdoptedOrVacant(b, j', j.plan.request.order[n])
    ensures AdoptedUpTo(b, j', n + 1)
  {
    forall k | 0 <= k < n
      ensures AdoptedOrVacant(b, j', j.plan.request.order[k])
    {
      assert AdoptedOrVacant(a, j, j.plan.request.order[k]);
    }
  }

  lemma AdoptedEverywhere(fs: Fs, j: Journal)
    requires Consistent(fs, j) && AdoptedUpTo(fs, j, |j.plan.request.order|)
    ensures UnboundVacant(fs, j)
  {
    forall d | d in j.plan.request.destinations && d !in j.bindings
      ensures Vacant(SlotOf(fs, d))
    {
      assert d in j.plan.request.order;
      var k :| 0 <= k < |j.plan.request.order| && j.plan.request.order[k] == d;
      assert AdoptedOrVacant(fs, j, j.plan.request.order[k]);
    }
  }

  lemma HalfBuiltIsReserved(fs: Fs, j: Journal, d: Digest)
    requires Consistent(fs, j) && d in j.plan.request.order && d != j.plan.request.keep
    requires d !in j.bindings && !Vacant(SlotOf(fs, d))
    ensures j.phase.Reserved? && d in j.plan.request.destinations
  {
    assert d in j.plan.request.partitions;
    assert SlotOk(fs, j, d);
  }

  ghost predicate ContractHome(fs: Fs, p: Plan, d: Digest) {
    forall s :: s in p.request.digestOf && p.request.digestOf[s] == d ==> s in fs.source.recordings
  }

  ghost predicate SourceGrew(a: Fs, b: Fs) {
    forall s :: s in a.source.recordings ==> s in b.source.recordings
  }

  ghost predicate ListedHome(fs: Fs, serials: seq<Serial>, n: nat)
    requires n <= |serials|
  {
    forall k :: n <= k < |serials| ==> serials[k] in fs.source.recordings
  }

  lemma OneMoreHome(a: Fs, b: Fs, serials: seq<Serial>, n: nat)
    requires n < |serials| && ListedHome(a, serials, n + 1) && SourceGrew(a, b)
    requires serials[n] in b.source.recordings
    ensures ListedHome(b, serials, n)
  {
  }

  lemma AllListedHome(fs: Fs, p: Plan, d: Digest)
    requires ValidRequest(p.request) && d in p.request.partitions
    requires ListedHome(fs, p.request.partitions[d], 0)
    ensures ContractHome(fs, p, d)
  {
  }

  lemma GrowTransitive(a: Fs, b: Fs, c: Fs)
    requires SourceGrew(a, b) && SourceGrew(b, c)
    ensures SourceGrew(a, c)
  {
  }

  lemma AwayIsInDestination(fs: Fs, j: Journal, d: Digest, s: Serial)
    requires Consistent(fs, j) && s in j.plan.request.digestOf && j.plan.request.digestOf[s] == d
    requires s !in fs.source.recordings
    ensures InDestination(fs, d, s)
  {
    assert PlacedOnce(fs, j.plan, s);
  }

  lemma BlockedIsNotRestorable(fs: Fs, j: Journal, d: Digest, s: Serial)
    requires d in j.bindings && InDestination(fs, d, s)
    requires SlotOf(fs, d).published.value.mode != j.bindings[d].mode
    ensures !Restorable(fs, j)
  {
    assert !CanEmpty(fs, j, d);
  }

  /** Moves one contract back, last recording first. */
  method RestoreContract(disk: Disk, mem: Journal, d: Digest) returns (r: Result)
    requires disk.Synced(mem) && mem.phase.RollingBack? && d in mem.bindings
    modifies disk`fs, disk`life
    ensures disk.Synced(mem) && SourceGrew(old(disk.fs), disk.fs)
    ensures Restorable(disk.fs, mem) <==> Restorable(old(disk.fs), mem)
    ensures r.Refused? ==> !Restorable(disk.fs, mem)
    ensures r.Done? ==> ContractHome(disk.fs, mem.plan, d)
    ensures r.Killed? ==> old(disk.life).Mortal?
    ensures disk.life.Immortal? <==> old(disk.life).Immortal?
  {
    var serials := mem.plan.request.partitions[d];
    for i := |serials| downto 0
      invariant disk.Synced(mem) && SourceGrew(old(disk.fs), disk.fs)
      invariant Restorable(disk.fs, mem) <==> Restorable(old(disk.fs), mem)
      invariant ListedHome(disk.fs, serials, i)
      invariant disk.life.Immortal? <==> old(disk.life).Immortal?
    {
      ghost var before := disk.fs;
      if serials[i] !in disk.fs.source.recordings {
        r := RestoreOne(disk, mem, d, i);
        GrowTransitive(old(disk.fs), before, disk.fs);
        if !r.Done? {
          return;
        }
      }
      OneMoreHome(before, disk.fs, serials, i);
    }
    AllListedHome(disk.fs, mem.plan, d);
    r := Done;
  }

  method RestoreOne(disk: Disk, mem: Journal, d: Digest, i: nat) returns (r: Result)
    requires disk.Synced(mem) && mem.phase.RollingBack? && d in mem.bindings
    requires d in mem.plan.request.partitions && i < |mem.plan.request.partitions[d]|
    requires mem.plan.request.partitions[d][i] !in disk.fs.source.recordings
    modifies disk`fs, disk`life
    ensures disk.Synced(mem) && SourceGrew(old(disk.fs), disk.fs)
    ensures Restorable(disk.fs, mem) <==> Restorable(old(disk.fs), mem)
    ensures r.Refused? ==> !Restorable(disk.fs, mem)
    ensures r.Done? ==> mem.plan.request.partitions[d][i] in disk.fs.source.recordings
    ensures r.Killed? ==> old(disk.life).Mortal?
    ensures disk.life.Immortal? <==> old(disk.life).Immortal?
  {
    var s := mem.plan.request.partitions[d][i];
    InPartition(mem.plan, d, i);
    AwayIsInDestination(disk.fs, mem, d, s);
    r := disk.RenameBack(mem, d, s);
    if r.Refused? {
      BlockedIsNotRestorable(disk.fs, mem, d, s);
    } else if r.Done? {
      MoveBackKeepsRestorable(old(disk.fs), mem, d, s);
    }
  }

  ghost predicate ContractsHome(fs: Fs, p: Plan, n: nat)
    requires n <= |p.request.order|
  {
    forall k :: n <= k < |p.request.order| && p.request.order[k] != p.request.keep
      ==> ContractHome(fs, p, p.request.order[k])
  }

  lemma OneMoreContractHome(a: Fs, b: Fs, p: Plan, n: nat)
    requires n < |p.request.order| && ContractsHome(a, p, n + 1) && SourceGrew(a, b)
    requires p.request.order[n] != p.request.keep ==> ContractHome(b, p, p.request.order[n])
    ensures ContractsHome(b, p, n)
  {
  }

  lemma EveryContractHome(fs: Fs, p: Plan)
    requires ValidPlan(p) && ContractsHome(fs, p, 0)
    requires forall s :: s in p.request.digestOf ==> PlacedOnce(fs, p, s)
    ensures AllHome(fs, p)
  {
    forall s | s in p.request.digestOf
      ensures s in fs.source.recordings
    {
      assert PlacedOnce(fs, p, s);
      assert p.request.digestOf[s] in p.request.order;
    }
  }

  lemma UnboundContractHome(fs: Fs, j: Journal, d: Digest)
    requires Consistent(fs, j) && d !in j.bindings && !j.phase.Reserved?
    requires d in j.plan.request.partitions
    ensures ContractHome(fs, j.plan, d)
  {
    if d != j.plan.request.keep {
      assert SlotOk(fs, j, d);
    }
    forall s | s in j.plan.request.digestOf && j.plan.request.digestOf[s] == d
      ensures s in fs.source.recordings
    {
      assert PlacedOnce(fs, j.plan, s);
    }
  }

  method RestoreAll(disk: Disk, mem: Journal) returns (r: Result)
    requires disk.Synced(mem) && mem.phase.RollingBack?
    modifies disk`fs, disk`life
    ensures disk.Synced(mem)
    ensures Restorable(disk.fs, mem) <==> Restorable(old(disk.fs), mem)
    ensures r.Refused? ==> !Restorable(disk.fs, mem)
    ensures r.Done? ==> AllHome(disk.fs, mem.plan) && Restorable(disk.fs, mem)
    ensures r.Killed? ==> old(disk.life).Mortal?
    ensures disk.life.Immortal? <==> old(disk.life).Immortal?
  {
    var order := mem.plan.request.order;
    for i := |order| downto 0
      invariant disk.Synced(mem)
      invariant Restorable(disk.fs, mem) <==> Restorable(old(disk.fs), mem)
      invariant ContractsHome(disk.fs, mem.plan, i)
      invariant disk.life.Immortal? <==> old(disk.life).Immortal?
    {
      ghost var before := disk.fs;
      OrderedContract(mem, i);
      if order[i] in mem.bindings {
        r := RestoreContract(disk, mem, order[i]);
        if !r.Done? {
          return;
        }
      } else {
        UnboundContractHome(disk.fs, mem, order[i]);
      }
      OneMoreContractHome(before, disk.fs, mem.plan, i);
    }
    EveryContractHome(disk.fs, mem.plan);
    HomeIsRestorable(disk.fs, mem);
    r := Done;
  }
}
