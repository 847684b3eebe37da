/** The loops of apply and rollback, from a durable journal to the end of the command. */
module PartitionApply {
  import opened Common
  import opened PartitionModel
  import opened PartitionLive
  import opened PartitionSteps
  import opened PartitionDisk

  method PrepareAll(disk: Disk, mem: Journal) returns (r: Result, mem': Journal)
    requires disk.Running(mem) && (mem.phase.Reserved? || mem.phase.Applying?)
    modifies disk
    ensures disk.Running(mem') && !r.Refused? && disk.log == old(disk.log)
    ensures r.Done? ==> mem'.bindings.Keys == mem.plan.request.destinations
    ensures r.Killed? ==> old(disk.life).Mortal?
    ensures disk.life.Immortal? <==> old(disk.life).Immortal?
  {
    mem' := mem;
    var request := mem.plan.request;
    for i := 0 to |request.order|
      invariant disk.Running(mem') && disk.log == old(disk.log)
      invariant PreparedUpTo(mem', i)
      invariant disk.life.Immortal? <==> old(disk.life).Immortal?
    {
      hide Consistent, History, PreparedUpTo;
      var d := request.order[i];
      ghost var j := mem';
      if d != request.keep {
        OrderedDestination(disk.fs, mem', i);
        r, mem' := disk.PrepareDestination(mem', d);
        if !r.Done? {
          return;
        }
      }
      OneMorePrepared(j, mem', i);
    }
    AllPrepared(disk.fs, mem');
    r := Done;
  }

  ghost predicate PreparedUpTo(j: Journal, n: nat)
    requires n <= |j.plan.request.order|
  {
    forall k :: 0 <= k < n && j.plan.request.order[k] != j.plan.request.keep ==> j.plan.request.order[k] in j.bindings
  }

  lemma OneMorePrepared(j: Journal, j': Journal, n: nat)
    requires n < |j.plan.request.order| && j'.plan == j.plan && j.bindings.Keys <= j'.bindings.Keys
    requires PreparedUpTo(j, n)
    requires j.plan.request.order[n] != j.plan.request.keep ==> j.plan.request.order[n] in j'.bindings
    ensures PreparedUpTo(j', n + 1)
  {
  }

  lemma OrderedDestination(fs: Fs, j: Journal, k: nat)
    requires Consistent(fs, j) && k < |j.plan.request.order| && j.plan.request.order[k] != j.plan.request.keep
    ensures j.plan.request.order[k] in j.plan.request.destinations
  {
    assert j.plan.request.order[k] in j.plan.request.order;
  }

  lemma AllPrepared(fs: Fs, j: Journal)
    requires Consistent(fs, j) && PreparedUpTo(j, |j.plan.request.order|)
    ensures j.bindings.Keys == j.plan.request.destinations
  {
    forall d | d in j.plan.request.destinations
      ensures d in j.bindings
    {
      assert d in j.plan.request.order;
    }
  }

  ghost predicate ContractMoved(fs: Fs, p: Plan, d: Digest) {
    forall s :: s in p.request.digestOf && p.request.digestOf[s] == d ==> s !in fs.source.recordings
  }

  lemma InPartition(p: Plan, d: Digest, i: nat)
    requires ValidRequest(p.request) && d in p.request.partitions && i < |p.request.partitions[d]|
    ensures p.request.partitions[d][i] in p.request.digestOf
    ensures p.request.digestOf[p.request.partitions[d][i]] == d
  {
    assert p.request.partitions[d][i] in p.request.partitions[d];
  }

  ghost predicate ListedMoved(fs: Fs, serials: seq<Serial>, n: nat)
    requires n <= |serials|
  {
    forall k :: 0 <= k < n ==> serials[k] !in fs.source.recordings
  }

  lemma OneMoreListed(a: Fs, b: Fs, serials: seq<Serial>, n: nat)
    requires n < |serials| && ListedMoved(a, serials, n) && SourceShrank(a, b)
    requires serials[n] !in b.source.recordings
    ensures ListedMoved(b, serials, n + 1)
  {
  }

  lemma AllListedMoved(fs: Fs, p: Plan, d: Digest)
    requires ValidRequest(p.request) && d in p.request.partitions
    requires ListedMoved(fs, p.request.partitions[d], |p.request.partitions[d]|)
    ensures ContractMoved(fs, p, d)
  {
  }

  lemma ShrinkTransitive(a: Fs, b: Fs, c: Fs)
    requires SourceShrank(a, b) && SourceShrank(b, c)
    ensures SourceShrank(a, c)
  {
  }

  /** Moves what is left of one contract. */
  method MoveContract(disk: Disk, mem: Journal, d: Digest) returns (r: Result)
    requires disk.Synced(mem) && mem.phase.Applying? && d in mem.bindings
    modifies disk`fs, disk`life
    ensures disk.Synced(mem) && !r.Refused?
    ensures SourceShrank(old(disk.fs), disk.fs)
    ensures r.Done? ==> ContractMoved(disk.fs, mem.plan, d)
    ensures r.Killed? ==> old(disk.life).Mortal?
    ensures disk.life.Immortal? <==> old(disk.life).Immortal?
  {
    var serials := mem.plan.request.partitions[d];
    for i := 0 to |serials|
      invariant disk.Synced(mem)
      invariant SourceShrank(old(disk.fs), disk.fs)
      invariant ListedMoved(disk.fs, serials, i)
      invariant disk.life.Immortal? <==> old(disk.life).Immortal?
    {
      ghost var before := disk.fs;
      if serials[i] in disk.fs.source.recordings {
        InPartition(mem.plan, d, i);
        r := disk.RenameOut(mem, d, serials[i]);
        ShrinkTransitive(old(disk.fs), before, disk.fs);
        if !r.Done? {
          return;
        }
      }
      OneMoreListed(before, disk.fs, serials, i);
    }
    AllListedMoved(disk.fs, mem.plan, d);
    r := Done;
  }

  lemma OrderedContract(j: Journal, k: nat)
    requires ValidPlan(j.plan) && BindingsOk(j) && k < |j.plan.request.order|
    ensures j.plan.request.order[k] in j.plan.request.partitions
    ensures j.phase.Applying? && j.plan.request.order[k] != j.plan.request.keep
            ==> j.plan.request.order[k] in j.bindings
  {
    assert j.plan.request.order[k] in j.plan.request.order;
  }

  ghost predicate ContractsMoved(fs: Fs, p: Plan, n: nat)
    requires n <= |p.request.order|
  {
    forall k :: 0 <= k < n && p.request.order[k] != p.request.keep ==> ContractMoved(fs, p, p.request.order[k])
  }

  lemma OneMoreContract(a: Fs, b: Fs, p: Plan, n: nat)
    requires n < |p.request.order| && ContractsMoved(a, p, n) && SourceShrank(a, b)
    requires p.request.order[n] != p.request.keep ==> ContractMoved(b, p, p.request.order[n])
    ensures ContractsMoved(b, p, n + 1)
  {
  }

  method MoveAll(disk: Disk, mem: Journal) returns (r: Result)
    requires disk.Synced(mem) && mem.phase.Applying?
    modifies disk`fs, disk`life
    ensures disk.Synced(mem) && !r.Refused?
    ensures r.Done? ==> AllMoved(disk.fs, mem.plan)
    ensures r.Killed? ==> old(disk.life).Mortal?
    ensures disk.life.Immortal? <==> old(disk.life).Immortal?
  {
    var order := mem.plan.request.order;
    for i := 0 to |order|
      invariant disk.Synced(mem)
      invariant ContractsMoved(disk.fs, mem.plan, i)
      invariant disk.life.Immortal? <==> old(disk.life).Immortal?
    {
      ghost var before := disk.fs;
      if order[i] != mem.plan.request.keep {
        OrderedContract(mem, i);
        r := MoveContract(disk, mem, order[i]);
        if !r.Done? {
          return;
        }
      }
      OneMoreContract(before, disk.fs, mem.plan, i);
    }
    EveryContractMoved(disk.fs, mem.plan);
    r := Done;
  }

  lemma EveryContractMoved(fs: Fs, p: Plan)
    requires ValidPlan(p) && ContractsMoved(fs, p, |p.request.order|)
    requires forall s :: s in p.request.digestOf ==> PlacedOnce(fs, p, s)
    ensures AllMoved(fs, p)
  {
    forall s | s in p.request.digestOf
      ensures s in fs.source.recordings <==> !Leaves(p, s)
    {
      assert PlacedOnce(fs, p, s);
      assert p.request.digestOf[s] in p.request.order;
    }
  }

  /** Finishes every adopted destination; `mem'` records the installed modes. */
  method FinalizeAll(disk: Disk, mem: Journal) returns (r: Result, mem': Journal)
    requires disk.Synced(mem) && (mem.phase.Finalizing? || mem.phase.RollingBack?)
    modifies disk`fs, disk`life
    ensures disk.Synced(mem) && !r.Refused?
    ensures disk.fs.source == old(disk.fs).source
    ensures r.Done? ==> Finished(disk.fs, mem) && mem' == WithCommittedModes(mem)
    ensures r.Killed? ==> old(disk.life).Mortal?
    ensures disk.life.Immortal? <==> old(disk.life).Immortal?
  {
    mem' := WithCommittedModes(mem);
    var order := mem.plan.request.order;
    for i := 0 to |order|
      invariant disk.Synced(mem) && disk.fs.source == old(disk.fs).source
      invariant FinishedUpTo(disk.fs, mem, i)
      invariant disk.life.Immortal? <==> old(disk.life).Immortal?
    {
      hide History, FinishedUpTo;
      ghost var before := disk.fs;
      if order[i] in mem.bindings {
        r := disk.FinalizeDestination(mem, order[i]);
        if !r.Done? {
          return;
        }
      }
      OneMoreFinished(before, disk.fs, mem, i);
    }
    AllFinished(disk.fs, mem);
    r := Done;
  }

  ghost predicate FinishedUpTo(fs: Fs, j: Journal, n: nat)
    requires n <= |j.plan.request.order|
  {
    forall k :: 0 <= k < n && j.plan.request.order[k] in j.bindings ==> FinishedAt(fs, j, j.plan.request.order[k])
  }

  lemma OneMoreFinished(a: Fs, b: Fs, j: Journal, n: nat)
    requires n < |j.plan.request.order| && Sorted(j.plan.request.order) && FinishedUpTo(a, j, n)
    requires OnlySlotChanged(a, b, j.plan.request.order[n])
    requires j.plan.request.order[n] in j.bindings ==> FinishedAt(b, j, j.plan.request.order[n])
    ensures FinishedUpTo(b, j, n + 1)
  {
  }

  lemma AllFinished(fs: Fs, j: Journal)
    requires Consistent(fs, j) && FinishedUpTo(fs, j, |j.plan.request.order|)
    ensures Finished(fs, j)
  {
    forall d | d in j.bindings
      ensures FinishedAt(fs, j, d)
    {
      assert d in j.plan.request.order;
    }
  }

  lemma KeptHome(a: Fs, b: Fs, p: Plan)
    requires a.source == b.source
    ensures AllHome(a, p) <==> AllHome(b, p)
  {
  }

  /** The live check at the end of either direction passes before and after finishing. */
  lemma FinishIsLive(fs: Fs, j: Journal, live: Journal, expected: Expected)
    requires Consistent(fs, j) && (live == j || live == WithCommittedModes(j))
    requires || (j.phase.Finalizing? && expected.CommittedContents?)
             || (j.phase.RollingBack? && expected.RolledBackContents? && AllHome(fs, j.plan))
    ensures LiveOk(fs, live, expected)
  {
    forall d | d in j.plan.request.destinations && d !in j.bindings
      ensures SlotOf(fs, d).published.None?
    {
      assert SlotOk(fs, j, d);
    }
    assert SameButModes(j, live);
    hide SlotOk, LiveOk;
    ConsistentIsLive(fs, j, live, expected);
  }

  /** From a durable `finalizing` or `rolling_back` journal to the end of the command. */
  method Finish(disk: Disk, mem: Journal, end: Phase, expected: Expected) returns (r: Result)
    requires disk.Synced(mem)
    requires || (mem.phase.Finalizing? && end.Committed? && expected.CommittedContents?)
             || (mem.phase.RollingBack? && end.RolledBack? && expected.RolledBackContents?)
    requires mem.phase.RollingBack? ==> AllHome(disk.fs, mem.plan)
    modifies disk
    ensures disk.Ok() && HasState(disk.log) && disk.log.plan == old(disk.log).plan && !r.Refused?
    ensures old(disk.log).records <= disk.log.records && disk.fs.source == old(disk.fs).source
    ensures r.Done? ==> Last(disk.log) == WithCommittedModes(mem).(phase := end)
    ensures !r.Done? ==> Last(disk.log) == mem
    ensures r.Killed? ==> old(disk.life).Mortal?
    ensures disk.life.Immortal? <==> old(disk.life).Immortal?
  {
    hide Consistent, History, ValidPlan, LiveOk, AllMoved, AllHome, Finished;
    FinishIsLive(disk.fs, mem, mem, expected);
    if !LiveOk(disk.fs, mem, expected) {
      return Refused(LiveStateInvalid);
    }
    var mem';
    ghost var before := disk.fs;
    r, mem' := FinalizeAll(disk, mem);
    if !r.Done? {
      return;
    }
    KeptHome(before, disk.fs, mem.plan);
    FinishIsLive(disk.fs, mem, mem', expected);
    if !LiveOk(disk.fs, mem', expected) {
      return Refused(LiveStateInvalid);
    }
    EndPhase(disk.fs, mem, end);
    r := disk.WriteState(mem'.(phase := end));
  }
}
