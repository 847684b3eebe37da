/** The two commands from the command line, and what holds over every run of them. */
module PartitionRuns {
  import opened Common
  import opened PartitionModel
  import opened PartitionLive
  import opened PartitionSteps
  import opened PartitionDisk
  import opened PartitionBootstrap
  import opened PartitionApply
  import opened PartitionRollback
  import opened PartitionCommands

  predicate AlreadyPublished(fs: Fs, request: Request) {
    exists d | d in request.destinations :: SlotOf(fs, d).published.Some?
  }

  /** When apply raises: exactly these states and requests. */
  ghost predicate ApplyRefuses(fs: Fs, log: Log, request: Request) {
    || !ValidRequest(request)
    || (if HasState(log) then
          log.plan.request != request || RollbackDirected(Last(log).phase)
        else
          || AlreadyPublished(fs, request)
          || fs.source.recordings.Keys != request.digestOf.Keys
          || BootstrapRefuses(fs, log, Plan(request, fs.source, 0)))
  }

  /** The states that crashed applies of one request leave behind. */
  ghost predicate Resumable(fs: Fs, log: Log, request: Request) {
    && ValidRequest(request)
    && (match log
        case NoLog(foreign) => !foreign && ReadyFor(fs, request)
        case Bare => ReadyFor(fs, request)
        case Booted(plan, _, records, _) =>
          plan.request == request && (records != [] ==> !RollbackDirected(records[|records| - 1].phase)))
  }

  /** The source holds exactly the recordings of the request and no destination exists. */
  ghost predicate ReadyFor(fs: Fs, request: Request) {
    && fs.source.recordings.Keys == request.digestOf.Keys
    && forall d :: d in request.destinations ==> Vacant(SlotOf(fs, d))
  }

  lemma ResumableIsAccepted(fs: Fs, log: Log, request: Request)
    requires DiskConsistent(fs, log) && Resumable(fs, log, request)
    ensures ApplyRefuses(fs, log, request) <==> log.Booted? && log.journalFile.CutAtNewline?
  {
  }

  /** What an apply of a valid request is refused for, from the entries themselves: before the
      bootstrap record it is what stands in the way, after it a changed invocation or a cut
      journal, and once there are states another request or a rollback that was begun. */
  lemma RefusalMeans(fs: Fs, log: Log, request: Request)
    requires ValidRequest(request)
    ensures log.NoLog? || log.Bare? ==>
      (ApplyRefuses(fs, log, request) <==>
       || log == NoLog(true)
       || fs.source.recordings.Keys != request.digestOf.Keys
       || exists d :: d in request.destinations
                      && (SlotOf(fs, d).published.Some? || SlotOf(fs, d).construction.Some?))
    ensures log.Booted? && log.records == [] ==>
      (ApplyRefuses(fs, log, request) <==>
       || log.plan.request != request || log.plan.inventory != fs.source
       || fs.source.recordings.Keys != request.digestOf.Keys
       || log.journalFile.CutAtNewline?
       || exists d :: d in request.destinations && SlotOf(fs, d).published.Some?)
    ensures log.Booted? && log.records != [] ==>
      (ApplyRefuses(fs, log, request) <==>
       || log.plan.request != request
       || log.records[|log.records| - 1].phase.RollingBack?
       || log.records[|log.records| - 1].phase.RolledBack?)
  {
    var offered := Plan(request, fs.source, 0);
    if log.NoLog? || log.Bare? {
      assert AnyArtifact(fs, offered) <==> exists d :: d in request.destinations && !Vacant(SlotOf(fs, d));
    }
  }

  /** The token of a plan plays no part in whether its bootstrap is refused. */
  lemma RefusalIgnoresToken(fs: Fs, log: Log, request: Request, token: nat)
    ensures BootstrapRefuses(fs, log, Plan(request, fs.source, token))
       <==> BootstrapRefuses(fs, log, Plan(request, fs.source, 0))
  {
  }

  /** Loads the journal, or bootstraps one for this request. */
  method LoadOrBootstrap(disk: Disk, request: Request, token: nat) returns (r: Result)
    requires disk.Ok()
    modifies disk`log, disk`life
    ensures disk.Ok() && Agrees(old(disk.log), disk.log)
    ensures disk.log.Booted? && !old(disk.log).Booted? ==> disk.log.plan == Plan(request, disk.fs.source, token)
    ensures r.Done? ==> HasState(disk.log) && disk.Synced(Last(disk.log)) && disk.log.plan.request == request
    ensures r.Done? && HasState(old(disk.log)) ==> disk.log == old(disk.log)
    ensures HasState(old(disk.log)) ==> !r.Killed?
    ensures r.Done? && !HasState(old(disk.log)) ==> Last(disk.log).phase.Reserved?
    ensures r.Refused? ==> ApplyRefuses(disk.fs, old(disk.log), request)
    ensures r.Done? ==> !ApplyRefuses(disk.fs, old(disk.log), request) || RollbackDirected(Last(disk.log).phase)
    ensures r.Refused? && old(disk.log).Booted? ==> disk.log == old(disk.log)
    ensures Resumable(disk.fs, old(disk.log), request) ==> Resumable(disk.fs, disk.log, request)
    ensures r.Killed? ==> old(disk.life).Mortal?
    ensures disk.life.Immortal? <==> old(disk.life).Immortal?
  {
    hide Consistent, History, Pristine;
    if !ValidRequest(request) {
      return Refused(BadRequest);
    }
    if HasState(disk.log) {
      if disk.log.plan.request != request {
        return Refused(InvocationChanged);
      }
      LastPlan(disk.log);
      return Done;
    }
    if AlreadyPublished(disk.fs, request) {
      return Refused(DestinationExists);
    }
    if disk.fs.source.recordings.Keys != request.digestOf.Keys {
      return Refused(SourceMismatch);
    }
    RefusalIgnoresToken(disk.fs, disk.log, request, token);
    r := WriteBootstrap(disk, Plan(request, disk.fs.source, token));
    if r.Done? {
      LastPlan(disk.log);
    }
  }

  lemma LastPlan(log: Log)
    requires HasState(log) && History(log.plan, log.records)
    ensures Last(log).plan == log.plan
  {
  }

  /** `apply`: whatever happens the disk stays consistent; an uninterrupted apply is refused
      exactly in the states of `ApplyRefuses` and otherwise ends with every recording in
      place; and nothing is moved or created before the plan is durable. */
  method Apply(disk: Disk, request: Request, token: nat) returns (r: Result)
    requires disk.Ok()
    modifies disk
    ensures disk.Ok() && Agrees(old(disk.log), disk.log)
    ensures !disk.log.Booted? ==> disk.fs == old(disk.fs)
    ensures disk.log.Booted? && !old(disk.log).Booted? ==> disk.log.plan == Plan(request, old(disk.fs).source, token)
    ensures r.Refused? ==> disk.fs == old(disk.fs) && ApplyRefuses(disk.fs, old(disk.log), request)
    ensures r.Refused? && old(disk.log).Booted? ==> disk.log == old(disk.log)
    ensures r.Done? ==> !ApplyRefuses(old(disk.fs), old(disk.log), request)
    ensures HasState(old(disk.log)) && RollbackDirected(Last(old(disk.log)).phase) ==> r.Refused?
    ensures r.Done? ==> HasState(disk.log) && disk.log.plan.request == request
                        && Last(disk.log).phase.Committed? && CommittedState(disk.fs, disk.log.plan)
    ensures Resumable(old(disk.fs), old(disk.log), request) ==> Resumable(disk.fs, disk.log, request)
    ensures r.Killed? ==> old(disk.life).Mortal?
    ensures disk.life.Immortal? <==> old(disk.life).Immortal?
  {
    hide Consistent, History, Pristine, CommittedState, BootstrapRefuses, ValidRequest;
    r := LoadOrBootstrap(disk, request, token);
    if !r.Done? {
      return;
    }
    r := ApplyFrom(disk, Last(disk.log));
    if r.Done? {
      LastPlan(disk.log);
      CommittedIsFinal(disk.fs, Last(disk.log));
    }
  }

  /** `rollback`: needs a durable bootstrap record; completes iff the reverse renames can. */
  method Rollback(disk: Disk) returns (r: Result)
    requires disk.Ok()
    modifies disk
    ensures disk.Ok() && Agrees(old(disk.log), disk.log)
    ensures !disk.log.Booted? ==> disk.fs == old(disk.fs) && r.Refused?
    ensures disk.log.Booted? <==> old(disk.log).Booted?
    ensures r.Refused? ==> RollbackRefuses(old(disk.fs), old(disk.log))
    ensures r.Done? ==> !RollbackRefuses(old(disk.fs), old(disk.log))
    ensures r.Done? ==>
      HasState(disk.log) && Last(disk.log).phase.RolledBack? && RolledBackState(disk.fs, disk.log.plan)
    ensures HasState(old(disk.log)) ==>
              (Restorable(disk.fs, Last(disk.log)) <==> Restorable(old(disk.fs), Last(old(disk.log))))
    ensures r.Killed? ==> old(disk.life).Mortal?
    ensures disk.life.Immortal? <==> old(disk.life).Immortal?
  {
    hide Consistent, History, Pristine, RolledBackState, Restorable;
    if !HasState(disk.log) {
      if !disk.log.Booted? {
        return Refused(NothingToRollBack);
      }
      r := WriteBootstrap(disk, disk.log.plan);
      if !r.Done? {
        return;
      }
      LastPlan(disk.log);
      SettledIsRestorable(disk.fs, Last(disk.log));
    } else {
      LastPlan(disk.log);
    }
    r := RollbackFrom(disk, Last(disk.log));
    if r.Done? {
      LastPlan(disk.log);
      RolledBackIsOriginal(disk.fs, Last(disk.log));
    }
  }

  /** A rollback that met a destination it cannot empty.  No later command completes. */
  ghost predicate Wedged(fs: Fs, log: Log) {
    HasState(log) && RollbackDirected(Last(log).phase) && !Restorable(fs, Last(log))
  }

  lemma WedgedStays(before: Log, fs: Fs, log: Log)
    requires HasState(before) && RollbackDirected(Last(before).phase)
    requires HasState(log) && History(log.plan, log.records) && before.records <= log.records
    requires !Restorable(fs, Last(log))
    ensures Wedged(fs, log)
  {
    assert before.records[|before.records| - 1] == log.records[|before.records| - 1];
  }

  /** When rollback raises: without a durable bootstrap record, with a journal file cut just
      before its final line feed, or with a destination that already has its final mode
      while the durable record still names the working mode. */
  ghost predicate RollbackRefuses(fs: Fs, log: Log) {
    if HasState(log) then !Restorable(fs, Last(log))
    else !log.Booted? || log.journalFile.CutAtNewline?
  }

  // ------------------------------------------------------------------ every run

  datatype Command = ApplyCommand(request: Request, token: nat) | RollbackCommand

  datatype Call = Call(command: Command, life: Life)

  method RunOne(disk: Disk, call: Call) returns (r: Result)
    requires disk.Ok()
    modifies disk
    ensures disk.Ok() && Agrees(old(disk.log), disk.log)
    ensures !disk.log.Booted? ==> disk.fs == old(disk.fs)
    ensures disk.log.Booted? && !old(disk.log).Booted? ==> disk.log.plan.inventory == old(disk.fs).source
    ensures Wedged(old(disk.fs), old(disk.log)) ==> !r.Done? && Wedged(disk.fs, disk.log)
    ensures call.life.Immortal? ==>
      match call.command
      case ApplyCommand(request, _) => r.Done? <==> !ApplyRefuses(old(disk.fs), old(disk.log), request)
      case RollbackCommand => r.Done? <==> !RollbackRefuses(old(disk.fs), old(disk.log))
  {
    hide Consistent, History, Pristine, CommittedState, BootstrapRefuses, ValidRequest, Restorable, RolledBackState;
    disk.life := call.life;
    match call.command {
      case ApplyCommand(request, token) =>
        r := Apply(disk, request, token);
      case RollbackCommand =>
        r := Rollback(disk);
        if Wedged(old(disk.fs), old(disk.log)) {
          WedgedStays(old(disk.log), disk.fs, disk.log);
        }
    }
  }

  /** Any sequence of applies of any requests and of rollbacks, each killed anywhere: the
      disk is consistent, every recording is in exactly one place, the first durable plan is
      the plan for good, the log only grows, and its phases never go backwards. */
  method RunAll(disk: Disk, calls: seq<Call>)
    requires disk.Ok()
    modifies disk
    ensures disk.Ok() && Agrees(old(disk.log), disk.log)
    ensures HasState(disk.log) ==> ExactlyOnce(disk.fs, disk.log.plan)
    ensures HasState(disk.log) ==> History(disk.log.plan, disk.log.records)
    ensures disk.log.Booted? && !old(disk.log).Booted? ==> disk.log.plan.inventory == old(disk.fs).source
    ensures !HasState(disk.log) && !old(disk.log).Booted? ==> disk.fs.source == old(disk.fs).source
    ensures Wedged(old(disk.fs), old(disk.log)) ==> Wedged(disk.fs, disk.log)
  {
    hide Consistent, ExactlyOnce, Wedged, History;
    for i := 0 to |calls|
      invariant disk.Ok() && Agrees(old(disk.log), disk.log)
      invariant !disk.log.Booted? ==> disk.fs == old(disk.fs)
      invariant disk.log.Booted? && !old(disk.log).Booted? ==> disk.log.plan.inventory == old(disk.fs).source
      invariant Wedged(old(disk.fs), old(disk.log)) ==> Wedged(disk.fs, disk.log)
    {
      var _ := RunOne(disk, calls[i]);
    }
    if HasState(disk.log) {
      LastPlan(disk.log);
      ConsistentIsSafe(disk.fs, Last(disk.log));
    }
  }

  /** Crashes in any number of applies, then one uninterrupted apply: it commits, except
      when a crash cut the journal file exactly before its final line feed. */
  method ResumeApply(disk: Disk, request: Request, crashes: seq<(nat, Life)>, token: nat) returns (r: Result)
    requires disk.Ok() && Resumable(disk.fs, disk.log, request)
    modifies disk
    ensures r.Done? <==> !(disk.log.Booted? && disk.log.journalFile.CutAtNewline?)
    ensures r.Done? ==> HasState(disk.log) && disk.log.plan.request == request
                        && Last(disk.log).phase.Committed? && CommittedState(disk.fs, disk.log.plan)
    ensures !old(disk.log).Booted? && disk.log.Booted? ==> disk.log.plan.inventory == old(disk.fs).source
  {
    hide Consistent, CommittedState, Pristine, History;
    for i := 0 to |crashes|
      invariant disk.Ok() && Resumable(disk.fs, disk.log, request) && Agrees(old(disk.log), disk.log)
      invariant !disk.log.Booted? ==> disk.fs == old(disk.fs)
      invariant !old(disk.log).Booted? && disk.log.Booted? ==> disk.log.plan.inventory == old(disk.fs).source
    {
      disk.life := crashes[i].1;
      var _ := Apply(disk, request, crashes[i].0);
    }
    disk.life := Immortal;
    ResumableIsAccepted(disk.fs, disk.log, request);
    ghost var cut := disk.log.Booted? && disk.log.journalFile.CutAtNewline?;
    r := Apply(disk, request, token);
    ResumableIsAccepted(disk.fs, disk.log, request);
  }

  /** Crashes in any number of rollbacks, then one uninterrupted rollback: from a restorable
      state it always ends with the source exactly as it was inventoried. */
  method ResumeRollback(disk: Disk, crashes: seq<Life>) returns (r: Result)
    requires disk.Ok() && HasState(disk.log) && Restorable(disk.fs, Last(disk.log))
    modifies disk
    ensures r.Done? && HasState(disk.log) && disk.log.plan == old(disk.log).plan
    ensures RolledBackState(disk.fs, disk.log.plan)
  {
    hide Consistent, RolledBackState, Restorable, History;
    for i := 0 to |crashes|
      invariant disk.Ok() && HasState(disk.log) && Restorable(disk.fs, Last(disk.log))
      invariant disk.log.plan == old(disk.log).plan
    {
      disk.life := crashes[i];
      var _ := Rollback(disk);
    }
    disk.life := Immortal;
    r := Rollback(disk);
  }

  // ------------------------------------------------------------------ where resuming fails

  /** Recording "b" is to leave for a destination, "a" stays. */
  function SmallPlan(): Plan {
    Plan(Request(1, [1, 2], map[1 := ["a"], 2 := ["b"]], map["a" := 1, "b" := 2], {2}),
         Dir(10, 493, None, map["a" := 11, "b" := 12], map[]), 7)
  }

  lemma SmallPlanIsValid()
    ensures ValidPlan(SmallPlan())
  {
    var p := SmallPlan();
    assert p.request.partitions.Keys == {1, 2};
    assert forall d :: d in p.request.partitions <==> d in p.request.order;
    assert ValidRequest(p.request);
  }

  /** A crash has cut the journal file exactly before its final line feed: the apply it
      belongs to can be resumed in all else, and is refused. */
  lemma CutJournalExample() returns (fs: Fs, log: Log, request: Request)
    ensures DiskConsistent(fs, log) && Resumable(fs, log, request)
    ensures ApplyRefuses(fs, log, request)
  {
    var p := SmallPlan();
    SmallPlanIsValid();
    fs, log, request := Fs(p.inventory, map[], 30), Booted(p, CutAtNewline, [], false), p.request;
    assert DiskConsistent(fs, log) by {
      hide ValidPlan;
    }
    hide DiskConsistent, ValidRequest;
    ResumableIsAccepted(fs, log, request);
  }

  function HalfFinished(): Fs {
    Fs(SmallPlan().inventory.(recordings := map["a" := 11]),
       map[2 := Slot(None, Some(Dir(20, 493, None, map["b" := 12], map[])))], 30)
  }

  function HalfFinishedJournal(): Journal {
    Journal(SmallPlan(), Finalizing, map[2 := Binding(20, WORKING_MODE, 21)])
  }

  lemma HalfFinishedSlots()
    ensures var fs, j := HalfFinished(), HalfFinishedJournal();
      && (forall d :: d in j.plan.request.destinations ==> SlotOk(fs, j, d))
      && 2 in j.bindings && !CanEmpty(fs, j, 2)
  {
    assert InDestination(HalfFinished(), 2, "b");
  }

  lemma HalfFinishedContents()
    ensures var fs, j := HalfFinished(), HalfFinishedJournal();
      && SourceOk(fs, j.plan) && BindingsOk(j) && ContentsOk(fs, j)
      && (forall s :: s in j.plan.request.digestOf ==> PlacedOnce(fs, j.plan, s))
  {
    assert forall s :: s in SmallPlan().request.digestOf <==> s == "a" || s == "b";
  }

  /** A consistent state that rollback cannot leave: one destination has its final mode and
      the process was killed before `committed` was recorded. */
  lemma BlockedRollbackExample() returns (fs: Fs, j: Journal)
    ensures Consistent(fs, j) && j.phase.Finalizing? && !Restorable(fs, j)
  {
    fs, j := HalfFinished(), HalfFinishedJournal();
    SmallPlanIsValid();
    HalfFinishedSlots();
    HalfFinishedContents();
    assert j.plan == SmallPlan() && j.phase.Finalizing?;
    hide HalfFinished, HalfFinishedJournal, SmallPlan, ValidPlan;
    hide SlotOk, PlacedOnce, SourceOk, BindingsOk, ContentsOk, CanEmpty;
  }
}
