/** The three-step bootstrap: bootstrap record, journal file, header with record 0. */
module PartitionBootstrap {
  import opened Common
  import opened PartitionModel
  import opened PartitionDisk

  predicate SameInvocation(a: Plan, b: Plan) {
    a.request == b.request && a.inventory == b.inventory
  }

  predicate AnyArtifact(fs: Fs, p: Plan) {
    exists d | d in p.request.destinations :: !Vacant(SlotOf(fs, d))
  }

  /** The states from which a bootstrap of `offered` raises instead of completing. */
  predicate BootstrapRefuses(fs: Fs, log: Log, offered: Plan) {
    match log
    case NoLog(foreign) => foreign || AnyArtifact(fs, offered)
    case Bare => AnyArtifact(fs, offered)
    case Booted(plan, journalFile, records, torn) =>
      || !SameInvocation(plan, offered)
      || journalFile.CutAtNewline?
      || (records != [] && (records[|records| - 1] != FirstJournal(plan) || torn))
  }

  /** What every step of a bootstrap keeps. */
  ghost predicate Agrees(before: Log, after: Log) {
    before.Booted? ==> after.Booted? && after.plan == before.plan && before.records <= after.records
  }

  /** Step 1: the bootstrap record that fixes the plan, or the one already there. */
  method WriteBootstrapRecord(disk: Disk, offered: Plan) returns (r: Result)
    requires disk.Ok()
    requires !disk.log.Booted? ==> ValidPlan(offered) && offered.inventory == disk.fs.source
    modifies disk`log, disk`life
    ensures disk.Ok() && Agrees(old(disk.log), disk.log)
    ensures r.Done? ==> disk.log.Booted? && SameInvocation(disk.log.plan, offered)
    ensures old(disk.log).Booted? ==> disk.log == old(disk.log)
    ensures r.Done? && !old(disk.log).Booted? ==> disk.log == Booted(offered, Missing, [], false)
    ensures disk.log.Booted? && !old(disk.log).Booted? ==> r.Done?
    ensures r.Refused? ==> BootstrapRefuses(disk.fs, old(disk.log), offered)
    ensures r.Done? && BootstrapRefuses(disk.fs, old(disk.log), offered) ==> old(disk.log).Booted?
    ensures disk.log.NoLog? ==> disk.log == old(disk.log)
    ensures r.Killed? ==> old(disk.life).Mortal?
    ensures disk.life.Immortal? <==> old(disk.life).Immortal?
  {
    if disk.log.NoLog? {
      if disk.log.foreignJournal {
        return Refused(ForeignJournal);
      }
      var alive := disk.Tick();
      if !alive {
        return Killed;
      }
      disk.log := Bare;
    }
    if disk.log.Bare? {
      if AnyArtifact(disk.fs, offered) {
        return Refused(ForeignContent);
      }
      var alive := disk.Tick();
      if !alive {
        return Killed;
      }
      disk.log := Booted(offered, Missing, [], false);
      return Done;
    }
    if !SameInvocation(disk.log.plan, offered) {
      return Refused(InvocationChanged);
    }
    r := Done;
  }

  /** Step 2: the journal file.  A crash leaves any prefix of it, and the prefix that lacks
      only the final line feed is a complete JSON object. */
  method WriteJournalFile(disk: Disk) returns (r: Result)
    requires disk.Ok() && disk.log.Booted?
    modifies disk`log, disk`life
    ensures disk.Ok() && Agrees(old(disk.log), disk.log)
    ensures disk.log == old(disk.log).(journalFile := disk.log.journalFile)
    ensures r.Refused? ==> disk.log == old(disk.log)
    ensures r.Done? ==> disk.log.journalFile.Whole?
    ensures r.Refused? <==> old(disk.log).journalFile.CutAtNewline?
    ensures r.Killed? ==> old(disk.life).Mortal?
    ensures disk.life.Immortal? <==> old(disk.life).Immortal?
  {
    if disk.log.journalFile.Missing? {
      var alive := disk.Tick();
      if !alive {
        return Killed;
      }
      disk.log := disk.log.(journalFile := Cut);
    }
    if disk.log.journalFile.Whole? {
      return Done;
    }
    if disk.log.journalFile.CutAtNewline? {
      return Refused(JournalMismatch);
    }
    var alive := disk.Tick();
    if !alive {
      var written: JournalFile :| written != Missing;
      disk.log := disk.log.(journalFile := written);
      return Killed;
    }
    disk.log := disk.log.(journalFile := Whole);
    r := Done;
  }

  /** Step 3: the header and record 0, after dropping whatever follows the bootstrap record. */
  method WriteFirstRecord(disk: Disk) returns (r: Result)
    requires disk.Ok() && disk.log.Booted? && disk.log.journalFile.Whole?
    modifies disk`log, disk`life
    ensures disk.Ok() && Agrees(old(disk.log), disk.log)
    ensures r.Done? ==> HasState(disk.log) && Last(disk.log) == FirstJournal(disk.log.plan)
    ensures r.Done? && HasState(old(disk.log)) ==> disk.log == old(disk.log)
    ensures !r.Done? ==> disk.log == old(disk.log).(torn := disk.log.torn)
    ensures r.Refused? ==> disk.log == old(disk.log)
    ensures r.Refused? <==> old(disk.log).records != []
                            && (Last(old(disk.log)) != FirstJournal(old(disk.log).plan) || old(disk.log).torn)
    ensures r.Killed? ==> old(disk.life).Mortal?
    ensures disk.life.Immortal? <==> old(disk.life).Immortal?
  {
    if disk.log.records != [] {
      if Last(disk.log) != FirstJournal(disk.log.plan) || disk.log.torn {
        return Refused(DurableStateInconsistent);
      }
      return Done;
    }
    var alive := disk.Tick();
    if !alive {
      var cut: bool := *;
      disk.log := disk.log.(torn := cut);
      return Killed;
    }
    PristineIsConsistent(disk.fs, disk.log.plan);
    disk.log := disk.log.(records := [FirstJournal(disk.log.plan)], torn := false);
    r := Done;
  }

  /** The whole bootstrap.  A durable bootstrap record decides the plan for good: every later
      bootstrap installs that plan, whatever token its own plan carries, and repeating a
      finished one changes nothing. */
  method WriteBootstrap(disk: Disk, offered: Plan) returns (r: Result)
    requires disk.Ok()
    requires !disk.log.Booted? ==> ValidPlan(offered) && offered.inventory == disk.fs.source
    modifies disk`log, disk`life
    ensures disk.Ok() && Agrees(old(disk.log), disk.log)
    ensures disk.log.Booted? && !old(disk.log).Booted? ==> disk.log.plan == offered
    ensures r.Done? ==> HasState(disk.log) && Last(disk.log) == FirstJournal(disk.log.plan)
    ensures r.Done? ==> SameInvocation(disk.log.plan, offered)
    ensures r.Done? && HasState(old(disk.log)) ==> disk.log == old(disk.log)
    ensures r.Refused? ==> BootstrapRefuses(disk.fs, old(disk.log), offered)
    ensures r.Done? ==> !BootstrapRefuses(disk.fs, old(disk.log), offered)
    ensures r.Refused? && old(disk.log).Booted? ==> disk.log == old(disk.log)
    ensures !r.Done? ==> (HasState(disk.log) <==> HasState(old(disk.log)))
    ensures disk.log.NoLog? ==> disk.log == old(disk.log)
    ensures r.Killed? ==> old(disk.life).Mortal?
    ensures disk.life.Immortal? <==> old(disk.life).Immortal?
  {
    r := WriteBootstrapRecord(disk, offered);
    if !r.Done? {
      return;
    }
    r := WriteJournalFile(disk);
    if !r.Done? {
      return;
    }
    r := WriteFirstRecord(disk);
  }
}
