/** The partition command on a disk it can be killed on.

    Every durable step first calls `Tick`, which kills a mortal process once its steps are
    used up; a contract that holds for every `life` therefore holds for a crash between any
    two steps.  In-memory state is the local `mem`; `fs` and `log` survive. */
module PartitionDisk {
  import opened Common
  import opened PartitionModel
  import opened PartitionLive
  import opened PartitionSteps

  type Result = Outcome<Refusal>

  ghost predicate OnlySlotChanged(a: Fs, b: Fs, d: Digest) {
    b.source == a.source && forall e :: e != d ==> SlotOf(b, e) == SlotOf(a, e)
  }

  ghost predicate SourceShrank(a: Fs, b: Fs) {
    forall s :: s in b.source.recordings ==> s in a.source.recordings
  }

  ghost predicate SameRecordings(a: Fs, b: Fs, d: Digest) {
    forall s :: InDestination(b, d, s) <==> InDestination(a, d, s)
  }

  class Disk {
    var fs: Fs
    var log: Log
    var life: Life

    constructor (fs: Fs, log: Log, life: Life)
      ensures this.fs == fs && this.log == log && this.life == life
    {
      this.fs, this.log, this.life := fs, log, life;
    }

    ghost predicate Ok()
      reads this
    {
      DiskConsistent(fs, log)
    }

    /** The invariant while a command works on a durable journal. */
    ghost predicate Running(mem: Journal)
      reads this
    {
      && Ok()
      && HasState(log)
      && mem.plan == log.plan
      && mem.phase == Last(log).phase
      && Last(log).bindings.Keys <= mem.bindings.Keys
      && Consistent(fs, mem)
    }

    /** The invariant while the journal in memory is the last durable one. */
    ghost predicate Synced(mem: Journal)
      reads this
    {
      Ok() && HasState(log) && Last(log) == mem && mem.plan == log.plan
    }

    method Tick() returns (alive: bool)
      modifies `life
      ensures alive <==> old(life) != Mortal(0)
      ensures life == match old(life)
                      case Immortal => Immortal
                      case Mortal(n) => Mortal(if n == 0 then 0 else n - 1)
    {
      alive := life != Mortal(0);
      if alive && life.Mortal? {
        life := Mortal(life.steps - 1);
      }
    }

    /** Appends one state record; a crash can leave any part of it behind the last record. */
    method WriteState(j: Journal) returns (r: Result)
      requires Ok() && HasState(log) && j.plan == log.plan
      requires Rank(Last(log).phase) <= Rank(j.phase) && Consistent(fs, j)
      modifies `log, `life
      ensures Ok() && HasState(log) && log.plan == old(log.plan)
      ensures Wrote(old(log), log, j, r.Done?) && (!r.Done? ==> r.Killed?)
      ensures r.Killed? ==> old(life).Mortal?
      ensures life.Immortal? <==> old(life).Immortal?
    {
      var alive := Tick();
      if !alive {
        var cut: bool := *;
        log := log.(torn := cut);
        return Killed;
      }
      log := log.(records := log.records + [j], torn := false);
      r := Done;
    }

    /** Makes the construction directory of contract `d`, or completes an earlier one. */
    method BuildConstruction(mem: Journal, d: Digest) returns (r: Result)
      requires Running(mem) && d in mem.plan.request.destinations
      requires mem.phase.Reserved? && d !in mem.bindings && SlotOf(fs, d).published.None?
      modifies `fs, `life
      ensures Running(mem)
      ensures OnlySlotChanged(old(fs), fs, d) && SlotOf(fs, d).published.None?
      ensures r.Done? ==> SlotOf(fs, d).construction.Some? && SlotOf(fs, d).construction.value.marker.Some?
      ensures !r.Refused? && (r.Killed? ==> old(life).Mortal?)
      ensures life.Immortal? <==> old(life).Immortal?
    {
      assert SlotOk(fs, mem, d);
      if SlotOf(fs, d).construction.None? {
        var alive := Tick();
        if !alive {
          return Killed;
        }
        ReplaceSlot(mem, d, Slot(Some(Dir(fs.nextInode, WORKING_MODE, None, map[], map[])), None));
      }
      var dir := SlotOf(fs, d).construction.value;
      if dir.mode != WORKING_MODE || dir.recordings != map[] || dir.hidden != map[] {
        return Refused(ForeignContent);
      }
      if dir.marker.None? {
        var alive := Tick();
        if !alive {
          return Killed;
        }
        ReplaceSlot(mem, d, Slot(Some(dir.(marker := Some(fs.nextInode))), None));
      }
      r := Done;
    }

    /** Renames the finished construction directory to its final name. */
    method Publish(mem: Journal, d: Digest) returns (r: Result)
      requires Running(mem) && d in mem.plan.request.destinations && d !in mem.bindings
      requires mem.phase.Reserved? && SlotOf(fs, d).published.None? && SlotOf(fs, d).construction.Some?
      requires SlotOf(fs, d).construction.value.marker.Some?
      modifies `fs, `life
      ensures Running(mem)
      ensures OnlySlotChanged(old(fs), fs, d)
      ensures r.Done? ==> SlotOf(fs, d).published.Some?
      ensures !r.Refused? && (r.Killed? ==> old(life).Mortal?)
      ensures life.Immortal? <==> old(life).Immortal?
    {
      var alive := Tick();
      if !alive {
        return Killed;
      }
      ReplaceSlot(mem, d, Slot(None, SlotOf(fs, d).construction));
      r := Done;
    }

    /** One durable change of a destination that has not been adopted. */
    method ReplaceSlot(mem: Journal, d: Digest, slot: Slot)
      requires Running(mem) && d in mem.plan.request.destinations && d !in mem.bindings
      requires mem.phase.Reserved? && UnboundSlotOk(slot, Reserved)
      modifies `fs
      ensures Running(mem)
      ensures OnlySlotChanged(old(fs), fs, d) && SlotOf(fs, d) == slot
    {
      PutSlotStep(fs, mem, d, slot);
      PutSlotStep(fs, Last(log), d, slot);
      fs := PutSlot(fs, d, slot);
    }

    /** Opens the published destination and binds its identity in memory. */
    method AdoptDestination(mem: Journal, d: Digest) returns (r: Result, mem': Journal)
      requires Running(mem) && d in mem.plan.request.destinations && SlotOf(fs, d).published.Some?
      requires mem.phase.Reserved? || mem.phase.Applying?
      ensures r.Done? && Running(mem')
      ensures mem'.bindings.Keys == mem.bindings.Keys + {d}
    {
      hide Consistent, History, ValidPlan;
      PublishedShape(fs, mem, d);
      var dir := SlotOf(fs, d).published.value;
      if d in mem.bindings {
        var b := mem.bindings[d];
        if dir.inode != b.inode || dir.mode != WORKING_MODE || dir.marker != Some(b.marker) {
          return Refused(IdentityChanged), mem;
        }
        return Done, mem;
      }
      if dir.mode != WORKING_MODE || dir.recordings != map[] || dir.hidden != map[] || dir.marker.None? {
        return Refused(ForeignContent), mem;
      }
      AdoptStep(fs, mem, d);
      r, mem' := Done, Adopt(mem, d, dir);
    }

    /** Creates, publishes and adopts the destination of contract `d`. */
    method PrepareDestination(mem: Journal, d: Digest) returns (r: Result, mem': Journal)
      requires Running(mem) && d in mem.plan.request.destinations
      requires mem.phase.Reserved? || mem.phase.Applying?
      modifies `fs, `life
      ensures Running(mem') && !r.Refused?
      ensures OnlySlotChanged(old(fs), fs, d)
      ensures r.Done? ==> mem'.bindings.Keys == mem.bindings.Keys + {d}
      ensures !r.Done? ==> mem' == mem
      ensures r.Killed? ==> old(life).Mortal?
      ensures life.Immortal? <==> old(life).Immortal?
    {
      mem' := mem;
      assert SlotOk(fs, mem, d);
      var slot := SlotOf(fs, d);
      if slot.construction.Some? && slot.published.Some? {
        return Refused(ForeignContent), mem;
      }
      if slot.published.None? {
        r := BuildConstruction(mem, d);
        if !r.Done? {
          return;
        }
        r := Publish(mem, d);
        if !r.Done? {
          return;
        }
      }
      r, mem' := AdoptDestination(mem, d);
    }

    /** Renames one recording from the source into its destination. */
    method RenameOut(mem: Journal, d: Digest, s: Serial) returns (r: Result)
      requires Synced(mem) && mem.phase.Applying? && d in mem.bindings
      requires s in mem.plan.request.digestOf && mem.plan.request.digestOf[s] == d && s in fs.source.recordings
      modifies `fs, `life
      ensures Synced(mem) && !r.Refused?
      ensures SourceShrank(old(fs), fs)
      ensures r.Done? ==> s !in fs.source.recordings
      ensures r.Killed? ==> fs == old(fs) && old(life).Mortal?
      ensures life.Immortal? <==> old(life).Immortal?
    {
      hide Consistent, ValidPlan, History;
      MoveOutChecks(fs, mem, d, s);
      var b := mem.bindings[d];
      var dir := SlotOf(fs, d).published.value;
      if fs.source.inode != mem.plan.inventory.inode || fs.source.mode != mem.plan.inventory.mode
         || dir.inode != b.inode || dir.mode != b.mode
         || s !in mem.plan.inventory.recordings || fs.source.recordings[s] != mem.plan.inventory.recordings[s] {
        return Refused(IdentityChanged);
      }
      if s in dir.recordings {
        return Refused(DestinationExists);
      }
      var alive := Tick();
      if !alive {
        return Killed;
      }
      MoveOutStep(fs, mem, d, s);
      fs := MoveOut(fs, d, s);
      r := Done;
    }

    /** Renames one recording back, checking the destination against its recorded mode. */
    method RenameBack(mem: Journal, d: Digest, s: Serial) returns (r: Result)
      requires Synced(mem) && mem.phase.RollingBack? && d in mem.bindings
      requires s in mem.plan.request.digestOf && mem.plan.request.digestOf[s] == d && InDestination(fs, d, s)
      modifies `fs, `life
      ensures Synced(mem)
      ensures r.Refused? <==> SlotOf(old(fs), d).published.value.mode != mem.bindings[d].mode
      ensures fs == if r.Done? then MoveBack(old(fs), d, s) else old(fs)
      ensures r.Killed? ==> old(life).Mortal?
      ensures life.Immortal? <==> old(life).Immortal?
    {
      hide Consistent, ValidPlan, History;
      MoveBackChecks(fs, mem, d, s);
      var b := mem.bindings[d];
      var dir := SlotOf(fs, d).published.value;
      if fs.source.inode != mem.plan.inventory.inode || fs.source.mode != mem.plan.inventory.mode
         || dir.inode != b.inode || dir.mode != b.mode
         || s !in mem.plan.inventory.recordings || dir.recordings[s] != mem.plan.inventory.recordings[s] {
        return Refused(IdentityChanged);
      }
      if s in fs.source.recordings {
        return Refused(DestinationExists);
      }
      var alive := Tick();
      if !alive {
        return Killed;
      }
      MoveBackStep(fs, mem, d, s);
      fs := MoveBack(fs, d, s);
      r := Done;
    }

    /** Removes the marker of one destination and installs its committed mode. */
    method FinalizeDestination(mem: Journal, d: Digest) returns (r: Result)
      requires Synced(mem) && (mem.phase.Finalizing? || mem.phase.RollingBack?) && d in mem.bindings
      modifies `fs, `life
      ensures Synced(mem) && !r.Refused?
      ensures OnlySlotChanged(old(fs), fs, d)
      ensures SameRecordings(old(fs), fs, d)
      ensures r.Done? ==> FinishedAt(fs, mem, d)
      ensures r.Killed? ==> old(life).Mortal?
      ensures life.Immortal? <==> old(life).Immortal?
    {
      assert SlotOk(fs, mem, d);
      var b := mem.bindings[d];
      var dir := SlotOf(fs, d).published.value;
      if dir.inode != b.inode || (dir.mode != WORKING_MODE && dir.mode != mem.plan.inventory.mode)
         || (dir.marker.Some? && dir.marker.value != b.marker) {
        return Refused(IdentityChanged);
      }
      if dir.marker.Some? {
        var alive := Tick();
        if !alive {
          return Killed;
        }
        ReplaceDirectory(mem, d, dir.(marker := None));
      }
      var alive := Tick();
      if !alive {
        return Killed;
      }
      ReplaceDirectory(mem, d, dir.(marker := None, mode := mem.plan.inventory.mode));
      r := Done;
    }

    /** One durable change of the marker or mode of an adopted destination. */
    method ReplaceDirectory(mem: Journal, d: Digest, dir: Dir)
      requires Synced(mem) && d in mem.bindings && SlotOk(fs, mem, d)
      requires dir.recordings == SlotOf(fs, d).published.value.recordings
      requires BoundSlotOk(Slot(None, Some(dir)), mem.bindings[d], mem.plan, d, mem.phase)
      modifies `fs
      ensures Synced(mem)
      ensures OnlySlotChanged(old(fs), fs, d) && SlotOf(fs, d) == Slot(None, Some(dir))
    {
      ghost var after := SetSlot(fs, d, Slot(None, Some(dir)));
      SlotStep(fs, after, mem, d);
      fs := SetSlot(fs, d, Slot(None, Some(dir)));
    }
  }
}
