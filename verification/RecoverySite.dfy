/** The recovery service at work on one task: resumable moves, the nine phases, and the
    replay loop that runs them from wherever an earlier call stopped. */
module RecoverySite {
  import opened Common
  import opened Json
  import opened RecoveryModel
  import opened RecoveryChecks
  import opened RecoverySteps
  import D = StateDerivation

  datatype Reason =
    | AmbiguousNamespace | MissingObject | FingerprintMismatch
    | InvalidIntent | IntentChanged | RawTaskChanged | MarkerMismatch | StateConflict
    | CandidateChanged | ValidationNotFailed | InvalidState | WrongMode

  /** A move that is still to be made, or was made by an earlier call. */
  predicate Resolvable<T(==)>(source: Option<T>, destination: Option<T>, expected: Option<T>) {
    (source.Some? <==> destination.None?) && (if source.Some? then source else destination) == expected
  }

  function MissingProof(i: Intent): nat {
    if i.validation.contract.Absent? then 1 else 0
  }

  class Site {
    var fs: Namespace
    var life: Life
    /** The next inode number. */
    var next: nat

    ghost predicate FreshIds()
      reads this
    {
      && (fs.regs.state.Some? ==> fs.regs.state.value.id < next)
      && (fs.regs.replacement.Some? ==> fs.regs.replacement.value.id < next)
      && (forall id: nat :: IsNamed(id, fs.earlier) ==> id < next)
    }

    /** The intent `i` is on disk and the task fits it. */
    ghost predicate Holding(o: Oracle, s: Start, i: Intent)
      reads this
    {
      && ValidOracle(o) && ValidStart(o, s) && ArchivePresent(s) && FreshIds()
      && fs.regs.intent.Some? && fs.regs.intent.value.body == IntentRecord(i) && fs.regs.receipt.None?
      && Fits(o, s, i, fs)
    }

    method Tick() returns (alive: bool)
      modifies this`life
      ensures alive <==> old(life) != Mortal(0)
      ensures life == match old(life)
                      case Immortal => Immortal
                      case Mortal(n) => Mortal(if n == 0 then 0 else n - 1)
    {
      match life
      case Immortal => alive := true;
      case Mortal(n) =>
        alive := n > 0;
        if alive { life := Mortal(n - 1); }
    }

    /** `_write_intent`: a whole new file under the intent's name. */
    method WriteIntent(i: Intent) returns (alive: bool)
      modifies this
      ensures old(life).Immortal? ==> alive && life.Immortal?
      ensures fs == if alive then old(fs).(regs := old(fs).regs.(intent := Some(Reg(old(next), IntentRecord(i)))))
                    else old(fs)
      ensures next >= old(next)
    {
      alive := Tick();
      if alive {
        fs := fs.(regs := fs.regs.Set(IntentFile, Some(Reg(next, IntentRecord(i)))));
        next := next + 1;
      }
    }

    /** `_advance`. */
    method Advance(i: Intent, phase: Phase, receipt: seq<Action>) returns (alive: bool, j: Intent)
      modifies this
      ensures old(life).Immortal? ==> alive && life.Immortal?
      ensures j == i.(phase := phase, receipts := i.receipts + receipt)
      ensures fs == if alive then old(fs).(regs := old(fs).regs.(intent := Some(Reg(old(next), IntentRecord(j)))))
                    else old(fs)
      ensures next >= old(next)
    {
      j := i.(receipts := i.receipts + receipt);
      j := j.(phase := phase);
      alive := WriteIntent(j);
    }

    /** `_resolve_directory_move`. */
    method ResolveDirectory(source: Dir, destination: Dir, expected: Option<Tree>) returns (out: Outcome<Reason>)
      requires source != destination && expected.Some?
      modifies this`fs, this`life
      ensures old(life).Immortal? ==> !out.Killed? && life.Immortal?
      ensures !out.Refused? ==> Resolvable(old(fs).trees.Get(source), old(fs).trees.Get(destination), expected)
      ensures out.Refused? ==> !Resolvable(old(fs).trees.Get(source), old(fs).trees.Get(destination), expected)
      ensures fs == if out.Done? && old(fs).trees.Get(source).Some?
                    then old(fs).(trees := old(fs).trees.Rename(source, destination)) else old(fs)
    {
      var src, dst := fs.trees.Get(source), fs.trees.Get(destination);
      if src.Some? && dst.Some? { return Refused(AmbiguousNamespace); }
      if src.None? && dst.None? { return Refused(MissingObject); }
      if src.Some? {
        if src != expected { return Refused(FingerprintMismatch); }
        var alive := Tick();
        if !alive { return Killed; }
        fs := fs.(trees := fs.trees.Rename(source, destination));
      }
      if fs.trees.Get(destination) != expected { return Refused(FingerprintMismatch); }
      return Done;
    }

    /** `_resolve_regular_move`. */
    method ResolveRegular(source: Name, destination: Name, expected: Option<Reg>) returns (out: Outcome<Reason>)
      requires source != destination && expected.Some?
      modifies this`fs, this`life
      ensures old(life).Immortal? ==> !out.Killed? && life.Immortal?
      ensures !out.Refused? ==> Resolvable(old(fs).regs.Get(source), old(fs).regs.Get(destination), expected)
      ensures out.Refused? ==> !Resolvable(old(fs).regs.Get(source), old(fs).regs.Get(destination), expected)
      ensures fs == if out.Done? && old(fs).regs.Get(source).Some?
                    then old(fs).(regs := old(fs).regs.Rename(source, destination)) else old(fs)
    {
      var src, dst := fs.regs.Get(source), fs.regs.Get(destination);
      if src.Some? && dst.Some? { return Refused(AmbiguousNamespace); }
      if src.None? && dst.None? { return Refused(MissingObject); }
      if src.Some? {
        if src != expected { return Refused(FingerprintMismatch); }
        var alive := Tick();
        if !alive { return Killed; }
        fs := fs.(regs := fs.regs.Rename(source, destination));
      }
      if fs.regs.Get(destination) != expected { return Refused(FingerprintMismatch); }
      return Done;
    }

    // ---------------------------------------------------------------- the phases

    /** The phase is over: the intent moves on. */
    method FinishPhase(o: Oracle, ghost s: Start, i: Intent, phase: Phase, receipt: seq<Action>)
      returns (alive: bool, j: Intent)
      requires Holding(o, s, i) && Rank(i.phase) > 0 && PhaseIsOver(o, s, i, fs)
      requires phase == NextPhase(s.mode, i.phase) && receipt == ReceiptOf(i.phase)
      modifies this
      ensures old(life).Immortal? ==> alive && life.Immortal?
      ensures alive ==> Holding(o, s, j) && Rank(j.phase) < Rank(i.phase)
      ensures !alive ==> Holding(o, s, i)
    {
      PhaseAdvances(o, s, i, fs);
      ReceiptsAdvance(s.mode, i.phase);
      alive, j := Advance(i, phase, receipt);
      assert j == Advanced(i);
      hide ValidStart, ArchivePresent, IntentFits, TreesFit, StateFits, MarkersFit;
    }

    method QuarantineOutput(o: Oracle, ghost s: Start, i: Intent) returns (out: Outcome<Reason>, j: Intent)
      requires Holding(o, s, i) && i.phase.OutputQuarantinePending?
      modifies this
      ensures old(life).Immortal? ==> out.Done? && life.Immortal?
      ensures out.Done? ==> Holding(o, s, j)
      ensures out.Done? ==> Rank(j.phase) < Rank(i.phase) || (j.phase == i.phase && MissingProof(j) < MissingProof(i))
      ensures out.Killed? ==> Holding(o, s, i)
      ensures !out.Refused?
    {
      j := i;
      PreflightPasses(o, s, i, fs);
      if !Preflight(o, i, fs.trees) { return Refused(ValidationNotFailed), i; }
      var alive;
      if i.binding.Some? && i.validation.contract.Absent? {
        ProofAdded(o, s, i, fs);
        hide Fits, ValidStart, ArchivePresent, Preflight;
        alive, j := Advance(i.(validation := i.validation.(contract := Mismatch)), OutputQuarantinePending, []);
        assert j == i.(validation := i.validation.(contract := Mismatch));
        return if alive then Done else Killed, j;
      }
      ProofIsThere(o, s, i, fs);
      if fs.trees.output.Some? {
        QuarantineKeepsFit(o, s, i, fs);
      }
      hide Fits, ValidStart, ArchivePresent;
      out := ResolveDirectory(Output, Quarantine, i.output);
      if !out.Done? { return; }
      alive, j := FinishPhase(o, s, i, if i.mode.Rollback? then ArchiveRestorePending else StateReplacementPending,
                              [OutputQuarantined]);
      return if alive then Done else Killed, j;
    }

    method RestoreArchive(o: Oracle, ghost s: Start, i: Intent) returns (out: Outcome<Reason>, j: Intent)
      requires Holding(o, s, i) && i.phase.ArchiveRestorePending?
      modifies this
      ensures old(life).Immortal? ==> out.Done? && life.Immortal?
      ensures out.Done? ==> Holding(o, s, j) && Rank(j.phase) < Rank(i.phase)
      ensures out.Killed? ==> Holding(o, s, i)
      ensures !out.Refused?
    {
      j := i;
      RestoreIsResolvable(o, s, i, fs);
      if !i.archiveNamed { return Refused(InvalidIntent), i; }
      hide Fits, ValidStart, ArchivePresent;
      out := ResolveDirectory(Archive, Output, i.archive);
      if !out.Done? { return; }
      var alive;
      alive, j := FinishPhase(o, s, i, CandidateVerifyPending, [ArchiveRestored]);
      return if alive then Done else Killed, j;
    }

    method VerifyCandidate(o: Oracle, ghost s: Start, i: Intent) returns (out: Outcome<Reason>, j: Intent)
      requires Holding(o, s, i) && i.phase.CandidateVerifyPending?
      modifies this
      ensures old(life).Immortal? ==> out.Done? && life.Immortal?
      ensures out.Done? ==> Holding(o, s, j) && Rank(j.phase) < Rank(i.phase)
      ensures out.Killed? ==> Holding(o, s, i)
      ensures !out.Refused?
    {
      j := i;
      CandidatePasses(o, s, i, fs);
      if !CandidateFits(o, i, fs.trees) { return Refused(CandidateChanged), i; }
      j := i.(validation := Proof(o, fs.trees.output.value));
      hide Fits, ValidStart, ArchivePresent, Proof, CandidateFits;
      var alive;
      alive, j := FinishPhase(o, s, j, StateReplacementPending, []);
      return if alive then Done else Killed, j;
    }

    /** `_build_state_replacement`: written once, found again by a later call. */
    method BuildReplacement(o: Oracle, ghost s: Start, i: Intent) returns (out: Outcome<Reason>)
      requires Holding(o, s, i) && i.phase.StateReplacementPending?
      modifies this
      ensures old(life).Immortal? ==> !out.Killed? && life.Immortal?
      ensures Holding(o, s, i)
      ensures out.Done? ==> Rewritable(o, s.state) && fs.regs.state == s.state && fs.regs.replacement.Some?
      ensures out.Refused? ==> fs == old(fs) && !Rewritable(o, s.state)
    {
      DerivedFromStart(o, s, i, fs);
      if fs.regs.state.None? { return Refused(InvalidState); }
      var body := fs.regs.state.value.body;
      if !body.Text? || !body.file.Doc? { return Refused(InvalidState); }
      var derived := D.DeriveRecovery(body.file.state, o.task, i.validation.durable, i.created);
      if derived.Err? { return Refused(InvalidState); }
      var replacement := Text(Doc(derived.value, Canonical));
      assert replacement == Rewrite(o, s.state, Durable(o, s), s.created);
      if fs.regs.replacement.None? {
        var alive := Tick();
        if !alive { return Killed; }
        fs := fs.(regs := fs.regs.Set(StateReplacement, Some(Reg(next, replacement))));
        next := next + 1;
        hide Rewrite, Rewritable, IntentFits, MarkersFit, TreesFit, Durable, Admits, IsNamed;
      } else if fs.regs.replacement.value.body != replacement {
        return Refused(StateConflict);
      }
      return Done;
    }

    method PrepareState(o: Oracle, ghost s: Start, i: Intent) returns (out: Outcome<Reason>, j: Intent)
      requires Holding(o, s, i) && i.phase.StateReplacementPending?
      modifies this
      ensures old(life).Immortal? ==> !out.Killed? && life.Immortal?
      ensures out.Done? ==> Holding(o, s, j) && Rank(j.phase) < Rank(i.phase)
      ensures !out.Done? ==> Holding(o, s, i)
      ensures out.Refused? ==> fs == old(fs) && !Rewritable(o, s.state)
    {
      j := i;
      DerivedFromStart(o, s, i, fs);
      NoPlanYet(o, s, i, fs);
      if i.state.None? {
        hide Fits, ValidStart, ArchivePresent, Rewritable;
        out := BuildReplacement(o, s, i);
        if !out.Done? { return; }
        j := i.(state := Some(StatePlan(fs.regs.state.value, fs.regs.replacement.value)));
        StatePrepared(o, s, i, fs);
      }
      var alive;
      ghost var advanced := Advanced(j);
      alive, j := Advance(j, StateBackupPending, []);
      assert j == advanced;
      return if alive then Done else Killed, j;
    }

    method BackupState(o: Oracle, ghost s: Start, i: Intent) returns (out: Outcome<Reason>, j: Intent)
      requires Holding(o, s, i) && i.phase.StateBackupPending?
      modifies this
      ensures old(life).Immortal? ==> out.Done? && life.Immortal?
      ensures out.Done? ==> Holding(o, s, j) && Rank(j.phase) < Rank(i.phase)
      ensures out.Killed? ==> Holding(o, s, i)
      ensures !out.Refused?
    {
      j := i;
      StateMovesAreResolvable(o, s, i, fs);
      if fs.regs.state.Some? {
        BackupKeepsFit(o, s, i, fs);
      }
      hide Fits, ValidStart, ArchivePresent;
      out := ResolveRegular(StateFile, StateBackup, Some(i.state.value.original));
      if !out.Done? { return; }
      var alive;
      alive, j := FinishPhase(o, s, i, StateInstallPending, [StateBackedUp]);
      return if alive then Done else Killed, j;
    }

    method InstallState(o: Oracle, ghost s: Start, i: Intent) returns (out: Outcome<Reason>, j: Intent)
      requires Holding(o, s, i) && i.phase.StateInstallPending?
      modifies this
      ensures old(life).Immortal? ==> out.Done? && life.Immortal?
      ensures out.Done? ==> Holding(o, s, j) && Rank(j.phase) < Rank(i.phase)
      ensures out.Killed? ==> Holding(o, s, i)
      ensures !out.Refused?
    {
      j := i;
      StateMovesAreResolvable(o, s, i, fs);
      if fs.regs.replacement.Some? {
        InstallKeepsFit(o, s, i, fs);
      }
      hide Fits, ValidStart, ArchivePresent;
      out := ResolveRegular(StateReplacement, StateFile, Some(i.state.value.replacement));
      if !out.Done? { return; }
      if fs.regs.state != Some(i.state.value.replacement) { return Refused(StateConflict), i; }
      var alive;
      alive, j := FinishPhase(o, s, i, MarkerAuditPending, [StateInstalled]);
      return if alive then Done else Killed, j;
    }

    method AuditMarker(o: Oracle, ghost s: Start, i: Intent, k: nat) returns (out: Outcome<Reason>)
      requires Holding(o, s, i) && i.phase.MarkerAuditPending? && k < |i.markers|
      modifies this
      ensures old(life).Immortal? ==> out.Done? && life.Immortal?
      ensures Holding(o, s, i) && !out.Refused?
      ensures var kind := i.markers[k].kind;
        fs == old(fs) || fs == old(fs).(regs := old(fs).regs.Rename(Current(kind), Audit(kind)))
      ensures out.Done? ==> fs.regs.Get(Current(i.markers[k].kind)).None?
    {
      var marker := i.markers[k];
      AuditIsResolvable(o, s, i, fs, k);
      if fs.regs.Get(Current(marker.kind)).Some? {
        AuditKeepsFit(o, s, i, fs, marker.kind);
      }
      hide Fits, ValidStart, ArchivePresent;
      out := ResolveRegular(Current(marker.kind), Audit(marker.kind), Some(marker.file));
    }

    method AuditMarkers(o: Oracle, ghost s: Start, i: Intent) returns (out: Outcome<Reason>, j: Intent)
      requires Holding(o, s, i) && i.phase.MarkerAuditPending?
      modifies this
      ensures old(life).Immortal? ==> out.Done? && life.Immortal?
      ensures out.Done? ==> Holding(o, s, j) && Rank(j.phase) < Rank(i.phase)
      ensures out.Killed? ==> Holding(o, s, i)
      ensures !out.Refused?
    {
      hide *;
      j := i;
      for k := 0 to |i.markers|
        invariant Holding(o, s, i) && (old(life).Immortal? ==> life.Immortal?)
        invariant forall m :: 0 <= m < k ==> fs.regs.Get(Current(i.markers[m].kind)).None?
      {
        ghost var before := fs.regs;
        out := AuditMarker(o, s, i, k);
        if !out.Done? { return; }
        forall m | 0 <= m < k
          ensures fs.regs.Get(Current(i.markers[m].kind)).None?
        {
          AuditedStays(before, i.markers[k].kind, i.markers[m].kind);
        }
      }
      AuditIsOver(this, o, s, i);
      var alive;
      alive, j := FinishPhase(o, s, i, ReceiptPending, [MarkersAudited]);
      return if alive then Done else Killed, j;
    }

    method Complete(o: Oracle, ghost s: Start, i: Intent) returns (out: Outcome<Reason>, j: Intent)
      requires Holding(o, s, i) && i.phase.ReceiptPending?
      modifies this
      ensures old(life).Immortal? ==> out.Done? && life.Immortal?
      ensures out.Done? ==> Holding(o, s, j) && Rank(j.phase) < Rank(i.phase)
      ensures out.Killed? ==> Holding(o, s, i)
      ensures !out.Refused?
    {
      var alive;
      hide Fits, ValidStart, ArchivePresent;
      alive, j := FinishPhase(o, s, i, ReceiptDurable, []);
      return if alive then Done else Killed, j;
    }

    /** The intent becomes the receipt, in one rename. */
    method Publish(o: Oracle, ghost s: Start, i: Intent) returns (out: Outcome<Reason>, r: Option<Intent>)
      requires Holding(o, s, i) && i.phase.ReceiptDurable?
      modifies this
      ensures old(life).Immortal? ==> out.Done? && life.Immortal?
      ensures out.Done? ==>
        Published(o, s, fs) && FreshIds() && r == Some(i) && fs.regs.receipt.value.body == IntentRecord(i)
      ensures out.Killed? ==> Holding(o, s, i)
      ensures !out.Refused?
    {
      out := ResolveRegular(IntentFile, ReceiptFile, fs.regs.intent);
      if !out.Done? { return out, None; }
      r := Some(fs.regs.receipt.value.body.intent);
    }
  }

  // ------------------------------------------------------------------ the moves can be made

  lemma ProofIsThere(o: Oracle, s: Start, i: Intent, fs: Namespace)
    requires ValidStart(o, s) && Fits(o, s, i, fs) && i.phase.OutputQuarantinePending?
    requires !(i.binding.Some? && i.validation.contract.Absent?)
    ensures i.validation.contract != Absent
    ensures Resolvable(fs.trees.output, fs.trees.quarantine, i.output) && i.mode == s.mode
  {
    hide StateFits, MarkersFit, MarkerPlans;
  }

  lemma RestoreIsResolvable(o: Oracle, s: Start, i: Intent, fs: Namespace)
    requires ValidStart(o, s) && ArchivePresent(s) && Fits(o, s, i, fs) && i.phase.ArchiveRestorePending?
    ensures i.archiveNamed && i.archive.Some? && Resolvable(fs.trees.archive, fs.trees.output, i.archive)
    ensures fs.trees.archive.Some? ==> Fits(o, s, i, fs.(trees := fs.trees.Rename(Archive, Output)))
  {
    if fs.trees.archive.Some? {
      RestoreKeepsFit(o, s, i, fs);
    }
    hide StateFits, MarkersFit, MarkerPlans;
  }

  lemma NoPlanYet(o: Oracle, s: Start, i: Intent, fs: Namespace)
    requires ValidStart(o, s) && Fits(o, s, i, fs) && i.phase.StateReplacementPending?
    ensures i.state.None? && i.mode == s.mode
  {
    hide MarkersFit, TreesFit, MarkerPlans;
  }

  lemma StateMovesAreResolvable(o: Oracle, s: Start, i: Intent, fs: Namespace)
    requires ValidStart(o, s) && Fits(o, s, i, fs)
    requires i.phase.StateBackupPending? || i.phase.StateInstallPending?
    ensures i.state.Some? && i.mode == s.mode
    ensures i.phase.StateBackupPending? ==>
      Resolvable(fs.regs.state, fs.regs.backup, Some(i.state.value.original))
    ensures i.phase.StateInstallPending? ==>
      Resolvable(fs.regs.replacement, fs.regs.state, Some(i.state.value.replacement))
  {
    hide MarkersFit, TreesFit, MarkerPlans, Rewrite, Rewritable;
  }

  lemma MarkersArePlanned(o: Oracle, s: Start, i: Intent, fs: Namespace)
    requires ValidStart(o, s) && Fits(o, s, i, fs)
    ensures i.markers == MarkerPlans(s.finalization, s.rebuild) && i.mode == s.mode
  {
    hide MarkersFit, TreesFit, StateFits;
  }

  lemma AuditIsResolvable(o: Oracle, s: Start, i: Intent, fs: Namespace, k: nat)
    requires ValidStart(o, s) && Fits(o, s, i, fs) && k < |i.markers|
    ensures var m := i.markers[k];
      Resolvable(fs.regs.Get(Current(m.kind)), fs.regs.Get(Audit(m.kind)), Some(m.file))
  {
    EvidenceStays(o, s, i, fs);
  }

  lemma AuditedStays(r: Regs, moved: Kind, k: Kind)
    requires r.Get(Current(k)).None?
    ensures r.Rename(Current(moved), Audit(moved)).Get(Current(k)).None?
  {
  }

  lemma AuditIsOver(site: Site, o: Oracle, s: Start, i: Intent)
    requires site.Holding(o, s, i) && i.phase.MarkerAuditPending?
    requires forall m :: 0 <= m < |i.markers| ==> site.fs.regs.Get(Current(i.markers[m].kind)).None?
    ensures ValidStart(o, s) && PhaseIsOver(o, s, i, site.fs) && Rank(i.phase) > 0
    ensures ReceiptPending == NextPhase(s.mode, i.phase) && [MarkersAudited] == ReceiptOf(i.phase)
  {
    hide Fits, ValidStart;
    AllMarkersAudited(o, s, i, site.fs);
  }

  lemma AllMarkersAudited(o: Oracle, s: Start, i: Intent, fs: Namespace)
    requires ValidStart(o, s) && Fits(o, s, i, fs) && i.phase.MarkerAuditPending?
    requires forall m :: 0 <= m < |i.markers| ==> fs.regs.Get(Current(i.markers[m].kind)).None?
    ensures fs.regs.finalization.None? && fs.regs.rebuild.None?
  {
    MarkersArePlanned(o, s, i, fs);
    PlansByKind(s, i.markers);
    hide TreesFit, StateFits, IntentFits;
  }
}
