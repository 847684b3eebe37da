/** What one phase of a recovery leaves behind: from a task that fits a phase to one that
    fits the next. */
module RecoverySteps {
  import opened Common
  import opened Json
  import opened RecoveryModel
  import opened RecoveryChecks

  /** The phase after this one. */
  function NextPhase(mode: Mode, p: Phase): Phase {
    match p
    case OutputQuarantinePending => if mode.Rollback? then ArchiveRestorePending else StateReplacementPending
    case ArchiveRestorePending => CandidateVerifyPending
    case CandidateVerifyPending => StateReplacementPending
    case StateReplacementPending => StateBackupPending
    case StateBackupPending => StateInstallPending
    case StateInstallPending => MarkerAuditPending
    case MarkerAuditPending => ReceiptPending
    case _ => ReceiptDurable
  }

  /** The receipt a phase adds when it ends. */
  function ReceiptOf(p: Phase): seq<Action> {
    match p
    case OutputQuarantinePending => [OutputQuarantined]
    case ArchiveRestorePending => [ArchiveRestored]
    case StateBackupPending => [StateBackedUp]
    case StateInstallPending => [StateInstalled]
    case MarkerAuditPending => [MarkersAudited]
    case _ => []
  }

  /** An intent moved on to its next phase. */
  function Advanced(i: Intent): Intent {
    i.(phase := NextPhase(i.mode, i.phase), receipts := i.receipts + ReceiptOf(i.phase))
  }

  lemma ReceiptsAdvance(mode: Mode, p: Phase)
    requires PhaseFits(mode, p) && Rank(p) > 0
    ensures PhaseFits(mode, NextPhase(mode, p)) && Rank(NextPhase(mode, p)) < Rank(p)
    ensures ReceiptsAt(mode, p) + ReceiptOf(p) == ReceiptsAt(mode, NextPhase(mode, p))
  {
  }

  /** Every move of the current phase has been made. */
  ghost predicate PhaseIsOver(o: Oracle, s: Start, i: Intent, fs: Namespace)
    requires ValidStart(o, s)
  {
    match i.phase
    case OutputQuarantinePending => fs.trees.output.None? && i.validation.contract != Absent
    case ArchiveRestorePending => fs.trees.archive.None?
    case StateReplacementPending => false
    case StateBackupPending => fs.regs.state.None?
    case StateInstallPending => fs.regs.replacement.None?
    case MarkerAuditPending => fs.regs.finalization.None? && fs.regs.rebuild.None?
    case ReceiptDurable => false
    case _ => true
  }

  lemma PhaseAdvances(o: Oracle, s: Start, i: Intent, fs: Namespace)
    requires ValidStart(o, s) && ArchivePresent(s) && Fits(o, s, i, fs) && PhaseIsOver(o, s, i, fs)
    ensures Fits(o, s, Advanced(i), fs)
  {
    hide IntentFits, TreesFit, StateFits, MarkersFit, PhaseIsOver, NextPhase;
    IntentAdvances(o, s, i, fs);
    PlacesAdvance(o, s, i, fs);
  }

  lemma PlacesAdvance(o: Oracle, s: Start, i: Intent, fs: Namespace)
    requires ValidStart(o, s) && ArchivePresent(s) && Fits(o, s, i, fs) && PhaseIsOver(o, s, i, fs)
    ensures i.mode == s.mode
    ensures var p := NextPhase(s.mode, i.phase);
      TreesFit(s, p, fs.trees) && StateFits(o, s, p, i.state, fs.regs) && MarkersFit(s, p, fs.regs)
  {
    hide MarkerPlans, Rewrite, Rewritable, IsReplacement, Proof, Passes, ReceiptsAt;
  }

  lemma IntentAdvances(o: Oracle, s: Start, i: Intent, fs: Namespace)
    requires ValidStart(o, s) && IntentFits(o, s, i, fs.trees) && PhaseIsOver(o, s, i, fs)
    ensures IntentFits(o, s, Advanced(i), fs.trees)
  {
    hide MarkerPlans, Proof, Admits, AdoptionOf, ReceiptsAt;
    ReceiptsAdvance(s.mode, i.phase);
  }

  lemma QuarantineKeepsFit(o: Oracle, s: Start, i: Intent, fs: Namespace)
    requires ValidStart(o, s) && Fits(o, s, i, fs) && i.phase.OutputQuarantinePending?
    requires i.validation.contract != Absent && fs.trees.output.Some?
    ensures Fits(o, s, i, fs.(trees := fs.trees.Rename(Output, Quarantine)))
  {
    hide StateFits, MarkersFit, NewIntent;
  }

  lemma RestoreKeepsFit(o: Oracle, s: Start, i: Intent, fs: Namespace)
    requires ValidStart(o, s) && Fits(o, s, i, fs) && i.phase.ArchiveRestorePending? && fs.trees.archive.Some?
    ensures fs.trees.output.None? && fs.trees.archive == i.archive
    ensures Fits(o, s, i, fs.(trees := fs.trees.Rename(Archive, Output)))
  {
    hide StateFits, MarkersFit;
  }

  lemma BackupKeepsFit(o: Oracle, s: Start, i: Intent, fs: Namespace)
    requires ValidStart(o, s) && Fits(o, s, i, fs) && i.phase.StateBackupPending? && fs.regs.state.Some?
    ensures Fits(o, s, i, fs.(regs := fs.regs.Rename(StateFile, StateBackup)))
  {
    hide IntentFits, TreesFit, IsReplacement, MarkerFits;
  }

  lemma InstallKeepsFit(o: Oracle, s: Start, i: Intent, fs: Namespace)
    requires ValidStart(o, s) && Fits(o, s, i, fs) && i.phase.StateInstallPending? && fs.regs.replacement.Some?
    ensures Fits(o, s, i, fs.(regs := fs.regs.Rename(StateReplacement, StateFile)))
  {
    hide IntentFits, TreesFit, IsReplacement, MarkerFits;
  }

  lemma AuditKeepsFit(o: Oracle, s: Start, i: Intent, fs: Namespace, k: Kind)
    requires ValidStart(o, s) && Fits(o, s, i, fs) && i.phase.MarkerAuditPending? && fs.regs.Get(Current(k)).Some?
    ensures Fits(o, s, i, fs.(regs := fs.regs.Rename(Current(k), Audit(k))))
  {
    hide IntentFits, TreesFit, IsReplacement;
  }

  /** The replacement exists and the intent records it. */
  lemma StatePrepared(o: Oracle, s: Start, i: Intent, fs: Namespace)
    requires ValidStart(o, s) && Fits(o, s, i, fs) && i.phase.StateReplacementPending?
    requires s.state.Some? && fs.regs.replacement.Some?
    ensures Fits(o, s, Advanced(i.(state := Some(StatePlan(s.state.value, fs.regs.replacement.value)))), fs)
  {
    ReceiptsAdvance(s.mode, i.phase);
    hide MarkerPlans, Rewrite, Rewritable, IsReplacement, NewIntent;
  }

  /** What is written next to the state file is what the intent's start derives. */
  lemma DerivedFromStart(o: Oracle, s: Start, i: Intent, fs: Namespace)
    requires ValidStart(o, s) && Fits(o, s, i, fs) && Rank(i.phase) >= 5
    ensures fs.regs.state == s.state && i.created == s.created && i.validation.durable == Durable(o, s)
  {
    hide MarkerPlans, MarkersFit, TreesFit, Rewrite, IsReplacement;
  }

  /** The contract proof an older version left out is filled in. */
  lemma ProofAdded(o: Oracle, s: Start, i: Intent, fs: Namespace)
    requires ValidStart(o, s) && Fits(o, s, i, fs) && i.phase.OutputQuarantinePending? && i.validation.contract.Absent?
    ensures i.binding.Some? && s.mode.QuarantineRestart?
    ensures Fits(o, s, i.(validation := i.validation.(contract := Mismatch)), fs)
  {
    hide MarkersFit, StateFits, MarkerPlans;
  }
}
