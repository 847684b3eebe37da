/** Every check a recovery makes before it changes anything, and that a task in the state
    an earlier call left behind passes them all. */
module RecoveryChecks {
  import opened Common
  import opened Json
  import opened RecoveryModel
  import D = StateDerivation

  // ------------------------------------------------------------------ the checks

  function ExpectedStatus(mode: Mode): Status {
    if mode.QuarantineRestart? then Failed else Passed
  }

  /** Exactly one of a marker's two names is in use, and by the file that was planned. */
  predicate MarkerEvidence(regs: Regs, m: MarkerPlan) {
    var marker, audit := regs.Get(Current(m.kind)), regs.Get(Audit(m.kind));
    || (marker == Some(m.file) && audit.None?)
    || (marker.None? && audit == Some(m.file))
  }

  predicate HasKind(markers: seq<MarkerPlan>, k: Kind) {
    exists j :: 0 <= j < |markers| && markers[j].kind == k
  }

  /** An authorised quarantine recorded by an older version, before its first move. */
  predicate LacksContractProof(i: Intent, fs: Namespace) {
    && i.binding.Some? && i.mode.QuarantineRestart? && i.phase.OutputQuarantinePending?
    && i.validation.contract.Absent?
    && fs.trees.output.Some? && fs.trees.quarantine.None?
  }

  predicate ContractProofFits(i: Intent, fs: Namespace) {
    if i.binding.None? then i.validation.contract.NoContract? || i.validation.contract.Absent?
    else if LacksContractProof(i, fs) then true
    else if i.mode.QuarantineRestart? then i.validation.contract.Mismatch?
    else i.validation.contract.Matches?
  }

  /** `_validate_intent_payload`. */
  predicate IntentValid(o: Oracle, mode: Mode, i: Intent, fs: Namespace) {
    && i.mode == mode
    && PhaseFits(mode, i.phase)
    && i.output.Some?
    && (i.archiveNamed <==> i.archive.Some?)
    && (mode.Rollback? ==> i.archive.Some?)
    && |i.markers| <= 2
    && (forall j, k :: 0 <= j < k < |i.markers| ==> i.markers[j].kind != i.markers[k].kind)
    && (forall j :: 0 <= j < |i.markers| ==> MarkerEvidence(fs.regs, i.markers[j]))
    && (mode.Rollback? || mode.CommitVerified? ==> HasKind(i.markers, Rebuild))
    && (mode.AdoptFinalization? ==> HasKind(i.markers, Finalization) && !HasKind(i.markers, Rebuild))
    && (i.archiveNamed ==> HasKind(i.markers, Rebuild))
    && (i.adoption.Some? ==> mode.CommitVerified? && o.kept(i.adoption.value))
    && Bindable(o) && i.binding == o.binding
    && i.validation.status == ExpectedStatus(mode)
    && ContractProofFits(i, fs)
    && Some(i.validation.tree) == (if mode.Rollback? then i.archive else i.output)
    && Ascending(i.validation.durable)
    && i.validation.rawSubset
    && (mode.QuarantineRestart? ==> i.validation.durable == [])
    && (i.state.None? ==> Rank(i.phase) >= 5)
  }

  function Evidence(i: Intent, regs: Regs, k: Kind): Option<Reg> {
    if !HasKind(i.markers, k) then None
    else if regs.Get(Current(k)).Some? then regs.Get(Current(k))
    else regs.Get(Audit(k))
  }

  /** `_authorize_marker_evidence`: the markers on disk still authorise the mode. */
  predicate MarkersAuthorize(o: Oracle, i: Intent, regs: Regs) {
    var finalization, rebuild := Evidence(i, regs, Finalization), Evidence(i, regs, Rebuild);
    && o.bound(finalization, rebuild)
    && NamesArchive(rebuild) == i.archiveNamed
    && MarkersAllow(o, i.mode, finalization, rebuild, i.adoption, i.validation.durable)
  }

  predicate CanonicalIsOriginal(plan: StatePlan, r: Regs) {
    r.state == Some(plan.original)
  }

  predicate CanonicalIsReplacement(plan: StatePlan, r: Regs) {
    r.state != Some(plan.original) && r.state == Some(plan.replacement)
  }

  function OriginalOf(plan: StatePlan, r: Regs): Option<Reg> {
    if r.backup.Some? then r.backup else if CanonicalIsOriginal(plan, r) then r.state else None
  }

  function ReplacementOf(plan: StatePlan, r: Regs): Option<Reg> {
    if r.replacement.Some? then r.replacement else if CanonicalIsReplacement(plan, r) then r.state else None
  }

  /** Each of the three state files is one of the two that were planned, and both are found. */
  predicate StateLocated(i: Intent, plan: StatePlan, r: Regs) {
    && (r.state.None? || CanonicalIsOriginal(plan, r) || CanonicalIsReplacement(plan, r))
    && (r.backup.Some? ==> r.backup.value == plan.original)
    && (r.replacement.Some? ==> r.replacement.value == plan.replacement)
    && (Rank(i.phase) == 5 || Rank(i.phase) == 4 ==> r.replacement.Some?)
    && OriginalOf(plan, r).Some? && ReplacementOf(plan, r).Some?
  }

  /** The replacement is what the original gives. */
  predicate StateDerived(o: Oracle, i: Intent, plan: StatePlan, r: Regs)
    requires StateLocated(i, plan, r)
  {
    && Rewritable(o, OriginalOf(plan, r))
    && ReplacementOf(plan, r).value.body == Rewrite(o, OriginalOf(plan, r), i.validation.durable, i.created)
  }

  /** The two files are where the phase wants them. */
  predicate StatePositioned(i: Intent, plan: StatePlan, r: Regs) {
    if Rank(i.phase) >= 4 then
      CanonicalIsOriginal(plan, r) <==> r.backup.None?
    else if i.phase.StateInstallPending? then
      r.backup.Some? && (r.replacement.Some? <==> !CanonicalIsReplacement(plan, r)) && !CanonicalIsOriginal(plan, r)
    else
      r.backup.Some? && CanonicalIsReplacement(plan, r) && r.replacement.None?
  }

  /** `_verify_state_artifacts`. */
  predicate StateArtifactsFit(o: Oracle, i: Intent, r: Regs) {
    i.state.None? ||
    (&& StateLocated(i, i.state.value, r)
     && StateDerived(o, i, i.state.value, r)
     && StatePositioned(i, i.state.value, r))
  }

  /** `_verify_raw_snapshot`: the raw recordings are those the intent was made for. */
  predicate RawUnchanged(o: Oracle, i: Intent) {
    i.snapshot == o.snapshot
  }

  predicate Checked(o: Oracle, mode: Mode, i: Intent, fs: Namespace) {
    && IntentValid(o, mode, i, fs) && RawUnchanged(o, i)
    && MarkersAuthorize(o, i, fs.regs) && StateArtifactsFit(o, i, fs.regs)
  }

  /** `_preflight_output_quarantine`. */
  predicate Preflight(o: Oracle, i: Intent, t: Trees) {
    && i.output.Some?
    && (t.output.Some? <==> t.quarantine.None?)
    && (if t.output.Some? then t.output else t.quarantine) == i.output
    && if i.mode.Rollback? then
         && t.archive.Some? && Passes(o, t.archive.value) && t.archive == i.archive
         && Proof(o, t.archive.value).durable == i.validation.durable
       else
         && Proof(o, i.output.value).status.Failed?
         && (i.binding.Some? ==> Proof(o, i.output.value).contract.Mismatch?)
  }

  /** `_fresh_candidate_proof` and the comparison with the intent. */
  predicate CandidateFits(o: Oracle, i: Intent, t: Trees) {
    && t.output.Some? && Passes(o, t.output.value)
    && Proof(o, t.output.value).durable == i.validation.durable
    && t.output == (if i.mode.Rollback? then i.archive else i.output)
  }

  // ------------------------------------------------------------------ they pass

  lemma PlansByKind(s: Start, markers: seq<MarkerPlan>)
    requires markers == MarkerPlans(s.finalization, s.rebuild)
    ensures HasKind(markers, Finalization) <==> s.finalization.Some?
    ensures HasKind(markers, Rebuild) <==> s.rebuild.Some?
    ensures |markers| <= 2
    ensures forall j, k :: 0 <= j < k < |markers| ==> markers[j].kind != markers[k].kind
    ensures forall j :: 0 <= j < |markers| ==>
      Some(markers[j].file) == if markers[j].kind.Finalization? then s.finalization else s.rebuild
  {
    if s.finalization.Some? {
      assert markers[0].kind == Finalization;
    }
    if s.rebuild.Some? {
      assert markers[|markers| - 1].kind == Rebuild;
    }
  }

  /** Both markers are found, wherever they are, as they were at the start. */
  lemma EvidenceStays(o: Oracle, s: Start, i: Intent, fs: Namespace)
    requires ValidStart(o, s) && Fits(o, s, i, fs)
    ensures Evidence(i, fs.regs, Finalization) == s.finalization
    ensures Evidence(i, fs.regs, Rebuild) == s.rebuild
    ensures forall j :: 0 <= j < |i.markers| ==> MarkerEvidence(fs.regs, i.markers[j])
  {
    PlansByKind(s, i.markers);
    hide StateFits, TreesFit, Rewritable, Rewrite;
    forall j | 0 <= j < |i.markers|
      ensures MarkerEvidence(fs.regs, i.markers[j])
    {
      assert i.markers[j].kind.Finalization? || i.markers[j].kind.Rebuild?;
    }
  }

  lemma IntentPasses(o: Oracle, s: Start, i: Intent, fs: Namespace)
    requires ValidOracle(o) && ValidStart(o, s) && Fits(o, s, i, fs)
    ensures IntentValid(o, s.mode, i, fs) <==> ArchivePresent(s)
  {
    PlansByKind(s, i.markers);
    EvidenceStays(o, s, i, fs);
    hide MarkersFit, MarkerEvidence, Rewritable, Rewrite, IsReplacement, MarkerFits;
    assert Ascending(i.validation.durable) by {
      assert Ascending([]);
    }
  }

  lemma MarkersPass(o: Oracle, s: Start, i: Intent, fs: Namespace)
    requires ValidStart(o, s) && Fits(o, s, i, fs)
    ensures MarkersAuthorize(o, i, fs.regs)
  {
    EvidenceStays(o, s, i, fs);
    hide MarkersFit, MarkerEvidence, Evidence, Rewritable, Rewrite, IsReplacement, StateFits, TreesFit;
  }

  lemma StatePasses(o: Oracle, s: Start, i: Intent, fs: Namespace)
    requires ValidStart(o, s) && Fits(o, s, i, fs)
    ensures StateArtifactsFit(o, i, fs.regs)
  {
    hide MarkersFit, TreesFit, Admits, MarkerPlans, Rewrite;
  }

  /** The theorem behind every resumption: a task in the state an earlier call left behind
      passes every check, unless the archive its rebuild journal names was never there. */
  lemma EverythingPasses(o: Oracle, s: Start, i: Intent, fs: Namespace)
    requires ValidOracle(o) && ValidStart(o, s) && Fits(o, s, i, fs)
    ensures Checked(o, s.mode, i, fs) <==> ArchivePresent(s)
  {
    assert RawUnchanged(o, i);
    hide Fits, IntentValid, MarkersAuthorize, StateArtifactsFit, ValidStart;
    IntentPasses(o, s, i, fs);
    MarkersPass(o, s, i, fs);
    StatePasses(o, s, i, fs);
  }

  /** What the check before a quarantine asks for: the output, on one side of its rename, is the
      recorded one, and there is a sound archive with the recorded serials to take its place, or
      the output has failed. */
  lemma PreflightAsks(o: Oracle, i: Intent, t: Trees)
    requires i.binding == o.binding
    ensures Preflight(o, i, t) <==>
      && i.output.Some?
      && ((t.output == i.output && t.quarantine.None?) || (t.quarantine == i.output && t.output.None?))
      && if i.mode.Rollback? then
           && t.archive.Some? && t.archive == i.archive
           && IsSound(o, t.archive.value) && o.serials(t.archive.value) == i.validation.durable
         else
           var output := i.output.value;
           if o.binding.Some? then !o.matches(output) else o.base(output).Failed?
  {
    if t.archive.Some? {
      SoundPasses(o, t.archive.value);
    }
  }

  /** What the check of the candidate asks for: the tree that is to stay, sound, with the
      recorded serials. */
  lemma CandidateAsks(o: Oracle, i: Intent, t: Trees)
    ensures CandidateFits(o, i, t) <==>
      && t.output.Some? && t.output == (if i.mode.Rollback? then i.archive else i.output)
      && IsSound(o, t.output.value) && o.serials(t.output.value) == i.validation.durable
  {
    if t.output.Some? {
      SoundPasses(o, t.output.value);
    }
  }

  lemma PreflightPasses(o: Oracle, s: Start, i: Intent, fs: Namespace)
    requires ValidStart(o, s) && Fits(o, s, i, fs) && ArchivePresent(s)
    requires i.phase.OutputQuarantinePending?
    ensures Preflight(o, i, fs.trees)
  {
    hide MarkersFit, StateFits, MarkerPlans;
  }

  lemma CandidatePasses(o: Oracle, s: Start, i: Intent, fs: Namespace)
    requires ValidStart(o, s) && Fits(o, s, i, fs) && ArchivePresent(s)
    requires i.phase.CandidateVerifyPending?
    ensures CandidateFits(o, i, fs.trees)
    ensures Proof(o, fs.trees.output.value) == i.validation
  {
    hide MarkersFit, StateFits, MarkerPlans;
  }
}
