/** `recover` from wherever an earlier call stopped, and any number of calls in a row. */
module RecoveryService {
  import opened Common
  import opened Json
  import opened RecoveryModel
  import opened RecoveryChecks
  import opened RecoverySteps
  import opened RecoverySite

  /** A recovery of this start can reach its receipt. */
  predicate Finishable(o: Oracle, s: Start) {
    ArchivePresent(s) && Rewritable(o, s.state)
  }

  /** Whether one intent is nearer the receipt than another. */
  predicate Nearer(j: Intent, i: Intent) {
    Rank(j.phase) < Rank(i.phase) || (Rank(j.phase) == Rank(i.phase) && MissingProof(j) < MissingProof(i))
  }

  method RunPhase(site: Site, o: Oracle, ghost s: Start, i: Intent) returns (out: Outcome<Reason>, j: Intent)
    requires site.Holding(o, s, i) && !i.phase.ReceiptDurable?
    modifies site
    ensures old(site.life).Immortal? ==> site.life.Immortal? && !out.Killed?
    ensures out.Done? ==> site.Holding(o, s, j) && Nearer(j, i)
    ensures !out.Done? ==> site.Holding(o, s, i)
    ensures out.Refused? ==> i.phase.StateReplacementPending? && !Rewritable(o, s.state)
  {
    hide Fits, ValidStart, Rewritable, ArchivePresent;
    match i.phase
    case OutputQuarantinePending => out, j := site.QuarantineOutput(o, s, i);
    case ArchiveRestorePending => out, j := site.RestoreArchive(o, s, i);
    case CandidateVerifyPending => out, j := site.VerifyCandidate(o, s, i);
    case StateReplacementPending => out, j := site.PrepareState(o, s, i);
    case StateBackupPending => out, j := site.BackupState(o, s, i);
    case StateInstallPending => out, j := site.InstallState(o, s, i);
    case MarkerAuditPending => out, j := site.AuditMarkers(o, s, i);
    case ReceiptPending => out, j := site.Complete(o, s, i);
  }

  /** `_replay`: each turn re-reads the intent, repeats every check and runs one phase. It
      ends because each turn lowers the phase's rank or fills in a missing contract proof. */
  method Replay(site: Site, o: Oracle, ghost s: Start, first: Intent) returns (out: Outcome<Reason>, r: Option<Intent>)
    requires site.Holding(o, s, first)
    modifies site
    ensures out.Done? ==> Published(o, s, site.fs) && site.FreshIds()
    ensures out.Done? ==> r.Some? && site.fs.regs.receipt.value.body == IntentRecord(r.value)
    ensures !out.Done? ==> Active(o, s, site.fs) && site.FreshIds()
    ensures out.Refused? ==> !Rewritable(o, s.state)
    ensures old(site.life).Immortal? ==> site.life.Immortal? && (out.Done? <==> Rewritable(o, s.state)) && !out.Killed?
  {
    var i := first;
    r := None;
    while true
      invariant site.Holding(o, s, i) && (old(site.life).Immortal? ==> site.life.Immortal?)
      decreases Rank(i.phase), MissingProof(i)
    {
      var persisted := site.fs.regs.intent.value.body.intent;
      FactsOfFit(o, s, i, site.fs);
      hide Fits, ValidStart, Rewritable;
      if !IntentValid(o, i.mode, persisted, site.fs) { return Refused(InvalidIntent), None; }
      if persisted != i { return Refused(IntentChanged), None; }
      if !RawUnchanged(o, i) { return Refused(RawTaskChanged), None; }
      if !MarkersAuthorize(o, i, site.fs.regs) { return Refused(MarkerMismatch), None; }
      if !StateArtifactsFit(o, i, site.fs.regs) { return Refused(StateConflict), None; }
      if i.phase.ReceiptDurable? {
        out, r := site.Publish(o, s, i);
        return;
      }
      var j;
      out, j := RunPhase(site, o, s, i);
      if !out.Done? { return; }
      i := j;
    }
  }

  /** What a phase already proves: its checks pass, and past the replacement the state file
      was one that can be rewritten. */
  lemma FactsOfFit(o: Oracle, s: Start, i: Intent, fs: Namespace)
    requires ValidOracle(o) && ValidStart(o, s) && ArchivePresent(s) && Fits(o, s, i, fs)
    ensures i.mode == s.mode && Checked(o, i.mode, i, fs)
    ensures Rank(i.phase) < 5 ==> Rewritable(o, s.state)
  {
    EverythingPasses(o, s, i, fs);
    hide MarkersFit, TreesFit, MarkerPlans, Rewritable, Checked;
  }

  // ------------------------------------------------------------------ the existing receipt

  /** The trees are still where the receipt says the recovery left them. */
  predicate TreesAsReceived(i: Intent, t: Trees) {
    && (if i.mode.QuarantineRestart? then t.output.None? && t.quarantine == i.output
        else t.output == (if i.mode.Rollback? then i.archive else i.output))
    && (i.mode.Rollback? ==> t.quarantine == i.output)
    && (i.archiveNamed ==> if i.mode.Rollback? then t.archive.None? else t.archive == i.archive)
  }

  /** What the scan makes of one receipt: it goes on, returns it, or raises. */
  datatype Verdict = Skip | Accept | Raise(reason: Reason)

  function Judge(o: Oracle, mode: Mode, i: Intent, fs: Namespace): Verdict {
    if i.mode != mode || !i.phase.ReceiptDurable? then Skip
    else if !IntentValid(o, mode, i, fs) then Raise(InvalidIntent)
    else if !RawUnchanged(o, i) then Skip
    else if !MarkersAuthorize(o, i, fs.regs) then Raise(MarkerMismatch)
    else if !TreesAsReceived(i, fs.trees) || !StateLocated(i, i.state.value, fs.regs) then Skip
    else if !StateDerived(o, i, i.state.value, fs.regs) then Raise(StateConflict)
    else if !StatePositioned(i, i.state.value, fs.regs) then Skip
    else Accept
  }

  /** A finished recovery of this mode, with everything that its receipt names, trees, state
      file, markers, raw recordings and contract manifest, as the receipt says. */
  predicate BorneOut(o: Oracle, mode: Mode, i: Intent, fs: Namespace) {
    i.mode == mode && i.phase.ReceiptDurable? && TreesAsReceived(i, fs.trees) && Checked(o, mode, i, fs)
  }

  /** Today's checks reject it: its own ones, those of the contract manifest and of the files
      with its evidence; and, the raw recordings being the same, those of its markers. */
  predicate Rejected(o: Oracle, mode: Mode, i: Intent, fs: Namespace) {
    && i.mode == mode && i.phase.ReceiptDurable?
    && (!IntentValid(o, mode, i, fs) || (RawUnchanged(o, i) && !MarkersAuthorize(o, i, fs.regs)))
  }

  /** Nothing has moved, but the state file is not what the recovery makes of the original. */
  predicate Corrupted(o: Oracle, mode: Mode, i: Intent, fs: Namespace) {
    && i.mode == mode && i.phase.ReceiptDurable?
    && IntentValid(o, mode, i, fs) && RawUnchanged(o, i) && MarkersAuthorize(o, i, fs.regs)
    && TreesAsReceived(i, fs.trees) && StateLocated(i, i.state.value, fs.regs)
    && !StateDerived(o, i, i.state.value, fs.regs)
  }

  /** A receipt is returned exactly when everything it names still bears it out. */
  lemma AcceptedIsBorneOut(o: Oracle, mode: Mode, i: Intent, fs: Namespace)
    ensures Judge(o, mode, i, fs).Accept? <==> BorneOut(o, mode, i, fs)
  {
    hide Rewrite, Rewritable, MarkersAuthorize, TreesAsReceived;
  }

  /** The file that was planned for a marker, if one was. */
  function PlannedFile(markers: seq<MarkerPlan>, k: Kind): Option<Reg> {
    if markers == [] then None
    else if markers[0].kind == k then Some(markers[0].file)
    else PlannedFile(markers[1..], k)
  }

  /** The journals an intent was made with entitle a call to its mode. */
  predicate Authorised(o: Oracle, i: Intent, finalization: Option<Reg>, rebuild: Option<Reg>) {
    && o.bound(finalization, rebuild)
    && (i.archiveNamed <==> rebuild.Some? && rebuild.value.body.MarkerRecord? && rebuild.value.body.marker.namesArchive)
    && match i.mode
       case Rollback => InPhase(rebuild, Prepared)
       case QuarantineRestart => true
       case AdoptFinalization => rebuild.None? && InPhase(finalization, Armed)
       case CommitVerified =>
         || InPhase(rebuild, Verified)
         || (InPhase(rebuild, Prepared) && i.adoption.Some?
             && o.adoption(rebuild.value, i.validation.durable) == i.adoption)
  }

  /** What an intent that was carried out records of the contract and of the validation. */
  predicate ProofFits(o: Oracle, i: Intent) {
    && i.snapshot == o.snapshot && i.binding == o.binding && (o.binding.Some? ==> o.listed)
    && i.output.Some? && (i.archiveNamed <==> i.archive.Some?)
    && (i.adoption.Some? ==> i.mode.CommitVerified? && o.kept(i.adoption.value))
    && i.validation.rawSubset && Ascending(i.validation.durable)
    && (match i.mode
        case Rollback => i.archive == Some(i.validation.tree) && i.validation.status.Passed?
        case QuarantineRestart =>
          i.output == Some(i.validation.tree) && i.validation.status.Failed? && i.validation.durable == []
        case _ => i.output == Some(i.validation.tree) && i.validation.status.Passed?)
    && match i.validation.contract
       case Absent => i.binding.None?
       case NoContract => i.binding.None?
       case Matches => i.binding.Some? && !i.mode.QuarantineRestart?
       case Mismatch => i.binding.Some? && i.mode.QuarantineRestart?
  }

  /** The state file is the replacement, made from the original, and that is kept. */
  predicate StateReplaced(o: Oracle, i: Intent, r: Regs) {
    && i.state.Some? && i.state.value.original != i.state.value.replacement
    && r.state == Some(i.state.value.replacement)
    && r.backup == Some(i.state.value.original) && r.replacement.None?
    && Rewritable(o, r.backup)
    && i.state.value.replacement.body == Rewrite(o, r.backup, i.validation.durable, i.created)
  }

  /** Every marker is at exactly one of its two names, and is the file that was planned. */
  predicate MarkersKept(i: Intent, r: Regs) {
    && |i.markers| <= 2 && (|i.markers| == 2 ==> i.markers[0].kind != i.markers[1].kind)
    && forall j :: 0 <= j < |i.markers| ==>
         var m := i.markers[j];
         var (marker, audit) :=
           if m.kind.Finalization? then (r.finalization, r.finalizationAudit) else (r.rebuild, r.rebuildAudit);
         (marker == Some(m.file) && audit.None?) || (marker.None? && audit == Some(m.file))
  }

  /** Where the recovery left the trees. */
  predicate TreesKept(i: Intent, t: Trees) {
    match i.mode
    case Rollback => t.output == i.archive && t.quarantine == i.output && (i.archiveNamed ==> t.archive.None?)
    case QuarantineRestart =>
      t.output.None? && t.quarantine == i.output && (i.archiveNamed ==> t.archive == i.archive)
    case _ => t.output == i.output && (i.archiveNamed ==> t.archive == i.archive)
  }

  /** A receipt is returned exactly when it is one of a finished recovery of this mode and all
      of this holds of what it records and of what is on disk. */
  lemma AcceptedMeans(o: Oracle, mode: Mode, i: Intent, fs: Namespace)
    ensures Judge(o, mode, i, fs).Accept? <==>
      && i.mode == mode && i.phase.ReceiptDurable?
      && ProofFits(o, i) && TreesKept(i, fs.trees) && StateReplaced(o, i, fs.regs) && MarkersKept(i, fs.regs)
      && Authorised(o, i, PlannedFile(i.markers, Finalization), PlannedFile(i.markers, Rebuild))
  {
    AcceptedIsBorneOut(o, mode, i, fs);
    if i.mode == mode && i.phase.ReceiptDurable? {
      IntentMeans(o, i, fs);
      AuthorisedHasKinds(o, i);
      if MarkersKept(i, fs.regs) {
        MarkersMean(o, i, fs.regs);
      }
      if i.state.Some? {
        StateMeans(o, i, fs.regs);
      }
      TreesMean(i, fs.trees);
    }
    hide Judge, IntentValid, MarkersAuthorize, StateArtifactsFit, TreesAsReceived, RawUnchanged;
    hide ProofFits, TreesKept, MarkersKept, Authorised, PlannedFile, HasTheKinds;
  }

  lemma TreesMean(i: Intent, t: Trees)
    ensures TreesAsReceived(i, t) <==> TreesKept(i, t)
  {
  }

  /** The markers a mode asks for. */
  predicate HasTheKinds(i: Intent) {
    && (i.mode.Rollback? || i.mode.CommitVerified? ==> HasKind(i.markers, Rebuild))
    && (i.mode.AdoptFinalization? ==> HasKind(i.markers, Finalization) && !HasKind(i.markers, Rebuild))
    && (i.archiveNamed ==> HasKind(i.markers, Rebuild))
  }

  lemma IntentMeans(o: Oracle, i: Intent, fs: Namespace)
    requires i.phase.ReceiptDurable?
    ensures IntentValid(o, i.mode, i, fs) && RawUnchanged(o, i) <==>
      ProofFits(o, i) && MarkersKept(i, fs.regs) && HasTheKinds(i) && i.state.Some?
  {
    KeptIsEvidence(i, fs.regs);
    hide MarkersKept, MarkerEvidence, HasKind;
  }

  lemma KeptIsEvidence(i: Intent, r: Regs)
    ensures MarkersKept(i, r) <==>
      && |i.markers| <= 2
      && (forall j, k :: 0 <= j < k < |i.markers| ==> i.markers[j].kind != i.markers[k].kind)
      && (forall j :: 0 <= j < |i.markers| ==> MarkerEvidence(r, i.markers[j]))
  {
  }

  lemma {:induction false} PlannedIsThere(markers: seq<MarkerPlan>, k: Kind)
    ensures PlannedFile(markers, k).Some? <==> HasKind(markers, k)
    ensures PlannedFile(markers, k).Some? ==>
      exists j :: 0 <= j < |markers| && markers[j].kind == k && PlannedFile(markers, k) == Some(markers[j].file)
  {
    if markers != [] {
      PlannedIsThere(markers[1..], k);
      if HasKind(markers, k) && markers[0].kind != k {
        var j :| 0 <= j < |markers| && markers[j].kind == k;
        assert markers[1..][j - 1].kind == k;
      }
      if PlannedFile(markers[1..], k).Some? && markers[0].kind != k {
        var j :| 0 <= j < |markers[1..]| && markers[1..][j].kind == k
                 && PlannedFile(markers[1..], k) == Some(markers[1..][j].file);
        assert markers[j + 1] == markers[1..][j];
      }
    }
  }

  lemma AuthorisedHasKinds(o: Oracle, i: Intent)
    ensures Authorised(o, i, PlannedFile(i.markers, Finalization), PlannedFile(i.markers, Rebuild)) ==> HasTheKinds(i)
  {
    PlannedIsThere(i.markers, Finalization);
    PlannedIsThere(i.markers, Rebuild);
    hide PlannedFile, HasKind;
  }

  lemma MarkersMean(o: Oracle, i: Intent, r: Regs)
    requires MarkersKept(i, r)
    ensures MarkersAuthorize(o, i, r) <==>
      Authorised(o, i, PlannedFile(i.markers, Finalization), PlannedFile(i.markers, Rebuild))
  {
    EvidenceIsPlanned(i, r, Finalization);
    EvidenceIsPlanned(i, r, Rebuild);
    hide PlannedFile, HasKind, MarkersKept, Evidence;
  }

  lemma EvidenceIsPlanned(i: Intent, r: Regs, k: Kind)
    requires MarkersKept(i, r)
    ensures Evidence(i, r, k) == PlannedFile(i.markers, k)
  {
    PlannedIsThere(i.markers, k);
    hide PlannedFile;
  }

  lemma StateMeans(o: Oracle, i: Intent, r: Regs)
    requires i.phase.ReceiptDurable? && i.state.Some?
    ensures StateArtifactsFit(o, i, r) <==> StateReplaced(o, i, r)
  {
    hide Rewrite, Rewritable;
  }

  /** A receipt and the names it is judged by. */
  datatype Candidate = Candidate(intent: Intent, place: Namespace)

  /** The task as an earlier receipt sees it: output, state file and markers as they are now,
      and what is kept under its own names. */
  function ViewOf(fs: Namespace, p: Past): Candidate {
    Candidate(p.intent,
      Namespace(Trees(fs.trees.output, p.archive, p.quarantine),
                Regs(fs.regs.state, p.backup, p.replacement, fs.regs.finalization, fs.regs.rebuild,
                     p.finalizationAudit, p.rebuildAudit, None, None),
                Earlier([], [])))
  }

  function Views(fs: Namespace, ps: seq<Past>): (r: seq<Candidate>)
    ensures |r| == |ps| && forall k :: 0 <= k < |ps| ==> r[k] == ViewOf(fs, ps[k])
  {
    seq(|ps|, k requires 0 <= k < |ps| => ViewOf(fs, ps[k]))
  }

  function OwnReceipt(fs: Namespace): seq<Candidate> {
    if fs.regs.receipt.Some? && fs.regs.receipt.value.body.IntentRecord?
    then [Candidate(fs.regs.receipt.value.body.intent, fs)] else []
  }

  /** Every receipt of the task, in the order of the scan. */
  function Candidates(fs: Namespace): seq<Candidate> {
    Views(fs, fs.earlier.sooner) + OwnReceipt(fs) + Views(fs, fs.earlier.later)
  }

  function VerdictOn(o: Oracle, mode: Mode, c: Candidate): Verdict {
    Judge(o, mode, c.intent, c.place)
  }

  predicate AllSkipped(o: Oracle, mode: Mode, list: seq<Candidate>) {
    forall k :: 0 <= k < |list| ==> VerdictOn(o, mode, list[k]).Skip?
  }

  /** The first receipt that is not skipped. */
  predicate Decides(o: Oracle, mode: Mode, list: seq<Candidate>, k: nat) {
    k < |list| && !VerdictOn(o, mode, list[k]).Skip? && AllSkipped(o, mode, list[..k])
  }

  predicate HasMarkers(r: Regs) {
    r.finalization.Some? || r.rebuild.Some?
  }

  /** The checks on one receipt, in their order. It is returned exactly when everything it
      names bears it out, and it raises exactly when today's checks reject it, or when its
      trees and files are in place and the replacement does not follow from the original. */
  method JudgeReceipt(o: Oracle, mode: Mode, c: Candidate) returns (v: Verdict)
    ensures v == VerdictOn(o, mode, c)
    ensures v.Accept? <==> BorneOut(o, mode, c.intent, c.place)
    ensures v.Accept? <==>
      && c.intent.mode == mode && c.intent.phase.ReceiptDurable?
      && ProofFits(o, c.intent) && TreesKept(c.intent, c.place.trees)
      && StateReplaced(o, c.intent, c.place.regs) && MarkersKept(c.intent, c.place.regs)
      && Authorised(o, c.intent, PlannedFile(c.intent.markers, Finalization), PlannedFile(c.intent.markers, Rebuild))
    ensures v.Raise? <==> Rejected(o, mode, c.intent, c.place) || Corrupted(o, mode, c.intent, c.place)
  {
    AcceptedIsBorneOut(o, mode, c.intent, c.place);
    AcceptedMeans(o, mode, c.intent, c.place);
    hide ProofFits, TreesKept, StateReplaced, MarkersKept, Authorised, PlannedFile;
    hide Checked, StateDerived, StatePositioned, StateLocated, MarkersAuthorize, TreesAsReceived;
    var i, fs := c.intent, c.place;
    if i.mode != mode || !i.phase.ReceiptDurable? { return Skip; }
    if !IntentValid(o, mode, i, fs) { return Raise(InvalidIntent); }
    if !RawUnchanged(o, i) { return Skip; }
    if !MarkersAuthorize(o, i, fs.regs) { return Raise(MarkerMismatch); }
    if !TreesAsReceived(i, fs.trees) { return Skip; }
    var plan := i.state.value;
    if !StateLocated(i, plan, fs.regs) { return Skip; }
    if !StateDerived(o, i, plan, fs.regs) { return Raise(StateConflict); }
    if !StatePositioned(i, plan, fs.regs) { return Skip; }
    return Accept;
  }

  /** `_existing_receipt`: while a marker is there no receipt is looked at; otherwise the first
      receipt that is not skipped decides. */
  method ExistingReceipt(site: Site, o: Oracle, mode: Mode) returns (out: Outcome<Reason>, r: Option<Intent>)
    ensures !out.Killed? && (r.Some? ==> out.Done?)
    ensures HasMarkers(site.fs.regs) || AllSkipped(o, mode, Candidates(site.fs)) ==> out.Done? && r.None?
    ensures !HasMarkers(site.fs.regs) ==> forall k: nat :: Decides(o, mode, Candidates(site.fs), k) ==>
      var c := Candidates(site.fs)[k];
      if VerdictOn(o, mode, c).Accept? then r == Some(c.intent) else out.Refused? && r.None?
  {
    if site.fs.regs.finalization.Some? || site.fs.regs.rebuild.Some? { return Done, None; }
    var list := Candidates(site.fs);
    hide Judge, Candidates;
    for k := 0 to |list|
      invariant AllSkipped(o, mode, list[..k])
    {
      var v := JudgeReceipt(o, mode, list[k]);
      if !v.Skip? {
        DecidesOnce(o, mode, list, k);
        match v {
          case Accept => return Done, Some(list[k].intent);
          case Raise(e) => return Refused(e), None;
        }
      }
      assert list[..k + 1] == list[..k] + [list[k]];
    }
    assert list[..|list|] == list;
    NoneDecides(o, mode, list);
    return Done, None;
  }

  lemma DecidesOnce(o: Oracle, mode: Mode, list: seq<Candidate>, k: nat)
    requires Decides(o, mode, list, k)
    ensures !AllSkipped(o, mode, list) && forall m: nat :: Decides(o, mode, list, m) ==> m == k
  {
    hide VerdictOn;
    SkippedBefore(o, mode, list, k);
    forall m: nat | Decides(o, mode, list, m)
      ensures m == k
    {
      SkippedBefore(o, mode, list, m);
    }
  }

  lemma SkippedBefore(o: Oracle, mode: Mode, list: seq<Candidate>, n: nat)
    requires n <= |list| && AllSkipped(o, mode, list[..n])
    ensures forall j :: 0 <= j < n ==> VerdictOn(o, mode, list[j]).Skip?
  {
    forall j | 0 <= j < n
      ensures VerdictOn(o, mode, list[j]).Skip?
    {
      assert list[..n][j] == list[j];
    }
  }

  lemma NoneDecides(o: Oracle, mode: Mode, list: seq<Candidate>)
    requires AllSkipped(o, mode, list)
    ensures forall m: nat :: !Decides(o, mode, list, m)
  {
    hide VerdictOn;
  }

  /** A scan that does not skip everything is decided by some receipt. */
  lemma {:induction false} SomeDecides(o: Oracle, mode: Mode, list: seq<Candidate>) returns (k: nat)
    requires !AllSkipped(o, mode, list)
    ensures Decides(o, mode, list, k)
    decreases |list|
  {
    hide VerdictOn;
    var n := |list| - 1;
    if AllSkipped(o, mode, list[..n]) {
      assert list == list[..n] + [list[n]];
      k := n;
    } else {
      k := SomeDecides(o, mode, list[..n]);
      assert list[..n][..k] == list[..k];
    }
  }

  lemma ReceiptStands(o: Oracle, s: Start, fs: Namespace)
    requires ValidOracle(o) && Published(o, s, fs)
    ensures Judge(o, s.mode, fs.regs.receipt.value.body.intent, fs).Accept?
  {
    var i := fs.regs.receipt.value.body.intent;
    EverythingPasses(o, s, i, fs);
    AcceptedIsBorneOut(o, s.mode, i, fs);
    hide Checked, Judge, Rewrite, Rewritable, MarkerPlans, Proof;
  }

  // ------------------------------------------------------------------ earlier receipts

  /** An earlier receipt that the validators of today reject, whatever the task looks like
      now: it makes every scan for its mode raise. */
  predicate Spoilt(o: Oracle, mode: Mode, p: Past) {
    var nothing := Regs(None, None, None, None, None, None, None, None, None);
    var c := ViewOf(Namespace(Trees(None, None, None), nothing, Earlier([], [])), p);
    Rejected(o, mode, c.intent, c.place)
  }

  /** Once a recovery is published its state file is not the one an earlier receipt left, so
      no earlier receipt is returned; one raises exactly when it is spoilt. */
  lemma EarlierIsSkipped(o: Oracle, s: Start, fs: Namespace, mode: Mode, p: Past)
    requires Published(o, s, fs) && p in fs.earlier.All()
    ensures var v := VerdictOn(o, mode, ViewOf(fs, p)); !v.Accept? && (v.Raise? <==> Spoilt(o, mode, p))
  {
    var k :| 0 <= k < |fs.earlier.All()| && fs.earlier.All()[k] == p;
    assert !NamesState(p.intent, fs.regs.state.value.id);
    assert !HasMarkers(fs.regs);
    hide Fits, ValidStart, IsNamed, MarkersAllow, Rewrite, Rewritable;
    SpoiltAnyway(o, mode, p, fs);
  }

  lemma SpoiltAnyway(o: Oracle, mode: Mode, p: Past, fs: Namespace)
    requires !HasMarkers(fs.regs) && fs.regs.state.Some? && !NamesState(p.intent, fs.regs.state.value.id)
    ensures var v := VerdictOn(o, mode, ViewOf(fs, p)); !v.Accept? && (v.Raise? <==> Spoilt(o, mode, p))
  {
    hide MarkersAllow, StateDerived, StatePositioned, TreesAsReceived;
  }

  /** After a recovery no mode is admitted again: the markers are gone, and unless the task
      was restarted its output passes. */
  lemma NothingElseIsAdmitted(o: Oracle, s: Start, fs: Namespace, mode: Mode)
    requires Published(o, s, fs)
    ensures !Admits(o, mode, fs.trees, fs.regs.finalization, fs.regs.rebuild)
  {
    hide StateFits, MarkerPlans, Rewrite, Rewritable;
  }

  // ------------------------------------------------------------------ one call

  /** The start a call would record if it created the intent now. */
  function StartHere(mode: Mode, now: string, fs: Namespace): Start {
    Start(mode, now, fs.trees, fs.regs.finalization, fs.regs.rebuild, fs.regs.state, fs.earlier)
  }

  /** What a task can look like to a call: untouched, under recovery, or recovered. */
  ghost predicate Known(o: Oracle, s: Start, fs: Namespace) {
    Idle(fs, s) || Active(o, s, fs) || Published(o, s, fs)
  }

  lemma NewIntentFits(o: Oracle, s: Start, fs: Namespace, id: nat)
    requires Idle(fs, s) && Admits(o, s.mode, s.trees, s.finalization, s.rebuild)
    ensures ValidStart(o, s)
    ensures var i := NewIntent(o, s.mode, s.created, s.trees, s.finalization, s.rebuild);
      var after := fs.(regs := fs.regs.(intent := Some(Reg(id, IntentRecord(i)))));
      Fits(o, s, i, after) && Active(o, s, after)
  {
    hide Admits, MarkerPlans, Proof;
  }

  /** The scan of an untouched task's receipts ends the call before a recovery is started:
      no marker is there and some earlier receipt is not skipped. */
  predicate Diverted(o: Oracle, mode: Mode, fs: Namespace) {
    !HasMarkers(fs.regs) && !AllSkipped(o, mode, Candidates(fs))
  }

  /** A receipt that the task bears out, with none before it that is not skipped. */
  predicate Returns(o: Oracle, mode: Mode, fs: Namespace, i: Intent) {
    exists k :: 0 <= k < |Candidates(fs)| && Decides(o, mode, Candidates(fs), k)
      && Candidates(fs)[k].intent == i && VerdictOn(o, mode, Candidates(fs)[k]).Accept?
  }

  /** No receipt that is read before the task's own is spoilt for its mode. */
  predicate Unspoilt(o: Oracle, mode: Mode, e: Earlier) {
    forall k :: 0 <= k < |e.sooner| ==> !Spoilt(o, mode, e.sooner[k])
  }

  /** What the scan makes of each receipt of a recovered task. */
  lemma PublishedCandidate(o: Oracle, s: Start, fs: Namespace, mode: Mode, k: nat)
    requires ValidOracle(o) && Published(o, s, fs) && k < |Candidates(fs)|
    ensures var v := VerdictOn(o, mode, Candidates(fs)[k]);
      var n := |fs.earlier.sooner|;
      && (k == n ==> Candidates(fs)[k].intent == fs.regs.receipt.value.body.intent)
      && (k == n ==> if mode == s.mode then v.Accept? else v.Skip?)
      && (k != n ==> !v.Accept?)
      && (k < n ==> (v.Raise? <==> Spoilt(o, mode, fs.earlier.sooner[k])))
  {
    var e, n := fs.earlier, |fs.earlier.sooner|;
    if k == n {
      ReceiptStands(o, s, fs);
      assert fs.regs.receipt.value.body.intent.mode == s.mode;
    } else {
      var p := if k < n then e.sooner[k] else e.later[k - n - 1];
      assert p == e.All()[if k < n then k else k - 1];
      assert Candidates(fs)[k] == ViewOf(fs, p);
      hide Candidates, ViewOf, Spoilt, VerdictOn;
      EarlierIsSkipped(o, s, fs, mode, p);
    }
  }

  /** What the whole scan does on a recovered task. */
  lemma PublishedScan(o: Oracle, s: Start, fs: Namespace, mode: Mode)
    requires ValidOracle(o) && Published(o, s, fs)
    ensures !HasMarkers(fs.regs)
    ensures var list, n := Candidates(fs), |fs.earlier.sooner|;
      && n < |list|
      && list[n].intent == fs.regs.receipt.value.body.intent
      && (mode == s.mode ==> VerdictOn(o, mode, list[n]).Accept?)
      && (forall k :: 0 <= k < |list| && VerdictOn(o, mode, list[k]).Accept? ==> k == n && mode == s.mode)
      && (mode == s.mode && Unspoilt(o, mode, fs.earlier) ==> Decides(o, mode, list, n))
      && (mode == s.mode && !Unspoilt(o, mode, fs.earlier) ==> exists k: nat :: k < n && Decides(o, mode, list, k))
  {
    var list, n := Candidates(fs), |fs.earlier.sooner|;
    assert !HasMarkers(fs.regs) && n < |list|;
    forall k: nat | k < |list|
      ensures VerdictOn(o, mode, list[k]).Accept? ==> k == n && mode == s.mode
      ensures k == n && mode == s.mode ==> VerdictOn(o, mode, list[k]).Accept?
      ensures k < n ==> (VerdictOn(o, mode, list[k]).Skip? <==> !Spoilt(o, mode, fs.earlier.sooner[k]))
    {
      PublishedCandidate(o, s, fs, mode, k);
    }
    PublishedCandidate(o, s, fs, mode, n);
    hide Published, VerdictOn, Spoilt, Candidates;
    if mode == s.mode && !Unspoilt(o, mode, fs.earlier) {
      var k :| 0 <= k < n && Spoilt(o, mode, fs.earlier.sooner[k]);
      assert !VerdictOn(o, mode, list[..n][k]).Skip?;
      var first := FirstOfThem(o, mode, list, n);
      assert Decides(o, mode, list, first);
    }
  }

  lemma FirstOfThem(o: Oracle, mode: Mode, list: seq<Candidate>, n: nat) returns (k: nat)
    requires n <= |list| && !AllSkipped(o, mode, list[..n])
    ensures k < n && Decides(o, mode, list, k)
  {
    hide VerdictOn;
    k := SomeDecides(o, mode, list[..n]);
    assert list[..n][..k] == list[..k] && list[..n][k] == list[k];
  }

  /** `recover`. An untouched task with no marker first has its earlier receipts read, which
      may return one of them or raise. Otherwise the call takes the task under recovery if the
      markers and trees entitle it to, and refuses without a trace if they do not; a recovery
      under way is resumed by its own mode and left alone by any other; a recovered task is left
      exactly as it is, and its own mode returns the receipt, if and only if no receipt that is
      read before it is spoilt. A call that is not killed reaches the receipt of its recovery if
      and only if the archive that the rebuild journal names was there and the state file can be
      rewritten. */
  method Recover(site: Site, o: Oracle, mode: Mode, now: string, ghost s: Start)
    returns (out: Outcome<Reason>, r: Option<Intent>)
    requires ValidOracle(o) && site.FreshIds() && Known(o, s, site.fs)
    requires Idle(site.fs, s) ==> s == StartHere(mode, now, site.fs)
    modifies site
    ensures site.FreshIds() && Known(o, s, site.fs)
    ensures !Idle(old(site.fs), s) ==> !Idle(site.fs, s)
    ensures Idle(old(site.fs), s) && Diverted(o, mode, old(site.fs)) ==>
      site.fs == old(site.fs) && !out.Killed? && (out.Done? ==> r.Some? && Returns(o, mode, site.fs, r.value))
    ensures out.Done? && !(Idle(old(site.fs), s) && Diverted(o, mode, old(site.fs))) ==>
      Published(o, s, site.fs) && s.mode == mode && r.Some? && site.fs.regs.receipt.value.body == IntentRecord(r.value)
    ensures mode != s.mode || Published(o, s, old(site.fs)) ==> site.fs == old(site.fs)
    ensures Published(o, s, old(site.fs)) ==>
      (out.Done? <==> mode == s.mode && Unspoilt(o, mode, site.fs.earlier)) && !out.Killed?
    ensures Idle(old(site.fs), s) && site.fs != old(site.fs) ==>
      Entitled(o, mode, s.trees, s.finalization, s.rebuild)
    ensures Idle(old(site.fs), s) && !Diverted(o, mode, old(site.fs))
            && !Entitled(o, mode, s.trees, s.finalization, s.rebuild) ==>
      out.Refused?
    ensures Active(o, s, old(site.fs)) && mode != s.mode ==> out.Refused?
    ensures old(site.life).Immortal? ==> !out.Killed?
    ensures old(site.life).Immortal? && mode == s.mode && !Published(o, s, old(site.fs))
            && (Idle(old(site.fs), s) ==>
                  !Diverted(o, mode, old(site.fs)) && Entitled(o, mode, s.trees, s.finalization, s.rebuild)) ==>
      (out.Done? <==> Finishable(o, s))
  {
    r := None;
    var i;
    AdmitsTheEntitled(o, mode, s.trees, s.finalization, s.rebuild);
    hide Entitled;
    if site.fs.regs.intent.None? {
      out, r := Scan(site, o, mode, s);
      if !out.Done? || r.Some? { return; }
      var fs := site.fs;
      if !Admits(o, mode, fs.trees, fs.regs.finalization, fs.regs.rebuild) { return Refused(WrongMode), None; }
      i := NewIntent(o, mode, now, fs.trees, fs.regs.finalization, fs.regs.rebuild);
      NewIntentFits(o, s, fs, site.next);
      var alive := site.WriteIntent(i);
      if !alive { return Killed, None; }
    } else {
      i := site.fs.regs.intent.value.body.intent;
    }
    hide Admits, MarkerPlans, TreesFit, StateFits, MarkersFit, IntentFits, Rewritable, Diverted, Unspoilt, IsNamed;
    IntentPasses(o, s, i, site.fs);
    if !IntentValid(o, mode, i, site.fs) { return Refused(InvalidIntent), None; }
    out, r := Replay(site, o, s, i);
  }

  /** The part of a call before its own recovery. */
  method Scan(site: Site, o: Oracle, mode: Mode, ghost s: Start) returns (out: Outcome<Reason>, r: Option<Intent>)
    requires ValidOracle(o) && (Idle(site.fs, s) || Published(o, s, site.fs))
    ensures !out.Killed? && (r.Some? ==> out.Done?)
    ensures Idle(site.fs, s) && !Diverted(o, mode, site.fs) ==> out.Done? && r.None?
    ensures Idle(site.fs, s) && Diverted(o, mode, site.fs) && out.Done? ==>
      r.Some? && Returns(o, mode, site.fs, r.value)
    ensures Published(o, s, site.fs) ==>
      && !Admits(o, mode, site.fs.trees, site.fs.regs.finalization, site.fs.regs.rebuild)
      && (mode == s.mode && Unspoilt(o, mode, site.fs.earlier) ==>
            r.Some? && site.fs.regs.receipt.value.body == IntentRecord(r.value))
      && (!(mode == s.mode && Unspoilt(o, mode, site.fs.earlier)) ==> r.None?)
  {
    out, r := ExistingReceipt(site, o, mode);
    ghost var list := Candidates(site.fs);
    if !HasMarkers(site.fs.regs) && !AllSkipped(o, mode, list) {
      var _ := SomeDecides(o, mode, list);
    }
    if Published(o, s, site.fs) {
      PublishedScan(o, s, site.fs, mode);
      NothingElseIsAdmitted(o, s, site.fs, mode);
    }
    hide Published, Idle, Candidates, VerdictOn, Admits, Unspoilt;
  }

  // ------------------------------------------------------------------ any number of calls

  datatype Call = Call(mode: Mode, now: string, life: Life)

  /** The start a run has committed itself to: none while the task is untouched. */
  ghost predicate Committed(o: Oracle, fs: Namespace, origin: Namespace, s: Option<Start>, calls: seq<Call>) {
    if s.None? then fs == origin
    else
      && (Active(o, s.value, fs) || Published(o, s.value, fs))
      && exists k :: 0 <= k < |calls| && s.value == StartHere(calls[k].mode, calls[k].now, origin)
  }

  /** Any run of calls, in any modes, each killed anywhere or not at all: the task is
      untouched, or it belongs to the recovery that one of the calls started, whatever the
      later ones asked for. A last call of that recovery's mode that is not killed
      publishes its receipt whenever it can be finished at all. */
  method RunAll(site: Site, o: Oracle, calls: seq<Call>) returns (ghost s: Option<Start>)
    requires ValidOracle(o) && site.FreshIds() && Idle(site.fs, StartHere(Rollback, "", site.fs))
    modifies site
    ensures Committed(o, site.fs, old(site.fs), s, calls)
    ensures s.Some? && Active(o, s.value, site.fs) ==> Blockers(o, site.fs) != []
    ensures calls != [] && calls[|calls| - 1].life.Immortal? && s.Some?
            && calls[|calls| - 1].mode == s.value.mode && Finishable(o, s.value) ==>
      Published(o, s.value, site.fs)
  {
    s := None;
    ghost var origin := site.fs;
    for k := 0 to |calls|
      invariant site.FreshIds()
      invariant Committed(o, site.fs, origin, s, calls[..k])
      invariant k > 0 && calls[k - 1].life.Immortal? && s.Some?
                && calls[k - 1].mode == s.value.mode && Finishable(o, s.value) ==>
        Published(o, s.value, site.fs)
    {
      s := OneCall(site, o, calls[k], origin, s, calls[..k]);
      assert calls[..k + 1] == calls[..k] + [calls[k]];
    }
    assert calls[..|calls|] == calls;
    if s.Some? {
      BlockedUntilPublished(o, s.value, site.fs);
    }
  }

  method OneCall(site: Site, o: Oracle, call: Call,
                 ghost origin: Namespace, ghost s: Option<Start>, ghost calls: seq<Call>)
    returns (ghost t: Option<Start>)
    requires ValidOracle(o) && site.FreshIds() && Idle(origin, StartHere(Rollback, "", origin))
    requires Committed(o, site.fs, origin, s, calls)
    modifies site
    ensures site.FreshIds() && Committed(o, site.fs, origin, t, calls + [call])
    ensures s.Some? ==> t == s
    ensures call.life.Immortal? && t.Some? && call.mode == t.value.mode && Finishable(o, t.value) ==>
      Published(o, t.value, site.fs)
  {
    hide Entitled, Admits, Diverted, Finishable;
    site.life := call.life;
    ghost var start := if s.Some? then s.value else StartHere(call.mode, call.now, site.fs);
    var out, r := Recover(site, o, call.mode, call.now, start);
    t := if s.None? && site.fs == origin then None else Some(start);
    assert (calls + [call])[|calls|] == call;
    if s.Some? {
      ghost var k :| 0 <= k < |calls| && s.value == StartHere(calls[k].mode, calls[k].now, origin);
      assert (calls + [call])[k] == calls[k];
    }
  }

  /** One way to lose the task to a recovery that can never finish: a rebuild journal that
      names an archive which is not there. The intent is installed all the same. */
  lemma MissingArchiveExample()
    returns (o: Oracle, s: Start, fs: Namespace)
    ensures ValidOracle(o) && Idle(fs, s) && s == StartHere(s.mode, s.created, fs)
    ensures Admits(o, s.mode, s.trees, s.finalization, s.rebuild) && Rewritable(o, s.state)
    ensures !Finishable(o, s)
  {
    o := Plain(None, 0, Passed);
    var journal := Reg(1, MarkerRecord(Marker.Marker(Verified, true, 0)));
    var state := Reg(2, Text(Doc(map[], Canonical)));
    var regs := Regs(Some(state), None, None, None, Some(journal), None, None, None, None);
    fs := Namespace(Trees(Some(7), None, None), regs, Earlier([], []));
    s := StartHere(CommitVerified, "now", fs);
  }

  /** The other way: a state file that does not decode. */
  lemma UnwritableStateExample()
    returns (o: Oracle, s: Start, fs: Namespace)
    ensures ValidOracle(o) && Idle(fs, s) && s == StartHere(s.mode, s.created, fs)
    ensures Admits(o, s.mode, s.trees, s.finalization, s.rebuild) && ArchivePresent(s)
    ensures !Diverted(o, s.mode, fs) && !Rewritable(o, s.state) && !Finishable(o, s)
  {
    o := Plain(None, 0, Failed);
    var state := Reg(2, Text(Torn));
    var regs := Regs(Some(state), None, None, None, None, None, None, None, None);
    fs := Namespace(Trees(Some(7), None, None), regs, Earlier([], []));
    s := StartHere(QuarantineRestart, "now", fs);
  }

  /** A recovery that could be made and is never started: the receipt of an earlier restart was
      taken under another contract manifest, or one was given only then or only now; every
      scan for that mode raises. */
  lemma SpoiltReceiptExample(past: Option<nat>, today: Option<nat>)
    returns (o: Oracle, s: Start, fs: Namespace)
    requires past != today
    ensures o.binding == today && Idle(fs, s) && ValidOracle(o) && s == StartHere(s.mode, s.created, fs)
    ensures |fs.earlier.sooner| == 1 && fs.earlier.sooner[0].intent.binding == past
    ensures Admits(o, s.mode, s.trees, s.finalization, s.rebuild) && Finishable(o, s)
    ensures Diverted(o, s.mode, fs) && forall i :: !Returns(o, s.mode, fs, i)
  {
    o := Plain(today, 0, Failed);
    var before, after := Reg(1, Text(Doc(map[], Canonical))), Reg(2, Text(Doc(map[], Canonical)));
    var receipt := Restarted(past, 0, [], None, before, after);
    var regs := Regs(Some(after), None, None, None, None, None, None, None, None);
    fs := Namespace(Trees(Some(7), None, None), regs, Earlier([receipt], []));
    s := StartHere(QuarantineRestart, "now", fs);
    assert Candidates(fs) == [ViewOf(fs, receipt)];
    assert VerdictOn(o, s.mode, Candidates(fs)[0]).Raise?;
  }

  /** Raw recordings that have changed since keep a receipt from doing so: the markers it was
      taken with are not bound to today's recordings, and it is passed over all the same. */
  lemma ChangedRawExample()
    returns (o: Oracle, s: Start, fs: Namespace)
    ensures ValidOracle(o) && Idle(fs, s) && s == StartHere(s.mode, s.created, fs)
    ensures Admits(o, s.mode, s.trees, s.finalization, s.rebuild) && Finishable(o, s)
    ensures |Candidates(fs)| == 1 && !Diverted(o, s.mode, fs)
    ensures var c := Candidates(fs)[0]; IntentValid(o, s.mode, c.intent, c.place)
                                        && !MarkersAuthorize(o, c.intent, c.place.regs)
  {
    o := Plain(None, 1, Failed);
    var before, after := Reg(1, Text(Doc(map[], Canonical))), Reg(2, Text(Doc(map[], Canonical)));
    var journal := Reg(3, MarkerRecord(Marker.Marker(Verified, false, 0)));
    var past := Restarted(None, 0, [MarkerPlan(Rebuild, journal)], Some(journal), before, after);
    var regs := Regs(Some(after), None, None, None, None, None, None, None, None);
    fs := Namespace(Trees(Some(7), None, None), regs, Earlier([past], []));
    s := StartHere(QuarantineRestart, "now", fs);
    assert Candidates(fs) == [ViewOf(fs, past)];
    assert HasKind(past.intent.markers, Rebuild) by {
      assert past.intent.markers[0].kind == Rebuild;
    }
    assert VerdictOn(o, s.mode, Candidates(fs)[0]).Skip?;
  }

  /** Validators that give every tree the same answer and accept markers only where there is
      no rebuild journal without an archive. */
  function Plain(binding: Option<nat>, snapshot: nat, status: Status): Oracle {
    Oracle("cell/task", binding, true, snapshot, t => status, t => status.Passed?, t => [], {}, t => true,
           (f: Option<Reg>, r: Option<Reg>) => r.None? || NamesArchive(r), (r, d) => None, n => true)
  }

  /** The receipt of a restart. */
  function Restarted(binding: Option<nat>, snapshot: nat, markers: seq<MarkerPlan>, rebuild: Option<Reg>,
                     before: Reg, after: Reg): Past
  {
    var receipt := Intent.Intent(
      QuarantineRestart, ReceiptDurable, "then", false, Some(3), None, markers, None, binding, snapshot,
      Validation(Failed, if binding.None? then NoContract else Mismatch, 3, [], true),
      Some(StatePlan(before, after)), []);
    Past(receipt, None, Some(3), Some(before), None, None, rebuild)
  }
}
