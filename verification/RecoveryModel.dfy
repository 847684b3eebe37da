/** The recovery of one interrupted conversion: the names it works on, the intent that
    records how far it got, and the state every call leaves behind. */
module RecoveryModel {
  import opened Common
  import opened Json
  import D = StateDerivation

  /** A dataset tree, by identity. */
  type Tree = nat

  datatype Mode = Rollback | QuarantineRestart | AdoptFinalization | CommitVerified

  datatype Phase =
    | OutputQuarantinePending
    | ArchiveRestorePending
    | CandidateVerifyPending
    | StateReplacementPending
    | StateBackupPending
    | StateInstallPending
    | MarkerAuditPending
    | ReceiptPending
    | ReceiptDurable

  datatype Kind = Finalization | Rebuild

  datatype MarkerPhase = Armed | Prepared | Verified | OtherPhase

  /** A converter's marker; only a rebuild journal may name an archive. */
  datatype Marker = Marker(phase: MarkerPhase, namesArchive: bool, detail: nat)

  /** What a regular file holds, and its identity. */
  datatype Body = Text(file: Json.File) | MarkerRecord(marker: Marker) | IntentRecord(intent: Intent)

  datatype Reg = Reg(id: nat, body: Body)

  datatype Status = Passed | Failed | Unknown

  /** `Absent` is the field missing from an intent written by an older version. */
  datatype ContractProof = Absent | NoContract | Matches | Mismatch

  datatype Validation = Validation(status: Status, contract: ContractProof, tree: Tree,
                                   durable: seq<string>, rawSubset: bool)

  datatype MarkerPlan = MarkerPlan(kind: Kind, file: Reg)

  datatype StatePlan = StatePlan(original: Reg, replacement: Reg)

  datatype Action = OutputQuarantined | ArchiveRestored | StateBackedUp | StateInstalled | MarkersAudited

  datatype Intent = Intent(
    mode: Mode, phase: Phase, created: string,
    archiveNamed: bool, output: Option<Tree>, archive: Option<Tree>,
    markers: seq<MarkerPlan>, adoption: Option<nat>,
    binding: Option<nat>, snapshot: nat, validation: Validation,
    state: Option<StatePlan>, receipts: seq<Action>)

  /** What the validators say, for as long as one recovery lasts: they depend on the tree
      alone. `binding` is what an intent records of the contract manifest, if one is given,
      its path, bytes and contract together; `listed` says that the manifest lists exactly the
      raw recordings. `snapshot` is what an intent records of these recordings. `bound` is the
      agreement of the markers with each other and with the raw recordings, `adoption` the
      proof of a compatible adoption, and `kept` that the file with it is as it was. */
  datatype Oracle = Oracle(
    task: string, binding: Option<nat>, listed: bool, snapshot: nat,
    base: Tree -> Status, matches: Tree -> bool, serials: Tree -> seq<string>, raw: set<string>,
    quick: Tree -> bool,
    bound: (Option<Reg>, Option<Reg>) -> bool,
    adoption: (Reg, seq<string>) -> Option<nat>,
    kept: nat -> bool)

  ghost predicate ValidOracle(o: Oracle) {
    && (forall t: Tree :: Ascending(o.serials(t)))
    && (forall r: Reg, d: seq<string> :: o.adoption(r, d).Some? ==> o.kept(o.adoption(r, d).value))
  }

  /** `_contract_binding` raises when a manifest is given that does not list the raw recordings. */
  predicate Bindable(o: Oracle) {
    o.binding.Some? ==> o.listed
  }

  // ------------------------------------------------------------------ the namespace

  datatype Dir = Output | Archive | Quarantine

  datatype Trees = Trees(output: Option<Tree>, archive: Option<Tree>, quarantine: Option<Tree>) {
    function Get(d: Dir): Option<Tree> {
      match d case Output => output case Archive => archive case Quarantine => quarantine
    }

    function Set(d: Dir, t: Option<Tree>): Trees {
      match d
      case Output => this.(output := t)
      case Archive => this.(archive := t)
      case Quarantine => this.(quarantine := t)
    }

    function Rename(source: Dir, destination: Dir): Trees {
      Set(destination, Get(source)).Set(source, None)
    }
  }

  datatype Name =
    | StateFile | StateBackup | StateReplacement
    | Current(kind: Kind) | Audit(kind: Kind)
    | IntentFile | ReceiptFile

  datatype Regs = Regs(
    state: Option<Reg>, backup: Option<Reg>, replacement: Option<Reg>,
    finalization: Option<Reg>, rebuild: Option<Reg>,
    finalizationAudit: Option<Reg>, rebuildAudit: Option<Reg>,
    intent: Option<Reg>, receipt: Option<Reg>) {

    function Get(n: Name): Option<Reg> {
      match n
      case StateFile => state
      case StateBackup => backup
      case StateReplacement => replacement
      case Current(k) => if k.Finalization? then finalization else rebuild
      case Audit(k) => if k.Finalization? then finalizationAudit else rebuildAudit
      case IntentFile => intent
      case ReceiptFile => receipt
    }

    function Set(n: Name, r: Option<Reg>): Regs {
      match n
      case StateFile => this.(state := r)
      case StateBackup => this.(backup := r)
      case StateReplacement => this.(replacement := r)
      case Current(k) => if k.Finalization? then this.(finalization := r) else this.(rebuild := r)
      case Audit(k) => if k.Finalization? then this.(finalizationAudit := r) else this.(rebuildAudit := r)
      case IntentFile => this.(intent := r)
      case ReceiptFile => this.(receipt := r)
    }

    function Rename(source: Name, destination: Name): Regs {
      Set(destination, Get(source)).Set(source, None)
    }
  }

  /** The receipt of an earlier recovery of the task, with what is kept under the names that
      recovery used. */
  datatype Past = Past(
    intent: Intent, archive: Option<Tree>, quarantine: Option<Tree>,
    backup: Option<Reg>, replacement: Option<Reg>,
    finalizationAudit: Option<Reg>, rebuildAudit: Option<Reg>)

  /** The earlier receipts in the order in which they are read: those that come sooner, by
      their names, than the receipt of the recovery at hand, and those that come later. */
  datatype Earlier = Earlier(sooner: seq<Past>, later: seq<Past>) {
    function All(): seq<Past> {
      sooner + later
    }
  }

  datatype Namespace = Namespace(trees: Trees, regs: Regs, earlier: Earlier)

  /** Whether an identity is that of a state file an earlier receipt names. */
  ghost predicate IsNamed(id: nat, e: Earlier) {
    exists k :: 0 <= k < |e.All()| && NamesState(e.All()[k].intent, id)
  }

  ghost predicate NamesState(i: Intent, id: nat) {
    i.state.Some? && (i.state.value.original.id == id || i.state.value.replacement.id == id)
  }

  // ------------------------------------------------------------------ validation

  /** `_validation_proof`: a contract mismatch overrides the validator's own verdict. */
  function ContractOf(o: Oracle, t: Tree): ContractProof {
    if o.binding.None? then NoContract else if o.matches(t) then Matches else Mismatch
  }

  function StatusOf(o: Oracle, t: Tree): Status {
    if o.binding.Some? && !o.matches(t) then Failed else o.base(t)
  }

  function Proof(o: Oracle, t: Tree): Validation {
    var durable := if StatusOf(o, t).Passed? then o.serials(t) else [];
    Validation(StatusOf(o, t), ContractOf(o, t), t, durable, Elements(durable) <= o.raw)
  }

  predicate Passes(o: Oracle, t: Tree) {
    Proof(o, t).status.Passed? && Proof(o, t).rawSubset
  }

  function MarkerPhaseOf(r: Reg): MarkerPhase {
    if r.body.MarkerRecord? then r.body.marker.phase else OtherPhase
  }

  function NamesArchive(rebuild: Option<Reg>): bool {
    rebuild.Some? && rebuild.value.body.MarkerRecord? && rebuild.value.body.marker.namesArchive
  }

  /** What the markers, wherever they are kept, authorise. */
  predicate MarkersAllow(o: Oracle, mode: Mode, finalization: Option<Reg>, rebuild: Option<Reg>,
                         adoption: Option<nat>, durable: seq<string>)
  {
    match mode
    case Rollback => rebuild.Some? && MarkerPhaseOf(rebuild.value).Prepared?
    case QuarantineRestart => true
    case AdoptFinalization => rebuild.None? && finalization.Some? && MarkerPhaseOf(finalization.value).Armed?
    case CommitVerified =>
      rebuild.Some? &&
      if MarkerPhaseOf(rebuild.value).Prepared?
      then o.adoption(rebuild.value, durable).Some? && adoption == o.adoption(rebuild.value, durable)
      else MarkerPhaseOf(rebuild.value).Verified?
  }

  /** `_validate_mode_preconditions` on a task with no intent. */
  predicate Admits(o: Oracle, mode: Mode, trees: Trees, finalization: Option<Reg>, rebuild: Option<Reg>) {
    && Bindable(o) && o.bound(finalization, rebuild)
    && trees.output.Some?
    && MarkersAllow(o, mode, finalization, rebuild, AdoptionOf(o, mode, trees, rebuild),
                    Proof(o, trees.output.value).durable)
    && match mode
       case Rollback => NamesArchive(rebuild) && trees.archive.Some? && Passes(o, trees.archive.value)
       case QuarantineRestart =>
         && Proof(o, trees.output.value).status.Failed?
         && (o.binding.Some? ==> Proof(o, trees.output.value).contract.Mismatch?)
       case _ => Passes(o, trees.output.value)
  }

  predicate InPhase(r: Option<Reg>, p: MarkerPhase) {
    r.Some? && r.value.body.MarkerRecord? && r.value.body.marker.phase == p
  }

  /** Its validation passes, it meets the contract if one is given, and all it has is raw. */
  ghost predicate IsSound(o: Oracle, t: Tree) {
    o.base(t).Passed? && (o.binding.Some? ==> o.matches(t)) && forall s :: s in o.serials(t) ==> s in o.raw
  }

  /** What entitles a call to begin a recovery, said of the journals, the trees and the contract
      themselves: a rebuild that was prepared can be rolled back to its archive, a verified one
      committed, and so can a prepared one with a proof that it was adopted; a finalization that
      was armed, with no rebuild, can be adopted; a failed output, one that does not meet its
      contract if it has one, can be set aside. */
  ghost predicate Entitled(o: Oracle, mode: Mode, trees: Trees, finalization: Option<Reg>, rebuild: Option<Reg>) {
    && o.bound(finalization, rebuild) && (o.binding.Some? ==> o.listed) && trees.output.Some?
    && var output := trees.output.value;
      match mode
      case Rollback =>
        && InPhase(rebuild, Prepared) && rebuild.value.body.marker.namesArchive
        && trees.archive.Some? && IsSound(o, trees.archive.value)
      case QuarantineRestart =>
        if o.binding.Some? then !o.matches(output) else o.base(output).Failed?
      case AdoptFinalization =>
        rebuild.None? && InPhase(finalization, Armed) && IsSound(o, output)
      case CommitVerified =>
        && IsSound(o, output)
        && (|| InPhase(rebuild, Verified)
            || (InPhase(rebuild, Prepared) && o.adoption(rebuild.value, o.serials(output)).Some?))
  }

  /** The checks before a recovery is begun let through exactly these. */
  lemma AdmitsTheEntitled(o: Oracle, mode: Mode, trees: Trees, finalization: Option<Reg>, rebuild: Option<Reg>)
    ensures Admits(o, mode, trees, finalization, rebuild) <==> Entitled(o, mode, trees, finalization, rebuild)
  {
    if trees.output.Some? {
      SoundPasses(o, trees.output.value);
    }
    if trees.archive.Some? {
      SoundPasses(o, trees.archive.value);
    }
    hide Elements;
  }

  lemma SoundPasses(o: Oracle, t: Tree)
    ensures Passes(o, t) <==> IsSound(o, t)
    ensures IsSound(o, t) ==> Proof(o, t).durable == o.serials(t)
  {
  }

  function AdoptionOf(o: Oracle, mode: Mode, trees: Trees, rebuild: Option<Reg>): Option<nat> {
    if mode.CommitVerified? && rebuild.Some? && trees.output.Some? && MarkerPhaseOf(rebuild.value).Prepared?
    then o.adoption(rebuild.value, Proof(o, trees.output.value).durable)
    else None
  }

  function MarkerPlans(finalization: Option<Reg>, rebuild: Option<Reg>): seq<MarkerPlan> {
    (if finalization.Some? then [MarkerPlan(Finalization, finalization.value)] else []) +
    (if rebuild.Some? then [MarkerPlan(Rebuild, rebuild.value)] else [])
  }

  predicate Quarantines(mode: Mode) {
    mode.Rollback? || mode.QuarantineRestart?
  }

  function FirstPhase(mode: Mode): Phase {
    if Quarantines(mode) then OutputQuarantinePending else CandidateVerifyPending
  }

  /** `_create_intent`. */
  function NewIntent(o: Oracle, mode: Mode, created: string, trees: Trees,
                     finalization: Option<Reg>, rebuild: Option<Reg>): Intent
    requires Admits(o, mode, trees, finalization, rebuild)
  {
    var named := NamesArchive(rebuild);
    var archive := if named then trees.archive else None;
    var output := trees.output.value;
    Intent(mode, FirstPhase(mode), created, named, Some(output), archive,
           MarkerPlans(finalization, rebuild), AdoptionOf(o, mode, trees, rebuild), o.binding, o.snapshot,
           if mode.Rollback? then Proof(o, archive.value) else Proof(o, output), None, [])
  }

  /** What a new intent records: every marker that is there and no other, the output, the archive
      if and only if the rebuild journal names it, an adoption for a prepared rebuild alone, and the
      proof of the tree that the task is left with. */
  lemma NewIntentRecords(o: Oracle, mode: Mode, created: string, trees: Trees,
                         finalization: Option<Reg>, rebuild: Option<Reg>)
    requires Admits(o, mode, trees, finalization, rebuild)
    ensures var i := NewIntent(o, mode, created, trees, finalization, rebuild);
      && i.mode == mode && i.created == created && i.output == trees.output && i.state.None? && i.receipts == []
      && (forall p :: p in i.markers <==>
            || (p.kind.Finalization? && finalization == Some(p.file))
            || (p.kind.Rebuild? && rebuild == Some(p.file)))
      && (i.archiveNamed <==>
            rebuild.Some? && rebuild.value.body.MarkerRecord? && rebuild.value.body.marker.namesArchive)
      && i.archive == (if i.archiveNamed then trees.archive else None)
      && (i.adoption.Some? <==> mode.CommitVerified? && InPhase(rebuild, Prepared))
      && (mode.Rollback? ==> i.validation.durable == o.serials(i.archive.value))
      && (mode.CommitVerified? || mode.AdoptFinalization? ==> i.validation.durable == o.serials(i.output.value))
      && (mode.QuarantineRestart? ==> i.validation.durable == [])
  {
  }

  // ------------------------------------------------------------------ what a call can find

  /** The task as it was when its intent was created: both trees, both markers, the state
      file and the earlier receipts, with the mode that was asked for. */
  datatype Start = Start(mode: Mode, created: string, trees: Trees, finalization: Option<Reg>,
                         rebuild: Option<Reg>, state: Option<Reg>, earlier: Earlier)

  /** A task that no recovery is at work on: the names of the next one are not in use yet. */
  ghost predicate Idle(fs: Namespace, s: Start) {
    && fs.earlier == s.earlier
    && fs.trees == s.trees && fs.trees.quarantine.None?
    && (fs.trees.archive.Some? ==> NamesArchive(s.rebuild) && fs.trees.archive != fs.trees.output)
    && fs.regs == Regs(s.state, None, None, s.finalization, s.rebuild, None, None, None, None)
  }

  ghost predicate ValidStart(o: Oracle, s: Start) {
    && s.trees.quarantine.None?
    && (s.trees.archive.Some? ==> NamesArchive(s.rebuild) && s.trees.archive != s.trees.output)
    && Admits(o, s.mode, s.trees, s.finalization, s.rebuild)
  }

  function Rank(p: Phase): nat {
    match p
    case OutputQuarantinePending => 8
    case ArchiveRestorePending => 7
    case CandidateVerifyPending => 6
    case StateReplacementPending => 5
    case StateBackupPending => 4
    case StateInstallPending => 3
    case MarkerAuditPending => 2
    case ReceiptPending => 1
    case ReceiptDurable => 0
  }

  /** The serials a replacement of the state entry is derived from. */
  function Durable(o: Oracle, s: Start): seq<string>
    requires ValidStart(o, s)
  {
    NewIntent(o, s.mode, s.created, s.trees, s.finalization, s.rebuild).validation.durable
  }

  function StateOf(r: Option<Reg>): Option<State> {
    if r.Some? && r.value.body.Text? && r.value.body.file.Doc? then Some(r.value.body.file.state) else None
  }

  /** The state file can be rewritten: it exists, it is an object, and the task's entry reads. */
  predicate Rewritable(o: Oracle, state: Option<Reg>) {
    StateOf(state).Some? && D.RecoveryDerivable(StateOf(state).value, o.task)
  }

  function Rewrite(o: Oracle, state: Option<Reg>, durable: seq<string>, created: string): Body
    requires Rewritable(o, state)
  {
    Text(Doc(D.RecoveryReplacement(StateOf(state).value, o.task, durable, created), Canonical))
  }

  ghost predicate IsReplacement(o: Oracle, s: Start, r: Reg)
    requires ValidStart(o, s)
  {
    && Rewritable(o, s.state) && r.id != s.state.value.id && !IsNamed(r.id, s.earlier)
    && r.body == Rewrite(o, s.state, Durable(o, s), s.created)
  }

  /** The receipts an intent holds when it enters a phase. */
  function ReceiptsAt(mode: Mode, p: Phase): seq<Action> {
    if Rank(p) <= 1 then TreeReceipts(mode) + [StateBackedUp, StateInstalled, MarkersAudited]
    else if p.MarkerAuditPending? then TreeReceipts(mode) + [StateBackedUp, StateInstalled]
    else if p.StateInstallPending? then TreeReceipts(mode) + [StateBackedUp]
    else if p.OutputQuarantinePending? then []
    else if p.ArchiveRestorePending? then [OutputQuarantined]
    else TreeReceipts(mode)
  }

  function TreeReceipts(mode: Mode): seq<Action> {
    match mode
    case Rollback => [OutputQuarantined, ArchiveRestored]
    case QuarantineRestart => [OutputQuarantined]
    case _ => []
  }

  /** Where the output and the archive are in each phase. */
  ghost predicate TreesFit(s: Start, p: Phase, t: Trees) {
    var start := s.trees;
    var quarantined := t.quarantine == start.output && t.output.None? && t.archive == start.archive;
    var restored := t.quarantine == start.output && t.output == start.archive && t.archive.None?;
    match s.mode
    case Rollback =>
      if p.OutputQuarantinePending? then t == start || quarantined
      else if p.ArchiveRestorePending? then quarantined || restored
      else restored
    case QuarantineRestart =>
      quarantined || (p.OutputQuarantinePending? && t == start)
    case _ => t == start
  }

  /** Where the original state file and its replacement are in each phase. */
  ghost predicate StateFits(o: Oracle, s: Start, p: Phase, plan: Option<StatePlan>, r: Regs)
    requires ValidStart(o, s)
  {
    if Rank(p) > 5 then plan.None? && r.state == s.state && r.backup.None? && r.replacement.None?
    else if p.StateReplacementPending? then
      && plan.None? && r.state == s.state && r.backup.None?
      && (r.replacement.Some? ==> IsReplacement(o, s, r.replacement.value))
    else
      && plan.Some? && s.state == Some(plan.value.original) && IsReplacement(o, s, plan.value.replacement)
      && (if p.StateBackupPending? then
            && r.replacement == Some(plan.value.replacement)
            && ((r.state == s.state && r.backup.None?) || (r.state.None? && r.backup == s.state))
          else if p.StateInstallPending? then
            && r.backup == s.state
            && (|| (r.state.None? && r.replacement == Some(plan.value.replacement))
                || (r.state == Some(plan.value.replacement) && r.replacement.None?))
          else
            && r.backup == s.state && r.state == Some(plan.value.replacement) && r.replacement.None?)
  }

  /** One marker is either under its own name or under its audit name. */
  ghost predicate MarkerFits(p: Phase, start: Option<Reg>, marker: Option<Reg>, audit: Option<Reg>) {
    || (Rank(p) >= 2 && marker == start && audit.None?)
    || (Rank(p) <= 2 && marker.None? && audit == start)
  }

  ghost predicate MarkersFit(s: Start, p: Phase, r: Regs) {
    && MarkerFits(p, s.finalization, r.finalization, r.finalizationAudit)
    && MarkerFits(p, s.rebuild, r.rebuild, r.rebuildAudit)
  }

  /** The intent a start gives, moved on to a phase. An older version may have left the
      contract proof out, as long as nothing has been moved. */
  ghost predicate IntentFits(o: Oracle, s: Start, i: Intent, t: Trees)
    requires ValidStart(o, s)
  {
    var first := NewIntent(o, s.mode, s.created, s.trees, s.finalization, s.rebuild);
    && PhaseFits(s.mode, i.phase)
    && i == first.(phase := i.phase, validation := i.validation, state := i.state,
                   receipts := ReceiptsAt(s.mode, i.phase))
    && (|| i.validation == first.validation
        || (&& s.mode.QuarantineRestart? && o.binding.Some? && i.phase.OutputQuarantinePending? && t == s.trees
            && i.validation == first.validation.(contract := Absent)))
  }

  predicate PhaseFits(mode: Mode, p: Phase) {
    match mode
    case Rollback => true
    case QuarantineRestart => !p.ArchiveRestorePending? && !p.CandidateVerifyPending?
    case _ => !p.OutputQuarantinePending? && !p.ArchiveRestorePending?
  }

  ghost predicate Fits(o: Oracle, s: Start, i: Intent, fs: Namespace)
    requires ValidStart(o, s)
  {
    && fs.earlier == s.earlier
    && IntentFits(o, s, i, fs.trees)
    && TreesFit(s, i.phase, fs.trees)
    && StateFits(o, s, i.phase, i.state, fs.regs)
    && MarkersFit(s, i.phase, fs.regs)
  }

  /** The archive a rebuild journal names is there. */
  predicate ArchivePresent(s: Start) {
    NamesArchive(s.rebuild) ==> s.trees.archive.Some?
  }

  /** A recovery under way. With a missing archive it never gets past its first phase. */
  ghost predicate Active(o: Oracle, s: Start, fs: Namespace) {
    && ValidStart(o, s)
    && fs.regs.intent.Some? && fs.regs.intent.value.body.IntentRecord? && fs.regs.receipt.None?
    && Fits(o, s, fs.regs.intent.value.body.intent, fs)
    && (!ArchivePresent(s) ==> fs.regs.intent.value.body.intent.phase == FirstPhase(s.mode) && fs.trees == s.trees)
  }

  ghost predicate Published(o: Oracle, s: Start, fs: Namespace) {
    && ValidStart(o, s) && ArchivePresent(s)
    && fs.regs.intent.None? && fs.regs.receipt.Some? && fs.regs.receipt.value.body.IntentRecord?
    && fs.regs.receipt.value.body.intent.phase.ReceiptDurable?
    && Fits(o, s, fs.regs.receipt.value.body.intent, fs)
  }

  // ------------------------------------------------------------------ what this means

  function Holds<T(==)>(place: Option<T>, x: T): nat {
    if place == Some(x) then 1 else 0
  }

  function TreePlaces(t: Trees, x: Tree): nat {
    Holds(t.output, x) + Holds(t.archive, x) + Holds(t.quarantine, x)
  }

  predicate IsOneOf(place: Option<Tree>, t: Trees) {
    place.None? || place == t.output || place == t.archive
  }

  /** Nothing is lost or invented: the output, the archive, both markers and the original
      state file each exist under exactly one of the names the recovery gives them, and
      the three tree names hold nothing else. */
  lemma NothingIsLost(o: Oracle, s: Start, fs: Namespace)
    requires Active(o, s, fs) || Published(o, s, fs)
    ensures TreePlaces(fs.trees, s.trees.output.value) == 1
    ensures s.trees.archive.Some? ==> TreePlaces(fs.trees, s.trees.archive.value) == 1
    ensures IsOneOf(fs.trees.output, s.trees) && IsOneOf(fs.trees.archive, s.trees)
    ensures IsOneOf(fs.trees.quarantine, s.trees)
    ensures s.finalization.Some? ==>
      Holds(fs.regs.finalization, s.finalization.value) + Holds(fs.regs.finalizationAudit, s.finalization.value) == 1
    ensures s.rebuild.Some? ==>
      Holds(fs.regs.rebuild, s.rebuild.value) + Holds(fs.regs.rebuildAudit, s.rebuild.value) == 1
    ensures s.state.Some? ==>
      Holds(fs.regs.state, s.state.value) + Holds(fs.regs.backup, s.state.value) == 1
  {
  }

  /** `recovery_blockers`: the converter stays out while any of these is present. */
  function Blockers(o: Oracle, fs: Namespace): (r: seq<string>) {
    (if fs.regs.finalization.Some? then ["finalization"] else []) +
    (if fs.regs.rebuild.Some? then ["rebuild"] else []) +
    (if fs.regs.intent.Some? then ["intent"] else []) +
    (if fs.trees.output.Some? && !o.quick(fs.trees.output.value) then ["incomplete-output"] else [])
  }

  /** The converter is let in exactly when there is neither a marker nor an intent, and the
      output, if there is one, passes the quick check. */
  lemma GateIsOpen(o: Oracle, fs: Namespace)
    ensures Blockers(o, fs) == [] <==>
      && fs.regs.finalization.None? && fs.regs.rebuild.None? && fs.regs.intent.None?
      && (fs.trees.output.Some? ==> o.quick(fs.trees.output.value))
    ensures "finalization" in Blockers(o, fs) <==> fs.regs.finalization.Some?
    ensures "rebuild" in Blockers(o, fs) <==> fs.regs.rebuild.Some?
    ensures "intent" in Blockers(o, fs) <==> fs.regs.intent.Some?
  {
  }

  /** The converter is kept out from the moment the intent is installed until the receipt
      is published; then, if a full validation is also a quick one, it is let in. */
  lemma BlockedUntilPublished(o: Oracle, s: Start, fs: Namespace)
    ensures Active(o, s, fs) ==> Blockers(o, fs) != []
    ensures Published(o, s, fs) && (forall t: Tree :: StatusOf(o, t).Passed? ==> o.quick(t)) ==> Blockers(o, fs) == []
  {
    if Active(o, s, fs) {
      assert "intent" in Blockers(o, fs);
    }
  }

  /** Two finished recoveries of one start agree on everything but the identity of the
      files they wrote. */
  lemma OutcomeIsDetermined(o: Oracle, s: Start, a: Namespace, b: Namespace)
    requires Published(o, s, a) && Published(o, s, b)
    ensures a.trees == b.trees
    ensures a.regs.state.value.body == b.regs.state.value.body
    ensures a.regs.state.value.body == Rewrite(o, s.state, Durable(o, s), s.created)
    ensures a.regs.(state := None, receipt := None) == b.regs.(state := None, receipt := None)
    ensures var i, j := a.regs.receipt.value.body.intent, b.regs.receipt.value.body.intent;
      i.(state := None) == j.(state := None)
  {
  }
}
