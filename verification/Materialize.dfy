/** The materialization of one task, resumable after a kill at any step and undone after
    an error. */
module Materialize {
  import opened Common
  import opened MaterializeModel

  /** What happens at the next step: it succeeds; an error strikes before its effect, or when
      the effect is there already and only its verification or the flush is missing; or the
      process is killed before it. An interrupt from the keyboard is an error. When the script
      is used up every step succeeds. */
  datatype Event = Go | Fail | FailLate | Kill

  datatype Reason =
    | IoError | InvalidManifest | QuarantineChanged | ForeignState | Ambiguous | StagingChanged
    | Interrupted | NotRollbackable | NotVerified | NotAView

  /** How many errors are still to come, and how many of them are late. */
  function Errors(script: seq<Event>): nat {
    if script == [] then 0 else (if script[0].Fail? || script[0].FailLate? then 1 else 0) + Errors(script[1..])
  }

  function LateErrors(script: seq<Event>): nat {
    if script == [] then 0 else (if script[0].FailLate? then 1 else 0) + LateErrors(script[1..])
  }

  /** At most one error, and that before its step's effect. */
  predicate Mild(script: seq<Event>) {
    Errors(script) <= 1 && LateErrors(script) == 0
  }

  predicate Quiet(script: seq<Event>) {
    script == []
  }

  class Workspace {
    const recordings: Recordings
    var fs: Names
    var disk: Option<Manifest>
    var script: seq<Event>
    /** A number never used before: for identities and for tokens. */
    var next: nat

    constructor (planned: Recordings)
      ensures recordings == planned && disk.None? && script == []
      ensures fs == Names(Some(View), None, None, map[], map[]) && Unused()
    {
      recordings := planned;
      fs := Names(Some(View), None, None, map[], map[]);
      disk, script, next := None, [], 0;
    }

    /** Tokens are drawn from numbers no name uses. */
    ghost predicate Unused()
      reads this
    {
      && (forall t :: t in fs.constructions ==> t < next)
      && (forall t :: t in fs.quarantined ==> t < next)
      && (disk.Some? ==> Drawn(disk.value))
    }

    ghost predicate Drawn(m: Manifest)
      reads this
    {
      m.reservation < next && forall i :: 0 <= i < |m.quarantines| ==> m.quarantines[i].path < next
    }

    /** What every step of a command respects, whatever fails. */
    twostate predicate Careful()
      reads this
    {
      && Unused() && KeepsRoots(old(fs), fs) && next >= old(next)
      && Errors(script) <= Errors(old(script)) && LateErrors(script) <= LateErrors(old(script))
      && (Quiet(old(script)) ==> Quiet(script))
    }

    /** One step: how it ends, and whether its effect is made. */
    method Step() returns (out: Outcome<Reason>, made: bool)
      modifies this`script
      ensures out.Done? ==> Errors(script) == Errors(old(script))
      ensures Errors(script) <= Errors(old(script)) && LateErrors(script) <= LateErrors(old(script))
      ensures out.Refused? ==> Errors(script) < Errors(old(script))
      ensures out.Refused? && made ==> LateErrors(script) < LateErrors(old(script))
      ensures (out.Done? ==> made) && (out.Killed? ==> !made)
      ensures Quiet(old(script)) ==> Quiet(script) && out.Done?
      ensures !Quiet(old(script)) ==>
        && script == old(script)[1..]
        && (out, made) == (match old(script)[0]
                           case Go => (Done, true)
                           case Fail => (Refused(IoError), false)
                           case FailLate => (Refused(IoError), true)
                           case Kill => (Killed, false))
    {
      if script == [] { return Done, true; }
      var e := script[0];
      script := script[1..];
      match e
      case Go => out, made := Done, true;
      case Fail => out, made := Refused(IoError), false;
      case FailLate => out, made := Refused(IoError), true;
      case Kill => out, made := Killed, false;
    }

    /** One of the three names is classified. An error inside a classification is passed over:
        what it was reading then counts as foreign. */
    method Look(truth: Kind) returns (out: Outcome<Reason>, k: Kind)
      modifies this`script
      ensures out.Done? && !k.Foreign? ==> Errors(script) == Errors(old(script))
      ensures Errors(script) <= Errors(old(script)) && LateErrors(script) <= LateErrors(old(script))
      ensures Quiet(old(script)) ==> Quiet(script) && out.Done?
      ensures out.Refused? ==> Errors(script) < Errors(old(script))
      ensures out.Done? ==> k == truth || (k.Foreign? && Errors(script) < Errors(old(script)))
    {
      var made;
      out, made := Step();
      k := if out.Done? then truth else Foreign;
      if out.Refused? && made { out := Done; }
    }

    /** `_materialization_states`: what the three names hold, or are taken to hold. */
    method States(m: Manifest) returns (out: Outcome<Reason>, source: Kind, staging: Kind, rollback: Kind)
      modifies this`script
      ensures out.Done? && !source.Foreign? && !staging.Foreign? && !rollback.Foreign? ==>
        Errors(script) == Errors(old(script))
      ensures Errors(script) <= Errors(old(script)) && LateErrors(script) <= LateErrors(old(script))
      ensures Quiet(old(script)) ==> Quiet(script) && out.Done?
      ensures out.Refused? ==> Errors(script) < Errors(old(script))
      ensures out.Done? ==>
        && Seen(source, ClassifySource(recordings, m, fs.source))
        && Seen(staging, ClassifyTree(recordings, m, fs.staging))
        && Seen(rollback, ClassifyView(fs.rollback))
      ensures out.Done? && Errors(old(script)) == 0 ==>
        && source == ClassifySource(recordings, m, fs.source)
        && staging == ClassifyTree(recordings, m, fs.staging)
        && rollback == ClassifyView(fs.rollback)
    {
      hide ClassifySource, ClassifyTree, ClassifyView;
      source, staging, rollback := Foreign, Foreign, Foreign;
      out, source := Look(ClassifySource(recordings, m, fs.source));
      if !out.Done? { return; }
      out, staging := Look(ClassifyTree(recordings, m, fs.staging));
      if !out.Done? { return; }
      out, rollback := Look(ClassifyView(fs.rollback));
    }

    /** `_write_materialization_phase`: the manifest in memory moves on even if the write fails. */
    method WritePhase(m: Manifest, phase: Phase) returns (out: Outcome<Reason>, n: Manifest)
      modifies this`script, this`disk
      ensures out.Done? ==> Errors(script) == Errors(old(script))
      ensures Errors(script) <= Errors(old(script)) && LateErrors(script) <= LateErrors(old(script))
      ensures out.Refused? ==> Errors(script) < Errors(old(script))
      ensures Quiet(old(script)) ==> Quiet(script) && out.Done?
      ensures script == if Quiet(old(script)) then [] else old(script)[1..]
      ensures !Quiet(old(script)) && old(script)[0].Go? ==> out.Done?
      ensures n == m.(phase := phase)
      ensures disk == Some(n) || disk == old(disk)
      ensures (out.Done? ==> disk == Some(n)) && (out.Killed? ==> disk == old(disk))
    {
      n := m.(phase := phase);
      var made;
      out, made := Step();
      if made { disk := Some(n); }
    }

    // ---------------------------------------------------------------- staging roots

    /** `_prepare_staging_construction`: a reserved, empty root under the construction name. */
    method PrepareConstruction(m: Manifest) returns (out: Outcome<Reason>)
      requires Unused() && Drawn(m) && fs.staging.None?
      modifies this`fs, this`script, this`next
      ensures out.Done? ==> Errors(script) == Errors(old(script))
      ensures Careful()
      ensures fs == old(fs).(constructions := fs.constructions)
      ensures out.Done? ==> m.reservation in fs.constructions && IsReserved(m, fs.constructions[m.reservation])
      ensures ReservationFits(old(fs), m) ==> ReservationFits(fs, m)
      ensures ReservationFits(old(fs), m) && out.Refused? ==> Errors(script) < Errors(old(script))
      ensures ReservationFits(old(fs), m) && Quiet(old(script)) ==> out.Done?
    {
      hide HasRoot;
      if m.reservation !in fs.constructions {
        var made;
        out, made := Step();
        if !made { return; }
        fs := fs.(constructions := fs.constructions[m.reservation := Root(next, None, map[])]);
        next := next + 1;
        AddedConstruction(old(fs), fs, m.reservation);
        if !out.Done? { return; }
      }
      var root := fs.constructions[m.reservation];
      if root.marker.None? && root.content == map[] {
        var made;
        out, made := Step();
        if !made { return; }
        label before:
        fs := fs.(constructions := fs.constructions[m.reservation := root.(marker := Some(m.reservation))]);
        MarkedConstruction(old@before(fs), fs, m.reservation);
        if !out.Done? { return; }
      } else if root.marker != Some(m.reservation) || root.content != map[] {
        return Refused(Ambiguous);
      }
      return Done;
    }

    /** `_publish_reserved_staging_root`. */
    method PublishRoot(m: Manifest) returns (out: Outcome<Reason>, id: nat)
      requires Unused() && Drawn(m)
      modifies this`fs, this`script, this`next
      ensures out.Done? ==> Errors(script) == Errors(old(script))
      ensures Careful()
      ensures fs == old(fs).(constructions := fs.constructions, staging := fs.staging)
      ensures out.Done? ==> fs.staging.Some? && fs.staging.value.Tree? && fs.staging.value.root.id == id
      ensures out.Done? ==> IsReserved(m, fs.staging.value.root) && m.reservation !in fs.constructions
      ensures !out.Done? && ReservationFits(old(fs), m) && fs.staging.Some? ==>
        out.Refused? && LateErrors(script) < LateErrors(old(script))
      ensures ReservationFits(old(fs), m) ==> ReservationFits(fs, m)
      ensures ReservationFits(old(fs), m) && out.Refused? ==> Errors(script) < Errors(old(script))
      ensures ReservationFits(old(fs), m) && Quiet(old(script)) ==> out.Done?
    {
      id := 0;
      if fs.staging.Some? {
        if m.reservation in fs.constructions { return Refused(Ambiguous), 0; }
        if !fs.staging.value.Tree? || !IsReserved(m, fs.staging.value.root) { return Refused(StagingChanged), 0; }
        return Done, fs.staging.value.root.id;
      }
      out := PrepareConstruction(m);
      if !out.Done? { return; }
      var made;
      out, made := Step();
      if !made { return; }
      label before:
      var root := fs.constructions[m.reservation];
      fs := fs.(staging := Some(Tree(root)), constructions := fs.constructions - {m.reservation});
      PublishedConstruction(old@before(fs), fs, m.reservation);
      if out.Done? { id := root.id; }
    }

    /** The manifest records under which name the staging root will be set aside. */
    method ReserveQuarantine(m: Manifest) returns (out: Outcome<Reason>, n: Manifest)
      requires Unused() && Drawn(m) && !m.phase.StagingQuarantining?
      modifies this`script, this`disk, this`next
      ensures out.Done? ==> Errors(script) == Errors(old(script))
      ensures Careful() && Drawn(n) && (n.phase == m.phase || n.phase.StagingQuarantining?)
      ensures out.Refused? && Owned(m, fs.staging) ==> Errors(script) < Errors(old(script))
      ensures Owned(m, fs.staging) && Quiet(old(script)) ==> out.Done?
      ensures disk == old(disk) || (n.phase.StagingQuarantining? && disk == Some(n))
      ensures n.phase.StagingQuarantining? ==> n.quarantines != []
      ensures out.Done? ==> n.phase.StagingQuarantining? && disk == Some(n) && n.quarantines != []
      ensures Holed(fs, m) ==> Holed(fs, n)
      ensures n.phase.StagingQuarantining? ==> LastIsNew(n)
      ensures n.phase.StagingQuarantining? && CanQuarantine(fs, m) ==> BeingQuarantined(fs, n) && fs.staging.Some?
      ensures !n.phase.StagingQuarantining? ==> n == m || Holed(fs, n)
      ensures !n.phase.StagingQuarantining? && n != m ==> LateErrors(script) < LateErrors(old(script))
    {
      n := m;
      if !Owned(m, fs.staging) { return Refused(StagingChanged), n; }
      var made;
      out, made := Step();
      if !made { return; }
      n := m.(quarantines := m.quarantines + [Quarantine(next, m.identity.value, m.reservation)]);
      next := next + 1;
      assert n.quarantines[|m.quarantines|].path !in fs.quarantined;
      HoleStays(fs, fs, m, n);
      if !out.Done? { return; }
      out, n := WritePhase(n, StagingQuarantining);
    }

    /** `_quarantine_materialization_staging`: the public staging root is set aside, whole,
        under a name that the manifest records first, and a new root is reserved. */
    method QuarantineStaging(m: Manifest) returns (out: Outcome<Reason>, n: Manifest)
      requires Unused() && Drawn(m)
      modifies this
      ensures out.Done? ==> Errors(script) == Errors(old(script))
      ensures Careful() && Drawn(n)
      ensures fs == old(fs).(staging := fs.staging, quarantined := fs.quarantined)
      ensures out.Refused? && CanQuarantine(old(fs), m) ==> Errors(script) < Errors(old(script))
      ensures CanQuarantine(old(fs), m) && Quiet(old(script)) ==> out.Done?
      ensures out.Done? ==> disk == Some(n) && SetAsideAs(fs, n)
      ensures !out.Killed? ==> n.phase == m.phase || n.phase.StagingQuarantining? || n.phase.StagingReplacing?
      ensures out.Done? && CanQuarantine(old(fs), m) ==> QuarantinesHeld(fs, n, |n.quarantines|)
      ensures out.Refused? && CanQuarantine(old(fs), m) ==>
        || (n.phase.StagingQuarantining? && BeingQuarantined(fs, n))
        || (!n.phase.StagingQuarantining? && fs == old(fs) && n == m)
        || (!n.phase.StagingQuarantining? && fs == old(fs) && Holed(fs, n) && LateErrors(old(script)) > 0)
        || (SetAsideAs(fs, n) && QuarantinesHeld(fs, n, |n.quarantines|))
      ensures !out.Done? && CanQuarantine(old(fs), m) && (m.phase.StagingQuarantining? ==> old(disk) == Some(m)) ==>
        || (disk == old(disk) && fs == old(fs))
        || (disk.Some? && disk.value.phase.StagingQuarantining? && BeingQuarantined(fs, disk.value))
        || (disk.Some? && SetAsideAs(fs, disk.value) && QuarantinesHeld(fs, disk.value, |disk.value.quarantines|))
      ensures Holed(old(fs), m) && !m.phase.StagingQuarantining? ==>
        && !out.Done? && (out.Refused? ==> Holed(fs, n))
        && ((disk == old(disk) && fs == old(fs)) || (disk.Some? && Holed(fs, disk.value)))
    {
      n := m;
      hide HasRoot, Owned;
      if !m.phase.StagingQuarantining? {
        out, n := ReserveQuarantine(m);
        if !out.Done? { return; }
      } else if m.quarantines == [] {
        return Refused(QuarantineChanged), n;
      }
      hide BeingQuarantined, Holed, SetAsideAs, QuarantinesHeld, LastIsNew;
      out, n := FillQuarantine(n);
    }

    /** A quarantine that is durable is filled, and a new root reserved. */
    method FillQuarantine(m: Manifest) returns (out: Outcome<Reason>, n: Manifest)
      requires Unused() && Drawn(m) && m.phase.StagingQuarantining? && m.quarantines != []
      modifies this
      ensures out.Done? ==> Errors(script) == Errors(old(script))
      ensures Careful() && Drawn(n)
      ensures !out.Killed? ==> n.phase.StagingQuarantining? || n.phase.StagingReplacing?
      ensures fs == old(fs).(staging := fs.staging, quarantined := fs.quarantined)
      ensures BeingQuarantined(old(fs), m) && out.Refused? ==> Errors(script) < Errors(old(script))
      ensures BeingQuarantined(old(fs), m) && Quiet(old(script)) ==> out.Done?
      ensures out.Done? ==> disk == Some(n) && SetAsideAs(fs, n)
      ensures BeingQuarantined(old(fs), m) && !out.Killed? ==>
        || (n == m && out.Refused? && BeingQuarantined(fs, m))
        || (SetAsideAs(fs, n) && QuarantinesHeld(fs, n, |n.quarantines|))
      ensures BeingQuarantined(old(fs), m) ==>
        || (disk == old(disk) && BeingQuarantined(fs, m))
        || (disk.Some? && SetAsideAs(fs, disk.value) && QuarantinesHeld(fs, disk.value, |disk.value.quarantines|))
      ensures Holed(old(fs), m) && LastIsNew(m) ==>
        !out.Done? && Holed(fs, m) && disk == old(disk) && (out.Refused? ==> n == m)
    {
      n := m;
      hide HasRoot, Owned;
      out := SetStagingAside(n);
      if !out.Done? { return; }
      if !QuarantinesValid(fs, n) { return Refused(QuarantineChanged), n; }
      n := n.(identity := None, reservation := next);
      next := next + 1;
      out, n := WritePhase(n, StagingReplacing);
    }

    /** The rename of a durable quarantine, unless an earlier call made it. */
    method SetStagingAside(m: Manifest) returns (out: Outcome<Reason>)
      requires Unused() && Drawn(m) && m.quarantines != []
      modifies this`fs, this`script
      ensures out.Done? ==> Errors(script) == Errors(old(script))
      ensures Careful()
      ensures fs == old(fs).(staging := fs.staging, quarantined := fs.quarantined)
      ensures out.Done? ==> fs.staging.None?
      ensures out.Killed? ==> fs == old(fs)
      ensures BeingQuarantined(old(fs), m) ==> BeingQuarantined(fs, m)
      ensures BeingQuarantined(old(fs), m) && out.Refused? ==> Errors(script) < Errors(old(script))
      ensures BeingQuarantined(old(fs), m) && Quiet(old(script)) ==> out.Done?
      ensures m.phase.StagingQuarantining? && LastIsNew(m) && Holed(old(fs), m) ==> Holed(fs, m)
    {
      var q := m.quarantines[|m.quarantines| - 1];
      if fs.staging.Some? && q.path in fs.quarantined { return Refused(Ambiguous); }
      if fs.staging.Some? {
        if !Owned(m, fs.staging) || fs.staging.value.root.id != q.id { return Refused(StagingChanged); }
        var made;
        out, made := Step();
        if !made { return; }
        fs := fs.(staging := None, quarantined := fs.quarantined[q.path := fs.staging.value.root]);
        SetAside(old(fs), fs, q.path);
        if m.phase.StagingQuarantining? && LastIsNew(m) { HoleStays(old(fs), fs, m, m); }
        return;
      } else if q.path !in fs.quarantined {
        return Refused(StagingChanged);
      }
      return Done;
    }

    /** `_ensure_materialization_staging_identity`: after it a staging root is published and
        recorded. It touches neither the task's name nor the rollback name. */
    method EnsureIdentity(m: Manifest) returns (out: Outcome<Reason>, n: Manifest)
      requires Unused() && Drawn(m)
      modifies this
      ensures out.Done? ==> Errors(script) == Errors(old(script))
      ensures Careful() && Drawn(n)
      ensures fs.source == old(fs).source && fs.rollback == old(fs).rollback
      ensures out.Done? && old(disk) == Some(m) ==> disk == Some(n)
      ensures !out.Killed? && !m.phase.StagingQuarantining? ==> n.phase == m.phase || n.phase.Preparing?
      ensures out.Done? && m.phase.StagingReplacing? && m.identity.None? ==> n.phase.Preparing?
      ensures out.Done? ==> (n == m && fs == old(fs) && disk == old(disk)) || n.phase.Preparing?
      ensures !m.phase.StagingQuarantining? && m.identity.Some? ==>
        !out.Killed? && n == m && fs == old(fs) && disk == old(disk) && script == old(script)
      ensures out.Refused? && !m.phase.StagingQuarantining? && m.identity.Some? ==> fs.staging.Some?
      ensures Resumable(recordings, old(fs), m) && old(disk) == Some(m) ==>
        disk.Some? && Resumable(recordings, fs, disk.value)
      ensures Resumable(recordings, old(fs), m) && old(disk) == Some(m) && out.Done? ==>
        disk == Some(n) && !NoIdentityYet(n.phase) && !n.phase.StagingQuarantining?
      ensures Resumable(recordings, old(fs), m) && old(disk) == Some(m) && out.Refused? ==>
        && Errors(script) < Errors(old(script)) && Undoable(recordings, fs, n, disk)
        && (LateErrors(old(script)) == 0 ==> Clean(fs, n))
      ensures Resumable(recordings, old(fs), m) && old(disk) == Some(m) && Quiet(old(script)) ==> out.Done?
      ensures Resumable(recordings, old(fs), m) && old(disk) == Some(m) && out.Done? ==>
        n == m || (fs.staging.Some? && fs.staging.value.Tree? && fs.staging.value.root.content == map[])
    {
      n := m;
      if m.phase.StagingQuarantining? {
        out, n := QuarantineStaging(m);
        if !out.Done? { return; }
        ReplacingIsResumable(recordings, old(fs), fs, m, n);
      }
      hide HasRoot, WellPlaced, IsComplete, BeingQuarantined, CanQuarantine;
      if n.identity.Some? {
        if fs.staging.Some? && !Owned(n, fs.staging) { return Refused(StagingChanged), n; }
        return Done, n;
      }
      hide Holed, Positions, Safe, Owned, ReservationFits;
      out, n := TakeIdentity(n);
    }

    /** A root is published and its identity recorded. */
    method TakeIdentity(m: Manifest) returns (out: Outcome<Reason>, n: Manifest)
      requires Unused() && Drawn(m) && m.identity.None?
      modifies this
      ensures out.Done? ==> Errors(script) == Errors(old(script))
      ensures Careful() && Drawn(n)
      ensures fs.source == old(fs).source && fs.rollback == old(fs).rollback
      ensures out.Done? ==> n.phase.Preparing? && disk == Some(n)
      ensures !out.Killed? ==> n.phase == m.phase || n.phase.Preparing?
      ensures Resumable(recordings, old(fs), m) && old(disk) == Some(m) ==>
        && disk.Some? && Resumable(recordings, fs, disk.value)
        && (out.Refused? ==> Errors(script) < Errors(old(script)) && Undoable(recordings, fs, n, disk))
        && (out.Refused? && LateErrors(old(script)) == 0 ==> Clean(fs, n))
        && (out.Done? ==> Content() == map[] && fs.staging.Some? && fs.staging.value.Tree?)
        && (Quiet(old(script)) ==> out.Done?)
    {
      hide HasRoot;
      n := m;
      var id;
      out, id := PublishRoot(n);
      if !out.Done? { return; }
      n := n.(identity := Some(id));
      out, n := WritePhase(n, Preparing);
      if !out.Done? { return; }
      if !Owned(n, fs.staging) { return Refused(StagingChanged), n; }
    }

    // ---------------------------------------------------------------- building and moving

    /** One entry of the staging root is made or extended. */
    method Put(ghost m: Manifest, k: nat, staged: Staged)
      requires Unused() && Owned(m, fs.staging)
      modifies this`fs
      ensures Careful() && Owned(m, fs.staging)
      ensures fs == old(fs).(staging := fs.staging)
      ensures Content() == old(Content())[k := staged]
    {
      var root := fs.staging.value.root;
      fs := fs.(staging := Some(Tree(root.(content := root.content[k := staged]))));
    }

    /** What has been linked under the public staging name. */
    function Content(): map<nat, Staged>
      reads this
    {
      if fs.staging.Some? && fs.staging.value.Tree? then fs.staging.value.root.content else map[]
    }

    /** A link for each of a recording's files. */
    method LinkFiles(m: Manifest, k: nat) returns (out: Outcome<Reason>)
      requires Unused() && Owned(m, fs.staging) && k < |recordings|
      requires k in Content() && Content()[k] == Staged(true, {})
      modifies this`fs, this`script
      ensures out.Done? ==> Errors(script) == Errors(old(script))
      ensures Careful() && Owned(m, fs.staging)
      ensures fs == old(fs).(staging := fs.staging)
      ensures k in Content() && Content() == old(Content())[k := Content()[k]]
      ensures Content()[k].modeSet && Within(Content()[k].files, recordings[k].files)
      ensures out.Done? ==> Full(Content()[k].files, recordings[k].files)
      ensures out.Refused? ==> Errors(script) < Errors(old(script))
      ensures Quiet(old(script)) ==> out.Done?
    {
      hide HasRoot, Owned;
      var f := 0;
      while f < recordings[k].files
        invariant Errors(script) == Errors(old(script))
        invariant f <= recordings[k].files && Careful() && Owned(m, fs.staging)
        invariant fs == old(fs).(staging := fs.staging)
        invariant k in Content() && Content() == old(Content())[k := Content()[k]]
        invariant Content()[k].modeSet && Full(Content()[k].files, f)
      {
        var made;
        out, made := Step();
        if !made { return; }
        Put(m, k, Staged(true, Content()[k].files + {f}));
        f := f + 1;
        if !out.Done? { return; }
      }
      return Done;
    }

    /** One recording: its directory, its mode, and its files. */
    method BuildRecording(m: Manifest, k: nat) returns (out: Outcome<Reason>)
      requires Unused() && Owned(m, fs.staging) && k < |recordings|
      modifies this`fs, this`script
      ensures out.Done? ==> Errors(script) == Errors(old(script))
      ensures Careful() && Owned(m, fs.staging)
      ensures fs == old(fs).(staging := fs.staging)
      ensures Content() == old(Content()) || (k in Content() && Content() == old(Content())[k := Content()[k]])
      ensures k in Content() && k !in old(Content()) ==>
        Within(Content()[k].files, recordings[k].files) && (recordings[k].honoured ==> Content()[k].modeSet)
      ensures k !in old(Content()) && out.Refused? ==> Errors(script) < Errors(old(script))
      ensures k !in old(Content()) && Quiet(old(script)) ==> out.Done?
      ensures out.Done? ==> k in Content() && Content()[k].modeSet && Full(Content()[k].files, recordings[k].files)
    {
      hide HasRoot, Owned, Within, Full;
      out := MakeDirectory(m, k);
      if !out.Done? { return; }
      out := LinkFiles(m, k);
    }

    /** The directory, in one step or two: made with the mode the umask gives, then set. */
    method MakeDirectory(m: Manifest, k: nat) returns (out: Outcome<Reason>)
      requires Unused() && Owned(m, fs.staging) && k < |recordings|
      modifies this`fs, this`script
      ensures out.Done? ==> Errors(script) == Errors(old(script))
      ensures Careful() && Owned(m, fs.staging)
      ensures fs == old(fs).(staging := fs.staging)
      ensures Content() == old(Content()) || (k in Content() && Content() == old(Content())[k := Content()[k]])
      ensures k in Content() && k !in old(Content()) ==>
        Within(Content()[k].files, recordings[k].files) && (recordings[k].honoured ==> Content()[k].modeSet)
      ensures k !in old(Content()) && out.Refused? ==> Errors(script) < Errors(old(script))
      ensures k !in old(Content()) && Quiet(old(script)) ==> out.Done?
      ensures out.Done? ==> k !in old(Content()) && k in Content() && Content()[k] == Staged(true, {})
    {
      hide HasRoot, Owned;
      if k in Content() { return Refused(IoError); }
      var made;
      out, made := Step();
      if !made { return; }
      Put(m, k, Staged(recordings[k].honoured, {}));
      if !out.Done? { return; }
      out, made := Step();
      if made { Put(m, k, Staged(true, {})); }
    }

    /** `_build_materialization_staging`. */
    method BuildStaging(m: Manifest) returns (out: Outcome<Reason>)
      requires Unused()
      modifies this`fs, this`script
      ensures out.Done? ==> Errors(script) == Errors(old(script))
      ensures Careful()
      ensures fs == old(fs).(staging := fs.staging)
      ensures Owned(m, old(fs).staging) ==> Owned(m, fs.staging)
      ensures out.Done? ==> Owned(m, fs.staging) && IsComplete(recordings, fs.staging)
      ensures Owned(m, old(fs).staging) && old(Content()) == map[] ==>
        && WellPlaced(recordings, Content())
        && (out.Refused? ==> Errors(script) < Errors(old(script)))
        && (Quiet(old(script)) ==> out.Done?)
    {
      if !Owned(m, fs.staging) { return Refused(StagingChanged); }
      ghost var clean := Content() == map[];
      for k := 0 to |recordings|
        invariant Errors(script) == Errors(old(script))
        invariant Careful() && Owned(m, fs.staging)
        invariant fs == old(fs).(staging := fs.staging)
        invariant clean ==> BuiltTo(recordings, Content(), k)
      {
        out := BuildRecording(m, k);
        if !out.Done? { return; }
        assert clean ==> BuiltTo(recordings, Content(), k + 1);
      }
      if !ClassifyTree(recordings, m, fs.staging).Hardlink? { return Refused(NotVerified); }
      return Done;
    }

    /** `_move_owned_materialization_view`, in one direction or the other. */
    method MoveView(toRollback: bool) returns (out: Outcome<Reason>)
      requires Unused()
      modifies this`fs, this`script
      ensures out.Done? ==> Errors(script) == Errors(old(script))
      ensures Careful()
      ensures fs == old(fs) || (CanMove(old(fs), toRollback) && fs == Moved(old(fs), toRollback))
      ensures out.Done? ==> CanMove(old(fs), toRollback) && fs == Moved(old(fs), toRollback)
      ensures out.Killed? ==> fs == old(fs)
      ensures fs != old(fs) && !out.Done? ==> LateErrors(script) < LateErrors(old(script))
      ensures CanMove(old(fs), toRollback) && out.Refused? ==> Errors(script) < Errors(old(script))
      ensures CanMove(old(fs), toRollback) && Quiet(old(script)) ==> out.Done?
    {
      var from, to := if toRollback then fs.source else fs.rollback, if toRollback then fs.rollback else fs.source;
      if from != Some(View) { return Refused(NotAView); }
      if to.Some? { return Refused(IoError); }
      var made;
      out, made := Step();
      if made { fs := Moved(fs, toRollback); }
    }

    /** `_commit_materialization_with_pinned_source`: nothing is committed unless the task is
        the whole tree and the rollback name holds the view, looked at before the manifest is
        written and again after it. */
    method Commit(m: Manifest) returns (out: Outcome<Reason>, n: Manifest)
      requires Unused() && Drawn(m)
      modifies this`script, this`disk
      ensures out.Done? ==> Errors(script) == Errors(old(script))
      ensures Careful() && Drawn(n)
      ensures out.Done? ==> Committable(recordings, fs, m) && n == m.(phase := Committed) && disk == Some(n)
      ensures out.Done? ==> fs.rollback == Some(View)
      ensures out.Done? && |old(script)| >= 3 ==> script == old(script)[3..]
      ensures old(script) == [Fail] || (Committable(recordings, fs, m) && old(script) == [Go, Go, Fail]) ==>
        out.Refused? && disk == Some(m.(phase := RecoveryFailed))
      ensures out.Refused? ==> n == m.(phase := Committed) || n == m.(phase := RecoveryFailed)
      ensures disk == old(disk) || disk == Some(m.(phase := RecoveryFailed))
              || (disk == Some(m.(phase := Committed)) && Committable(recordings, fs, m))
      ensures Committable(recordings, fs, m) && out.Refused? ==> Errors(script) < Errors(old(script))
      ensures Committable(recordings, fs, m) && Quiet(old(script)) ==> out.Done?
      ensures !Committable(recordings, fs, m) && Quiet(old(script)) ==>
        out.Refused? && disk == Some(m.(phase := RecoveryFailed))
    {
      assert Committable(recordings, fs, m) ==> fs.rollback == Some(View);
      hide HasRoot, Committable;
      var made;
      out, made := Step();
      if out.Killed? { return out, m; }
      if out.Refused? || !Committable(recordings, fs, m) {
        out, n := WritePhase(m, RecoveryFailed);
        return if out.Killed? then Killed else Refused(NotVerified), n;
      }
      out, n := WritePhase(m, Committed);
      if !out.Done? { return; }
      out, made := Step();
      if out.Refused? {
        out, n := WritePhase(n, RecoveryFailed);
        return if out.Killed? then Killed else Refused(NotVerified), n;
      }
    }

    // ---------------------------------------------------------------- rolling forward

    /** `_reserve_materialization_staging_replacement`. */
    method ReplaceStaging(m: Manifest) returns (out: Outcome<Reason>, n: Manifest)
      requires Unused() && Drawn(m)
      modifies this
      ensures out.Done? ==> Errors(script) == Errors(old(script))
      ensures Careful() && Drawn(n)
      ensures fs.source == old(fs).source && fs.rollback == old(fs).rollback
      ensures AtView(recordings, old(fs), m, old(disk)) ==>
        && disk.Some? && Resumable(recordings, fs, disk.value)
        && (out.Refused? ==> Undoable(recordings, fs, n, disk) && Errors(script) < Errors(old(script)))
        && (out.Refused? && LateErrors(old(script)) == 0 ==> Clean(fs, n))
        && (out.Refused? && n.phase.StagingQuarantining? ==> Between(old(fs), old(disk), fs, disk))
        && (out.Refused? && n.phase.RecoveryFailed? ==> m.phase.RecoveryFailed?)
        && (out.Done? ==> n.phase.Preparing?)
        && (out.Done? ==> AtView(recordings, fs, n, disk) && Content() == map[])
        && (Quiet(old(script)) ==> out.Done?)
    {
      out, n := QuarantineStaging(m);
      if !out.Done? { return; }
      ReplacingIsResumable(recordings, old(fs), fs, m, n);
      hide HasRoot, Owned, CanQuarantine, QuarantinesHeld;
      out, n := EnsureIdentity(n);
    }

    /** The tree is completed next to the view: taken over, populated, or started afresh. */
    method CompleteTree(m: Manifest, staging: Kind) returns (out: Outcome<Reason>, n: Manifest)
      requires Unused() && Drawn(m)
      requires staging == ClassifyTree(recordings, m, fs.staging)
      modifies this
      ensures out.Done? ==> Errors(script) == Errors(old(script))
      ensures Careful() && Drawn(n)
      ensures fs.source == old(fs).source && fs.rollback == old(fs).rollback
      ensures out.Done? ==> IsComplete(recordings, fs.staging)
      ensures staging.Missing? ==>
        out.Refused? && n == m && fs == old(fs) && disk == old(disk) && script == old(script)
      ensures staging.Hardlink? ==> out.Done? && fs == old(fs)
      ensures staging.Hardlink? || (staging.Partial? && old(Content()) == map[]) ==> n == m && disk == old(disk)
      ensures AtView(recordings, old(fs), m, old(disk)) && !staging.Foreign? ==>
        && disk.Some? && Resumable(recordings, fs, disk.value)
        && (out.Refused? ==> Undoable(recordings, fs, n, disk) && Errors(script) < Errors(old(script)))
        && (out.Refused? && LateErrors(old(script)) == 0 ==> Clean(fs, n))
        && (out.Refused? && n.phase.StagingQuarantining? ==> Between(old(fs), old(disk), fs, disk))
        && (out.Refused? && n.phase.RecoveryFailed? ==> m.phase.RecoveryFailed?)
        && (out.Done? ==> AtView(recordings, fs, n, disk))
        && (Quiet(old(script)) ==> out.Done?)
    {
      n := m;
      if staging.Missing? { return Refused(StagingChanged), n; }
      if staging.Hardlink? { return Done, n; }
      if !staging.Partial? || Content() != map[] {
        out, n := ReplaceStaging(n);
        if !out.Done? { return; }
      }
      hide HasRoot, QuarantinesHeld;
      out := BuildStaging(n);
    }

    /** The view steps aside once the tree is recorded as prepared. */
    method ArchiveView(m: Manifest) returns (out: Outcome<Reason>, n: Manifest)
      requires Unused() && Drawn(m) && fs.source == Some(View) && fs.rollback.None?
      requires IsComplete(recordings, fs.staging)
      modifies this
      ensures out.Done? ==> Errors(script) == Errors(old(script))
      ensures Careful() && Drawn(n) && n.phase.Prepared?
      ensures fs == old(fs) || fs == Moved(old(fs), true)
      ensures out.Done? ==> fs == Moved(old(fs), true)
      ensures AtView(recordings, old(fs), m, old(disk)) ==>
        && disk.Some? && Resumable(recordings, fs, disk.value)
        && (out.Refused? ==> Undoable(recordings, fs, n, disk) && Errors(script) < Errors(old(script)))
        && (out.Refused? && LateErrors(old(script)) == 0 ==> Clean(fs, n))
        && (out.Done? ==> Archived(recordings, fs, n, disk))
        && (Quiet(old(script)) ==> out.Done?)
    {
      out, n := WritePhase(m, Prepared);
      if !out.Done? { return; }
      out := MoveView(true);
    }

    /** From the view in place to the view set aside, with the tree complete. */
    method BuildTree(m: Manifest, staging: Kind) returns (out: Outcome<Reason>, n: Manifest)
      requires Unused() && Drawn(m) && fs.source == Some(View) && fs.rollback.None?
      requires staging == ClassifyTree(recordings, m, fs.staging)
      modifies this
      ensures out.Done? ==> Errors(script) == Errors(old(script))
      ensures Careful() && Drawn(n) && Safe(recordings, fs)
      ensures out.Done? ==> fs.source.None? && fs.rollback == Some(View) && IsComplete(recordings, fs.staging)
      ensures staging.Missing? ==>
        out.Refused? && n == m && fs == old(fs) && disk == old(disk) && script == old(script)
      ensures AtView(recordings, old(fs), m, old(disk)) && !staging.Foreign? ==>
        && disk.Some? && Resumable(recordings, fs, disk.value)
        && (out.Refused? ==> Undoable(recordings, fs, n, disk) && Errors(script) < Errors(old(script)))
        && (out.Refused? && LateErrors(old(script)) == 0 ==> Clean(fs, n))
        && (out.Refused? && n.phase.StagingQuarantining? ==> Between(old(fs), old(disk), fs, disk))
        && (out.Refused? && n.phase.RecoveryFailed? ==> m.phase.RecoveryFailed?)
        && (out.Done? ==> Archived(recordings, fs, n, disk) && n.phase.Prepared?)
        && (Quiet(old(script)) ==> out.Done?)
    {
      out, n := CompleteTree(m, staging);
      if !out.Done? { return; }
      hide HasRoot, Recorded, Resumable, Undoable, Clean;
      out, n := ArchiveView(n);
    }

    /** The staging root is renamed to the task's name. */
    method TakeName(m: Manifest) returns (out: Outcome<Reason>)
      requires Unused() && fs.source.None?
      modifies this`fs, this`script
      ensures out.Done? ==> Errors(script) == Errors(old(script))
      ensures Careful()
      ensures fs == old(fs) || (Owned(m, old(fs).staging) && fs == Installed(old(fs)))
      ensures out.Done? ==> Owned(m, old(fs).staging) && fs == Installed(old(fs))
      ensures Owned(m, old(fs).staging) && out.Refused? ==> Errors(script) < Errors(old(script))
      ensures Owned(m, old(fs).staging) && Quiet(old(script)) ==> out.Done?
    {
      if !Owned(m, fs.staging) { return Refused(StagingChanged); }
      var made;
      out, made := Step();
      if made {
        MovedToSource(fs);
        fs := Installed(fs);
      }
    }

    /** The tree takes the task's name and is committed. */
    method InstallTree(m: Manifest) returns (out: Outcome<Reason>, n: Manifest)
      requires Unused() && Drawn(m)
      requires fs.source.None? && fs.rollback == Some(View) && IsComplete(recordings, fs.staging)
      modifies this
      ensures out.Done? ==> Errors(script) == Errors(old(script))
      ensures Careful() && Drawn(n) && Safe(recordings, fs)
      ensures out.Done? ==> disk == Some(n) && n.phase.Committed? && Committable(recordings, fs, n) && fs.staging.None?
      ensures Archived(recordings, old(fs), m, old(disk)) ==>
        && disk.Some? && Resumable(recordings, fs, disk.value)
        && (out.Refused? ==> Undoable(recordings, fs, n, disk) && Errors(script) < Errors(old(script)))
        && (out.Refused? && LateErrors(old(script)) == 0 ==> Clean(fs, n))
        && (out.Refused? ==> !n.phase.StagingQuarantining?)
        && (out.Refused? && n.phase.RecoveryFailed? ==> fs.rollback == Some(View) && IsComplete(recordings, fs.source))
        && (Quiet(old(script)) ==> out.Done?)
    {
      hide HasRoot, Full, Within, WellPlaced, ReservationFits, BeingQuarantined;
      out, n := WritePhase(m, ViewArchived);
      if !out.Done? { return; }
      assert Unused() && Drawn(n);
      out := TakeName(n);
      if !out.Done? { return; }
      assert Drawn(n);
      hide Drawn, Unused;
      if !ClassifyTree(recordings, n, fs.source).Hardlink? { return Refused(NotVerified), n; }
      out, n := Commit(n);
    }

    /** The guarded part of `_roll_forward_materialization`. */
    method TryForward(m: Manifest, source: Kind, staging: Kind, rollback: Kind)
      returns (out: Outcome<Reason>, n: Manifest)
      requires Unused() && Drawn(m) && Safe(recordings, fs)
      requires source == ClassifySource(recordings, m, fs.source) && rollback == ClassifyView(fs.rollback)
      requires staging == ClassifyTree(recordings, m, fs.staging) && !source.Hardlink?
      modifies this
      ensures out.Done? ==> Errors(script) == Errors(old(script))
      ensures Careful() && Drawn(n) && Safe(recordings, fs)
      ensures out.Done? ==> disk == Some(n) && n.phase.Committed? && Committable(recordings, fs, n) && fs.staging.None?
      ensures source.IsView? && staging.Missing? ==>
        out.Refused? && n == m && fs == old(fs) && disk == old(disk) && script == old(script)
      ensures source.Missing? && rollback.IsView? && staging.Missing? && Quiet(old(script)) ==>
        out.Refused? && n == m && fs == Moved(old(fs), false) && disk == old(disk)
      ensures source.Missing? && rollback.IsView? && staging.Partial? && Quiet(old(script))
              && AtView(recordings, Moved(old(fs), false), m, old(disk)) ==>
        out.Done?
      ensures Recorded(recordings, old(fs), m, old(disk)) && !staging.Foreign? ==>
        && disk.Some? && Resumable(recordings, fs, disk.value)
        && (out.Refused? ==> Undoable(recordings, fs, n, disk) && Errors(script) < Errors(old(script)))
        && (out.Refused? && LateErrors(old(script)) == 0 ==> Clean(fs, n))
        && (out.Refused? && n.phase.StagingQuarantining? ==> Between(old(fs), old(disk), fs, disk))
        && (out.Refused? && n.phase.RecoveryFailed? ==>
              m.phase.RecoveryFailed? || (fs.rollback == Some(View) && IsComplete(recordings, fs.source)))
        && (Quiet(old(script)) ==> out.Done?)
    {
      n := m;
      var src, rb := source, rollback;
      if rb.IsView? && src.Missing? && (staging.Missing? || staging.Partial?) {
        out := MoveView(false);
        if !out.Done? { return; }
        src, rb := IsView, Missing;
      }
      var ready := staging.Hardlink?;
      if src.IsView? && rb.Missing? {
        out, n := BuildTree(n, staging);
        if !out.Done? { return; }
        src, rb, ready := Missing, IsView, true;
      }
      if src.Missing? && ready && rb.IsView? {
        out, n := InstallTree(n);
        return;
      }
      return Refused(Ambiguous), n;
    }

    // ---------------------------------------------------------------- after an error

    /** The last step of the undoing. */
    method ClearStaging(m: Manifest) returns (out: Outcome<Reason>, n: Manifest)
      requires Unused() && Drawn(m) && fs.source == Some(View) && Owned(m, fs.staging)
      modifies this
      ensures Careful() && Drawn(n)
      ensures fs.source == old(fs).source && fs.rollback == old(fs).rollback
      ensures Undoes(recordings, old(fs), m, old(disk)) ==>
        && disk.Some? && Left(recordings, fs, disk)
        && (out.Done? ==> Left(recordings, fs, Some(n.(phase := RolledBack))))
        && (out.Refused? ==> Left(recordings, fs, Some(n.(phase := RollbackFailed))))
      ensures Undoes(recordings, old(fs), m, old(disk)) && Clean(old(fs), m) && Errors(old(script)) == 0 ==>
        && disk.Some? && Resumable(recordings, fs, disk.value)
        && (out.Done? ==> Resumable(recordings, fs, n.(phase := RolledBack)))
        && (out.Refused? ==> Resumable(recordings, fs, n.(phase := RollbackFailed)))
        && !out.Refused? && (out.Done? ==> fs.staging.None? && n.identity.None?)
    {
      hide HasRoot;
      out, n := QuarantineStaging(m);
    }

    /** The undoing itself: the view goes back, the staging root is set aside. */
    method PutBack(m: Manifest, source: Kind, staging: Kind, rollback: Kind)
      returns (out: Outcome<Reason>, n: Manifest)
      requires Unused() && Drawn(m) && Safe(recordings, fs)
      requires Seen(source, ClassifySource(recordings, m, fs.source))
      requires Seen(staging, ClassifyTree(recordings, m, fs.staging))
      requires Seen(rollback, ClassifyView(fs.rollback))
      modifies this
      ensures Careful() && Drawn(n) && Safe(recordings, fs)
      ensures !rollback.IsView? && !staging.Partial? && !staging.Hardlink? ==>
        && n == m && fs == old(fs) && disk == old(disk) && script == old(script) && !out.Killed?
        && (out.Done? <==> source.IsView? && staging.Missing? && rollback.Missing?)
      ensures Undoes(recordings, old(fs), m, old(disk)) && !(source.Hardlink? && rollback.IsView?) ==>
        && disk.Some? && Left(recordings, fs, disk)
        && (out.Done? ==> Left(recordings, fs, Some(n.(phase := RolledBack))))
        && (out.Refused? ==> Left(recordings, fs, Some(n.(phase := RollbackFailed))))
      ensures Undoes(recordings, old(fs), m, old(disk)) && Clean(old(fs), m) && Errors(old(script)) == 0
              && source == ClassifySource(recordings, m, old(fs).source) && rollback == ClassifyView(old(fs).rollback)
              && staging == ClassifyTree(recordings, m, old(fs).staging) && !(source.Hardlink? && rollback.IsView?) ==>
        && disk.Some? && Resumable(recordings, fs, disk.value)
        && (out.Done? ==> Resumable(recordings, fs, n.(phase := RolledBack)))
        && (out.Refused? ==> Resumable(recordings, fs, n.(phase := RollbackFailed)))
        && (if staging.Foreign? then out.Refused? && n == m && fs == old(fs)
            else !out.Refused? && (out.Done? ==> n.identity.None? && AtHome(fs)))
    {
      n := m;
      var src, rb, stg := source, rollback, staging;
      if src.Missing? && rb.IsView? && !stg.Foreign? {
        out := MoveView(false);
        if !out.Done? { return; }
        src, rb := IsView, Missing;
      }
      if src.IsView? && rb.Missing? && (stg.Partial? || stg.Hardlink?) {
        hide HasRoot;
        out, n := ClearStaging(n);
        if !out.Done? { return; }
        stg := Missing;
      }
      if !(src.IsView? && stg.Missing? && rb.Missing?) { return Refused(NotRollbackable), n; }
      return Done, n;
    }

    /** `_rollback_materialization_after_error`. With no second error, and none that struck
        after its effect before, it leaves a task that can be resumed; otherwise it may also
        leave a stuck one. */
    method Undo(m: Manifest) returns (out: Outcome<Reason>)
      requires Unused() && Drawn(m) && Safe(recordings, fs)
      modifies this
      ensures Careful() && Safe(recordings, fs)
      ensures Undoable(recordings, old(fs), m, old(disk))
              && old(disk).Some? && Resumable(recordings, old(fs), old(disk).value) ==>
        && disk.Some? && Left(recordings, fs, disk)
        && (Clean(old(fs), m) && Errors(old(script)) == 0 ==> Resumable(recordings, fs, disk.value))
        && (Clean(old(fs), m) && Errors(old(script)) == 0 && !m.phase.StagingQuarantining? && !out.Killed? ==>
              TurnedBack(recordings, old(fs), m, fs, disk))
      ensures m.phase.StagingQuarantining? ==> fs == old(fs) && disk == old(disk) && script == old(script)
      ensures Gone(old(fs), m) ==>
        && fs == old(fs) && (Quiet(old(script)) ==> !out.Killed?)
        && (disk == old(disk) || disk == Some(m.(phase := RolledBack)) || disk == Some(m.(phase := RollbackFailed)))
    {
      if m.phase.StagingQuarantining? { return Refused(Interrupted); }
      var source, staging, rollback;
      out, source, staging, rollback := States(m);
      if !out.Done? { return; }
      var n;
      if source.Hardlink? && rollback.IsView? {
        out, n := Commit(m);
        return;
      }
      hide HasRoot, Resumable, Safe, Drawn, Undoes, Clean;
      out := Restore(m, source, staging, rollback);
    }

    /** The undoing, and what it records. */
    method Restore(m: Manifest, source: Kind, staging: Kind, rollback: Kind) returns (out: Outcome<Reason>)
      requires Unused() && Drawn(m) && Safe(recordings, fs) && !(source.Hardlink? && rollback.IsView?)
      requires Seen(source, ClassifySource(recordings, m, fs.source))
      requires Seen(staging, ClassifyTree(recordings, m, fs.staging))
      requires Seen(rollback, ClassifyView(fs.rollback))
      modifies this
      ensures Careful() && Safe(recordings, fs)
      ensures !rollback.IsView? && !staging.Partial? && !staging.Hardlink? ==>
        && fs == old(fs) && (Quiet(old(script)) ==> !out.Killed?)
        && (disk == old(disk) || disk == Some(m.(phase := RolledBack)) || disk == Some(m.(phase := RollbackFailed)))
      ensures Undoes(recordings, old(fs), m, old(disk)) ==> disk.Some? && Left(recordings, fs, disk)
      ensures Undoes(recordings, old(fs), m, old(disk)) && Clean(old(fs), m) && Errors(old(script)) == 0
              && source == ClassifySource(recordings, m, old(fs).source) && rollback == ClassifyView(old(fs).rollback)
              && staging == ClassifyTree(recordings, m, old(fs).staging) ==>
        && disk.Some? && Resumable(recordings, fs, disk.value)
        && (!out.Killed? ==>
              if staging.Foreign? then fs == old(fs) && disk == Some(m.(phase := RollbackFailed))
              else AtHome(fs) && disk.value.phase.RolledBack? && disk.value.identity.None?)
    {
      hide HasRoot, Resumable, Safe, Undoes, Clean, Owned, ClassifyTree;
      var n;
      out, n := PutBack(m, source, staging, rollback);
      if out.Killed? { return; }
      var failed := out.Refused?;
      out, n := WritePhase(n, if failed then RollbackFailed else RolledBack);
      if out.Killed? { return; }
      return if failed then Refused(NotRollbackable) else Done;
    }

    /** `_roll_forward_materialization`. */
    method RollForward(m: Manifest) returns (out: Outcome<Reason>)
      requires Unused() && disk == Some(m) && Safe(recordings, fs)
      modifies this
      ensures out.Done? ==> Errors(script) == Errors(old(script))
      ensures Careful() && Safe(recordings, fs)
      ensures out.Done? ==> IsCommitted(recordings, fs, disk)
      ensures IsCommitted(recordings, old(fs), old(disk)) ==> fs == old(fs) && disk == old(disk)
      ensures !QuarantinesValid(old(fs), m) ==> out.Refused? && fs == old(fs) && disk == old(disk)
      ensures Gone(old(fs), m) ==> !out.Done? && fs == old(fs) && disk.Some? && Stuck(fs, disk.value)
      ensures Gone(old(fs), m) && Quiet(old(script)) ==> !out.Killed?
      ensures Resumable(recordings, old(fs), m) ==>
        && disk.Some? && Left(recordings, fs, disk)
        && (Mild(old(script)) ==> Resumable(recordings, fs, disk.value))
        && (!Presentable(recordings, old(fs), old(disk)) ==> !out.Done? && fs == old(fs) && disk == old(disk))
        && (Quiet(old(script)) ==> !out.Killed? && (out.Done? <==> Presentable(recordings, old(fs), old(disk))))
    {
      if !QuarantinesValid(fs, m) { return Refused(QuarantineChanged); }
      var n;
      out, n := EnsureIdentity(m);
      if !out.Done? { return; }
      hide HasRoot, Safe, Positions, IsComplete, Owned, QuarantinesHeld;
      out := Advance(n);
    }

    /** What the three names are found to hold decides how to go on. */
    method Advance(m: Manifest) returns (out: Outcome<Reason>)
      requires Unused() && Drawn(m) && Safe(recordings, fs)
      modifies this
      ensures out.Done? ==> Errors(script) == Errors(old(script))
      ensures Careful() && Safe(recordings, fs)
      ensures out.Done? && old(disk) == Some(m) ==> IsCommitted(recordings, fs, disk)
      ensures IsCommitted(recordings, old(fs), old(disk)) && old(disk) == Some(m) ==> fs == old(fs) && disk == old(disk)
      ensures Gone(old(fs), m) && old(disk) == Some(m) ==>
        && !out.Done? && fs == old(fs) && disk.Some? && Stuck(fs, disk.value)
        && (Quiet(old(script)) ==> !out.Killed?)
      ensures Recorded(recordings, old(fs), m, old(disk)) ==>
        && disk.Some? && Left(recordings, fs, disk)
        && (Mild(old(script)) ==> Resumable(recordings, fs, disk.value))
        && (!Presentable(recordings, old(fs), old(disk)) ==> !out.Done? && fs == old(fs) && disk == old(disk))
        && (Quiet(old(script)) ==> !out.Killed? && (out.Done? <==> Presentable(recordings, old(fs), old(disk))))
    {
      var source, staging, rollback;
      out, source, staging, rollback := States(m);
      if !out.Done? { return; }
      if Recorded(recordings, fs, m, disk) {
        ForeignIsHalfMade(recordings, fs, m);
      }
      if source.Foreign? || staging.Foreign? || rollback.Foreign? { return Refused(ForeignState); }
      if rollback.Missing? && !source.IsView? { return Refused(ForeignState); }
      if rollback.IsView? && source.IsView? { return Refused(Ambiguous); }
      if source.Hardlink? {
        if !staging.Missing? { return Refused(StagingChanged); }
        if m.phase.Committed? { return Done; }
        var n;
        out, n := Commit(m);
        return;
      }
      hide HasRoot, Resumable, Safe, Drawn, QuarantinesValid;
      out := GoForward(m, source, staging, rollback);
    }

    /** The guarded part and its error handler. */
    method GoForward(m: Manifest, source: Kind, staging: Kind, rollback: Kind) returns (out: Outcome<Reason>)
      requires Unused() && Drawn(m) && Safe(recordings, fs)
      requires source == ClassifySource(recordings, m, fs.source) && rollback == ClassifyView(fs.rollback)
      requires staging == ClassifyTree(recordings, m, fs.staging) && !source.Hardlink?
      modifies this
      ensures out.Done? ==> Errors(script) == Errors(old(script))
      ensures Careful() && Safe(recordings, fs)
      ensures out.Done? ==> IsCommitted(recordings, fs, disk)
      ensures Gone(old(fs), m) && old(disk) == Some(m) ==>
        && !out.Done? && fs == old(fs) && disk.Some? && Stuck(fs, disk.value)
        && (Quiet(old(script)) ==> !out.Killed?)
      ensures Recorded(recordings, old(fs), m, old(disk)) && !staging.Foreign? ==>
        && disk.Some? && Left(recordings, fs, disk)
        && (Mild(old(script)) && out.Refused? && !m.phase.RecoveryFailed? ==>
              Halted(recordings, old(fs), old(disk), fs, disk))
        && (Mild(old(script)) ==> Resumable(recordings, fs, disk.value))
        && (Quiet(old(script)) ==> out.Done?)
    {
      hide HasRoot, Resumable, Safe, Drawn, QuarantinesValid;
      var n;
      out, n := TryForward(m, source, staging, rollback);
      if out.Refused? && !n.phase.RecoveryFailed? {
        ghost var found := fs;
        var undone := Undo(n);
        if undone.Killed? { return Killed; }
        HaltedByUndo(recordings, found, n, fs, disk);
      }
    }

    /** `materialize_symlink_view_as_hardlinks`, first or again. Whatever fails, the view
        stays at exactly one of its two names and no staging root is removed; it reports
        success only for a committed task. From anything that calls can leave behind, a call
        that nothing disturbs commits if and only if nothing stops it, and what stops one call
        stops every later one: no name changes any more. With at most one error, and that
        before its step's effect, no call is ever stopped but by a recording's directory left
        half made. */
    method Run() returns (out: Outcome<Reason>)
      requires Unused() && Safe(recordings, fs)
      modifies this
      ensures out.Done? ==> Errors(script) == Errors(old(script))
      ensures Careful() && Safe(recordings, fs)
      ensures out.Done? ==> IsCommitted(recordings, fs, disk)
      ensures out.Done? ==>
        && fs.source.Some? && fs.source.value.Tree? && fs.rollback == Some(View) && fs.staging.None?
        && var content := fs.source.value.root.content;
          && (forall k: nat :: k in content <==> k < |recordings|)
          && (forall k: nat :: k in content ==> content[k].modeSet)
          && (forall k: nat, f: nat :: k in content ==> (f in content[k].files <==> f < recordings[k].files))
      ensures IsCommitted(recordings, old(fs), old(disk)) ==> fs == old(fs) && disk == old(disk)
      ensures old(disk).None? && old(fs) != Names(Some(View), None, None, map[], map[]) ==>
        out.Refused? && fs == old(fs) && disk.None?
      ensures Left(recordings, old(fs), old(disk)) ==>
        && Left(recordings, fs, disk)
        && (Quiet(old(script)) ==> !out.Killed? && (out.Done? <==> CanResume(recordings, old(fs), old(disk))))
      ensures Left(recordings, old(fs), old(disk)) && !CanResume(recordings, old(fs), old(disk)) ==>
        && !out.Done? && fs == old(fs) && !CanResume(recordings, fs, disk)
        && (disk == old(disk) || Gone(old(fs), old(disk).value))
      ensures Reachable(recordings, old(fs), old(disk)) && Mild(old(script)) ==>
        Reachable(recordings, fs, disk)
    {
      if Left(recordings, fs, disk) {
        StuckIsRefused(recordings, fs, disk);
      }
      if disk.None? {
        if fs.staging.Some? || fs.rollback.Some? || fs.constructions != map[] || fs.quarantined != map[] {
          return Refused(ForeignState);
        }
        if fs.source != Some(View) { return Refused(NotAView); }
        var m := Manifest(Reserved, None, next, []);
        next := next + 1;
        out, m := WritePhase(m, Reserved);
        if !out.Done? { return; }
      } else if !Loadable(disk.value) {
        return Refused(InvalidManifest);
      }
      hide HasRoot, Safe;
      out := RollForward(disk.value);
      if out.Done? {
        CommittedIsWhole(recordings, fs, disk);
      }
    }

    /** Any number of calls, each with any faults, then one that nothing disturbs: it commits
        if and only if nothing stops it, which the names and the manifest show before it. */
    method RunAll(scripts: seq<seq<Event>>) returns (out: Outcome<Reason>)
      requires Unused() && disk.None? && fs == Names(Some(View), None, None, map[], map[])
      modifies this
      ensures Safe(recordings, fs) && KeepsRoots(old(fs), fs) && Left(recordings, fs, disk)
      ensures out.Done? ==> IsCommitted(recordings, fs, disk)
      ensures out.Done? ==>
        && fs.source.Some? && fs.source.value.Tree? && fs.rollback == Some(View) && fs.staging.None?
        && var content := fs.source.value.root.content;
          && (forall k: nat :: k in content <==> k < |recordings|)
          && (forall k: nat :: k in content ==> content[k].modeSet)
          && (forall k: nat, f: nat :: k in content ==> (f in content[k].files <==> f < recordings[k].files))
      ensures out.Done? <==> CanResume(recordings, fs, disk)
      ensures AllHonoured(recordings) ==> (out.Done? <==> Reachable(recordings, fs, disk))
      ensures AllHonoured(recordings) && (forall k :: 0 <= k < |scripts| ==> Mild(scripts[k])) ==> out.Done?
    {
      hide HasRoot, Resumable, Presentable, CanResume, Stuck;
      for k := 0 to |scripts|
        invariant Unused() && Safe(recordings, fs) && KeepsRoots(old(fs), fs) && Left(recordings, fs, disk)
        invariant (forall j :: 0 <= j < k ==> Mild(scripts[j])) ==> Reachable(recordings, fs, disk)
      {
        script := scripts[k];
        out := Run();
      }
      Guards(recordings, fs, disk);
      script := [];
      out := Run();
      Guards(recordings, fs, disk);
    }
  }

  /** What the guards stop, and what they do not. */
  lemma Guards(recordings: Recordings, fs: Names, disk: Option<Manifest>)
    requires Left(recordings, fs, disk)
    ensures CanResume(recordings, fs, disk) ==> Reachable(recordings, fs, disk)
    ensures AllHonoured(recordings) && Reachable(recordings, fs, disk) ==> CanResume(recordings, fs, disk)
    ensures IsCommitted(recordings, fs, disk) && Reachable(recordings, fs, disk) ==> CanResume(recordings, fs, disk)
  {
    StuckIsRefused(recordings, fs, disk);
    if AllHonoured(recordings) && Reachable(recordings, fs, disk) {
      HonouredIsPresentable(recordings, fs, disk);
    }
  }

  lemma HaltedByUndo(recordings: Recordings, before: Names, m: Manifest, fs: Names, disk: Option<Manifest>)
    ensures TurnedBack(recordings, before, m, fs, disk) && disk.Some? && Resumable(recordings, fs, disk.value) ==>
      || (AtHome(fs) && disk.value.phase.RolledBack?) || IsCommitted(recordings, fs, disk)
      || (disk.value.phase.RollbackFailed? && !Presentable(recordings, fs, disk))
  {
    if TurnedBack(recordings, before, m, fs, disk) && disk.Some? && Resumable(recordings, fs, disk.value)
       && disk.value.phase.RollbackFailed? && !IsCommitted(recordings, fs, disk) {
      ForeignIsHalfMade(recordings, fs, disk.value);
    }
  }

  /** What is committed holds every recording, with its mode and exactly its files, and no other. */
  lemma CommittedIsWhole(recordings: Recordings, fs: Names, disk: Option<Manifest>)
    requires IsCommitted(recordings, fs, disk)
    ensures var content := fs.source.value.root.content;
      && (forall k: nat :: k in content <==> k < |recordings|)
      && (forall k: nat :: k in content ==> content[k].modeSet)
      && (forall k: nat, f: nat :: k in content ==> (f in content[k].files <==> f < recordings[k].files))
  {
  }

  /** What the three answers about an owned root mean, in terms of what is in it: foreign is a
      directory or a file that was not planned or a mode not set, and otherwise the tree is
      whole or a part of it is missing. */
  lemma KindsOfTree(recordings: Recordings, m: Manifest, r: Root)
    requires m.identity == Some(r.id) && r.marker == Some(m.reservation)
    ensures var kind := ClassifyTree(recordings, m, Some(Tree(r)));
      && (kind.Foreign? <==> exists k: nat :: k in r.content
                               && (k >= |recordings| || !r.content[k].modeSet
                                   || exists f: nat :: f in r.content[k].files && f >= recordings[k].files))
      && (kind.Hardlink? ==> forall k: nat, f: nat :: k < |recordings| && f < recordings[k].files ==>
                               k in r.content && f in r.content[k].files)
      && (kind.Partial? ==> exists k: nat :: k < |recordings|
                               && (k !in r.content
                                   || exists f: nat :: f < recordings[k].files && f !in r.content[k].files))
      && (kind.Foreign? || kind.Hardlink? || kind.Partial?)
  {
  }

  /** A kill between a directory's creation and the setting of its mode, under a umask that
      does not leave the wanted mode alone: every later call finds the staging root foreign. */
  lemma HalfMadeExample() returns (recordings: Recordings, fs: Names, m: Manifest)
    ensures Reachable(recordings, fs, Some(m)) && !Presentable(recordings, fs, Some(m))
  {
    recordings := [Recording(1, false)];
    m := Manifest(Preparing, Some(5), 3, []);
    fs := Names(Some(View), Some(Tree(Root(5, Some(3), map[0 := Staged(false, {})]))), None, map[], map[]);
    assert 0 in fs.staging.value.root.content;
  }

  /** With the staging root recorded, the one thing a call refuses is a half-made directory. */
  lemma ForeignIsHalfMade(recordings: Recordings, fs: Names, m: Manifest)
    requires Recorded(recordings, fs, m, Some(m))
    ensures ClassifyTree(recordings, m, fs.staging).Foreign? <==> !Presentable(recordings, fs, Some(m))
    ensures !ClassifySource(recordings, m, fs.source).Foreign? && !ClassifyView(fs.rollback).Foreign?
  {
  }

  /** What the handler can undo. */
  predicate Undoes(recordings: Recordings, fs: Names, m: Manifest, disk: Option<Manifest>) {
    && !m.phase.StagingQuarantining? && Undoable(recordings, fs, m, disk)
    && disk.Some? && Resumable(recordings, fs, disk.value)
  }

  /** The quarantine of a staging root has not been begun, or is under way. */
  predicate Between(before: Names, was: Option<Manifest>, fs: Names, disk: Option<Manifest>) {
    || (fs == before && disk == was)
    || (disk.Some? && (disk.value.phase.StagingQuarantining? || disk.value.phase.StagingReplacing?))
  }

  /** How a call ends that met one error: its work is undone, or finished after all, or it left a
      directory half made, or it was in the middle of a quarantine, or it could not verify the
      finished tree. */
  predicate Halted(recordings: Recordings, before: Names, was: Option<Manifest>, fs: Names, disk: Option<Manifest>) {
    || (AtHome(fs) && disk.Some? && disk.value.phase.RolledBack?)
    || IsCommitted(recordings, fs, disk)
    || (disk.Some? && disk.value.phase.RollbackFailed? && !Presentable(recordings, fs, disk))
    || Between(before, was, fs, disk)
    || (fs.rollback == Some(View) && IsComplete(recordings, fs.source))
  }

  /** The view has its name, and nothing is staged or set aside. */
  predicate AtHome(fs: Names) {
    fs.source == Some(View) && fs.rollback.None? && fs.staging.None?
  }

  /** What an undoing that nothing disturbs ends with: a finished tree is committed after all; a
      half-made directory is left alone; from anywhere else the task is as before the call. */
  predicate TurnedBack(recordings: Recordings, before: Names, m: Manifest, fs: Names, disk: Option<Manifest>) {
    if Committable(recordings, before, m) then IsCommitted(recordings, fs, disk)
    else if ClassifyTree(recordings, m, before.staging).Foreign? then
      fs == before && disk == Some(m.(phase := RollbackFailed))
    else AtHome(fs) && disk.Some? && disk.value.phase.RolledBack? && disk.value.identity.None?
  }

  /** What a name is taken for: what it is, or foreign. */
  predicate Seen(k: Kind, truth: Kind) {
    k == truth || k.Foreign?
  }

  predicate CanMove(fs: Names, toRollback: bool) {
    if toRollback then fs.source == Some(View) && fs.rollback.None?
    else fs.rollback == Some(View) && fs.source.None?
  }

  function Installed(fs: Names): Names {
    fs.(source := fs.staging, staging := None)
  }

  function Moved(fs: Names, toRollback: bool): Names {
    if toRollback then fs.(source := None, rollback := Some(View))
    else fs.(source := Some(View), rollback := None)
  }

  /** The task is the whole tree, the view is kept under the rollback name, nothing is
      staged, and the manifest says committed. */
  predicate IsCommitted(recordings: Recordings, fs: Names, disk: Option<Manifest>) {
    && disk.Some? && disk.value.phase.Committed?
    && Owned(disk.value, fs.source) && IsComplete(recordings, fs.source)
    && fs.rollback == Some(View) && fs.staging.None?
  }

  /** The view is in place, a staging root is recorded, and the disk says so. */
  predicate AtView(recordings: Recordings, fs: Names, m: Manifest, disk: Option<Manifest>) {
    Recorded(recordings, fs, m, disk) && fs.source == Some(View)
  }

  /** The view has stepped aside for the complete tree. */
  predicate Archived(recordings: Recordings, fs: Names, m: Manifest, disk: Option<Manifest>) {
    Recorded(recordings, fs, m, disk) && fs.source.None?
  }

  predicate Recorded(recordings: Recordings, fs: Names, m: Manifest, disk: Option<Manifest>) {
    Resumable(recordings, fs, m) && disk == Some(m) && !NoIdentityYet(m.phase) && !m.phase.StagingQuarantining?
  }

  predicate Committable(recordings: Recordings, fs: Names, m: Manifest) {
    ClassifyTree(recordings, m, fs.source).Hardlink? && ClassifyView(fs.rollback).IsView?
  }

  /** The first recordings are whole and nothing else is there. */
  predicate BuiltTo(recordings: Recordings, content: map<nat, Staged>, k: nat)
    requires k <= |recordings|
  {
    && (forall j :: j in content ==> j < k)
    && (forall j :: 0 <= j < k ==> j in content && content[j].modeSet && Full(content[j].files, recordings[j].files))
  }

  /** The staging root is gone from its public name and a new one is reserved. */
  predicate SetAsideAs(fs: Names, n: Manifest) {
    n.phase.StagingReplacing? && n.identity.None? && fs.staging.None? && n.reservation !in fs.constructions
  }

  /** What an error handler finds in memory: a transition to leave alone, a quarantine named
      and not yet recorded, or a state that the manifest in memory describes, even where the
      one on disk lags behind. */
  predicate Undoable(recordings: Recordings, fs: Names, m: Manifest, disk: Option<Manifest>) {
    || m.phase.StagingQuarantining?
    || (fs.source == Some(View) && Holed(fs, m))
    || (Settled(recordings, fs, m) && (fs.source == Some(View) || Paired(m, disk)))
  }

  /** What the manifest in memory says about the names, its phase apart. */
  predicate Settled(recordings: Recordings, fs: Names, m: Manifest) {
    && Safe(recordings, fs) && QuarantinesHeld(fs, m, |m.quarantines|)
    && if m.identity.None? then fs.source == Some(View) && ReservationFits(fs, m)
       else Positions(recordings, fs, m.(phase := RollbackFailed))
  }

  /** What an error leaves that does not strike after its step's effect. */
  predicate Clean(fs: Names, m: Manifest) {
    m.phase.StagingQuarantining? || (!Holed(fs, m) && (m.identity.None? ==> fs.staging.None?))
  }

  /** The manifest on disk differs from the one in memory in its phase alone. */
  predicate Paired(m: Manifest, disk: Option<Manifest>) {
    && disk.Some? && disk.value.(phase := m.phase) == m
    && !NoIdentityYet(disk.value.phase) && !disk.value.phase.StagingQuarantining?
  }

  /** The manifest and the names allow the staging root to be set aside. */
  predicate CanQuarantine(fs: Names, m: Manifest) {
    if m.phase.StagingQuarantining? then BeingQuarantined(fs, m)
    else Owned(m, fs.staging) && QuarantinesHeld(fs, m, |m.quarantines|)
  }

  /** A finished quarantine leaves a new reservation and nothing else to do. */
  lemma ReplacingIsResumable(recordings: Recordings, before: Names, after: Names, m: Manifest, n: Manifest)
    requires after == before.(staging := None, quarantined := after.quarantined)
    requires SetAsideAs(after, n)
    requires CanQuarantine(before, m) ==> QuarantinesHeld(after, n, |n.quarantines|)
    ensures CanQuarantine(before, m) && Safe(recordings, before) && before.source == Some(View) ==>
      Resumable(recordings, after, n)
  {
  }

  /** The quarantine that is being filled was drawn after all the others. */
  predicate LastIsNew(m: Manifest) {
    forall i :: 0 <= i < |m.quarantines| - 1 ==> m.quarantines[i].path != m.quarantines[|m.quarantines| - 1].path
  }

  /** A hole is not filled by naming or filling another quarantine. */
  lemma HoleStays(before: Names, after: Names, m: Manifest, n: Manifest)
    requires m.quarantines <= n.quarantines
    requires n == m || (|n.quarantines| == |m.quarantines| + 1 && !m.phase.StagingQuarantining?)
    requires forall t :: t in after.quarantined && t !in before.quarantined ==>
      m.phase.StagingQuarantining? && LastIsNew(m)
      && m.quarantines != [] && t == m.quarantines[|m.quarantines| - 1].path
    ensures Holed(before, m) ==> Holed(after, n)
  {
    if Holed(before, m) {
      var i :| 0 <= i < |m.quarantines| && m.quarantines[i].path !in before.quarantined
               && !(m.phase.StagingQuarantining? && i == |m.quarantines| - 1);
      assert n.quarantines[i] == m.quarantines[i];
    }
  }

  lemma AddedConstruction(before: Names, after: Names, t: nat)
    requires t !in before.constructions && t in after.constructions
    requires after == before.(constructions := before.constructions[t := after.constructions[t]])
    ensures KeepsRoots(before, after)
  {
    forall id | HasRoot(before, id)
      ensures HasRoot(after, id)
    {
      if u :| u in before.constructions && before.constructions[u].id == id {
        assert after.constructions[u] == before.constructions[u];
      }
    }
  }

  lemma MarkedConstruction(before: Names, after: Names, t: nat)
    requires t in before.constructions && t in after.constructions
      && before.constructions[t].id == after.constructions[t].id
    requires after == before.(constructions := before.constructions[t := after.constructions[t]])
    ensures KeepsRoots(before, after)
  {
    forall id | HasRoot(before, id)
      ensures HasRoot(after, id)
    {
      if u :| u in before.constructions && before.constructions[u].id == id {
        assert after.constructions[u].id == before.constructions[u].id;
      }
    }
  }

  lemma PublishedConstruction(before: Names, after: Names, t: nat)
    requires before.staging.None? && t in before.constructions
    requires after == before.(staging := Some(Tree(before.constructions[t])),
                              constructions := before.constructions - {t})
    ensures KeepsRoots(before, after)
  {
    forall id | HasRoot(before, id)
      ensures HasRoot(after, id)
    {
      if u :| u in before.constructions && before.constructions[u].id == id {
        if u != t {
          assert u in after.constructions && after.constructions[u].id == id;
        }
      }
    }
  }

  lemma MovedToSource(fs: Names)
    requires fs.source.None?
    ensures KeepsRoots(fs, Installed(fs))
  {
  }

  lemma SetAside(before: Names, after: Names, t: nat)
    requires before.staging.Some? && before.staging.value.Tree? && t !in before.quarantined
    requires after == before.(staging := None, quarantined := before.quarantined[t := before.staging.value.root])
    ensures KeepsRoots(before, after)
  {
    assert after.quarantined[t].id == before.staging.value.root.id;
    forall id | HasRoot(before, id)
      ensures HasRoot(after, id)
    {
      if u :| u in before.quarantined && before.quarantined[u].id == id {
        assert after.quarantined[u].id == id;
      }
    }
  }
}
