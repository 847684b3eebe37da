/** The reconciliation of convert_state.json after a committed partition, and its
    rollback: composition of the scoped entries over a file that other writers keep
    editing, with one durable backup and kills between any two durable steps. */
module Reconcile {
  import opened Common
  import opened Json
  import D = StateDerivation

  datatype Reason = Undecodable | Underivable(why: D.Reason) | Conflict | NoBackup | NotVerified

  /** The plan with the outputs and the commit time, which stay fixed once committed. */
  datatype Job = Job(plan: D.Plan, outputs: map<string, D.Output>, at: string)

  ghost predicate ValidJob(job: Job) {
    D.ValidPlan(job.plan) && D.ValidOutputs(job.plan, job.outputs)
  }

  ghost predicate Derivable(job: Job, base: State)
    requires ValidJob(job)
  {
    D.Derivable(base, job.plan, job.outputs)
  }

  ghost function Desired(job: Job, base: State): State
    requires ValidJob(job) && Derivable(job, base)
  {
    D.Replacement(base, job.plan, job.outputs, job.at)
  }

  function EntryOf(s: State, task: string): Option<Value> {
    if task in s then Some(s[task]) else None
  }

  function ScopeList(plan: D.Plan): (r: seq<string>)
    ensures forall t :: t in r <==> D.InScope(plan, t)
  {
    var tasks := seq(|plan.destinations|, i requires 0 <= i < |plan.destinations| => plan.destinations[i].task);
    SortedSetIsSorted(tasks);
    assert forall i :: 0 <= i < |tasks| ==> tasks[i] == plan.destinations[i].task;
    [plan.source] + SortedSet(tasks)
  }

  // ------------------------------------------------------------------ the lens

  /** `current` with every entry in scope taken from `scoped`. */
  function Compose(current: State, scoped: State, plan: D.Plan): (r: State)
    ensures forall t :: D.InScope(plan, t) ==> EntryOf(r, t) == EntryOf(scoped, t)
    ensures forall t :: !D.InScope(plan, t) ==> EntryOf(r, t) == EntryOf(current, t)
  {
    map t | t in current.Keys + scoped.Keys && (if D.InScope(plan, t) then t in scoped else t in current) ::
      if D.InScope(plan, t) then scoped[t] else current[t]
  }

  lemma SameEntries(a: State, b: State)
    requires forall t :: EntryOf(a, t) == EntryOf(b, t)
    ensures a == b
  {
    forall t
      ensures (t in a <==> t in b) && (t in a ==> a[t] == b[t])
    {
      assert EntryOf(a, t) == EntryOf(b, t);
    }
    assert a.Keys == b.Keys;
  }

  /** The lens laws: what was put is what is there, putting back what is there changes
      nothing, and a later put forgets an earlier one. */
  lemma LensLaws(current: State, a: State, b: State, plan: D.Plan)
    ensures Compose(current, current, plan) == current
    ensures Compose(Compose(current, a, plan), b, plan) == Compose(current, b, plan)
    ensures Compose(current, Compose(b, a, plan), plan) == Compose(current, a, plan)
  {
    SameEntries(Compose(current, current, plan), current);
    SameEntries(Compose(Compose(current, a, plan), b, plan), Compose(current, b, plan));
    SameEntries(Compose(current, Compose(b, a, plan), plan), Compose(current, a, plan));
  }

  ghost predicate SameScope(a: State, b: State, plan: D.Plan) {
    forall t :: D.InScope(plan, t) ==> EntryOf(a, t) == EntryOf(b, t)
  }

  lemma SameScopeComposes(current: State, a: State, b: State, plan: D.Plan)
    requires SameScope(a, b, plan)
    ensures Compose(current, a, plan) == Compose(current, b, plan)
  {
    SameEntries(Compose(current, a, plan), Compose(current, b, plan));
  }

  /** The derivation looks at the entries in scope only. */
  lemma DerivationIsLocal(job: Job, a: State, b: State)
    requires ValidJob(job) && SameScope(a, b, job.plan)
    ensures Derivable(job, a) <==> Derivable(job, b)
    ensures Derivable(job, a) ==> SameScope(Desired(job, a), Desired(job, b), job.plan)
  {
    forall t | D.InScope(job.plan, t)
      ensures D.Before(a, t) == D.Before(b, t)
      ensures t == job.plan.source ==> D.SourceEntry(a, t) == D.SourceEntry(b, t)
    {
      assert EntryOf(a, t) == EntryOf(b, t);
    }
    forall i | 0 <= i < |job.plan.destinations|
      ensures D.DestinationDerivable(a, D.At(job.plan, i), job.outputs) <==>
              D.DestinationDerivable(b, D.At(job.plan, i), job.outputs)
    {
      assert D.InScope(job.plan, D.At(job.plan, i).task);
    }
    if Derivable(job, a) {
      forall t | D.InScope(job.plan, t)
        ensures EntryOf(Desired(job, a), t) == EntryOf(Desired(job, b), t)
      {
        assert EntryOf(a, t) == EntryOf(b, t);
        assert D.Touched(a, job.plan, job.outputs, t) <==> D.Touched(b, job.plan, job.outputs, t);
      }
    }
  }

  // ------------------------------------------------------------------ conflicts

  /** `_entry_is_admissible` on the three entries of one task. */
  predicate Admissible(current: Option<Value>, before: Option<Value>, desired: Option<Value>) {
    if current == before || current == desired then true
    else if current.None? then before.None? || desired.None?
    else if before.None? || desired.None? then false
    else if !current.value.Obj? || !before.value.Obj? || !desired.value.Obj? then false
    else
      var c, b, d := current.value.fields, before.value.fields, desired.value.fields;
      forall f | f in c.Keys + b.Keys + d.Keys ::
        EntryOf(c, f) == EntryOf(b, f) || EntryOf(c, f) == EntryOf(d, f)
  }

  /** What may be overwritten: the entry is one of the two versions, or all three are
      objects and each field, present or not, is the one or the other version's. */
  lemma AdmissibleExact(current: Option<Value>, before: Option<Value>, desired: Option<Value>)
    ensures Admissible(current, before, desired) <==>
      || current == before || current == desired
      || (&& current.Some? && before.Some? && desired.Some?
          && current.value.Obj? && before.value.Obj? && desired.value.Obj?
          && forall f :: || EntryOf(current.value.fields, f) == EntryOf(before.value.fields, f)
                         || EntryOf(current.value.fields, f) == EntryOf(desired.value.fields, f))
  {
    if current.Some? && before.Some? && desired.Some?
       && current.value.Obj? && before.value.Obj? && desired.value.Obj? {
      var c, b, d := current.value.fields, before.value.fields, desired.value.fields;
      if Admissible(current, before, desired) && current != before && current != desired {
        forall f
          ensures EntryOf(c, f) == EntryOf(b, f) || EntryOf(c, f) == EntryOf(d, f)
        {
          if f !in c.Keys + b.Keys + d.Keys {
            assert EntryOf(c, f) == EntryOf(b, f);
          }
        }
      }
    }
  }

  ghost predicate Composable(current: State, before: State, desired: State, plan: D.Plan) {
    forall t :: D.InScope(plan, t) ==> Admissible(EntryOf(current, t), EntryOf(before, t), EntryOf(desired, t))
  }

  /** `_validate_composable_scope`: no task in scope conflicts. */
  method ValidateComposable(current: State, before: State, desired: State, plan: D.Plan) returns (ok: bool)
    ensures ok <==> Composable(current, before, desired, plan)
  {
    var tasks := ScopeList(plan);
    ok := true;
    for k := 0 to |tasks|
      invariant ok <==> forall i :: 0 <= i < k ==>
        Admissible(EntryOf(current, tasks[i]), EntryOf(before, tasks[i]), EntryOf(desired, tasks[i]))
    {
      if !Admissible(EntryOf(current, tasks[k]), EntryOf(before, tasks[k]), EntryOf(desired, tasks[k])) {
        ok := false;
      }
    }
    if ok {
      forall t | D.InScope(plan, t)
        ensures Admissible(EntryOf(current, t), EntryOf(before, t), EntryOf(desired, t))
      {
        assert t in tasks;
      }
    } else {
      var i :| 0 <= i < |tasks| &&
        !Admissible(EntryOf(current, tasks[i]), EntryOf(before, tasks[i]), EntryOf(desired, tasks[i]));
      assert tasks[i] in tasks;
    }
  }

  /** `_compose_scope`, task by task. */
  method ComposeScope(current: State, scoped: State, plan: D.Plan) returns (result: State)
    ensures result == Compose(current, scoped, plan)
  {
    var tasks := ScopeList(plan);
    result := current;
    for k := 0 to |tasks|
      invariant forall t :: EntryOf(result, t) == if t in tasks[..k] then EntryOf(scoped, t) else EntryOf(current, t)
    {
      var t := tasks[k];
      if t in scoped {
        result := result[t := scoped[t]];
      } else {
        result := result - {t};
      }
      assert tasks[..k + 1] == tasks[..k] + [t];
    }
    assert tasks[..|tasks|] == tasks;
    SameEntries(result, Compose(current, scoped, plan));
  }

  // ------------------------------------------------------------------ the two commands

  /** Why an apply that is not killed would refuse. */
  ghost predicate ApplyRefuses(job: Job, state: File, backup: Option<File>)
    requires ValidJob(job)
  {
    var base := if backup.Some? then backup.value else state;
    || base.Torn?
    || !Derivable(job, base.state)
    || (backup.Some? &&
          (|| state.Torn?
           || !Composable(state.state, base.state, Desired(job, base.state), job.plan)
           || (state.state == Compose(state.state, Desired(job, base.state), job.plan) && state.layout != Canonical)))
  }

  /** What a successful apply leaves in the state file. */
  ghost function Applied(job: Job, state: File, backup: Option<File>): File
    requires ValidJob(job) && !ApplyRefuses(job, state, backup)
  {
    var base := if backup.Some? then backup.value else state;
    Doc(Compose(state.state, Desired(job, base.state), job.plan), Canonical)
  }

  ghost predicate RollbackRefuses(job: Job, state: File, backup: Option<File>)
    requires ValidJob(job)
  {
    || backup.None? || backup.value.Torn? || state.Torn?
    || (&& state.state != backup.value.state
        && (|| !Derivable(job, backup.value.state)
            || !Composable(state.state, backup.value.state, Desired(job, backup.value.state), job.plan)))
  }

  ghost function RolledBack(job: Job, state: File, backup: Option<File>): File
    requires ValidJob(job) && !RollbackRefuses(job, state, backup)
  {
    var restored := Compose(state.state, backup.value.state, job.plan);
    if state.state == backup.value.state then state
    else if restored == backup.value.state then backup.value
    else Doc(restored, Canonical)
  }

  /** A backup that a kill has left behind: cut short, or only trailing white space short of
      the whole, so that it still decodes. */
  predicate CutOf(cut: File, content: File) {
    cut.Torn? || (content.Doc? && cut.Doc? && cut.state == content.state)
  }

  class Store {
    var state: File
    var backup: Option<File>
    var life: Life

    /** The layouts a document passes through while its trailing white space is written. */
    const trailing: Layout -> seq<Layout>

    constructor (state: File, trailing: Layout -> seq<Layout>)
      ensures this.state == state && this.trailing == trailing && backup.None?
    {
      this.state, this.trailing, backup, life := state, trailing, None, Immortal;
    }

    /** About to make one more durable change: does the process live to make it? */
    method Tick() returns (alive: bool)
      modifies this`life
      ensures alive <==> old(life) != Mortal(0)
      ensures life == match old(life)
                      case Immortal => Immortal
                      case Mortal(n) => Mortal(if n == 0 then 0 else n - 1)
    {
      match life
      case Immortal => alive := true;
      case Mortal(n) =>
        alive := n > 0;
        if alive { life := Mortal(n - 1); }
    }

    /** The backup is created under its final name and then filled. */
    method WriteBackup(content: File) returns (alive: bool)
      requires backup.None?
      modifies this`life, this`backup
      ensures old(life).Immortal? ==> alive && life.Immortal?
      ensures alive ==> backup == Some(content)
      ensures !alive ==> backup.None? || CutOf(backup.value, content)
    {
      alive := Tick();
      if !alive { return; }
      backup := Some(Torn);
      var layouts := if content.Doc? then trailing(content.layout) else [];
      for k := 0 to |layouts|
        invariant old(life).Immortal? ==> life.Immortal?
        invariant backup.Some? && CutOf(backup.value, content)
      {
        alive := Tick();
        if !alive { return; }
        backup := Some(Doc(content.state, layouts[k]));
      }
      alive := Tick();
      if !alive { return; }
      backup := Some(content);
    }

    /** A complete new file takes the state file's place in one step. */
    method Install(content: File) returns (alive: bool)
      modifies this`life, this`state
      ensures old(life).Immortal? ==> alive && life.Immortal?
      ensures state == if alive then content else old(state)
    {
      alive := Tick();
      if alive { state := content; }
    }

    /** `reconcile_partition_state`. */
    method Apply(job: Job) returns (out: Outcome<Reason>)
      requires ValidJob(job)
      modifies this
      ensures out.Refused? ==> ApplyRefuses(job, old(state), old(backup))
      ensures out.Refused? ==> state == old(state) && backup == old(backup)
      ensures out.Done? ==> !ApplyRefuses(job, old(state), old(backup))
      ensures out.Done? ==> state == Applied(job, old(state), old(backup))
      ensures out.Done? ==> backup == Some(if old(backup).Some? then old(backup.value) else old(state))
      ensures out.Killed? ==> state == old(state) && !old(life).Immortal?
      ensures out.Killed? && backup != old(backup) ==>
        && old(backup).None? && backup.Some? && CutOf(backup.value, old(state))
        && old(state).Doc? && Derivable(job, old(state).state)
    {
      var base := if backup.Some? then backup.value else state;
      if base.Torn? { return Refused(Undecodable); }
      var derived := D.DeriveReplacement(base.state, job.plan, job.outputs, job.at);
      if derived.Err? { return Refused(Underivable(derived.reason)); }
      var replacement := derived.value;
      var expected;
      if backup.Some? {
        if state.Torn? { return Refused(Undecodable); }
        var ok := ValidateComposable(state.state, base.state, replacement, job.plan);
        if !ok { return Refused(Conflict); }
        var composed := ComposeScope(state.state, replacement, job.plan);
        expected := Doc(composed, Canonical);
        if state.state != composed {
          var alive := Install(expected);
          if !alive { return Killed; }
        }
      } else {
        var composed := ComposeScope(state.state, replacement, job.plan);
        expected := Doc(composed, Canonical);
        var alive := WriteBackup(state);
        if !alive { return Killed; }
        alive := Install(expected);
        if !alive { return Killed; }
      }
      if state != expected { return Refused(NotVerified); }
      return Done;
    }

    /** `rollback_partition_state`. */
    method Rollback(job: Job) returns (out: Outcome<Reason>)
      requires ValidJob(job)
      modifies this
      ensures backup == old(backup)
      ensures out.Refused? ==> RollbackRefuses(job, old(state), backup) && state == old(state)
      ensures out.Done? ==> !RollbackRefuses(job, old(state), backup)
      ensures out.Done? ==> state == RolledBack(job, old(state), backup)
      ensures out.Done? ==> state.Doc? && state.state == Compose(old(state).state, backup.value.state, job.plan)
      ensures out.Killed? ==> state == old(state) && !old(life).Immortal?
    {
      if backup.None? { return Refused(NoBackup); }
      if state.Torn? || backup.value.Torn? { return Refused(Undecodable); }
      var current, before := state.state, backup.value.state;
      LensLaws(current, current, current, job.plan);
      var expected := state;
      if current != before {
        var derived := D.DeriveReplacement(before, job.plan, job.outputs, job.at);
        if derived.Err? { return Refused(Underivable(derived.reason)); }
        var ok := ValidateComposable(current, before, derived.value, job.plan);
        if !ok { return Refused(Conflict); }
        var restored := ComposeScope(current, before, job.plan);
        expected := if restored == before then backup.value else Doc(restored, Canonical);
        var alive := Install(expected);
        if !alive { return Killed; }
      }
      if state != expected { return Refused(NotVerified); }
      return Done;
    }

    /** Some other writer replaces the state file, changing one task out of scope. */
    method Edit(task: string, entry: Option<Value>, layout: Layout)
      requires state.Doc?
      modifies this`state
      ensures state == Doc(Edited(old(state).state, task, entry), layout)
    {
      state := Doc(Edited(state.state, task, entry), layout);
    }

    /** One step of a run, from any state a run can reach. Neither command ever reports a
        conflict. An apply that is not killed ends with every scoped entry derived, unless
        the backup was cut short, nothing can be derived, or the file already holds the
        result in another layout. A rollback that is not killed ends with every scoped entry
        restored as soon as there is a whole backup. */
    method Perform(job: Job, step: Step, ghost base: State, ghost outside: State) returns (out: Outcome<Reason>)
      requires ValidJob(job) && Balanced(job, base, outside, state, backup)
      requires step.Edit? ==> !D.InScope(job.plan, step.task)
      modifies this
      ensures Balanced(job, base, OutsideAfter(outside, step), state, backup)
      ensures step.Apply? && out.Done? ==>
        Derivable(job, base) && state == Doc(Compose(outside, Desired(job, base), job.plan), Canonical)
      ensures step.Apply? && out.Refused? ==> ApplyStuck(job, base, outside, old(state), old(backup))
      ensures step.Apply? && step.life.Immortal? ==>
        (out.Refused? <==> ApplyStuck(job, base, outside, old(state), old(backup))) && !out.Killed?
      ensures old(backup) == Some(Torn) ==> backup == Some(Torn)
      ensures step.Rollback? && out.Done? ==> state.state == Compose(outside, base, job.plan)
      ensures step.Rollback? && out.Refused? ==> backup.None? || backup.value.Torn?
      ensures step.Rollback? && step.life.Immortal? ==>
        (out.Refused? <==> backup.None? || backup.value.Torn?) && !out.Killed?
    {
      match step
      case Apply(l) =>
        ApplyIsStuck(job, base, outside, state, backup);
        life := l;
        out := Apply(job);
        ApplyKeepsBalance(job, base, outside, old(state), old(backup));
      case Rollback(l) =>
        RollbackIsReady(job, base, outside, state, backup);
        life := l;
        out := Rollback(job);
        RollbackKeepsBalance(job, base, outside, old(state), backup);
      case Edit(task, entry, layout) =>
        EditKeepsBalance(job, base, outside, state, backup, task, entry, layout);
        Edit(task, entry, layout);
        out := Done;
    }

    /** Any run of applies and rollbacks, each killed anywhere or not at all, mixed with
        edits of other tasks: the entries in scope are always wholly the original ones or
        wholly the derived ones, the rest is what the edits alone make of it, and neither
        command ever reports a conflict. */
    method RunAll(job: Job, steps: seq<Step>)
      requires ValidJob(job) && state.Doc? && backup.None?
      requires forall i :: 0 <= i < |steps| && steps[i].Edit? ==> !D.InScope(job.plan, steps[i].task)
      modifies this
      ensures state.Doc?
      ensures var outside := OutsideAfterAll(old(state).state, steps);
        || state.state == outside
        || (&& Derivable(job, old(state).state)
            && state.state == Compose(outside, Desired(job, old(state).state), job.plan))
      ensures Balanced(job, old(state).state, OutsideAfterAll(old(state).state, steps), state, backup)
    {
      ghost var base, outside := state.state, state.state;
      LensLaws(base, base, base, job.plan);
      assert steps[..0] == [];
      for k := 0 to |steps|
        invariant outside == OutsideAfterAll(base, steps[..k])
        invariant Balanced(job, base, outside, state, backup)
      {
        var out := Perform(job, steps[k], base, outside);
        outside := OutsideAfter(outside, steps[k]);
        assert steps[..k + 1][..k] == steps[..k];
      }
      assert steps[..|steps|] == steps;
      OutsideKeepsScope(job, base, steps);
      SameScopeComposes(outside, base, outside, job.plan);
      LensLaws(outside, outside, outside, job.plan);
    }
  }

  // ------------------------------------------------------------------ runs

  datatype Step =
    | Apply(life: Life)
    | Rollback(life: Life)
    | Edit(task: string, entry: Option<Value>, layout: Layout)

  function Edited(s: State, task: string, entry: Option<Value>): State {
    if entry.Some? then s[task := entry.value] else s - {task}
  }

  /** What the edits alone make of a document. */
  function OutsideAfter(s: State, step: Step): State {
    if step.Edit? then Edited(s, step.task, step.entry) else s
  }

  function OutsideAfterAll(s: State, steps: seq<Step>): State {
    if steps == [] then s
    else OutsideAfter(OutsideAfterAll(s, steps[..|steps| - 1]), steps[|steps| - 1])
  }

  lemma {:induction false} OutsideKeepsScope(job: Job, s: State, steps: seq<Step>)
    requires forall i :: 0 <= i < |steps| && steps[i].Edit? ==> !D.InScope(job.plan, steps[i].task)
    ensures SameScope(s, OutsideAfterAll(s, steps), job.plan)
  {
    if steps != [] {
      OutsideKeepsScope(job, s, steps[..|steps| - 1]);
    }
  }

  /** The entries in scope are `base`'s, or, once a whole backup of them exists, possibly
      the ones derived from it; everything else is `outside`'s. */
  ghost predicate Balanced(job: Job, base: State, outside: State, state: File, backup: Option<File>)
    requires ValidJob(job)
  {
    && state.Doc?
    && (backup.Some? ==> Derivable(job, base))
    && (backup.Some? && backup.value.Doc? ==> SameScope(backup.value.state, base, job.plan))
    && (|| state.state == Compose(outside, base, job.plan)
        || (&& backup.Some? && backup.value.Doc?
            && state.state == Compose(outside, Desired(job, base), job.plan)))
  }

  /** When an apply that is not killed refuses, in a store a run can reach. */
  ghost predicate ApplyStuck(job: Job, base: State, outside: State, state: File, backup: Option<File>)
    requires ValidJob(job) && state.Doc?
  {
    || !Derivable(job, base)
    || (backup.Some? && backup.value.Torn?)
    || (backup.Some? && state.layout != Canonical && state.state == Compose(outside, Desired(job, base), job.plan))
  }

  /** A partition that moved the one recording "r", converted since, to the task "d". */
  function MovedOne(): Job {
    Job(D.Plan("s", {}, [D.Destination("d", {"r"})]), map["s" := None, "d" := Some(["r"])], "now")
  }

  lemma MovedOneIsDerivable()
    ensures ValidJob(MovedOne()) && Derivable(MovedOne(), map[]) && "d" in Desired(MovedOne(), map[])
  {
    var job := MovedOne();
    assert job.plan.destinations[0].task == "d" && D.At(job.plan, 0) == D.Destination("d", {"r"});
    assert forall t :: D.IsDestination(job.plan, t) <==> t == "d";
    assert Ascending(["r"]);
    assert D.DestinationDerivable(map[], D.At(job.plan, 0), job.outputs);
    assert D.Touched(map[], job.plan, job.outputs, "d");
  }

  /** Two balanced stores in which apply refuses: a kill has cut the backup short, and the file
      was reconciled and then laid out differently by another writer. */
  lemma StuckExamples() returns (job: Job, torn: Option<File>, done: File, whole: Option<File>)
    ensures ValidJob(job) && Derivable(job, map[]) && Desired(job, map[]) != map[]
    ensures Balanced(job, map[], map[], Doc(map[], Canonical), torn)
    ensures ApplyStuck(job, map[], map[], Doc(map[], Canonical), torn)
    ensures torn == Some(Torn) && RollbackRefuses(job, Doc(map[], Canonical), torn)
    ensures Balanced(job, map[], map[], done, whole) && whole.Some? && whole.value.Doc?
    ensures ApplyStuck(job, map[], map[], done, whole) && !RollbackRefuses(job, done, whole)
  {
    job := MovedOne();
    MovedOneIsDerivable();
    hide MovedOne, ValidJob, Derivable, Desired, RollbackRefuses, Composable;
    var empty: State := map[];
    LensLaws(empty, empty, empty, job.plan);
    torn, whole := Some(Torn), Some(Doc(empty, Canonical));
    done := Doc(Compose(empty, Desired(job, empty), job.plan), Foreign(0));
    RollbackIsReady(job, empty, empty, done, whole);
    RollbackIsReady(job, empty, empty, Doc(empty, Canonical), torn);
  }

  /** In a balanced store nothing in scope conflicts. */
  lemma BalancedScope(job: Job, base: State, outside: State, state: File, before: State)
    requires ValidJob(job) && Balanced(job, base, outside, state, Some(Doc(before, Canonical)))
    ensures Derivable(job, before)
    ensures Composable(state.state, before, Desired(job, before), job.plan)
    ensures Compose(state.state, Desired(job, before), job.plan) == Compose(outside, Desired(job, base), job.plan)
    ensures Compose(state.state, before, job.plan) == Compose(outside, base, job.plan)
  {
    DerivationIsLocal(job, base, before);
    var desired := Desired(job, before);
    SameScopeComposes(outside, Desired(job, base), desired, job.plan);
    SameScopeComposes(outside, base, before, job.plan);
    LensLaws(outside, base, desired, job.plan);
    LensLaws(outside, desired, desired, job.plan);
    LensLaws(outside, base, before, job.plan);
    LensLaws(outside, desired, before, job.plan);
    forall t | D.InScope(job.plan, t)
      ensures Admissible(EntryOf(state.state, t), EntryOf(before, t), EntryOf(desired, t))
    {
      assert EntryOf(before, t) == EntryOf(base, t);
    }
  }

  lemma ApplyIsStuck(job: Job, base: State, outside: State, state: File, backup: Option<File>)
    requires ValidJob(job) && Balanced(job, base, outside, state, backup)
    ensures ApplyRefuses(job, state, backup) <==> ApplyStuck(job, base, outside, state, backup)
    ensures !ApplyRefuses(job, state, backup) ==>
      Applied(job, state, backup) == Doc(Compose(outside, Desired(job, base), job.plan), Canonical)
  {
    if backup.Some? && backup.value.Doc? {
      BalancedScope(job, base, outside, state, backup.value.state);
    } else if backup.None? {
      DerivationIsLocal(job, base, state.state);
      if Derivable(job, base) {
        SameScopeComposes(state.state, Desired(job, base), Desired(job, state.state), job.plan);
        LensLaws(outside, base, Desired(job, base), job.plan);
      }
    }
  }

  lemma ApplyKeepsBalance(job: Job, base: State, outside: State, state: File, backup: Option<File>)
    requires ValidJob(job) && Balanced(job, base, outside, state, backup)
    ensures backup.None? && Derivable(job, state.state) ==>
      forall cut :: CutOf(cut, state) ==> Balanced(job, base, outside, state, Some(cut))
    ensures !ApplyRefuses(job, state, backup) ==>
      Balanced(job, base, outside, Applied(job, state, backup), Some(if backup.Some? then backup.value else state))
  {
    ApplyIsStuck(job, base, outside, state, backup);
    if backup.None? {
      DerivationIsLocal(job, base, state.state);
    }
  }

  lemma RollbackIsReady(job: Job, base: State, outside: State, state: File, backup: Option<File>)
    requires ValidJob(job) && Balanced(job, base, outside, state, backup)
    ensures RollbackRefuses(job, state, backup) <==> backup.None? || backup.value.Torn?
    ensures !RollbackRefuses(job, state, backup) ==>
      RolledBack(job, state, backup).Doc? && RolledBack(job, state, backup).state == Compose(outside, base, job.plan)
  {
    if backup.Some? && backup.value.Doc? {
      BalancedScope(job, base, outside, state, backup.value.state);
      hide Balanced, Compose, Composable, Desired, Derivable, RollbackRefuses, RolledBack;
      RollbackResult(job, state, backup.value);
    }
  }

  lemma RollbackResult(job: Job, state: File, backup: File)
    requires ValidJob(job) && state.Doc? && backup.Doc? && Derivable(job, backup.state)
    requires Composable(state.state, backup.state, Desired(job, backup.state), job.plan)
    ensures !RollbackRefuses(job, state, Some(backup))
    ensures var r := RolledBack(job, state, Some(backup));
      r.Doc? && r.state == Compose(state.state, backup.state, job.plan)
  {
    hide Compose, Composable, Desired, Derivable;
    if state.state == backup.state {
      LensLaws(state.state, state.state, state.state, job.plan);
    }
  }

  lemma RollbackKeepsBalance(job: Job, base: State, outside: State, state: File, backup: Option<File>)
    requires ValidJob(job) && Balanced(job, base, outside, state, backup)
    ensures !RollbackRefuses(job, state, backup) ==>
      Balanced(job, base, outside, RolledBack(job, state, backup), backup)
  {
    RollbackIsReady(job, base, outside, state, backup);
  }

  lemma EditKeepsBalance(job: Job, base: State, outside: State, state: File, backup: Option<File>,
                         task: string, entry: Option<Value>, layout: Layout)
    requires ValidJob(job) && Balanced(job, base, outside, state, backup)
    requires !D.InScope(job.plan, task)
    ensures Balanced(job, base, Edited(outside, task, entry), Doc(Edited(state.state, task, entry), layout), backup)
  {
    EditCommutes(outside, base, job.plan, task, entry);
    if Derivable(job, base) {
      EditCommutes(outside, Desired(job, base), job.plan, task, entry);
    }
  }

  lemma EditCommutes(outside: State, scoped: State, plan: D.Plan, task: string, entry: Option<Value>)
    requires !D.InScope(plan, task)
    ensures Edited(Compose(outside, scoped, plan), task, entry) == Compose(Edited(outside, task, entry), scoped, plan)
  {
    SameEntries(Edited(Compose(outside, scoped, plan), task, entry),
                Compose(Edited(outside, task, entry), scoped, plan));
  }
}
