/** How an entry of convert_state.json is rewritten from the serials that are durable in
    the converted output: once by the partition reconciliation, for the source task and
    all its destinations, and once by the recovery service, for one task. */
module StateDerivation {
  import opened Common
  import opened Json

  datatype Reason = NotAnObject | BadFailedSerials | BadTransient | NotRawSubset | ForeignFailures

  datatype Result<+T> = Ok(value: T) | Err(reason: Reason)

  /** The serials of an existing output, sorted and without repetition; `None` is a task
      whose output does not exist. */
  type Output = Option<seq<string>>

  ghost predicate ValidOutput(output: Output) {
    output.Some? ==> Ascending(output.value) && "" !in output.value
  }

  /** One destination of a committed partition: its task and the recordings it received. */
  datatype Destination = Destination(task: string, raw: set<string>)

  /** `kept` are the recordings that stayed with the source task. */
  datatype Plan = Plan(source: string, kept: set<string>, destinations: seq<Destination>)

  ghost predicate ValidPlan(plan: Plan) {
    && (forall i :: 0 <= i < |plan.destinations| ==> plan.destinations[i].task != plan.source)
    && (forall i, j :: 0 <= i < j < |plan.destinations| ==>
          plan.destinations[i].task != plan.destinations[j].task)
  }

  predicate IsDestination(plan: Plan, task: string) {
    exists i :: 0 <= i < |plan.destinations| && plan.destinations[i].task == task
  }

  predicate InScope(plan: Plan, task: string) {
    task == plan.source || IsDestination(plan, task)
  }

  function Moved(plan: Plan): set<string> {
    set i, s | 0 <= i < |plan.destinations| && s in plan.destinations[i].raw :: s
  }

  ghost predicate ValidOutputs(plan: Plan, outputs: map<string, Output>) {
    forall t :: InScope(plan, t) ==> t in outputs && ValidOutput(outputs[t])
  }

  // ------------------------------------------------------------------ one entry

  predicate Names(items: seq<Value>) {
    forall i :: 0 <= i < |items| ==> items[i].Str? && items[i].s != ""
  }

  function Field(entry: Entry, field: string, default: Value): Value {
    if field in entry then entry[field] else default
  }

  predicate ReadableFailed(entry: Entry) {
    var v := Field(entry, "failed_serials", List([]));
    v.List? && Names(v.items)
  }

  predicate ReadableTransient(entry: Entry) {
    var v := Field(entry, "transient_failed", Obj(map[]));
    v.Null? || (v.Obj? && "" !in v.fields)
  }

  predicate Readable(entry: Entry) {
    ReadableFailed(entry) && ReadableTransient(entry)
  }

  function Failed(entry: Entry): seq<string>
    requires ReadableFailed(entry)
  {
    var items := Field(entry, "failed_serials", List([])).items;
    seq(|items|, i requires 0 <= i < |items| => items[i].s)
  }

  function Transient(entry: Entry): map<string, Value>
    requires ReadableTransient(entry)
  {
    var v := Field(entry, "transient_failed", Obj(map[]));
    if v.Null? then map[] else v.fields
  }

  function Without(items: seq<string>, cleared: set<string>): (r: seq<string>)
    ensures forall y :: y in r <==> y in items && y !in cleared
  {
    if items == [] then []
    else (if items[0] in cleared then [] else [items[0]]) + Without(items[1..], cleared)
  }

  function Strings(items: seq<string>): seq<Value> {
    seq(|items|, i requires 0 <= i < |items| => Str(items[i]))
  }

  function Serials(output: Output): seq<string> {
    if output.Some? then output.value else []
  }

  function Remaining(transient: map<string, Value>, cleared: set<string>): map<string, Value> {
    map s | s in transient && s !in cleared :: transient[s]
  }

  /** What an entry is rewritten to: the fields, one by one. */
  function Settled(entry: Entry, cleared: set<string>, output: Output, at: string): Entry
    requires Readable(entry)
  {
    var e := entry["failed_serials" := List(Strings(SortedSet(Without(Failed(entry), cleared))))];
    var e := WithTransient(e, Remaining(Transient(entry), cleared));
    var e := if output.Some? then Counted(e, output.value) else e;
    e["last_updated" := Str(at)]
  }

  function WithTransient(entry: Entry, remaining: map<string, Value>): Entry {
    if remaining != map[] then entry["transient_failed" := Obj(remaining)] else entry - {"transient_failed"}
  }

  function Counted(entry: Entry, durable: seq<string>): Entry {
    entry["converted_count" := Num(|durable|)]["last_serial" := Str(MaxOr(durable))]
  }

  /** The entry read back: exactly the failures that were not cleared are left, in order
      and once each, and nothing else of the entry changed. */
  lemma SettledFailures(entry: Entry, cleared: set<string>, output: Output, at: string)
    requires Readable(entry)
    ensures var r := Settled(entry, cleared, output, at);
      && Readable(r)
      && Ascending(Failed(r))
      && (forall s :: s in Failed(r) <==> s in Failed(entry) && s !in cleared)
      && Transient(r) == Remaining(Transient(entry), cleared)
      && (forall f :: f != "failed_serials" && f != "transient_failed" && f != "last_updated"
                      && !(output.Some? && (f == "converted_count" || f == "last_serial")) ==>
            (f in r <==> f in entry) && (f in r ==> r[f] == entry[f]))
  {
    var r := Settled(entry, cleared, output, at);
    var failed := SortedSet(Without(Failed(entry), cleared));
    SortedSetIsSorted(Without(Failed(entry), cleared));
    forall i | 0 <= i < |failed|
      ensures failed[i] != ""
    {
      assert failed[i] in failed;
      NamesAreNotEmpty(entry, failed[i]);
    }
    assert Failed(r) == failed;
  }

  lemma NamesAreNotEmpty(entry: Entry, s: string)
    requires ReadableFailed(entry) && s in Failed(entry)
    ensures s != ""
  {
    var i :| 0 <= i < |Failed(entry)| && Failed(entry)[i] == s;
  }

  /** Converted and failed serials are disjoint; the count is the number of converted
      serials and the last serial is the greatest of them. */
  lemma SettledIsConsistent(entry: Entry, cleared: set<string>, output: Output, at: string)
    requires Readable(entry) && output.Some? && ValidOutput(output)
    requires Elements(output.value) <= cleared
    ensures var r := Settled(entry, cleared, output, at);
      && Readable(r)
      && Elements(output.value) !! Elements(Failed(r))
      && Elements(output.value) !! Transient(r).Keys
      && "converted_count" in r && r["converted_count"] == Num(|Elements(output.value)|)
      && "last_serial" in r && r["last_serial"].Str?
      && (output.value == [] ==> r["last_serial"].s == "")
      && (output.value != [] ==> r["last_serial"].s in output.value)
      && (forall s :: s in output.value ==> s == r["last_serial"].s || Less(s, r["last_serial"].s))
  {
    SettledFailures(entry, cleared, output, at);
    SizeOfAscending(output.value);
    if output.value != [] {
      MaxIsGreatest(output.value);
    }
  }

  lemma {:induction false} SizeOfAscending(items: seq<string>)
    requires Ascending(items)
    ensures |Elements(items)| == |items|
  {
    if items != [] {
      SizeOfAscending(items[1..]);
      LessIsTotal(items[0], items[0]);
      assert items == [items[0]] + items[1..];
      assert Elements(items) == {items[0]} + Elements(items[1..]);
      TailElements(items, items[0]);
    }
  }

  /** Settling again, against the same output and at least as many cleared serials of
      which none is still a failure, only moves `last_updated`. */
  lemma SettledTwice(entry: Entry, cleared: set<string>, more: set<string>, output: Output,
                     at: string, later: string)
    requires Readable(entry) && more <= cleared
    ensures var once := Settled(entry, cleared, output, at);
      && Readable(once)
      && Settled(once, more, output, later) == once["last_updated" := Str(later)]
  {
    SettledFailures(entry, cleared, output, at);
    var once := Settled(entry, cleared, output, at);
    WithoutNothing(Failed(once), more);
    SortedSetOfSorted(Failed(once));
    assert Remaining(Transient(once), more) == Transient(once);
    SettledFields(entry, cleared, output, at);
    RewrittenFields(once, Failed(once), Transient(once), output, at, later);
  }

  /** The five fields as they stand after a rewrite. */
  lemma SettledFields(entry: Entry, cleared: set<string>, output: Output, at: string)
    requires Readable(entry)
    ensures var r := Settled(entry, cleared, output, at);
      && Readable(r)
      && HasFields(r, Failed(r), Transient(r), output, at)
  {
    SettledFailures(entry, cleared, output, at);
    var r := Settled(entry, cleared, output, at);
    assert Strings(Failed(r)) == r["failed_serials"].items;
  }

  ghost predicate HasFields(r: Entry, failed: seq<string>, transient: map<string, Value>, output: Output, at: string) {
    && "failed_serials" in r && r["failed_serials"] == List(Strings(failed))
    && (if transient == map[] then "transient_failed" !in r
        else "transient_failed" in r && r["transient_failed"] == Obj(transient))
    && (output.Some? ==>
          && "converted_count" in r && r["converted_count"] == Num(|output.value|)
          && "last_serial" in r && r["last_serial"] == Str(MaxOr(output.value)))
    && "last_updated" in r && r["last_updated"] == Str(at)
  }

  lemma RewrittenFields(r: Entry, failed: seq<string>, transient: map<string, Value>, output: Output,
                        at: string, later: string)
    requires HasFields(r, failed, transient, output, at)
    ensures var e := WithTransient(r["failed_serials" := List(Strings(failed))], transient);
      var e := if output.Some? then Counted(e, output.value) else e;
      e["last_updated" := Str(later)] == r["last_updated" := Str(later)]
  {
    var e := WithTransient(r["failed_serials" := List(Strings(failed))], transient);
    assert e == r;
    if output.Some? {
      assert Counted(e, output.value) == r;
    }
  }

  lemma {:induction false} WithoutNothing(items: seq<string>, cleared: set<string>)
    requires forall s :: s in items ==> s !in cleared
    ensures Without(items, cleared) == items
  {
    if items != [] {
      assert items == [items[0]] + items[1..];
      WithoutNothing(items[1..], cleared);
    }
  }

  // ------------------------------------------------------------------ rewriting in place

  /** The transient failures that remain, dropped altogether when there is none. */
  method KeepRemaining(entry: Entry, remaining: map<string, Value>) returns (r: Entry)
    ensures r == WithTransient(entry, remaining)
  {
    if remaining != map[] {
      r := entry["transient_failed" := Obj(remaining)];
    } else {
      r := entry - {"transient_failed"};
    }
  }

  function SourceEntry(original: State, source: string): Value {
    Field(original, source, Null)
  }

  /** The source task's entry is rewritten when it has one, or when it has an output. */
  predicate SourceIsTouched(original: State, plan: Plan, outputs: map<string, Output>)
    requires plan.source in outputs
  {
    !SourceEntry(original, plan.source).Null? || outputs[plan.source].Some?
  }

  function Before(original: State, task: string): Value {
    Field(original, task, Obj(map[]))
  }

  function SourceBefore(original: State, source: string): Value {
    var v := SourceEntry(original, source);
    if v.Null? then Obj(map[]) else v
  }

  ghost predicate SourceDerivable(original: State, plan: Plan, outputs: map<string, Output>)
    requires plan.source in outputs
  {
    SourceIsTouched(original, plan, outputs) ==>
      var v := SourceBefore(original, plan.source);
      v.Obj? && Readable(v.fields) && Elements(Serials(outputs[plan.source])) <= plan.kept
  }

  ghost predicate DestinationDerivable(original: State, d: Destination, outputs: map<string, Output>)
    requires d.task in outputs
  {
    var v := Before(original, d.task);
    && Elements(Serials(outputs[d.task])) <= d.raw
    && v.Obj? && Readable(v.fields)
    && Elements(Failed(v.fields)) <= d.raw && Transient(v.fields).Keys <= d.raw
  }

  ghost predicate Derivable(original: State, plan: Plan, outputs: map<string, Output>)
    requires ValidOutputs(plan, outputs)
  {
    && SourceDerivable(original, plan, outputs)
    && forall i :: 0 <= i < |plan.destinations| ==>
         DestinationDerivable(original, At(plan, i), outputs)
  }

  function At(plan: Plan, i: nat): (d: Destination)
    requires i < |plan.destinations|
    ensures InScope(plan, d.task)
  {
    plan.destinations[i]
  }

  /** What the entry of a task in scope becomes. */
  ghost function EntryAfter(original: State, plan: Plan, outputs: map<string, Output>, at: string, task: string): Entry
    requires ValidOutputs(plan, outputs) && InScope(plan, task) && Derivable(original, plan, outputs)
    requires task == plan.source ==> SourceIsTouched(original, plan, outputs)
  {
    if task == plan.source then
      Settled(SourceBefore(original, task).fields, Moved(plan) + Elements(Serials(outputs[task])), outputs[task], at)
    else
      var i :| 0 <= i < |plan.destinations| && plan.destinations[i].task == task;
      assert DestinationDerivable(original, At(plan, i), outputs);
      Settled(Before(original, task).fields, Elements(Serials(outputs[task])), Some(Serials(outputs[task])), at)
  }

  ghost predicate Touched(original: State, plan: Plan, outputs: map<string, Output>, task: string)
    requires ValidOutputs(plan, outputs)
  {
    if task == plan.source then SourceIsTouched(original, plan, outputs) else IsDestination(plan, task)
  }

  function ScopeTasks(plan: Plan): set<string> {
    {plan.source} + set i | 0 <= i < |plan.destinations| :: plan.destinations[i].task
  }

  /** The whole replacement document. */
  ghost function Replacement(original: State, plan: Plan, outputs: map<string, Output>, at: string): (r: State)
    requires ValidOutputs(plan, outputs) && Derivable(original, plan, outputs)
    ensures forall t :: Touched(original, plan, outputs, t) ==>
              InScope(plan, t) && t in r && r[t] == Obj(EntryAfter(original, plan, outputs, at, t))
    ensures forall t :: !Touched(original, plan, outputs, t) ==>
              (t in r <==> t in original) && (t in r ==> r[t] == original[t])
  {
    map t | t in original.Keys + ScopeTasks(plan) && (Touched(original, plan, outputs, t) || t in original) ::
      if Touched(original, plan, outputs, t) then Obj(EntryAfter(original, plan, outputs, at, t)) else original[t]
  }

  /** What holds of the state document once the source and the first `k` destinations
      have been rewritten. */
  ghost predicate Rewritten(original: State, plan: Plan, outputs: map<string, Output>, at: string, k: nat, r: State)
    requires ValidOutputs(plan, outputs) && k <= |plan.destinations|
  {
    && SourceDerivable(original, plan, outputs)
    && (forall i :: 0 <= i < k ==> DestinationDerivable(original, At(plan, i), outputs))
    && (forall i :: 0 <= i < k ==>
          && plan.destinations[i].task in r
          && r[plan.destinations[i].task] ==
               Obj(Settled(Before(original, At(plan, i).task).fields, Elements(Serials(outputs[At(plan, i).task])),
                           Some(Serials(outputs[At(plan, i).task])), at)))
    && (if SourceIsTouched(original, plan, outputs) then
          && plan.source in r
          && r[plan.source] == Obj(Settled(SourceBefore(original, plan.source).fields,
               Moved(plan) + Elements(Serials(outputs[plan.source])), outputs[plan.source], at))
        else
          (plan.source in r <==> plan.source in original) &&
          (plan.source in r ==> r[plan.source] == original[plan.source]))
    && (forall t :: t != plan.source && (forall i :: 0 <= i < k ==> plan.destinations[i].task != t) ==>
          (t in r <==> t in original) && (t in r ==> r[t] == original[t]))
  }

  /** The source branch: the count and the last serial only change when there is an output. */
  method SettleSource(before: Entry, cleared: set<string>, output: Output, at: string) returns (entry: Entry)
    requires Readable(before)
    ensures entry == Settled(before, cleared, output, at)
  {
    var failed, transient := Failed(before), Transient(before);
    entry := before["failed_serials" := List(Strings(SortedSet(Without(failed, cleared))))];
    entry := KeepRemaining(entry, Remaining(transient, cleared));
    if output.Some? {
      entry := entry["converted_count" := Num(|output.value|)];
      entry := entry["last_serial" := Str(if output.value != [] then MaxOr(output.value) else "")];
    }
    entry := entry["last_updated" := Str(at)];
    assert entry.Keys == Settled(before, cleared, output, at).Keys;
  }

  /** The destination branch: an output that does not exist counts as an empty one. */
  method SettleDestination(before: Entry, durable: seq<string>, at: string) returns (entry: Entry)
    requires Readable(before)
    ensures entry == Settled(before, Elements(durable), Some(durable), at)
  {
    var failed, transient := Failed(before), Transient(before);
    entry := before["converted_count" := Num(|durable|)];
    entry := entry["failed_serials" := List(Strings(SortedSet(Without(failed, Elements(durable)))))];
    entry := KeepRemaining(entry, Remaining(transient, Elements(durable)));
    entry := entry["last_serial" := Str(if durable != [] then MaxOr(durable) else "")];
    entry := entry["last_updated" := Str(at)];
    assert entry.Keys == Settled(before, Elements(durable), Some(durable), at).Keys;
  }

  /** The source task's entry, first. */
  method RewriteSource(original: State, plan: Plan, outputs: map<string, Output>, at: string)
    returns (r: Result<State>)
    requires ValidPlan(plan) && ValidOutputs(plan, outputs)
    ensures r.Ok? <==> SourceDerivable(original, plan, outputs)
    ensures r.Ok? ==> Rewritten(original, plan, outputs, at, 0, r.value)
  {
    hide Settled, Moved, Elements, Failed, Transient;
    var replacement := original;
    var sourceEntry := SourceEntry(original, plan.source);
    var output := outputs[plan.source];
    if sourceEntry.Null? && output.Some? {
      sourceEntry := Obj(map[]);
      replacement := replacement[plan.source := sourceEntry];
    }
    if !sourceEntry.Null? {
      if !sourceEntry.Obj? { return Err(NotAnObject); }
      var entry := sourceEntry.fields;
      if !ReadableFailed(entry) { return Err(BadFailedSerials); }
      if !ReadableTransient(entry) { return Err(BadTransient); }
      if !(Elements(Serials(output)) <= plan.kept) { return Err(NotRawSubset); }
      var settled := SettleSource(entry, Moved(plan) + Elements(Serials(output)), output, at);
      replacement := replacement[plan.source := Obj(settled)];
    }
    return Ok(replacement);
  }

  /** One destination's entry, from what the document holds for it. */
  method RewriteDestination(before: Value, d: Destination, durable: seq<string>, at: string)
    returns (r: Result<Entry>)
    ensures r.Ok? <==>
      && Elements(durable) <= d.raw && before.Obj? && Readable(before.fields)
      && Elements(Failed(before.fields)) <= d.raw && Transient(before.fields).Keys <= d.raw
    ensures r.Ok? ==> r.value == Settled(before.fields, Elements(durable), Some(durable), at)
  {
    if !(Elements(durable) <= d.raw) { return Err(NotRawSubset); }
    if !before.Obj? { return Err(NotAnObject); }
    if !ReadableFailed(before.fields) { return Err(BadFailedSerials); }
    if !ReadableTransient(before.fields) { return Err(BadTransient); }
    if !(Elements(Failed(before.fields)) + Transient(before.fields).Keys <= d.raw) { return Err(ForeignFailures); }
    var settled := SettleDestination(before.fields, durable, at);
    return Ok(settled);
  }

  /** `_derive_replacement`: the document is rewritten exactly when every entry in scope
      can be read and agrees with the partition, and then it is the replacement. */
  method DeriveReplacement(original: State, plan: Plan, outputs: map<string, Output>, at: string)
    returns (r: Result<State>)
    requires ValidPlan(plan) && ValidOutputs(plan, outputs)
    ensures r.Ok? <==> Derivable(original, plan, outputs)
    ensures r.Ok? ==> r.value == Replacement(original, plan, outputs, at)
  {
    hide Settled, Readable, Failed, Transient, Elements, Moved, SourceDerivable;
    r := RewriteSource(original, plan, outputs, at);
    if r.Err? { return; }
    var replacement := r.value;
    for k := 0 to |plan.destinations|
      invariant Rewritten(original, plan, outputs, at, k, replacement)
    {
      var d := At(plan, k);
      var before := Field(replacement, d.task, Obj(map[]));
      assert before == Before(original, d.task);
      var settled := RewriteDestination(before, d, Serials(outputs[d.task]), at);
      if settled.Err? {
        assert !DestinationDerivable(original, d, outputs);
        return Err(settled.reason);
      }
      OneMoreDestination(original, plan, outputs, at, k, replacement);
      replacement := replacement[d.task := Obj(settled.value)];
    }
    RewrittenIsReplacement(original, plan, outputs, at, replacement);
    return Ok(replacement);
  }

  lemma OneMoreDestination(original: State, plan: Plan, outputs: map<string, Output>, at: string, k: nat, r: State)
    requires ValidPlan(plan) && ValidOutputs(plan, outputs) && k < |plan.destinations|
    requires Rewritten(original, plan, outputs, at, k, r)
    requires DestinationDerivable(original, At(plan, k), outputs)
    ensures var d := At(plan, k);
      var settled := Settled(Before(original, d.task).fields, Elements(Serials(outputs[d.task])),
                             Some(Serials(outputs[d.task])), at);
      Rewritten(original, plan, outputs, at, k + 1, r[d.task := Obj(settled)])
  {
    hide Settled, Readable, Failed, Transient, Elements, Moved, Before;
  }

  lemma RewrittenIsReplacement(original: State, plan: Plan, outputs: map<string, Output>, at: string, r: State)
    requires ValidPlan(plan) && ValidOutputs(plan, outputs)
    requires Rewritten(original, plan, outputs, at, |plan.destinations|, r)
    ensures Derivable(original, plan, outputs) && r == Replacement(original, plan, outputs, at)
  {
    hide Settled, Readable, Elements, Moved, Before, SourceBefore;
    var whole := Replacement(original, plan, outputs, at);
    forall t
      ensures (t in r <==> t in whole) && (t in r ==> r[t] == whole[t])
    {
      if t != plan.source && IsDestination(plan, t) {
        var i :| 0 <= i < |plan.destinations| && plan.destinations[i].task == t;
        assert Touched(original, plan, outputs, t);
      } else if t != plan.source {
        assert !Touched(original, plan, outputs, t);
      }
    }
    assert r.Keys == whole.Keys;
  }

  /** A destination's failures stay inside its raw partition and the derivation can be
      repeated on its own result, which it leaves as it is. */
  lemma ReplacementIsIdempotent(original: State, plan: Plan, outputs: map<string, Output>, at: string)
    requires ValidPlan(plan) && ValidOutputs(plan, outputs) && Derivable(original, plan, outputs)
    ensures var once := Replacement(original, plan, outputs, at);
      && Derivable(once, plan, outputs)
      && Replacement(once, plan, outputs, at) == once
  {
    hide EntryAfter, Touched, Readable, Derivable;
    var once := Replacement(original, plan, outputs, at);
    ReplacementStaysDerivable(original, plan, outputs, at);
    var twice := Replacement(once, plan, outputs, at);
    forall t
      ensures (t in twice <==> t in once) && (t in once ==> twice[t] == once[t])
    {
      RepeatedEntry(original, plan, outputs, at, t);
    }
    assert twice.Keys == once.Keys;
  }

  lemma ReplacementStaysDerivable(original: State, plan: Plan, outputs: map<string, Output>, at: string)
    requires ValidPlan(plan) && ValidOutputs(plan, outputs) && Derivable(original, plan, outputs)
    ensures Derivable(Replacement(original, plan, outputs, at), plan, outputs)
  {
    hide Settled, Readable, Elements, Moved, Failed, Transient;
    var once := Replacement(original, plan, outputs, at);
    forall i | 0 <= i < |plan.destinations|
      ensures DestinationDerivable(once, At(plan, i), outputs)
    {
      DestinationStaysDerivable(original, plan, outputs, at, i);
    }
    if SourceIsTouched(once, plan, outputs) {
      assert Touched(original, plan, outputs, plan.source);
      TouchedIsStable(original, plan, outputs, at, plan.source);
    }
  }

  lemma RepeatedEntry(original: State, plan: Plan, outputs: map<string, Output>, at: string, t: string)
    requires ValidPlan(plan) && ValidOutputs(plan, outputs) && Derivable(original, plan, outputs)
    requires Derivable(Replacement(original, plan, outputs, at), plan, outputs)
    ensures var once := Replacement(original, plan, outputs, at);
      var twice := Replacement(once, plan, outputs, at);
      (t in twice <==> t in once) && (t in once ==> twice[t] == once[t])
  {
    hide Settled, Readable, Elements, Moved, Failed, Transient, SourceDerivable, DestinationDerivable;
    var once := Replacement(original, plan, outputs, at);
    assert !Touched(original, plan, outputs, t) && t in original ==> once[t] == original[t];
    if Touched(original, plan, outputs, t) {
      TouchedIsStable(original, plan, outputs, at, t);
    }
  }

  lemma TouchedIsStable(original: State, plan: Plan, outputs: map<string, Output>, at: string, t: string)
    requires ValidPlan(plan) && ValidOutputs(plan, outputs) && Derivable(original, plan, outputs)
    requires Touched(original, plan, outputs, t)
    ensures var once := Replacement(original, plan, outputs, at);
      && Touched(once, plan, outputs, t)
      && t in once && once[t].Obj? && Readable(once[t].fields)
      && (t == plan.source ==>
            Settled(once[t].fields, Moved(plan) + Elements(Serials(outputs[t])), outputs[t], at) == once[t].fields)
      && (t != plan.source ==>
            Settled(once[t].fields, Elements(Serials(outputs[t])), Some(Serials(outputs[t])), at) == once[t].fields)
  {
    hide Settled, Failed, Transient, Moved, Elements;
    var durable := Elements(Serials(outputs[t]));
    if t == plan.source {
      SettledStays(SourceBefore(original, t).fields, Moved(plan) + durable, outputs[t], at);
    } else {
      SettledStays(BeforeOf(original, plan, outputs, t), durable, Some(Serials(outputs[t])), at);
    }
  }

  lemma SettledStays(before: Entry, cleared: set<string>, output: Output, at: string)
    requires Readable(before)
    ensures var settled := Settled(before, cleared, output, at);
      Readable(settled) && Settled(settled, cleared, output, at) == settled
  {
    SettledTwice(before, cleared, cleared, output, at, at);
    SettledFields(before, cleared, output, at);
    hide Settled, Readable;
    var settled := Settled(before, cleared, output, at);
    assert settled["last_updated" := Str(at)] == settled;
  }

  ghost function BeforeOf(original: State, plan: Plan, outputs: map<string, Output>, t: string): (e: Entry)
    requires ValidOutputs(plan, outputs) && Derivable(original, plan, outputs) && IsDestination(plan, t)
    ensures Before(original, t) == Obj(e) && Readable(e)
  {
    var i :| 0 <= i < |plan.destinations| && plan.destinations[i].task == t;
    assert DestinationDerivable(original, At(plan, i), outputs);
    Before(original, t).fields
  }

  lemma DestinationStaysDerivable(original: State, plan: Plan, outputs: map<string, Output>, at: string, i: nat)
    requires ValidPlan(plan) && ValidOutputs(plan, outputs) && Derivable(original, plan, outputs)
    requires i < |plan.destinations|
    ensures DestinationDerivable(Replacement(original, plan, outputs, at), At(plan, i), outputs)
  {
    var d := At(plan, i);
    assert DestinationDerivable(original, d, outputs);
    assert Touched(original, plan, outputs, d.task);
    var output := Serials(outputs[d.task]);
    SettledFailures(Before(original, d.task).fields, Elements(output), Some(output), at);
  }

  // ------------------------------------------------------------------ the recovery service

  function RecoveryBefore(original: State, task: string): Value {
    var v := Field(original, task, Obj(map[]));
    if v.Null? then Obj(map[]) else v
  }

  predicate RecoveryDerivable(original: State, task: string) {
    var v := RecoveryBefore(original, task);
    v.Obj? && Readable(v.fields)
  }

  function RecoveryReplacement(original: State, task: string, durable: seq<string>, created: string): State
    requires RecoveryDerivable(original, task)
  {
    original[task := Obj(Settled(RecoveryBefore(original, task).fields, Elements(durable), Some(durable), created))]
  }

  /** `_derive_state_replacement`: only the one task's entry changes. */
  method DeriveRecovery(original: State, task: string, durable: seq<string>, created: string)
    returns (r: Result<State>)
    ensures r.Ok? <==> RecoveryDerivable(original, task)
    ensures r.Ok? ==> r.value == RecoveryReplacement(original, task, durable, created)
    ensures r.Ok? ==> r.value - {task} == original - {task}
  {
    var before := Field(original, task, Obj(map[]));
    if before.Null? { before := Obj(map[]); }
    if !before.Obj? { return Err(NotAnObject); }
    if !ReadableFailed(before.fields) { return Err(BadFailedSerials); }
    var entry := before.fields;
    entry := entry["failed_serials" := List(Strings(SortedSet(Without(Failed(before.fields), Elements(durable)))))];
    if !ReadableTransient(entry) { return Err(BadTransient); }
    assert Transient(entry) == Transient(before.fields);
    entry := KeepRemaining(entry, Remaining(Transient(entry), Elements(durable)));
    entry := entry["converted_count" := Num(|durable|)];
    entry := entry["last_serial" := Str(if durable != [] then MaxOr(durable) else "")];
    entry := entry["last_updated" := Str(created)];
    assert entry.Keys == Settled(before.fields, Elements(durable), Some(durable), created).Keys;
    return Ok(original[task := Obj(entry)]);
  }

  /** The two implementations agree: after the reconciliation, a recovery of any task in
      scope that has an output, with that same output, moves only `last_updated`. */
  lemma DerivationsAgree(original: State, plan: Plan, outputs: map<string, Output>, at: string,
                         task: string, created: string)
    requires ValidPlan(plan) && ValidOutputs(plan, outputs) && Derivable(original, plan, outputs)
    requires InScope(plan, task) && (task == plan.source ==> outputs[task].Some?)
    ensures var once := Replacement(original, plan, outputs, at);
      && task in once && once[task].Obj?
      && RecoveryDerivable(once, task)
      && RecoveryReplacement(once, task, Serials(outputs[task]), created) ==
           once[task := Obj(once[task].fields["last_updated" := Str(created)])]
  {
    var once := Replacement(original, plan, outputs, at);
    assert Touched(original, plan, outputs, task);
    var durable := Elements(Serials(outputs[task]));
    var cleared := if task == plan.source then Moved(plan) + durable else durable;
    var before :=
      if task == plan.source then SourceBefore(original, task).fields else BeforeOf(original, plan, outputs, task);
    SettledTwice(before, cleared, durable, Some(Serials(outputs[task])), at, created);
  }

  /** After the reconciliation no serial is recorded both as converted and as failed, in
      the source or in any destination, and no moved serial is left failing in the source. */
  lemma ReplacementIsConsistent(original: State, plan: Plan, outputs: map<string, Output>, at: string, task: string)
    requires ValidPlan(plan) && ValidOutputs(plan, outputs) && Derivable(original, plan, outputs)
    requires Touched(original, plan, outputs, task)
    ensures var once := Replacement(original, plan, outputs, at);
      && task in once && once[task].Obj? && Readable(once[task].fields)
      && var failures := Elements(Failed(once[task].fields)) + Transient(once[task].fields).Keys;
      && Elements(Serials(outputs[task])) !! failures
      && (task == plan.source ==> Moved(plan) !! failures)
      && (outputs[task].Some? || task != plan.source ==>
            && "converted_count" in once[task].fields
            && once[task].fields["converted_count"] == Num(|Elements(Serials(outputs[task]))|))
  {
    var durable := Elements(Serials(outputs[task]));
    var cleared := if task == plan.source then Moved(plan) + durable else durable;
    var output := if task == plan.source then outputs[task] else Some(Serials(outputs[task]));
    var before :=
      if task == plan.source then SourceBefore(original, task).fields else BeforeOf(original, plan, outputs, task);
    SettledFailures(before, cleared, output, at);
    if output.Some? {
      assert Ascending([]);
      SettledIsConsistent(before, cleared, output, at);
    }
  }

  // ------------------------------------------------------------------ as the document has it

  /** The list of failed serials in a task's entry has the serial. */
  ghost predicate InFailed(doc: State, task: string, s: string) {
    && task in doc && doc[task].Obj? && "failed_serials" in doc[task].fields
    && doc[task].fields["failed_serials"].List?
    && exists k :: 0 <= k < |doc[task].fields["failed_serials"].items|
                   && doc[task].fields["failed_serials"].items[k] == Str(s)
  }

  /** The record of transient failures in a task's entry has the serial. */
  ghost predicate InTransient(doc: State, task: string, s: string) {
    && task in doc && doc[task].Obj? && "transient_failed" in doc[task].fields
    && doc[task].fields["transient_failed"].Obj? && s in doc[task].fields["transient_failed"].fields
  }

  lemma FailedIsInFailed(doc: State, task: string, s: string)
    requires task in doc && doc[task].Obj? && ReadableFailed(doc[task].fields)
    ensures InFailed(doc, task, s) <==> s in Failed(doc[task].fields)
  {
    var failed := Failed(doc[task].fields);
    if s in failed {
      var k :| 0 <= k < |failed| && failed[k] == s;
      assert doc[task].fields["failed_serials"].items[k] == Str(s);
    }
    if InFailed(doc, task, s) {
      var k :| 0 <= k < |doc[task].fields["failed_serials"].items|
               && doc[task].fields["failed_serials"].items[k] == Str(s);
      assert failed[k] == s;
    }
  }

  /** Exactly these failures leave a rewritten entry: in the source those of the recordings that
      some destination received, and in every task those of the recordings its output has. */
  lemma FailuresLeft(original: State, plan: Plan, outputs: map<string, Output>, at: string, task: string, s: string)
    requires ValidPlan(plan) && ValidOutputs(plan, outputs) && Derivable(original, plan, outputs)
    requires Touched(original, plan, outputs, task)
    ensures var once := Replacement(original, plan, outputs, at);
      var received := exists i :: 0 <= i < |plan.destinations| && s in plan.destinations[i].raw;
      var gone := (task == plan.source && received) || (outputs[task].Some? && s in outputs[task].value);
      && (InFailed(once, task, s) <==> InFailed(original, task, s) && !gone)
      && (InTransient(once, task, s) <==> InTransient(original, task, s) && !gone)
      && (InTransient(once, task, s) ==>
            once[task].fields["transient_failed"].fields[s] == original[task].fields["transient_failed"].fields[s])
      && "last_updated" in once[task].fields && once[task].fields["last_updated"] == Str(at)
  {
    var once := Replacement(original, plan, outputs, at);
    var durable := Elements(Serials(outputs[task]));
    var cleared := if task == plan.source then Moved(plan) + durable else durable;
    var output := if task == plan.source then outputs[task] else Some(Serials(outputs[task]));
    var before :=
      if task == plan.source then SourceBefore(original, task).fields else BeforeOf(original, plan, outputs, task);
    assert once[task] == Obj(Settled(before, cleared, output, at));
    assert s in cleared <==> (task == plan.source && s in Moved(plan)) || s in durable;
    hide Settled, Replacement, EntryAfter, Derivable;
    SettledLeaves(original, once, task, before, cleared, output, at, s);
  }

  /** What one rewritten entry leaves of the failures in the entry before. */
  lemma SettledLeaves(original: State, once: State, task: string, before: Entry, cleared: set<string>, output: Output,
                      at: string, s: string)
    requires Readable(before) && task in once && once[task] == Obj(Settled(before, cleared, output, at))
    requires if task in original && original[task].Obj? then original[task].fields == before else before == map[]
    ensures InFailed(once, task, s) <==> InFailed(original, task, s) && s !in cleared
    ensures InTransient(once, task, s) <==> InTransient(original, task, s) && s !in cleared
    ensures InTransient(once, task, s) ==>
      once[task].fields["transient_failed"].fields[s] == original[task].fields["transient_failed"].fields[s]
    ensures "last_updated" in once[task].fields && once[task].fields["last_updated"] == Str(at)
  {
    SettledFailures(before, cleared, output, at);
    SettledFields(before, cleared, output, at);
    hide Settled, Remaining, Without;
    FailedIsInFailed(once, task, s);
    if task in original && original[task].Obj? {
      FailedIsInFailed(original, task, s);
    }
    RemainingExact(Transient(before), cleared, s);
  }

  lemma RemainingExact(transient: map<string, Value>, cleared: set<string>, s: string)
    ensures var r := Remaining(transient, cleared);
      (s in r <==> s in transient && s !in cleared) && (s in r ==> r[s] == transient[s])
  {
  }

  /** What the checks on an entry ask of it. */
  ghost predicate IsReadable(v: Value) {
    && v.Obj?
    && ("failed_serials" in v.fields ==>
          var f := v.fields["failed_serials"];
          f.List? && forall k :: 0 <= k < |f.items| ==> f.items[k].Str? && f.items[k].s != "")
    && ("transient_failed" in v.fields ==>
          var t := v.fields["transient_failed"];
          t.Null? || (t.Obj? && "" !in t.fields))
  }

  lemma ReadableMeans(v: Value)
    ensures IsReadable(v) <==> v.Obj? && Readable(v.fields)
  {
  }

  lemma TransientIsInTransient(doc: State, task: string, s: string)
    requires task in doc && doc[task].Obj? && ReadableTransient(doc[task].fields)
    ensures InTransient(doc, task, s) <==> s in Transient(doc[task].fields)
  {
  }

  /** When a replacement can be derived, said of the document: the entries in scope are readable
      where they exist, each output has only recordings of its own task, and a destination fails
      only on recordings it received. A null entry counts as none for the source alone. */
  lemma DerivableMeans(original: State, plan: Plan, outputs: map<string, Output>)
    requires ValidOutputs(plan, outputs)
    ensures Derivable(original, plan, outputs) <==>
      && (plan.source in original && !original[plan.source].Null? ==> IsReadable(original[plan.source]))
      && ((plan.source in original && !original[plan.source].Null?) || outputs[plan.source].Some? ==>
            forall s :: s in Serials(outputs[plan.source]) ==> s in plan.kept)
      && forall i :: 0 <= i < |plan.destinations| ==> DestinationFits(original, At(plan, i), outputs)
  {
    forall i | 0 <= i < |plan.destinations|
      ensures DestinationDerivable(original, At(plan, i), outputs) <==>
        DestinationFits(original, At(plan, i), outputs)
    {
      DestinationMeans(original, At(plan, i), outputs);
    }
    if plan.source in original {
      ReadableMeans(original[plan.source]);
    }
    hide DestinationDerivable, DestinationFits, IsReadable;
  }

  ghost predicate DestinationFits(original: State, d: Destination, outputs: map<string, Output>)
    requires d.task in outputs
  {
    && (forall s :: s in Serials(outputs[d.task]) ==> s in d.raw)
    && (d.task in original ==> IsReadable(original[d.task]))
    && (forall s :: InFailed(original, d.task, s) || InTransient(original, d.task, s) ==> s in d.raw)
  }

  lemma DestinationMeans(original: State, d: Destination, outputs: map<string, Output>)
    requires d.task in outputs
    ensures DestinationDerivable(original, d, outputs) <==> DestinationFits(original, d, outputs)
  {
    if d.task in original {
      ReadableMeans(original[d.task]);
      if IsReadable(original[d.task]) {
        forall s
          ensures InFailed(original, d.task, s) <==> s in Failed(original[d.task].fields)
          ensures InTransient(original, d.task, s) <==> s in Transient(original[d.task].fields)
        {
          FailedIsInFailed(original, d.task, s);
          TransientIsInTransient(original, d.task, s);
        }
      }
      hide InFailed, InTransient, Failed, Transient, IsReadable, Readable;
    }
  }

  /** The recovery takes an entry that is missing or null for an empty one. */
  lemma RecoveryDerivableMeans(original: State, task: string)
    ensures RecoveryDerivable(original, task) <==>
      (task in original && !original[task].Null? ==> IsReadable(original[task]))
  {
    if task in original {
      ReadableMeans(original[task]);
    }
  }
}
