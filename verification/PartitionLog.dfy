/** The log of the partition transaction and the bytes of its file: what the transaction
    model takes for one step is what an append cut at any byte leaves behind. */
module PartitionLog {
  import opened Common
  import opened PartitionModel
  import S = StateLog

  type Codec = S.Codec<Journal>

  /** The plan digest in a record depends on its plan alone. */
  ghost predicate PlanCodec(c: Codec) {
    S.ValidCodec(c) && forall i: Journal, j: Journal :: i.plan == j.plan ==> c.plan(i) == c.plan(j)
  }

  /** The file holds exactly the records of the log, and bytes behind them if it is torn. */
  ghost predicate Represents(c: Codec, who: S.Authority, bytes: seq<S.Byte>, log: Log) {
    && HasState(log)
    && S.Parse(c, who, bytes).Current?
    && |S.CompleteLines(bytes)| >= 3
    && S.Replay(c, who, S.CompleteLines(bytes)[2..]) == Some(log.records)
    && (log.torn <==> S.CompleteSize(bytes) < |bytes|)
  }

  /** Reading the file gives the last record of the log. */
  lemma ReadsLastRecord(c: Codec, who: S.Authority, bytes: seq<S.Byte>, log: Log)
    requires Represents(c, who, bytes, log)
    ensures S.Parse(c, who, bytes).payload == Last(log)
    ensures S.Parse(c, who, bytes).sequence == |log.records| - 1
    ensures forall i :: 0 <= i < |log.records| ==> c.plan(log.records[i]) == who.plan
  {
    S.ReplayIsExact(c, who, S.CompleteLines(bytes)[2..], log.records);
  }

  /** Appending to the file is what the transaction model takes for writing a record: all of
      the record or any part of it, over whatever tail an earlier crash has left. */
  method AppendRecord(file: S.StateFile, c: Codec, who: S.Authority, ghost log: Log, j: Journal, written: nat)
    returns (ghost after: Log)
    requires PlanCodec(c) && Represents(c, who, file.bytes, log) && j.plan == Last(log).plan
    requires written <= |c.encode(S.NextLine(c, S.Parse(c, who, file.bytes), j))| + 1
    modifies file
    ensures Represents(c, who, file.bytes, after)
    ensures var size := |c.encode(S.NextLine(c, old(S.Parse(c, who, file.bytes)), j))| + 1;
      && Wrote(log, after, j, written == size)
      && (written < size ==> (after.torn <==> written > 0))
  {
    ReadsLastRecord(c, who, file.bytes, log);
    ghost var was, lines := S.Parse(c, who, file.bytes), S.CompleteLines(file.bytes);
    ghost var line := c.encode(S.NextLine(c, was, j));
    assert c.plan(Last(log)) == who.plan;
    S.CurrentSize(c, who, file.bytes);
    file.Append(c, who, j, written);
    S.CurrentSize(c, who, file.bytes);
    ghost var whole := written == |line| + 1;
    after := if whole then log.(records := log.records + [j], torn := false) else log.(torn := written > 0);
    if whole {
      NextIsReplayed(c, who, lines, log.records, j, was);
    }
  }

  lemma NextIsReplayed(c: Codec, who: S.Authority, lines: seq<seq<S.Byte>>, h: seq<Journal>, j: Journal,
                       was: S.Parsed<Journal>)
    requires S.ValidCodec(c) && c.plan(j) == who.plan && |lines| >= 3 && h != []
    requires S.Replay(c, who, lines[2..]) == Some(h)
    requires was.Current? && was.sequence == |h| - 1 && was.last == S.DigestAt(c, h, |h| - 1)
    ensures S.Replay(c, who, (lines + [c.encode(S.NextLine(c, was, j))])[2..]) == Some(h + [j])
  {
    var line := c.encode(S.NextLine(c, was, j));
    assert (lines + [line])[2..] == lines[2..] + [line];
    S.ReplayOfNext(c, who, lines[2..], line);
  }

  // ------------------------------------------------------------------ while the log starts

  /** The first line of the file is a bootstrap record of this invocation and fixes the plan. */
  ghost predicate Boots(c: Codec, who: S.Authority, bytes: seq<S.Byte>, plan: Plan) {
    && S.CompleteLines(bytes) != []
    && var first := c.decode(S.CompleteLines(bytes)[0]);
      && first.Some? && first.value.Bootstrap?
      && first.value.invocation == who.invocation && first.value.payload.plan == plan
  }

  /** What the file holds at any time after it was created. Before record 0 is whole, a torn
      log is one with anything behind its bootstrap record. */
  ghost predicate Stands(c: Codec, who: S.Authority, bytes: seq<S.Byte>, log: Log) {
    match log
    case NoLog(_) => false
    case Bare => S.CompleteLines(bytes) == []
    case Booted(plan, _, records, torn) =>
      && Boots(c, who, bytes, plan)
      && if records == [] then |S.CompleteLines(bytes)| < 3 && (torn <==> S.FirstLine(bytes) < |bytes|)
         else Represents(c, who, bytes, log)
  }

  /** A log cut at any byte: without a whole first line nothing has been decided, with one the
      plan has, and from record 0 on it is the log of the records that are whole. */
  function LogAt(first: Journal, journalFile: JournalFile, h: seq<Journal>, k: nat, more: bool): Log
    requires k <= |h| + 2
  {
    if k == 0 then Bare
    else if k < 3 then Booted(first.plan, journalFile, [], more)
    else Booted(first.plan, journalFile, h[..k - 2], more)
  }

  /** A log written line after line and cut at any byte is what the transaction model has for
      the lines that are whole. */
  lemma CutIsTorn(c: Codec, who: S.Authority, first: Journal, journalFile: JournalFile, h: seq<Journal>, cut: nat)
    requires S.ValidCodec(c) && S.OnePlan(c, who, h)
    requires cut <= |S.Framed(S.LogLines(c, who, first, h))|
    ensures var lines := S.LogLines(c, who, first, h);
      var k := S.LinesWithin(lines, cut);
      var whole := if k < 3 then 1 else k;
      Stands(c, who, S.Framed(lines)[..cut],
             LogAt(first, journalFile, h, k, |S.Framed(lines[..whole])| < cut))
  {
    var lines := S.LogLines(c, who, first, h);
    var k := S.LinesWithin(lines, cut);
    var bytes := S.Framed(lines)[..cut];
    S.AllPlain(c, who, first, h);
    S.CutFramed(lines, cut);
    S.CompleteLinesOfFramed(lines[..k], S.CutTail(lines, cut));
    if k > 0 {
      assert S.CompleteLines(bytes)[0] == lines[0];
      FirstLineEnds(bytes, lines);
    }
    if k >= 3 {
      S.TornTail(c, who, first, h, cut);
      S.CurrentSize(c, who, bytes);
      S.RecordsOfPrefix(c, who, first, h, k);
      S.ReplayIsExact(c, who, lines[..k][2..], h[..k - 2]);
    }
  }

  lemma FirstLineEnds(bytes: seq<S.Byte>, lines: seq<seq<S.Byte>>)
    requires lines != [] && S.CompleteLines(bytes) != [] && S.CompleteLines(bytes)[0] == lines[0]
    ensures bytes != [] && S.FirstLine(bytes) == |lines[0]| + 1 == |S.Framed(lines[..1])|
    ensures bytes[S.FirstLine(bytes) - 1] == S.LF
  {
    assert lines[..1][1..] == [];
  }

  /** The bootstrap record, cut at any byte: nothing is decided, or the plan is. */
  method WriteBootstrapBytes(file: S.StateFile, c: Codec, who: S.Authority, first: Journal, written: nat)
    returns (ghost after: Log)
    requires S.ValidCodec(c) && Stands(c, who, file.bytes, Bare)
    requires written <= |c.encode(S.Bootstrap(who.invocation, first))| + 1
    modifies file
    ensures Stands(c, who, file.bytes, after)
    ensures after == if written == |c.encode(S.Bootstrap(who.invocation, first))| + 1
                     then Booted(first.plan, Missing, [], false) else Bare
  {
    var line := c.encode(S.Bootstrap(who.invocation, first));
    file.bytes := (line + [S.LF])[..written];
    BootstrapCut(c, who, first, written);
    after := if written == |line| + 1 then Booted(first.plan, Missing, [], false) else Bare;
  }

  lemma BootstrapCut(c: Codec, who: S.Authority, first: Journal, written: nat)
    requires S.ValidCodec(c) && written <= |c.encode(S.Bootstrap(who.invocation, first))| + 1
    ensures var line := c.encode(S.Bootstrap(who.invocation, first));
      Stands(c, who, (line + [S.LF])[..written],
             if written == |line| + 1 then Booted(first.plan, Missing, [], false) else Bare)
  {
    var none: seq<Journal> := [];
    var line, lines := c.encode(S.Bootstrap(who.invocation, first)), S.LogLines(c, who, first, none);
    assert S.Framed(lines) == line + [S.LF] + S.Framed(lines[1..]);
    assert S.Framed(lines)[..written] == (line + [S.LF])[..written];
    CutIsTorn(c, who, first, Missing, none, written);
    assert S.LinesWithin(lines[1..], 0) == 0;
    FirstFramed(lines);
  }

  lemma FirstFramed(lines: seq<seq<S.Byte>>)
    requires lines != []
    ensures S.Framed(lines[..1]) == lines[0] + [S.LF]
  {
    assert lines[..1][1..] == [];
  }

  /** The header and record 0, behind the bootstrap record and over what an earlier crash left
      there, cut at any byte: record 0 is there, or the log is as far as it was. */
  method WriteFirstBytes(file: S.StateFile, c: Codec, who: S.Authority, ghost log: Log, j: Journal, written: nat)
    returns (ghost after: Log)
    requires S.ValidCodec(c) && c.plan(j) == who.plan
    requires Stands(c, who, file.bytes, log) && log.Booted? && log.records == []
    requires written <= |S.Framed(FirstLines(c, who, j))|
    modifies file
    ensures Stands(c, who, file.bytes, after)
    ensures after == if written == |S.Framed(FirstLines(c, who, j))| then log.(records := [j], torn := false)
                     else log.(torn := written > 0)
  {
    var n := S.FirstLine(file.bytes);
    var rest := S.Framed(FirstLines(c, who, j))[..written];
    BehindBootstrap(c, who, file.bytes, log.plan, j, written);
    file.bytes := file.bytes[..n] + rest;
    after := if written == |S.Framed(FirstLines(c, who, j))| then log.(records := [j], torn := false)
             else log.(torn := written > 0);
  }

  function FirstLines(c: Codec, who: S.Authority, j: Journal): (r: seq<seq<S.Byte>>)
    ensures |r| == 2
  {
    var header: S.Line<Journal> := S.Header(who.journalDigest, who.plan);
    [c.encode(header), c.encode(S.RecordAt(c, [j], 0))]
  }

  lemma BehindBootstrap(c: Codec, who: S.Authority, bytes: seq<S.Byte>, plan: Plan, j: Journal, written: nat)
    requires S.ValidCodec(c) && c.plan(j) == who.plan && Boots(c, who, bytes, plan)
    requires written <= |S.Framed(FirstLines(c, who, j))|
    ensures bytes != []
    ensures var lines := FirstLines(c, who, j);
      var n := S.FirstLine(bytes);
      var cut := bytes[..n] + S.Framed(lines)[..written];
      && Boots(c, who, cut, plan) && S.FirstLine(cut) == n
      && (written < |S.Framed(lines)| ==> |S.CompleteLines(cut)| < 3)
      && (written == |S.Framed(lines)| ==> forall file :: Represents(c, who, cut, Booted(plan, file, [j], false)))
  {
    var lines, n := FirstLines(c, who, j), S.FirstLine(bytes);
    var rest := S.Framed(lines)[..written];
    var cut := bytes[..n] + rest;
    assert bytes[n - 1] == S.LF && S.CompleteLines(bytes)[0] == bytes[..n - 1];
    S.FirstLineThen(bytes, rest);
    S.FirstLineOfWhole(bytes, n);
    S.FirstLineOfPrefix(bytes[..n], rest);
    FirstLinesCut(c, who, j, written);
    hide S.CompleteLines, S.CompleteSize, S.FirstLine, S.Framed, S.Replay, S.ParseLines, FirstLines;
    if written == |S.Framed(lines)| {
      assert S.CompleteLines(cut) == [bytes[..n - 1]] + lines;
      assert S.CompleteSize(cut) == |cut|;
      FirstIsReplayed(c, who, j, bytes[..n - 1], |cut|);
    }
  }

  /** What a cut leaves of the header and record 0. */
  lemma FirstLinesCut(c: Codec, who: S.Authority, j: Journal, written: nat)
    requires S.ValidCodec(c) && written <= |S.Framed(FirstLines(c, who, j))|
    ensures var lines := FirstLines(c, who, j);
      var rest := S.Framed(lines)[..written];
      if written == |S.Framed(lines)| then S.CompleteLines(rest) == lines && S.CompleteSize(rest) == written
      else |S.CompleteLines(rest)| < 2
  {
    var lines := FirstLines(c, who, j);
    assert forall i :: 0 <= i < |lines| ==> S.Plain(lines[i]);
    hide FirstLines, S.Plain;
    S.CutFramed(lines, written);
    var k := S.LinesWithin(lines, written);
    TwoLines(lines, written);
    S.CompleteLinesOfFramed(lines[..k], S.CutTail(lines, written));
    if k == 2 {
      assert lines[..k] == lines;
    }
  }

  lemma TwoLines(lines: seq<seq<S.Byte>>, written: nat)
    requires |lines| == 2 && written <= |S.Framed(lines)|
    ensures S.LinesWithin(lines, written) == 2 <==> written == |S.Framed(lines)|
    ensures lines[..2] == lines
  {
    var last := lines[1..];
    assert last[1..] == [];
    assert S.Framed(last) == lines[1] + [S.LF];
    if written >= |lines[0]| + 1 {
      var more := written - |lines[0]| - 1;
      assert S.LinesWithin(last, more) == if more < |lines[1]| + 1 then 0 else 1;
    }
  }

  /** Behind a bootstrap record they are a log with record 0. */
  lemma FirstIsReplayed(c: Codec, who: S.Authority, j: Journal, boot: seq<S.Byte>, size: nat)
    requires S.ValidCodec(c) && c.plan(j) == who.plan
    requires var first := c.decode(boot);
      first.Some? && first.value.Bootstrap? && first.value.invocation == who.invocation
    ensures var lines := [boot] + FirstLines(c, who, j);
      && S.Replay(c, who, lines[2..]) == Some([j]) && S.ParseLines(c, who, lines, size).Current?
  {
    var lines := [boot] + FirstLines(c, who, j);
    assert lines[2..] == [c.encode(S.RecordAt(c, [j], 0))];
    S.ReplayIsExact(c, who, lines[2..], [j]);
  }
}
