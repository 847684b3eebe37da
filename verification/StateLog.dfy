/** The bytes of the state log: line framing, the hash chain, the parser, and what a write
    that was cut at any byte leaves behind.

    JSON and SHA-256 enter as a `Codec`: an encoding of lines into bytes without line feeds
    or carriage returns that decodes to what was encoded, and an injective digest. */
module StateLog {
  import opened Common

  type Byte = b: int | 0 <= b < 256

  const LF: Byte := 10
  const CR: Byte := 13

  datatype Line<!P> =
    | Bootstrap(invocation: string, payload: P)
    | Header(journalDigest: string, planDigest: string)
    | State(payload: P, previous: Option<string>, sequence: int, digest: string)

  datatype Codec<!P> = Codec(
    encode: Line<P> -> seq<Byte>,
    decode: seq<Byte> -> Option<Line<P>>,
    digest: (P, Option<string>, int) -> string,
    plan: P -> string)

  ghost predicate ValidCodec<P(!new)>(c: Codec<P>) {
    && (forall l :: c.decode(c.encode(l)) == Some(l))
    && (forall l, i :: 0 <= i < |c.encode(l)| ==> c.encode(l)[i] != LF && c.encode(l)[i] != CR)
  }

  ghost predicate InjectiveDigest<P(!new)>(c: Codec<P>) {
    forall p, q, a, b, i, j :: c.digest(p, a, i) == c.digest(q, b, j) ==> p == q && a == b && i == j
  }

  datatype ParseError = NoHeader | BadBootstrap | Incomplete | BadHeader | BadRecord

  datatype Parsed<+P> =
    | Current(payload: P, sequence: nat, last: string, validSize: nat)
    | Failed(error: ParseError)

  // ------------------------------------------------------------------ framing

  /** `bytes.splitlines(keepends=True)`: lines end at "\n", "\r" or "\r\n". */
  function FirstLine(s: seq<Byte>): (n: nat)
    requires s != []
    ensures 0 < n <= |s|
  {
    if s[0] == LF then 1
    else if s[0] == CR then (if |s| > 1 && s[1] == LF then 2 else 1)
    else if |s| == 1 then 1
    else 1 + FirstLine(s[1..])
  }

  /** The lines, without their line feed, up to the first one that does not end in one. */
  function CompleteLines(s: seq<Byte>): seq<seq<Byte>> {
    if s == [] then []
    else
      var n := FirstLine(s);
      if s[n - 1] != LF then [] else [s[..n - 1]] + CompleteLines(s[n..])
  }

  function CompleteSize(s: seq<Byte>): (size: nat)
    ensures size <= |s|
  {
    if s == [] then 0
    else
      var n := FirstLine(s);
      if s[n - 1] != LF then 0 else n + CompleteSize(s[n..])
  }

  ghost predicate Plain(s: seq<Byte>) {
    forall i :: 0 <= i < |s| ==> s[i] != LF && s[i] != CR
  }

  lemma {:induction false} FirstLineOfPlain(a: seq<Byte>, rest: seq<Byte>)
    requires Plain(a)
    ensures FirstLine(a + [LF] + rest) == |a| + 1
  {
    var s := a + [LF] + rest;
    if a == [] {
      assert s[0] == LF;
    } else {
      assert s[0] == a[0];
      assert s[1..] == a[1..] + [LF] + rest;
      FirstLineOfPlain(a[1..], rest);
    }
  }

  lemma {:induction false} FirstLineOfTail(a: seq<Byte>)
    requires Plain(a) && a != []
    ensures FirstLine(a) == |a|
  {
    if |a| > 1 {
      FirstLineOfTail(a[1..]);
    }
  }

  /** The bytes of a list of lines. */
  function Framed(lines: seq<seq<Byte>>): seq<Byte> {
    if lines == [] then [] else lines[0] + [LF] + Framed(lines[1..])
  }

  lemma {:induction false} FramedAppend(a: seq<seq<Byte>>, b: seq<seq<Byte>>)
    ensures Framed(a + b) == Framed(a) + Framed(b)
  {
    if a == [] {
      assert a + b == b;
    } else {
      FramedAppend(a[1..], b);
      assert (a + b)[1..] == a[1..] + b && (a + b)[0] == a[0];
      assert Framed(a + b) == a[0] + [LF] + Framed(a[1..] + b);
      assert Framed(a) == a[0] + [LF] + Framed(a[1..]);
      hide *;
      FrameSplit(a[0], Framed(a[1..]), Framed(b));
    }
  }

  /** A line at the head is read first. */
  lemma CompleteCons(line: seq<Byte>, rest: seq<Byte>)
    requires Plain(line)
    ensures CompleteLines(line + [LF] + rest) == [line] + CompleteLines(rest)
    ensures CompleteSize(line + [LF] + rest) == |line| + 1 + CompleteSize(rest)
  {
    var s := line + [LF] + rest;
    FirstLineOfPlain(line, rest);
    assert s[..|line|] == line && s[|line| + 1..] == rest;
  }

  lemma FrameSplit(line: seq<Byte>, rest: seq<Byte>, tail: seq<Byte>)
    ensures (line + [LF] + rest) + tail == line + [LF] + (rest + tail)
  {
  }

  /** Reading back framed lines with an unfinished line behind them. */
  lemma {:induction false} CompleteLinesOfFramed(lines: seq<seq<Byte>>, tail: seq<Byte>)
    requires forall i :: 0 <= i < |lines| ==> Plain(lines[i])
    requires Plain(tail)
    ensures CompleteLines(Framed(lines) + tail) == lines
    ensures CompleteSize(Framed(lines) + tail) == |Framed(lines)|
  {
    if lines == [] {
      assert Framed(lines) + tail == tail;
      if tail != [] {
        FirstLineOfTail(tail);
      }
    } else {
      var line, rest := lines[0], Framed(lines[1..]);
      CompleteLinesOfFramed(lines[1..], tail);
      CompleteCons(line, rest + tail);
      assert Framed(lines) == line + [LF] + rest;
      hide *;
      FrameSplit(line, rest, tail);
      assert lines == [line] + lines[1..];
    }
  }

  /** How many whole lines a prefix of `c` bytes keeps. */
  function LinesWithin(lines: seq<seq<Byte>>, c: nat): (k: nat)
    ensures k <= |lines|
  {
    if lines == [] || c < |lines[0]| + 1 then 0
    else 1 + LinesWithin(lines[1..], c - |lines[0]| - 1)
  }

  /** The unfinished line that such a prefix ends with. */
  function CutTail(lines: seq<seq<Byte>>, c: nat): seq<Byte> {
    if lines == [] then []
    else if c < |lines[0]| + 1 then lines[0][..c]
    else CutTail(lines[1..], c - |lines[0]| - 1)
  }

  /** A cut at any byte keeps whole lines and at most one plain tail. */
  lemma {:induction false} CutFramed(lines: seq<seq<Byte>>, c: nat)
    requires forall i :: 0 <= i < |lines| ==> Plain(lines[i])
    requires c <= |Framed(lines)|
    ensures Framed(lines)[..c] == Framed(lines[..LinesWithin(lines, c)]) + CutTail(lines, c)
    ensures Plain(CutTail(lines, c))
  {
    if lines == [] {
    } else if c < |lines[0]| + 1 {
      assert lines[..0] == [];
      assert Framed(lines)[..c] == lines[0][..c];
    } else {
      var k, line, rest := LinesWithin(lines, c), lines[0], lines[1..];
      var m := c - |line| - 1;
      CutFramed(rest, m);
      FramedTake(lines, k);
      assert Framed(lines) == line + [LF] + Framed(rest);
      assert CutTail(lines, c) == CutTail(rest, m) && LinesWithin(rest, m) == k - 1;
      hide *;
      CutCons(line, Framed(rest), m);
      FrameSplit(line, Framed(rest[..k - 1]), CutTail(rest, m));
    }
  }

  lemma FramedTake(lines: seq<seq<Byte>>, k: nat)
    requires 1 <= k <= |lines|
    ensures Framed(lines[..k]) == lines[0] + [LF] + Framed(lines[1..][..k - 1])
  {
    assert lines[..k][1..] == lines[1..][..k - 1];
  }

  lemma CutCons(line: seq<Byte>, rest: seq<Byte>, m: nat)
    requires m <= |rest|
    ensures (line + [LF] + rest)[..|line| + 1 + m] == line + [LF] + rest[..m]
  {
  }

  // ------------------------------------------------------------------ the chain

  /** The digest of record `i` of a history, which covers its payload, its number and the
      digest before it. */
  function DigestAt<P>(c: Codec<P>, history: seq<P>, i: nat): string
    requires i < |history|
    decreases i, 1
  {
    (c.digest)(history[i], PreviousAt(c, history, i), i)
  }

  function PreviousAt<P>(c: Codec<P>, history: seq<P>, i: nat): Option<string>
    requires i <= |history|
    decreases i, 0
  {
    if i == 0 then None else Some(DigestAt(c, history, i - 1))
  }

  function RecordAt<P>(c: Codec<P>, history: seq<P>, i: nat): Line<P>
    requires i < |history|
  {
    State(history[i], PreviousAt(c, history, i), i, DigestAt(c, history, i))
  }

  /** What the journal file fixes about its state log. */
  datatype Authority = Authority(invocation: string, journalDigest: string, plan: string)

  /** `records` encode exactly the chained history `h` of one plan. */
  ghost predicate Encodes<P>(c: Codec<P>, who: Authority, records: seq<seq<Byte>>, h: seq<P>) {
    && |records| == |h|
    && forall i :: 0 <= i < |h| ==> c.decode(records[i]) == Some(RecordAt(c, h, i)) && c.plan(h[i]) == who.plan
  }

  /** The parser's loop: the history of the records, or nothing if one of them is invalid. */
  function Replay<P(==)>(c: Codec<P>, who: Authority, records: seq<seq<Byte>>): (r: Option<seq<P>>)
    ensures r.Some? ==> |r.value| == |records|
  {
    if records == [] then Some([])
    else
      var n := |records| - 1;
      match Replay(c, who, records[..n])
      case None => None
      case Some(h) => NextRecord(c, who, h, records[n])
  }

  function NextRecord<P(==)>(c: Codec<P>, who: Authority, h: seq<P>, record: seq<Byte>): Option<seq<P>> {
    match c.decode(record)
    case Some(State(payload, previous, sequence, digest)) =>
      if sequence == |h| && previous == PreviousAt(c, h, |h|) && c.plan(payload) == who.plan
         && digest == (c.digest)(payload, previous, sequence)
      then Some(h + [payload]) else None
    case _ => None
  }

  lemma {:induction false} ChainOfPrefix<P>(c: Codec<P>, a: seq<P>, b: seq<P>, i: nat)
    requires i <= |a| && a <= b
    ensures PreviousAt(c, b, i) == PreviousAt(c, a, i)
    ensures i < |a| ==> RecordAt(c, b, i) == RecordAt(c, a, i)
  {
    if i > 0 {
      ChainOfPrefix(c, a, b, i - 1);
    }
  }

  /** One step of the loop accepts exactly the next record of the chain. */
  lemma NextRecordIsExact<P>(c: Codec<P>, who: Authority, before: seq<P>, record: seq<Byte>, h: seq<P>)
    requires |h| == |before| + 1
    requires PreviousAt(c, h, |before|) == PreviousAt(c, before, |before|)
    ensures h[..|before|] == before ==>
              (NextRecord(c, who, before, record) == Some(h)
               <==> c.decode(record) == Some(RecordAt(c, h, |before|)) && c.plan(h[|before|]) == who.plan)
    ensures h[..|before|] != before ==> NextRecord(c, who, before, record) != Some(h)
  {
    hide PreviousAt;
    match c.decode(record)
    case Some(State(payload, _, _, _)) => AppendEquals(before, payload, h);
    case _ =>
  }

  lemma AppendEquals<P>(before: seq<P>, p: P, h: seq<P>)
    requires |h| == |before| + 1
    ensures before + [p] == h <==> h[..|before|] == before && h[|before|] == p
  {
    assert (before + [p])[..|before|] == before && (before + [p])[|before|] == p;
  }

  lemma EncodesSplit<P>(c: Codec<P>, who: Authority, records: seq<seq<Byte>>, h: seq<P>)
    requires records != [] && |h| == |records|
    requires forall i :: 0 <= i < |h| - 1 ==> RecordAt(c, h, i) == RecordAt(c, h[..|h| - 1], i)
    ensures var n := |records| - 1;
            Encodes(c, who, records, h)
            <==> Encodes(c, who, records[..n], h[..n])
                 && c.decode(records[n]) == Some(RecordAt(c, h, n)) && c.plan(h[n]) == who.plan
  {
    var n := |records| - 1;
    var lhs := Encodes(c, who, records[..n], h[..n]);
    assert lhs <==> forall i :: 0 <= i < n ==>
      c.decode(records[i]) == Some(RecordAt(c, h, i)) && c.plan(h[i]) == who.plan;
  }

  /** The loop accepts exactly the encodings of a chained history, and finds that history. */
  lemma {:induction false} ReplayIsExact<P>(c: Codec<P>, who: Authority, records: seq<seq<Byte>>, h: seq<P>)
    ensures Replay(c, who, records) == Some(h) <==> Encodes(c, who, records, h)
  {
    if records != [] && |h| == |records| {
      var n := |records| - 1;
      var before := h[..n];
      ReplayIsExact(c, who, records[..n], before);
      forall i | 0 <= i <= n
        ensures i < n ==> RecordAt(c, h, i) == RecordAt(c, before, i)
        ensures i == n ==> PreviousAt(c, h, n) == PreviousAt(c, before, n)
      {
        ChainOfPrefix(c, before, h, i);
      }
      EncodesSplit(c, who, records, h);
      match Replay(c, who, records[..n]) {
        case None =>
        case Some(found) =>
          hide Encodes, NextRecord;
          ChainOfPrefix(c, before, h, n);
          if found == before {
            NextRecordIsExact(c, who, found, records[n], h);
          } else {
            NextRecordExtends(c, who, found, records[n]);
          }
      }
    }
  }

  lemma NextRecordExtends<P>(c: Codec<P>, who: Authority, before: seq<P>, record: seq<Byte>)
    ensures NextRecord(c, who, before, record).Some? ==>
              |NextRecord(c, who, before, record).value| == |before| + 1
              && NextRecord(c, who, before, record).value[..|before|] == before
  {
  }

  /** An injective digest makes the last digest determine the whole history. */
  lemma {:induction false} LastDigestDeterminesHistory<P(!new)>(c: Codec<P>, a: seq<P>, b: seq<P>)
    requires InjectiveDigest(c) && a != [] && b != []
    requires DigestAt(c, a, |a| - 1) == DigestAt(c, b, |b| - 1)
    ensures a == b
  {
    var n := |a| - 1;
    assert |b| - 1 == n && a[n] == b[n];
    if n > 0 {
      ChainOfPrefix(c, a[..n], a, n);
      ChainOfPrefix(c, b[..n], b, n);
      LastDigestDeterminesHistory(c, a[..n], b[..n]);
    }
    assert a == a[..n] + [a[n]] && b == b[..n] + [b[n]];
  }

  // ------------------------------------------------------------------ the parser

  /** What the parser makes of the complete lines of a log. */
  function ParseLines<P(==)>(c: Codec<P>, who: Authority, lines: seq<seq<Byte>>, size: nat): Parsed<P> {
    if lines == [] then Failed(NoHeader)
    else
      match c.decode(lines[0])
      case None => Failed(Incomplete)
      case Some(first) =>
        if !first.Bootstrap? || first.invocation != who.invocation then Failed(BadBootstrap)
        else if |lines| < 3 then Failed(Incomplete)
        else if c.decode(lines[1]) != Some(Header(who.journalDigest, who.plan)) then Failed(BadHeader)
        else
          match Replay(c, who, lines[2..])
          case None => Failed(BadRecord)
          case Some(h) => Current(h[|h| - 1], |h| - 1, DigestAt(c, h, |h| - 1), size)
  }

  function Parse<P(==)>(c: Codec<P>, who: Authority, bytes: seq<Byte>): Parsed<P> {
    ParseLines(c, who, CompleteLines(bytes), CompleteSize(bytes))
  }

  /** The loop that collects whole lines and the size they take. */
  method SplitLog(bytes: seq<Byte>) returns (lines: seq<seq<Byte>>, size: nat)
    ensures lines == CompleteLines(bytes) && size == CompleteSize(bytes)
  {
    lines, size := [], 0;
    assert bytes[0..] == bytes;
    while size < |bytes|
      invariant size <= |bytes|
      invariant CompleteLines(bytes) == lines + CompleteLines(bytes[size..])
      invariant CompleteSize(bytes) == size + CompleteSize(bytes[size..])
    {
      var rest := bytes[size..];
      var n := FirstLine(rest);
      if rest[n - 1] != LF {
        break;
      }
      assert rest[n..] == bytes[size + n..];
      assert CompleteLines(rest) == [rest[..n - 1]] + CompleteLines(rest[n..]);
      lines, size := lines + [rest[..n - 1]], size + n;
    }
  }

  /** The parser as written: one pass over the lines, then one over the records. */
  method ParseStateLog<P(==)>(c: Codec<P>, who: Authority, bytes: seq<Byte>)
    returns (r: Parsed<P>, ghost history: seq<P>)
    ensures r == Parse(c, who, bytes)
    ensures r.Current? ==> |CompleteLines(bytes)| >= 3 && Encodes(c, who, CompleteLines(bytes)[2..], history)
    ensures r.Current? ==> history != [] && r.payload == history[|history| - 1] && r.sequence == |history| - 1
    ensures r.Current? ==> r.last == DigestAt(c, history, |history| - 1)
  {
    history := [];
    var lines, size := SplitLog(bytes);
    if lines == [] {
      return Failed(NoHeader), [];
    }
    var first := c.decode(lines[0]);
    if first.None? {
      return Failed(Incomplete), [];
    }
    if !first.value.Bootstrap? || first.value.invocation != who.invocation {
      return Failed(BadBootstrap), [];
    }
    if |lines| < 3 {
      return Failed(Incomplete), [];
    }
    if c.decode(lines[1]) != Some(Header(who.journalDigest, who.plan)) {
      return Failed(BadHeader), [];
    }
    r, history := ReplayRecords(c, who, lines[2..], size);
  }

  method ReplayRecords<P(==)>(c: Codec<P>, who: Authority, records: seq<seq<Byte>>, size: nat)
    returns (r: Parsed<P>, ghost history: seq<P>)
    requires records != []
    ensures Replay(c, who, records) == if r.Current? then Some(history) else None
    ensures r.Failed? ==> r.error == BadRecord
    ensures r.Current? ==> Encodes(c, who, records, history)
    ensures r.Current? ==> var n := |history| - 1; r == Current(history[n], n, DigestAt(c, history, n), size)
  {
    history := [];
    var sequence: int, previous: Option<string> := -1, None;
    var current := None;
    for i := 0 to |records|
      invariant Replay(c, who, records[..i]) == Some(history)
      invariant |history| == i && sequence == i - 1 && previous == PreviousAt(c, history, i)
      invariant i > 0 ==> current == Some(history[i - 1])
    {
      assert records[..i + 1][..i] == records[..i];
      var line := c.decode(records[i]);
      if line.None? || !line.value.State? || line.value.sequence != sequence + 1
         || line.value.previous != previous || c.plan(line.value.payload) != who.plan
         || line.value.digest != (c.digest)(line.value.payload, line.value.previous, line.value.sequence) {
        InvalidRecordFails(c, who, records, i);
        return Failed(BadRecord), history;
      }
      ghost var before := history;
      history := history + [line.value.payload];
      ChainOfPrefix(c, before, history, i);
      sequence, previous := line.value.sequence, Some(line.value.digest);
      current := Some(line.value.payload);
    }
    assert records[..|records|] == records;
    ReplayIsExact(c, who, records, history);
    r := Current(current.value, sequence, previous.value, size);
  }

  lemma {:induction false} InvalidRecordFails<P>(c: Codec<P>, who: Authority, records: seq<seq<Byte>>, i: nat)
    requires i < |records| && Replay(c, who, records[..i + 1]).None?
    ensures Replay(c, who, records).None?
    decreases |records|
  {
    if i + 1 == |records| {
      assert records[..i + 1] == records;
    } else {
      var n := |records| - 1;
      assert records[..n][..i + 1] == records[..i + 1];
      InvalidRecordFails(c, who, records[..n], i);
    }
  }

  /** What is accepted, and as which history: a bootstrap record of this invocation, the header
      of this journal and plan, and behind them the records of the history. */
  lemma AcceptedExactly<P>(c: Codec<P>, who: Authority, bytes: seq<Byte>, h: seq<P>)
    requires h != []
    ensures var lines := CompleteLines(bytes);
      Parse(c, who, bytes).Current? && Replay(c, who, lines[2..]) == Some(h) <==>
        && |lines| >= 3
        && c.decode(lines[0]).Some? && c.decode(lines[0]).value.Bootstrap?
        && c.decode(lines[0]).value.invocation == who.invocation
        && c.decode(lines[1]) == Some(Header(who.journalDigest, who.plan))
        && Encodes(c, who, lines[2..], h)
  {
    var lines := CompleteLines(bytes);
    if |lines| >= 3 {
      ReplayIsExact(c, who, lines[2..], h);
    }
  }

  /** Every accepted log is a chained history: records 0..n over one plan, each digest
      covering the digest before it. */
  lemma AcceptedLogIsChained<P>(c: Codec<P>, who: Authority, bytes: seq<Byte>) returns (h: seq<P>)
    requires Parse(c, who, bytes).Current?
    ensures |CompleteLines(bytes)| >= 3 && Encodes(c, who, CompleteLines(bytes)[2..], h) && h != []
    ensures var now := Parse(c, who, bytes);
            now.payload == h[|h| - 1] && now.sequence == |h| - 1 && now.last == DigestAt(c, h, |h| - 1)
  {
    var records := CompleteLines(bytes)[2..];
    h := Replay(c, who, records).value;
    ReplayIsExact(c, who, records, h);
  }

  /** Two accepted logs, even of different journals, that end in the same digest record the
      same history. */
  lemma SameLastDigestSameHistory<P(!new)>(
    c: Codec<P>, whoA: Authority, a: seq<Byte>, whoB: Authority, b: seq<Byte>)
    requires InjectiveDigest(c) && Parse(c, whoA, a).Current? && Parse(c, whoB, b).Current?
    requires Parse(c, whoA, a).last == Parse(c, whoB, b).last
    ensures |CompleteLines(a)| >= 3 && |CompleteLines(b)| >= 3
    ensures Replay(c, whoA, CompleteLines(a)[2..]) == Replay(c, whoB, CompleteLines(b)[2..])
  {
    var ha := AcceptedLogIsChained(c, whoA, a);
    var hb := AcceptedLogIsChained(c, whoB, b);
    LastDigestDeterminesHistory(c, ha, hb);
    ReplayIsExact(c, whoA, CompleteLines(a)[2..], ha);
    ReplayIsExact(c, whoB, CompleteLines(b)[2..], hb);
  }

  // ------------------------------------------------------------------ torn tails

  ghost function Records<P>(c: Codec<P>, h: seq<P>): seq<seq<Byte>> {
    seq(|h|, i requires 0 <= i < |h| => c.encode(RecordAt(c, h, i)))
  }

  /** The lines of a log that was written without a crash. */
  ghost function LogLines<P>(c: Codec<P>, who: Authority, first: P, h: seq<P>): seq<seq<Byte>> {
    [c.encode(Bootstrap(who.invocation, first)), c.encode(Header(who.journalDigest, who.plan))] + Records(c, h)
  }

  ghost predicate OnePlan<P>(c: Codec<P>, who: Authority, h: seq<P>) {
    forall i :: 0 <= i < |h| ==> c.plan(h[i]) == who.plan
  }

  lemma ParseOfLogLines<P(!new)>(c: Codec<P>, who: Authority, first: P, h: seq<P>, k: nat, size: nat)
    requires ValidCodec(c) && OnePlan(c, who, h) && k <= |h| + 2
    ensures ParseLines(c, who, LogLines(c, who, first, h)[..k], size)
         == if k == 0 then Failed(NoHeader)
            else if k < 3 then Failed(Incomplete)
            else Current(h[k - 3], k - 3, DigestAt(c, h, k - 3), size)
  {
    var lines := LogLines(c, who, first, h)[..k];
    if k > 0 {
      assert lines[0] == c.encode(Bootstrap(who.invocation, first));
    }
    if k >= 3 {
      var kept := h[..k - 2];
      assert lines[1] == c.encode(Header(who.journalDigest, who.plan));
      RecordsOfPrefix(c, who, first, h, k);
      hide Records, LogLines, OnePlan;
      ReplayIsExact(c, who, lines[2..], kept);
      ChainOfPrefix(c, kept, h, k - 3);
      hide Replay, Encodes, DigestAt, PreviousAt, RecordAt;
    }
  }

  lemma RecordsOfPrefix<P(!new)>(c: Codec<P>, who: Authority, first: P, h: seq<P>, k: nat)
    requires ValidCodec(c) && OnePlan(c, who, h) && 3 <= k <= |h| + 2
    ensures Encodes(c, who, LogLines(c, who, first, h)[..k][2..], h[..k - 2])
  {
    var records, kept := LogLines(c, who, first, h)[..k][2..], h[..k - 2];
    forall i | 0 <= i < |kept|
      ensures c.decode(records[i]) == Some(RecordAt(c, kept, i)) && c.plan(kept[i]) == who.plan
    {
      ChainOfPrefix(c, kept, h, i);
      assert records[i] == Records(c, h)[i];
    }
  }

  lemma AllPlain<P(!new)>(c: Codec<P>, who: Authority, first: P, h: seq<P>)
    requires ValidCodec(c)
    ensures forall i :: 0 <= i < |LogLines(c, who, first, h)| ==> Plain(LogLines(c, who, first, h)[i])
  {
    var lines := LogLines(c, who, first, h);
    forall i | 0 <= i < |lines|
      ensures Plain(lines[i])
    {
      if i >= 2 {
        assert lines[i] == c.encode(RecordAt(c, h, i - 2));
      }
    }
  }

  /** Torn tails, for every number of appended records and every byte the log can be cut at:
      the parser finds exactly the last fully written payload, its number, its digest and the
      size of the whole lines; before record 0 is whole it reports an unfinished bootstrap. */
  lemma TornTail<P(!new)>(c: Codec<P>, who: Authority, first: P, h: seq<P>, cut: nat)
    requires ValidCodec(c) && OnePlan(c, who, h)
    requires cut <= |Framed(LogLines(c, who, first, h))|
    ensures var lines := LogLines(c, who, first, h);
            var k := LinesWithin(lines, cut);
            Parse(c, who, Framed(lines)[..cut])
            == if k == 0 then Failed(NoHeader)
               else if k < 3 then Failed(Incomplete)
               else Current(h[k - 3], k - 3, DigestAt(c, h, k - 3), |Framed(lines[..k])|)
  {
    var lines := LogLines(c, who, first, h);
    AllPlain(c, who, first, h);
    var k := LinesWithin(lines, cut);
    CutFramed(lines, cut);
    CompleteLinesOfFramed(lines[..k], CutTail(lines, cut));
    ParseOfLogLines(c, who, first, h, k, |Framed(lines[..k])|);
  }

  /** Appending one line to whole lines, whatever those lines are. */
  lemma {:induction false} CompleteLinesOfAppend(s: seq<Byte>, line: seq<Byte>, written: nat)
    requires CompleteSize(s) == |s| && Plain(line) && written <= |line| + 1
    ensures CompleteLines(s + (line + [LF])[..written])
         == if written == |line| + 1 then CompleteLines(s) + [line] else CompleteLines(s)
    ensures CompleteSize(s + (line + [LF])[..written])
         == if written == |line| + 1 then |s| + written else |s|
  {
    var tail := (line + [LF])[..written];
    if s == [] {
      assert s + tail == tail;
      AppendToNothing(line, written);
    } else {
      var n := FirstLine(s);
      assert s[n - 1] == LF && CompleteSize(s) == n + CompleteSize(s[n..]);
      assert CompleteLines(s) == [s[..n - 1]] + CompleteLines(s[n..]);
      FirstLineOfPrefix(s, tail);
      FirstLineStep(s, tail);
      hide *;
      CompleteLinesOfAppend(s[n..], line, written);
    }
  }

  lemma AppendToNothing(line: seq<Byte>, written: nat)
    requires Plain(line) && written <= |line| + 1
    ensures var tail := (line + [LF])[..written];
            CompleteLines(tail) == (if written == |line| + 1 then [line] else [])
            && CompleteSize(tail) == (if written == |line| + 1 then written else 0)
  {
    var tail := (line + [LF])[..written];
    if written == |line| + 1 {
      assert Framed([line]) + [] == tail;
      CompleteLinesOfFramed([line], []);
    } else {
      assert Framed([]) + tail == tail;
      CompleteLinesOfFramed([], tail);
    }
  }

  /** The first line of `s` stays the first line when bytes follow. */
  lemma FirstLineStep(s: seq<Byte>, tail: seq<Byte>)
    requires s != [] && s[FirstLine(s) - 1] == LF && FirstLine(s + tail) == FirstLine(s)
    ensures var n := FirstLine(s);
            && CompleteLines(s + tail) == [s[..n - 1]] + CompleteLines(s[n..] + tail)
            && CompleteSize(s + tail) == n + CompleteSize(s[n..] + tail)
  {
    var n := FirstLine(s);
    assert (s + tail)[n..] == s[n..] + tail;
    assert (s + tail)[..n - 1] == s[..n - 1];
  }

  lemma {:induction false} FirstLineOfPrefix(s: seq<Byte>, tail: seq<Byte>)
    requires s != [] && s[FirstLine(s) - 1] == LF
    ensures FirstLine(s + tail) == FirstLine(s)
  {
    if s[0] != LF && s[0] != CR && |s| > 1 {
      assert (s + tail)[1..] == s[1..] + tail;
      FirstLineOfPrefix(s[1..], tail);
    }
  }

  /** Keeping the first line of `s` and replacing what follows it. */
  lemma FirstLineThen(s: seq<Byte>, rest: seq<Byte>)
    requires s != [] && s[FirstLine(s) - 1] == LF
    ensures var n := FirstLine(s);
            && CompleteLines(s[..n] + rest) == [s[..n - 1]] + CompleteLines(rest)
            && CompleteSize(s[..n] + rest) == n + CompleteSize(rest)
  {
    var n := FirstLine(s);
    FirstLineOfWhole(s, n);
    FirstLineOfPrefix(s[..n], rest);
    FirstLineStep(s[..n], rest);
    assert s[..n][n..] + rest == rest;
    assert s[..n][..n - 1] == s[..n - 1];
  }

  lemma CompleteFirst(s: seq<Byte>)
    requires s != [] && s[FirstLine(s) - 1] == LF
    ensures var n := FirstLine(s);
            && CompleteSize(s) == n + CompleteSize(s[n..])
            && CompleteLines(s) == [s[..n - 1]] + CompleteLines(s[n..])
  {
  }

  lemma {:induction false} CompletePart(s: seq<Byte>)
    ensures CompleteLines(s[..CompleteSize(s)]) == CompleteLines(s)
    ensures CompleteSize(s[..CompleteSize(s)]) == CompleteSize(s)
  {
    if s == [] || s[FirstLine(s) - 1] != LF {
      assert CompleteSize(s) == 0 && CompleteLines(s) == [];
      hide FirstLine;
      assert s[..0] == [];
    } else {
      hide CompleteLines, CompleteSize, FirstLine;
      var n := FirstLine(s);
      var rest := s[n..][..CompleteSize(s[n..])];
      CompleteFirst(s);
      FirstLineThen(s, rest);
      PrefixOfParts(s, n, CompleteSize(s[n..]));
      hide *;
      CompletePart(s[n..]);
      assert s[..CompleteSize(s)] == s[..n] + rest;
    }
  }

  lemma PrefixOfParts(s: seq<Byte>, n: nat, m: nat)
    requires n + m <= |s|
    ensures s[..n + m] == s[..n] + s[n..][..m]
  {
  }

  lemma {:induction false} FirstLineOfWhole(s: seq<Byte>, m: nat)
    requires s != [] && s[FirstLine(s) - 1] == LF && FirstLine(s) <= m <= |s|
    ensures FirstLine(s[..m]) == FirstLine(s)
  {
    if s[0] != LF && s[0] != CR && |s| > 1 {
      assert s[..m][1..] == s[1..][..m - 1];
      FirstLineOfWhole(s[1..], m - 1);
    }
  }

  /** The record that continues an accepted log. */
  function NextLine<P>(c: Codec<P>, now: Parsed<P>, payload: P): Line<P>
    requires now.Current?
  {
    State(payload, Some(now.last), now.sequence + 1, (c.digest)(payload, Some(now.last), now.sequence + 1))
  }

  lemma ReplayOfNext<P>(c: Codec<P>, who: Authority, records: seq<seq<Byte>>, line: seq<Byte>)
    ensures Replay(c, who, records + [line])
         == match Replay(c, who, records)
            case None => None
            case Some(h) => NextRecord(c, who, h, line)
  {
    assert (records + [line])[..|records|] == records;
  }

  lemma ParseOfAppendedLines<P(!new)>(
    c: Codec<P>, who: Authority, lines: seq<seq<Byte>>, size: nat, payload: P, sizeAfter: nat)
    requires ValidCodec(c) && c.plan(payload) == who.plan && ParseLines(c, who, lines, size).Current?
    ensures var now := ParseLines(c, who, lines, size);
            var next := NextLine(c, now, payload);
            ParseLines(c, who, lines + [c.encode(next)], sizeAfter)
            == Current(payload, now.sequence + 1, next.digest, sizeAfter)
  {
    var now := ParseLines(c, who, lines, size);
    var line := c.encode(NextLine(c, now, payload));
    var h := Replay(c, who, lines[2..]).value;
    assert (lines + [line])[2..] == lines[2..] + [line];
    ReplayOfNext(c, who, lines[2..], line);
    assert NextRecord(c, who, h, line) == Some(h + [payload]);
    ChainOfPrefix(c, h, h + [payload], |h|);
  }

  lemma CurrentSize<P>(c: Codec<P>, who: Authority, bytes: seq<Byte>)
    requires Parse(c, who, bytes).Current?
    ensures Parse(c, who, bytes).validSize == CompleteSize(bytes)
  {
  }

  /** The state log file and the one way a command changes it after bootstrap. */
  class StateFile {
    var bytes: seq<Byte>

    constructor (bytes: seq<Byte>)
      ensures this.bytes == bytes
    {
      this.bytes := bytes;
    }

    /** Drops a torn tail, then writes `written` bytes of the next record.  Either the whole
        record is there and the log parses to it, or the log parses as before. */
    method Append<P(==, !new)>(c: Codec<P>, who: Authority, payload: P, written: nat)
      requires ValidCodec(c) && c.plan(payload) == who.plan && Parse(c, who, bytes).Current?
      requires written <= |c.encode(NextLine(c, Parse(c, who, bytes), payload))| + 1
      modifies this
      ensures var was := old(Parse(c, who, bytes));
              var line := NextLine(c, was, payload);
              Parse(c, who, bytes)
              == if written == |c.encode(line)| + 1
                 then Current(payload, was.sequence + 1, line.digest, was.validSize + written)
                 else was
      ensures var was := old(Parse(c, who, bytes));
              var line := c.encode(NextLine(c, was, payload));
              && |bytes| == was.validSize + written
              && CompleteLines(bytes)
                 == if written == |line| + 1 then old(CompleteLines(bytes)) + [line] else old(CompleteLines(bytes))
    {
      hide ParseLines, Replay, CompleteLines, CompleteSize, FirstLine;
      ghost var before := bytes;
      var was, _ := ParseStateLog(c, who, bytes);
      CurrentSize(c, who, bytes);
      var line := c.encode(NextLine(c, was, payload));
      AppendedLines(c, who, before, payload, written);
      hide *;
      if |bytes| != was.validSize {
        bytes := bytes[..was.validSize];
      }
      assert bytes == before[..was.validSize];
      bytes := bytes + (line + [LF])[..written];
    }
  }

  /** What truncating a log and appending part of a record makes of it. */
  lemma AppendedLines<P(!new)>(c: Codec<P>, who: Authority, before: seq<Byte>, payload: P, written: nat)
    requires ValidCodec(c) && c.plan(payload) == who.plan && Parse(c, who, before).Current?
    requires written <= |c.encode(NextLine(c, Parse(c, who, before), payload))| + 1
    ensures Parse(c, who, before).validSize <= |before|
    ensures var was := Parse(c, who, before);
            var line := NextLine(c, was, payload);
            var after := before[..was.validSize] + (c.encode(line) + [LF])[..written];
            && |after| == was.validSize + written
            && CompleteLines(after)
               == (if written == |c.encode(line)| + 1 then CompleteLines(before) + [c.encode(line)]
                   else CompleteLines(before))
            && Parse(c, who, after)
               == if written == |c.encode(line)| + 1
                  then Current(payload, was.sequence + 1, line.digest, was.validSize + written)
                  else was
  {
    var was := Parse(c, who, before);
    var line := c.encode(NextLine(c, was, payload));
    assert Plain(line);
    CurrentSize(c, who, before);
    CompletePart(before);
    CompleteLinesOfAppend(before[..was.validSize], line, written);
    ParseOfAppendedLines(c, who, CompleteLines(before), was.validSize, payload, was.validSize + written);
    hide ParseLines, Replay, CompleteLines, CompleteSize, FirstLine, ValidCodec, Plain;
  }
}
