/** How SQL text is cut into code, literals and comments, the two loops that do it, and
    what the placeholder translation does to the cut. */
module SqlLexer {
  import opened Common

  /** The character classes of the host language, of which only what follows is used. */
  datatype Classes = Classes(alpha: char -> bool, alnum: char -> bool, digit: char -> bool)

  predicate Special(c: char) {
    c == '\'' || c == '"' || c == '-' || c == '/' || c == '*' || c == '$' || c == '?' || c == ' ' || c == '\n'
  }

  ghost predicate ValidClasses(cls: Classes) {
    && (forall c :: cls.alpha(c) || cls.digit(c) ==> cls.alnum(c))
    && (forall c :: cls.alnum(c) ==> !Special(c))
    && (forall c :: '0' <= c <= '9' ==> cls.digit(c) && !cls.alpha(c))
  }

  type Tag = t: string | |t| >= 2 witness "$$"

  datatype Mode = Code | Line | Block(depth: nat) | Dollar(tag: Tag) | Single | Double

  /** One piece of the text: a character of code, some hidden text, or the line end that
      closes a line comment. */
  datatype Piece = CodeChar(c: char) | Hidden(text: string) | LineEnd

  datatype Chunk = Chunk(size: nat, mode: Mode, piece: Piece)

  // ------------------------------------------------------------------ dollar quotes

  predicate WordChar(cls: Classes, c: char) {
    cls.alnum(c) || c == '_'
  }

  predicate TagBody(cls: Classes, inner: string) {
    && (inner != "" ==> cls.alpha(inner[0]) || inner[0] == '_')
    && forall i :: 0 <= i < |inner| ==> WordChar(cls, inner[i])
  }

  /** `str.find`. */
  function IndexOf(s: string, c: char): (r: Option<nat>)
    ensures r.Some? ==> r.value < |s|
  {
    if s == "" then None
    else if s[0] == c then Some(0)
    else
      var r := IndexOf(s[1..], c);
      if r.None? then None else Some(r.value + 1)
  }

  lemma {:induction false} IndexOfIsFirst(s: string, c: char)
    ensures var r := IndexOf(s, c);
      && (r.Some? ==> s[r.value] == c && forall i :: 0 <= i < r.value ==> s[i] != c)
      && (r.None? ==> forall i :: 0 <= i < |s| ==> s[i] != c)
  {
    if s != "" && s[0] != c {
      IndexOfIsFirst(s[1..], c);
      assert forall i :: 1 <= i < |s| ==> s[i] == s[1..][i - 1];
    }
  }

  /** `_match_dollar_quote_tag` at the head of a text. */
  function MatchTag(cls: Classes, s: string): (r: Option<Tag>)
    requires s != ""
    ensures r.Some? ==> |r.value| <= |s|
  {
    if s[0] != '$' then None
    else
      var end := IndexOf(s[1..], '$');
      if end.None? then None
      else if TagBody(cls, s[1..end.value + 1]) then Some(s[..end.value + 2]) else None
  }

  /** There is a tag exactly when the text starts with `$`, a tag body and `$`. */
  lemma TagMeaning(cls: Classes, s: string, n: nat)
    requires ValidClasses(cls) && s != "" && s[0] == '$' && n < |s| - 1
    ensures s[n + 1] == '$' && TagBody(cls, s[1..n + 1]) ==> MatchTag(cls, s) == Some(s[..n + 2])
    ensures MatchTag(cls, s) == Some(s[..n + 2]) ==> s[n + 1] == '$' && TagBody(cls, s[1..n + 1])
  {
    var end := IndexOf(s[1..], '$');
    IndexOfIsFirst(s[1..], '$');
    if s[n + 1] == '$' && TagBody(cls, s[1..n + 1]) {
      assert s[1..][n] == '$';
      assert end.value < n ==> WordChar(cls, s[1..n + 1][end.value]);
    }
    if MatchTag(cls, s) == Some(s[..n + 2]) {
      assert |s[..end.value + 2]| == |s[..n + 2]|;
      assert s[1..][n] == '$';
    }
  }

  // ------------------------------------------------------------------ one step

  predicate Starts(s: string, a: char, b: char) {
    |s| >= 2 && s[0] == a && s[1] == b
  }

  function Step(cls: Classes, mode: Mode, s: string): (r: Chunk)
    requires s != ""
    ensures 1 <= r.size <= |s|
  {
    match mode
    case Line => if s[0] == '\n' then Chunk(1, Code, LineEnd) else Chunk(1, Line, Hidden(s[..1]))
    case Block(d) =>
      if Starts(s, '/', '*') then Chunk(2, Block(d + 1), Hidden(s[..2]))
      else if Starts(s, '*', '/') then Chunk(2, if d <= 1 then Code else Block(d - 1), Hidden(s[..2]))
      else Chunk(1, mode, Hidden(s[..1]))
    case Dollar(tag) =>
      if tag <= s then Chunk(|tag|, Code, Hidden(tag)) else Chunk(1, mode, Hidden(s[..1]))
    case Single =>
      if Starts(s, '\'', '\'') then Chunk(2, Single, Hidden(s[..2]))
      else Chunk(1, if s[0] == '\'' then Code else Single, Hidden(s[..1]))
    case Double =>
      if Starts(s, '"', '"') then Chunk(2, Double, Hidden(s[..2]))
      else Chunk(1, if s[0] == '"' then Code else Double, Hidden(s[..1]))
    case Code =>
      if Starts(s, '-', '-') then Chunk(2, Line, Hidden(s[..2]))
      else if Starts(s, '/', '*') then Chunk(2, Block(1), Hidden(s[..2]))
      else if s[0] == '\'' then Chunk(1, Single, Hidden(s[..1]))
      else if s[0] == '"' then Chunk(1, Double, Hidden(s[..1]))
      else
        var tag := MatchTag(cls, s);
        if tag.Some? then Chunk(|tag.value|, Dollar(tag.value), Hidden(tag.value)) else Chunk(1, Code, CodeChar(s[0]))
  }

  /** A step's piece is the text it covers. */
  lemma StepText(cls: Classes, mode: Mode, s: string)
    requires s != ""
    ensures Text(Step(cls, mode, s).piece) == s[..Step(cls, mode, s).size]
  {
  }

  function Text(p: Piece): string {
    match p case CodeChar(c) => [c] case Hidden(t) => t case LineEnd => "\n"
  }

  /** The whole text, cut into pieces. */
  function Lex(cls: Classes, mode: Mode, s: string): seq<Piece>
    decreases |s|
  {
    if s == "" then []
    else
      var c := Step(cls, mode, s);
      [c.piece] + Lex(cls, c.mode, s[c.size..])
  }

  function Plain(pieces: seq<Piece>): string {
    if pieces == [] then "" else Text(pieces[0]) + Plain(pieces[1..])
  }

  /** The pieces are the text: nothing is dropped and nothing is read twice. */
  lemma {:induction false} LexLosesNothing(cls: Classes, mode: Mode, s: string)
    ensures Plain(Lex(cls, mode, s)) == s
    decreases |s|
  {
    if s != "" {
      var c := Step(cls, mode, s);
      var rest := Lex(cls, c.mode, s[c.size..]);
      StepText(cls, mode, s);
      LexLosesNothing(cls, c.mode, s[c.size..]);
      assert Lex(cls, mode, s) == [c.piece] + rest;
      hide Step, Text, Lex, Plain;
      PlainCons(c.piece, rest);
    }
  }

  lemma PlainCons(p: Piece, rest: seq<Piece>)
    ensures Plain([p] + rest) == Text(p) + Plain(rest)
  {
    assert ([p] + rest)[1..] == rest;
  }

  // ------------------------------------------------------------------ blanking

  function Spaces(n: nat): (r: string)
    ensures |r| == n
  {
    seq(n, i => ' ')
  }

  function BlankText(p: Piece): string {
    match p case CodeChar(c) => [c] case Hidden(t) => Spaces(|t|) case LineEnd => "\n"
  }

  /** The text with everything but its code blanked out. */
  function Blank(cls: Classes, mode: Mode, s: string): string
    decreases |s|
  {
    if s == "" then ""
    else
      var c := Step(cls, mode, s);
      BlankText(c.piece) + Blank(cls, c.mode, s[c.size..])
  }

  lemma BlankStep(cls: Classes, mode: Mode, s: string)
    requires s != ""
    ensures var c := Step(cls, mode, s);
      Blank(cls, mode, s) == BlankText(c.piece) + Blank(cls, c.mode, s[c.size..])
  {
  }

  lemma BlankTextShape(p: Piece)
    ensures |BlankText(p)| == |Text(p)|
    ensures forall i :: 0 <= i < |Text(p)| ==> BlankText(p)[i] == Text(p)[i] || BlankText(p)[i] == ' '
  {
  }

  /** Blanking keeps the length, so a position in the blanked text is one in the text. */
  lemma {:induction false} BlankKeepsLength(cls: Classes, mode: Mode, s: string)
    ensures |Blank(cls, mode, s)| == |s|
    decreases |s|
  {
    if s != "" {
      var c := Step(cls, mode, s);
      BlankStep(cls, mode, s);
      StepText(cls, mode, s);
      BlankTextShape(c.piece);
      hide *;
      BlankKeepsLength(cls, c.mode, s[c.size..]);
    }
  }

  /** Each character of the blanked text is the text's own, or a space. */
  lemma {:induction false} BlankCharacters(cls: Classes, mode: Mode, s: string, i: nat)
    requires i < |s|
    ensures |Blank(cls, mode, s)| == |s|
    ensures Blank(cls, mode, s)[i] == s[i] || Blank(cls, mode, s)[i] == ' '
    decreases |s|
  {
    hide *;
    BlankKeepsLength(cls, mode, s);
    var c := Step(cls, mode, s);
    BlankStep(cls, mode, s);
    StepText(cls, mode, s);
    BlankTextShape(c.piece);
    var rest := Blank(cls, c.mode, s[c.size..]);
    if i >= c.size {
      BlankCharacters(cls, c.mode, s[c.size..], i - c.size);
      assert (BlankText(c.piece) + rest)[i] == rest[i - c.size];
    } else {
      assert (BlankText(c.piece) + rest)[i] == BlankText(c.piece)[i] && s[..c.size][i] == s[i];
    }
  }

  // ------------------------------------------------------------------ the loops' own variables

  /** What both loops carry from turn to turn. */
  datatype Flags = Flags(single: bool, double: bool, line: bool, depth: nat, tag: Option<Tag>)

  const NoFlags: Flags := Flags(false, false, false, 0, None)

  /** Never more than one of them is set. */
  predicate OneAtMost(f: Flags) {
    && (f.single ==> f == NoFlags.(single := true))
    && (f.double ==> f == NoFlags.(double := true))
    && (f.line ==> f == NoFlags.(line := true))
    && (f.depth > 0 ==> f == NoFlags.(depth := f.depth))
    && (f.tag.Some? ==> f == NoFlags.(tag := f.tag))
  }

  function ModeOf(f: Flags): Mode {
    if f.line then Line
    else if f.depth > 0 then Block(f.depth)
    else if f.tag.Some? then Dollar(f.tag.value)
    else if f.single then Single
    else if f.double then Double
    else Code
  }

  /** One turn of either loop: which flags it sets and clears, how many characters it takes
      and what they are. */
  method TakeTurn(cls: Classes, sql: string, i: nat, f: Flags) returns (g: Flags, n: nat, piece: Piece)
    requires i < |sql| && OneAtMost(f)
    ensures OneAtMost(g) && Chunk(n, ModeOf(g), piece) == Step(cls, ModeOf(f), sql[i..])
  {
    var rest := sql[i..];
    var ch, next := sql[i], if i + 1 < |sql| then sql[i + 1..i + 2] else "";
    assert rest[0] == ch && (|rest| >= 2 <==> next != "") && (|rest| >= 2 ==> next == [rest[1]]);
    g, n, piece := f, 1, Hidden(rest[..1]);
    if f.line {
      if ch == '\n' { g, piece := f.(line := false), LineEnd; }
    } else if f.depth > 0 {
      if ch == '/' && next == "*" {
        g, n, piece := f.(depth := f.depth + 1), 2, Hidden(rest[..2]);
      } else if ch == '*' && next == "/" {
        g, n, piece := f.(depth := f.depth - 1), 2, Hidden(rest[..2]);
      }
    } else if f.tag.Some? {
      if f.tag.value <= rest {
        g, n, piece := f.(tag := None), |f.tag.value|, Hidden(f.tag.value);
      }
    } else if f.single {
      if ch == '\'' {
        if next == "'" { n, piece := 2, Hidden(rest[..2]); } else { g := f.(single := false); }
      }
    } else if f.double {
      if ch == '"' {
        if next == "\"" { n, piece := 2, Hidden(rest[..2]); } else { g := f.(double := false); }
      }
    } else {
      g, n, piece := TurnInCode(cls, rest, f);
    }
  }

  /** The part of a turn that is outside literals and comments. */
  method TurnInCode(cls: Classes, rest: string, f: Flags) returns (g: Flags, n: nat, piece: Piece)
    requires rest != "" && f == NoFlags
    ensures OneAtMost(g) && Chunk(n, ModeOf(g), piece) == Step(cls, Code, rest)
  {
    if Starts(rest, '-', '-') { return f.(line := true), 2, Hidden(rest[..2]); }
    if Starts(rest, '/', '*') { return f.(depth := 1), 2, Hidden(rest[..2]); }
    if rest[0] == '\'' { return f.(single := true), 1, Hidden(rest[..1]); }
    if rest[0] == '"' { return f.(double := true), 1, Hidden(rest[..1]); }
    var tag := MatchTag(cls, rest);
    if tag.Some? { return f.(tag := tag), |tag.value|, Hidden(tag.value); }
    return f, 1, CodeChar(rest[0]);
  }

  /** `_analysis_sql`. */
  method AnalysisSql(cls: Classes, sql: string) returns (out: string)
    ensures out == Blank(cls, Code, sql)
  {
    hide *;
    out := "";
    var i, flags := 0, NoFlags;
    StartsInCode();
    assert sql[0..] == sql;
    while i < |sql|
      invariant i <= |sql| && OneAtMost(flags)
      invariant out + Blank(cls, ModeOf(flags), sql[i..]) == Blank(cls, Code, sql)
      decreases |sql| - i
    {
      var n, piece;
      BlankTurn(cls, ModeOf(flags), sql, i, out);
      flags, n, piece := TakeTurn(cls, sql, i, flags);
      out := out + BlankText(piece);
      i := i + n;
    }
    BlankKeepsLength(cls, ModeOf(flags), sql[i..]);
  }

  lemma StartsInCode()
    ensures ModeOf(NoFlags).Code? && OneAtMost(NoFlags)
  {
  }

  /** What one turn writes is what it takes from the rest. */
  lemma BlankTurn(cls: Classes, mode: Mode, sql: string, i: nat, out: string)
    requires i < |sql|
    ensures var c := Step(cls, mode, sql[i..]);
      && i + c.size <= |sql|
      && (out + BlankText(c.piece)) + Blank(cls, c.mode, sql[i + c.size..]) == out + Blank(cls, mode, sql[i..])
  {
    var c := Step(cls, mode, sql[i..]);
    BlankStep(cls, mode, sql[i..]);
    assert sql[i..][c.size..] == sql[i + c.size..];
    hide Step, Blank, BlankText;
  }
}
