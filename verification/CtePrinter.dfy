/** Every WITH list a printer can emit, and what the scanner answers on it. */
module CtePrinter {
  import opened Common
  import opened CteClassifier

  /** How a body is marked; each gap is white space. */
  datatype Mark = Plain | Materialized(gap: string) | NotMaterialized(inner: string, gap: string)

  /** One common table expression with the white space around its parts, and around the
      comma that follows it when it is not the last. */
  datatype Cte = Cte(name: string, nameGap: string, columns: Option<string>, columnsGap: string,
                     asGap: string, mark: Mark, body: string, beforeComma: string, afterComma: string)

  predicate AllSpace(l: Letters, s: string) {
    forall i :: 0 <= i < |s| ==> l.space(s[i])
  }

  predicate AllWord(l: Letters, s: string) {
    forall i :: 0 <= i < |s| ==> l.word(s[i])
  }

  /** The depth after a text, if it never closes the parenthesis it is in. */
  function Nest(s: string, depth: nat): Option<nat> {
    if s == "" then Some(depth)
    else if s[0] == '(' then Nest(s[1..], depth + 1)
    else if s[0] == ')' then if depth <= 1 then None else Nest(s[1..], depth - 1)
    else Nest(s[1..], depth)
  }

  predicate Balanced(s: string) {
    Nest(s, 1) == Some(1)
  }

  ghost predicate ValidMark(l: Letters, m: Mark) {
    match m
    case Plain => true
    case Materialized(gap) => AllSpace(l, gap)
    case NotMaterialized(inner, gap) => inner != "" && AllSpace(l, inner) && AllSpace(l, gap)
  }

  ghost predicate ValidCte(l: Letters, c: Cte) {
    && c.name != "" && AllWord(l, c.name)
    && AllSpace(l, c.nameGap) && (c.columns.None? ==> c.nameGap != "")
    && (c.columns.Some? ==> Balanced(c.columns.value) && AllSpace(l, c.columnsGap))
    && AllSpace(l, c.asGap) && ValidMark(l, c.mark) && Balanced(c.body)
    && AllSpace(l, c.beforeComma) && AllSpace(l, c.afterComma)
  }

  function PrintMark(m: Mark, rest: string): string {
    match m
    case Plain => rest
    case Materialized(gap) => "materialized" + (gap + rest)
    case NotMaterialized(inner, gap) => "not" + (inner + ("materialized" + (gap + rest)))
  }

  function PrintBody(body: string, rest: string): string {
    "(" + (body + (")" + rest))
  }

  function PrintColumns(c: Cte, rest: string): string {
    if c.columns.Some? then PrintBody(c.columns.value, c.columnsGap + rest) else rest
  }

  function PrintAfterName(c: Cte, rest: string): string {
    c.nameGap + PrintColumns(c, "as" + (c.asGap + PrintMark(c.mark, PrintBody(c.body, rest))))
  }

  function PrintCte(c: Cte, rest: string): string {
    c.name + PrintAfterName(c, rest)
  }

  function PrintList(ctes: seq<Cte>, tail: string): string
    requires ctes != []
  {
    PrintCte(ctes[0], if |ctes| == 1 then tail else PrintComma(ctes[0], PrintList(ctes[1..], tail)))
  }

  function PrintComma(c: Cte, rest: string): string {
    c.beforeComma + ("," + (c.afterComma + rest))
  }

  /** The scanner reads NOT MATERIALIZED with one space only. */
  predicate ReadableMark(m: Mark) {
    m.NotMaterialized? ==> m.inner == " "
  }

  /** What the scanner answers: some body changes data, and every mark up to it is readable. */
  ghost predicate Answer(l: Letters, ctes: seq<Cte>) {
    exists k :: 0 <= k < |ctes| && Modifies(l, ctes[k].body) && ReadableTo(ctes, k)
  }

  predicate ReadableTo(ctes: seq<Cte>, k: nat)
    requires k < |ctes|
  {
    forall j :: 0 <= j <= k ==> ReadableMark(ctes[j].mark)
  }

  // ------------------------------------------------------------------ scanning over a part

  lemma {:induction false} SpaceOver(l: Letters, x: string, rest: string)
    requires AllSpace(l, x) && (rest == "" || !l.space(rest[0]))
    ensures SkipSpace(l, x + rest) == rest
  {
    if x == "" {
      assert x + rest == rest;
    } else {
      assert (x + rest)[1..] == x[1..] + rest && (x + rest)[0] == x[0];
      SpaceOver(l, x[1..], rest);
    }
  }

  lemma {:induction false} WordOver(l: Letters, x: string, rest: string)
    requires AllWord(l, x) && (rest == "" || !l.word(rest[0]))
    ensures SkipWord(l, x + rest) == rest
  {
    if x == "" {
      assert x + rest == rest;
    } else {
      assert (x + rest)[1..] == x[1..] + rest && (x + rest)[0] == x[0];
      WordOver(l, x[1..], rest);
    }
  }

  lemma {:induction false} CloseOver(s: string, rest: string, depth: nat)
    requires depth >= 1 && Nest(s, depth).Some?
    ensures Nest(s, depth).value >= 1
    ensures Close(s + rest, depth) == Close(rest, Nest(s, depth).value)
  {
    if s == "" {
      assert s + rest == rest;
    } else {
      assert (s + rest)[1..] == s[1..] + rest && (s + rest)[0] == s[0];
      CloseOver(s[1..], rest, if s[0] == '(' then depth + 1 else if s[0] == ')' then depth - 1 else depth);
    }
  }

  /** A balanced text in parentheses is closed by its own closing parenthesis. */
  lemma BodyOver(body: string, rest: string)
    requires Balanced(body)
    ensures var s := PrintBody(body, rest);
      && s != "" && s[0] == '(' && Close(s[1..], 1) == rest
      && |rest| < |s| && BodyOf(s, rest) == body
  {
    var s := PrintBody(body, rest);
    CloseOver(body, ")" + rest, 1);
    hide Nest;
    assert s[1..] == body + (")" + rest);
    assert (")" + rest)[1..] == rest;
    assert Close(")" + rest, 1) == Close(rest, 0) == rest;
    assert |s| - |rest| - 1 == |body| + 1;
    assert s[1..|body| + 1] == body;
  }

  lemma Prefix(x: string, rest: string)
    ensures StartsWith(x + rest, x) && (x + rest)[|x|..] == rest
  {
  }

  /** After AS: a readable mark is passed over, and an unreadable one is not a body. */
  lemma MarkOver(l: Letters, m: Mark, body: string, rest: string)
    requires ValidLetters(l) && ValidMark(l, m)
    ensures var s := PrintMark(m, PrintBody(body, rest));
      && s != "" && !l.space(s[0])
      && (ReadableMark(m) ==> SkipMaterialized(l, s) == PrintBody(body, rest))
      && (!ReadableMark(m) ==> SkipMaterialized(l, s) != "" && SkipMaterialized(l, s)[0] != '(')
  {
    var p := PrintBody(body, rest);
    assert p[0] == '(' && !l.space('(');
    match m
    case Plain => PlainOver(l, p);
    case Materialized(gap) => MaterializedOver(l, gap, p);
    case NotMaterialized(inner, gap) => NotMaterializedOver(l, inner, gap, p);
  }

  lemma PlainOver(l: Letters, p: string)
    requires p != "" && p[0] == '('
    ensures SkipMaterialized(l, p) == p
  {
    CharacterAt(p, "materialized", 0);
    CharacterAt(p, "not materialized", 0);
  }

  lemma MaterializedOver(l: Letters, gap: string, p: string)
    requires ValidLetters(l) && AllSpace(l, gap) && p != "" && !l.space(p[0])
    ensures var s := "materialized" + (gap + p); !l.space(s[0]) && SkipMaterialized(l, s) == p
  {
    var s := "materialized" + (gap + p);
    assert s[0] == 'm' && l.word('m');
    Prefix("materialized", gap + p);
    SpaceOver(l, gap, p);
    CharacterAt(s, "not materialized", 0);
    hide StartsWith, SkipSpace;
  }

  lemma NotMaterializedOver(l: Letters, inner: string, gap: string, p: string)
    requires ValidLetters(l) && inner != "" && AllSpace(l, inner) && AllSpace(l, gap) && p != "" && !l.space(p[0])
    ensures var s := "not" + (inner + ("materialized" + (gap + p)));
      && !l.space(s[0])
      && (if inner == " " then SkipMaterialized(l, s) == p else SkipMaterialized(l, s) == s && s[0] != '(')
  {
    var s := "not" + (inner + ("materialized" + (gap + p)));
    assert s[0] == 'n' && l.word('n');
    if inner == " " {
      assert s == "not materialized" + (gap + p);
      Prefix("not materialized", gap + p);
      SpaceOver(l, gap, p);
    } else {
      UnreadableMark(l, inner, "materialized" + (gap + p));
    }
    hide StartsWith, SkipSpace;
  }

  lemma CharacterAt(s: string, prefix: string, i: nat)
    requires i < |prefix|
    ensures StartsWith(s, prefix) ==> s[i] == prefix[i]
  {
    if StartsWith(s, prefix) {
      assert s[..|prefix|][i] == s[i];
    }
  }

  lemma UnreadableMark(l: Letters, inner: string, rest: string)
    requires ValidLetters(l) && AllSpace(l, inner) && inner != "" && inner != " "
    ensures var s := "not" + (inner + rest);
      !StartsWith(s, "not materialized") && !StartsWith(s, "materialized")
  {
    var s := "not" + (inner + rest);
    assert s[0] == 'n' && s[3] == inner[0] && (|inner| >= 2 ==> s[4] == inner[1]);
    assert l.word('m') && (|inner| == 1 ==> inner == [inner[0]]);
    hide StartsWith;
    CharacterAt(s, "materialized", 0);
    CharacterAt(s, "not materialized", 3);
    CharacterAt(s, "not materialized", 4);
  }

  // ------------------------------------------------------------------ one expression

  lemma AfterName(l: Letters, c: Cte, rest: string)
    requires ValidLetters(l) && ValidCte(l, c)
    ensures var marked := PrintMark(c.mark, PrintBody(c.body, rest));
      var s := PrintAfterName(c, rest);
      && s != "" && !l.word(s[0])
      && SkipColumns(l, SkipSpace(l, s)) == "as" + (c.asGap + marked)
  {
    var marked := PrintMark(c.mark, PrintBody(c.body, rest));
    var keyword := "as" + (c.asGap + marked);
    hide PrintMark, Nest, SkipSpace, Close;
    assert keyword[0] == 'a' && l.word('a');
    if c.columns.Some? {
      var p := PrintBody(c.columns.value, c.columnsGap + keyword);
      assert p[0] == '(';
      BodyOver(c.columns.value, c.columnsGap + keyword);
      SpaceOver(l, c.columnsGap, keyword);
      SpaceOver(l, c.nameGap, p);
    } else {
      SpaceOver(l, c.nameGap, keyword);
    }
  }

  /** One expression is passed over, unless its mark is unreadable or its body changes data. */
  lemma OneExpression(l: Letters, c: Cte, rest: string)
    requires ValidLetters(l) && ValidCte(l, c)
    ensures var next := SkipSpace(l, rest);
      Items(l, PrintCte(c, rest)) <==>
        && ReadableMark(c.mark)
        && (Modifies(l, c.body) || (next != "" && next[0] == ',' && Items(l, SkipSpace(l, next[1..]))))
  {
    var after := PrintAfterName(c, rest);
    var marked := PrintMark(c.mark, PrintBody(c.body, rest));
    AfterName(l, c, rest);
    MarkOver(l, c.mark, c.body, rest);
    BodyOver(c.body, rest);
    hide PrintAfterName, PrintMark, PrintBody, Nest, Close, SkipSpace, Modifies, ReadableMark, SkipMaterialized;
    WordOver(l, c.name, after);
    Prefix("as", c.asGap + marked);
    SpaceOver(l, c.asGap, marked);
    hide StartsWith, BodyOf;
    assert PrintCte(c, rest) == c.name + after;
  }

  // ------------------------------------------------------------------ a whole list

  /** What follows the list does not continue it. */
  predicate Ends(l: Letters, tail: string) {
    var next := SkipSpace(l, tail);
    next == "" || next[0] != ','
  }

  ghost predicate ValidList(l: Letters, ctes: seq<Cte>) {
    ctes != [] && forall i :: 0 <= i < |ctes| ==> ValidCte(l, ctes[i])
  }

  lemma ListStartsWithName(l: Letters, ctes: seq<Cte>, tail: string)
    requires ValidLetters(l) && ValidList(l, ctes)
    ensures var s := PrintList(ctes, tail); s != "" && !l.space(s[0]) && l.word(s[0])
  {
    assert PrintList(ctes, tail)[0] == ctes[0].name[0];
  }

  /** The scanner's answer on every list, whatever white space, columns and marks it has. */
  lemma {:induction false} ListAnswer(l: Letters, ctes: seq<Cte>, tail: string)
    requires ValidLetters(l) && ValidList(l, ctes) && Ends(l, tail)
    ensures Items(l, PrintList(ctes, tail)) <==> Answer(l, ctes)
    decreases |ctes|
  {
    var c := ctes[0];
    assert ValidCte(l, c);
    if |ctes| == 1 {
      OneExpression(l, c, tail);
      hide PrintCte, Items, ValidCte;
      AnswerSplit(l, ctes);
    } else {
      var list := PrintList(ctes[1..], tail);
      var rest := PrintComma(c, list);
      OneExpression(l, c, rest);
      ListAnswer(l, ctes[1..], tail);
      ListStartsWithName(l, ctes[1..], tail);
      SpaceOver(l, c.beforeComma, "," + (c.afterComma + list));
      SpaceOver(l, c.afterComma, list);
      hide PrintCte, Items, ValidCte;
      assert ("," + (c.afterComma + list))[1..] == c.afterComma + list;
      AnswerSplit(l, ctes);
    }
  }

  lemma AnswerSplit(l: Letters, ctes: seq<Cte>)
    requires ctes != []
    ensures Answer(l, ctes) <==>
      ReadableMark(ctes[0].mark) && (Modifies(l, ctes[0].body) || Answer(l, ctes[1..]))
  {
    hide Modifies, ReadableMark;
    if Answer(l, ctes) {
      var k :| 0 <= k < |ctes| && Modifies(l, ctes[k].body) && ReadableTo(ctes, k);
      if k > 0 {
        assert ctes[1..][k - 1] == ctes[k];
        assert ReadableTo(ctes[1..], k - 1);
      }
    }
    if ReadableMark(ctes[0].mark) && Modifies(l, ctes[0].body) {
      assert ReadableTo(ctes, 0);
    } else if ReadableMark(ctes[0].mark) && Answer(l, ctes[1..]) {
      var k :| 0 <= k < |ctes[1..]| && Modifies(l, ctes[1..][k].body) && ReadableTo(ctes[1..], k);
      assert forall j :: 1 <= j <= k + 1 ==> ctes[j] == ctes[1..][j - 1];
      assert ReadableTo(ctes, k + 1) && Modifies(l, ctes[k + 1].body);
    }
  }

  // ------------------------------------------------------------------ the statement

  /** `recursive` is the white space after RECURSIVE, when the keyword is there. */
  function PrintStatement(lead: string, gap: string, recursive: Option<string>, ctes: seq<Cte>, tail: string): string
    requires ctes != []
  {
    var list := PrintList(ctes, tail);
    lead + ("with" + (gap + (if recursive.Some? then "recursive" + (recursive.value + list) else list)))
  }

  /** The scanner's answer on every statement a printer can emit. It says that data is changed
      exactly when some body starts with insert, update, delete or merge and every NOT
      MATERIALIZED up to that body is written with a single space; where the first name is
      the word recursive, without the keyword, the answer is another one. */
  lemma StatementAnswer(l: Letters, lead: string, gap: string, recursive: Option<string>, ctes: seq<Cte>, tail: string)
    requires ValidLetters(l) && ValidList(l, ctes) && Ends(l, tail)
    requires AllSpace(l, lead) && AllSpace(l, gap) && (recursive.Some? ==> AllSpace(l, recursive.value))
    ensures Classify(l, PrintStatement(lead, gap, recursive, ctes, tail)) <==>
      if recursive.None? && ctes[0].name == "recursive" then ReservedAnswer(l, ctes, tail) else Answer(l, ctes)
  {
    assert ctes != [];
    hide PrintList, Answer, ReservedAnswer, Items, ValidList, Ends;
    var list := PrintList(ctes, tail);
    ListStartsWithName(l, ctes, tail);
    ListAnswer(l, ctes, tail);
    var after := if recursive.Some? then "recursive" + (recursive.value + list) else list;
    assert l.word('w') && l.word('r');
    assert after[0] == if recursive.Some? then 'r' else list[0];
    var statement := "with" + (gap + after);
    assert statement[0] == 'w';
    SpaceOver(l, lead, statement);
    Prefix("with", gap + after);
    SpaceOver(l, gap, after);
    if recursive.Some? {
      Prefix("recursive", recursive.value + list);
      SpaceOver(l, recursive.value, list);
    } else if ctes[0].name == "recursive" {
      ReservedList(l, ctes, tail);
    } else {
      NoKeyword(l, ctes, tail);
    }
  }

  /** Without the keyword, a first name that merely starts with it is read without it. */
  lemma NoKeyword(l: Letters, ctes: seq<Cte>, tail: string)
    requires ValidLetters(l) && ValidList(l, ctes) && Ends(l, tail) && ctes[0].name != "recursive"
    ensures var list := PrintList(ctes, tail);
      Items(l, if StartsWith(list, "recursive") then SkipSpace(l, list[9..]) else list) <==> Answer(l, ctes)
  {
    var list := PrintList(ctes, tail);
    if StartsWith(list, "recursive") {
      var shorter := Shorter(l, ctes, tail);
      ListStartsWithName(l, shorter, tail);
      ListAnswer(l, shorter, tail);
      SpaceOver(l, "", list[9..]);
      assert "" + list[9..] == list[9..];
    } else {
      ListAnswer(l, ctes, tail);
    }
  }

  /** The list whose first name has lost its first nine letters. */
  lemma Shorter(l: Letters, ctes: seq<Cte>, tail: string) returns (shorter: seq<Cte>)
    requires ValidLetters(l) && ValidList(l, ctes) && ctes[0].name != "recursive"
    requires StartsWith(PrintList(ctes, tail), "recursive")
    ensures ValidList(l, shorter) && PrintList(shorter, tail) == PrintList(ctes, tail)[9..]
    ensures Answer(l, shorter) <==> Answer(l, ctes)
  {
    var c := ctes[0];
    assert ValidCte(l, c);
    var rest := if |ctes| == 1 then tail else PrintComma(c, PrintList(ctes[1..], tail));
    hide PrintAfterName, PrintMark, PrintBody, Answer, SkipSpace, SkipColumns, StartsWith, PrintComma, ValidCte;
    LongFirstName(l, c, rest);
    ShorterIsValid(l, c, c.name[9..]);
    shorter := ctes[0 := c.(name := c.name[9..])];
    SameAnswer(l, ctes, shorter);
    ShorterIsPrinted(c, rest);
    assert shorter[1..] == ctes[1..];
  }

  lemma LongFirstName(l: Letters, c: Cte, rest: string)
    requires ValidLetters(l) && ValidCte(l, c) && c.name != "recursive"
    requires StartsWith(PrintCte(c, rest), "recursive")
    ensures |c.name| > 9
  {
    var after := PrintAfterName(c, rest);
    AfterName(l, c, rest);
    hide PrintAfterName, PrintMark, PrintBody, SkipSpace, SkipColumns, StartsWith;
    LongName(l, c.name, after);
  }

  lemma ShorterIsPrinted(c: Cte, rest: string)
    requires |c.name| > 9
    ensures |PrintCte(c, rest)| >= 9 && PrintCte(c.(name := c.name[9..]), rest) == PrintCte(c, rest)[9..]
  {
    SameAfterName(c, c.name[9..], rest);
    hide PrintAfterName;
    WithoutFront(c.name, PrintAfterName(c, rest), 9);
  }

  lemma WithoutFront(a: string, b: string, n: nat)
    requires n <= |a|
    ensures (a + b)[n..] == a[n..] + b
  {
  }

  lemma ShorterIsValid(l: Letters, c: Cte, name: string)
    requires ValidCte(l, c) && |c.name| > 9 && name == c.name[9..]
    ensures ValidCte(l, c.(name := name))
  {
    forall i | 0 <= i < |name|
      ensures l.word(name[i])
    {
      assert name[i] == c.name[i + 9];
    }
  }

  lemma SameAfterName(c: Cte, name: string, rest: string)
    ensures PrintAfterName(c.(name := name), rest) == PrintAfterName(c, rest)
  {
  }

  lemma SameAnswer(l: Letters, a: seq<Cte>, b: seq<Cte>)
    requires |a| == |b| && forall i :: 0 <= i < |a| ==> a[i].body == b[i].body && a[i].mark == b[i].mark
    ensures Answer(l, a) <==> Answer(l, b)
  {
    hide Modifies, ReadableMark;
    if Answer(l, a) {
      var k :| 0 <= k < |a| && Modifies(l, a[k].body) && ReadableTo(a, k);
      assert ReadableTo(b, k) && Modifies(l, b[k].body);
    }
    if Answer(l, b) {
      var k :| 0 <= k < |b| && Modifies(l, b[k].body) && ReadableTo(b, k);
      assert ReadableTo(a, k) && Modifies(l, a[k].body);
    }
  }

  /** A list starts with the word recursive only if its first name is longer than it. */
  lemma LongName(l: Letters, name: string, after: string)
    requires ValidLetters(l) && AllWord(l, name) && name != "recursive"
    requires after != "" && !l.word(after[0])
    ensures StartsWith(name + after, "recursive") ==> |name| > 9
  {
    var s := name + after;
    assert AllLetters("recursive") && s[|name|] == after[0];
    if |name| < 9 {
      CharacterAt(s, "recursive", |name|);
    } else if |name| == 9 {
      assert s[..9] == name;
    }
  }

  predicate AllLetters(s: string) {
    forall i :: 0 <= i < |s| ==> 'a' <= s[i] <= 'z'
  }

  // ------------------------------------------------------------------ the reserved name

  /** With the word recursive itself as the first name and no keyword, AS is taken for the
      name. What is taken for its columns is the body, when the body comes right behind. */
  predicate BodyIsTakenForColumns(c: Cte) {
    c.columns.None? && (c.mark.Plain? || (c.mark.Materialized? && c.asGap == ""))
  }

  /** What a text that starts with AS is read as. */
  predicate AsBody(l: Letters, s: string) {
    StartsWith(s, "as") && ItemBody(l, SkipMaterialized(l, SkipSpace(l, s[2..])))
  }

  /** The answer then: never yes, unless a second AS with a body follows the whole list. */
  predicate ReservedAnswer(l: Letters, ctes: seq<Cte>, tail: string)
    requires ctes != []
  {
    |ctes| == 1 && BodyIsTakenForColumns(ctes[0]) && AsBody(l, SkipSpace(l, tail))
  }

  lemma NameOver(l: Letters, name: string, x: string)
    requires AllWord(l, name) && name != "" && (x == "" || !l.word(x[0]))
    ensures Items(l, name + x) <==> AsBody(l, SkipColumns(l, SkipSpace(l, x)))
  {
    WordOver(l, name, x);
  }

  /** What is read after the first name, when it is taken for the keyword. */
  lemma ReservedHead(l: Letters, c: Cte, rest: string)
    requires ValidLetters(l) && ValidCte(l, c)
    ensures Items(l, SkipSpace(l, PrintAfterName(c, rest))) <==>
      BodyIsTakenForColumns(c) && AsBody(l, SkipSpace(l, rest))
  {
    var body := PrintBody(c.body, rest);
    var marked := PrintMark(c.mark, body);
    var keyword := "as" + (c.asGap + marked);
    assert l.word('a') && l.word('m') && l.word('n') && !l.word('(') && body[0] == '(';
    if c.columns.Some? {
      var columns := PrintBody(c.columns.value, c.columnsGap + keyword);
      assert columns[0] == '(';
      SpaceOver(l, c.nameGap, columns);
    } else {
      assert keyword[0] == 'a';
      SpaceOver(l, c.nameGap, keyword);
      BodyOver(c.body, rest);
      hide PrintBody, Nest, BodyOf, Close, StartsWith, SkipWord, Items, AsBody;
      ReservedMark(l, c, body, rest);
    }
  }

  lemma ReservedMark(l: Letters, c: Cte, body: string, rest: string)
    requires ValidLetters(l) && ValidCte(l, c) && c.columns.None?
    requires body == PrintBody(c.body, rest)
    ensures Items(l, "as" + (c.asGap + PrintMark(c.mark, body))) <==>
      BodyIsTakenForColumns(c) && AsBody(l, SkipSpace(l, rest))
  {
    var marked := PrintMark(c.mark, body);
    assert l.word('a') && l.word('m') && l.word('n') && !l.word('(') && body[0] == '(';
    assert AllLetters("as");
    BodyOver(c.body, rest);
    hide PrintBody, Nest, BodyOf, Close, AsBody, Items;
    if c.mark.Plain? {
      NameOver(l, "as", c.asGap + marked);
      SpaceOver(l, c.asGap, body);
    } else if c.asGap != "" {
      assert marked[0] == 'm' || marked[0] == 'n';
      NameOver(l, "as", c.asGap + marked);
      SpaceOver(l, c.asGap, marked);
      NotAs(l, marked);
    } else {
      assert c.asGap + marked == marked;
      GluedMark(l, c.mark, body);
    }
  }

  /** With no gap behind it, AS and the mark are one name. */
  lemma GluedMark(l: Letters, m: Mark, body: string)
    requires ValidLetters(l) && ValidMark(l, m) && !m.Plain? && body != "" && body[0] == '('
    ensures Items(l, "as" + PrintMark(m, body)) <==> m.Materialized? && AsBody(l, SkipColumns(l, body))
  {
    match m
    case Materialized(gap) => GluedMaterialized(l, gap, body);
    case NotMaterialized(inner, gap) => GluedNot(l, inner, gap, body);
  }

  lemma GluedMaterialized(l: Letters, gap: string, body: string)
    requires ValidLetters(l) && AllSpace(l, gap) && body != "" && body[0] == '('
    ensures Items(l, "as" + ("materialized" + (gap + body))) <==> AsBody(l, SkipColumns(l, body))
  {
    assert "as" + ("materialized" + (gap + body)) == "asmaterialized" + (gap + body);
    assert !l.word('(') && !l.space('(') && AllLetters("asmaterialized");
    assert gap + body != "" && !l.word((gap + body)[0]);
    hide AsBody, Items, SkipColumns, SkipSpace;
    NameOver(l, "asmaterialized", gap + body);
    SpaceOver(l, gap, body);
  }

  lemma GluedNot(l: Letters, inner: string, gap: string, body: string)
    requires ValidLetters(l) && AllSpace(l, inner) && inner != "" && AllSpace(l, gap)
    ensures !Items(l, "as" + ("not" + (inner + ("materialized" + (gap + body)))))
  {
    var x := "materialized" + (gap + body);
    assert "as" + ("not" + (inner + x)) == "asnot" + (inner + x);
    assert x[0] == 'm' && l.word('m') && AllLetters("asnot");
    hide AsBody, Items, SkipColumns, SkipSpace;
    NameOver(l, "asnot", inner + x);
    SpaceOver(l, inner, x);
    NotAs(l, x);
  }

  lemma NotAs(l: Letters, s: string)
    requires s != "" && s[0] != 'a' && s[0] != '('
    ensures !AsBody(l, SkipColumns(l, s))
  {
    CharacterAt(s, "as", 0);
  }

  lemma ReservedList(l: Letters, ctes: seq<Cte>, tail: string)
    requires ValidLetters(l) && ValidList(l, ctes) && ctes[0].name == "recursive"
    ensures var list := PrintList(ctes, tail);
      && StartsWith(list, "recursive")
      && (Items(l, SkipSpace(l, list[9..])) <==> ReservedAnswer(l, ctes, tail))
  {
    var c := ctes[0];
    var rest := if |ctes| == 1 then tail else PrintComma(c, PrintList(ctes[1..], tail));
    assert ValidCte(l, c);
    ReservedHead(l, c, rest);
    Prefix("recursive", PrintAfterName(c, rest));
    if |ctes| > 1 {
      var comma := "," + (c.afterComma + PrintList(ctes[1..], tail));
      assert comma[0] == ',';
      assert !l.space(',');
      SpaceOver(l, c.beforeComma, comma);
      CharacterAt(comma, "as", 0);
    }
  }

  /** In particular nothing is ever found in such a list, whatever its bodies do and however
      they are marked, when what follows the list does not begin with AS. */
  lemma ReservedNameIsMissed(l: Letters, lead: string, gap: string, ctes: seq<Cte>, tail: string)
    requires ValidLetters(l) && ValidList(l, ctes) && Ends(l, tail) && AllSpace(l, lead) && AllSpace(l, gap)
    requires ctes[0].name == "recursive" && (|ctes| > 1 || !StartsWith(SkipSpace(l, tail), "as"))
    ensures !Classify(l, PrintStatement(lead, gap, None, ctes, tail))
  {
    StatementAnswer(l, lead, gap, None, ctes, tail);
  }

  // ------------------------------------------------------------------ statements misread

  function Deleting(name: string, mark: Mark): Cte {
    Cte(name, " ", None, "", " ", mark, "delete from t", "", "")
  }

  lemma DeletingIsValid(l: Letters, name: string, mark: Mark)
    requires ValidLetters(l) && l.space(' ') && name != "" && AllWord(l, name) && ValidMark(l, mark)
    ensures ValidList(l, [Deleting(name, mark)]) && Modifies(l, Deleting(name, mark).body)
  {
    NoParenthesis("delete from t", 1);
    DeleteModifies(l);
    hide Nest, Modifies;
    assert ValidCte(l, Deleting(name, mark));
  }

  lemma DeleteModifies(l: Letters)
    requires ValidLetters(l)
    ensures Modifies(l, "delete from t")
  {
    var body := "delete from t";
    assert l.word('d') && body[0] == 'd';
    assert SkipSpace(l, body) == body;
    assert body[..6] == "delete";
  }

  lemma {:induction false} NoParenthesis(s: string, depth: nat)
    requires forall i :: 0 <= i < |s| ==> s[i] != '(' && s[i] != ')'
    ensures Nest(s, depth) == Some(depth)
  {
    if s != "" {
      NoParenthesis(s[1..], depth);
    }
  }

  /** Two spaces between NOT and MATERIALIZED, or the reserved name: a body that deletes is
      not seen. */
  lemma MissedExamples(l: Letters)
    requires ValidLetters(l) && l.space(' ')
    ensures var twoSpaces := [Deleting("c", NotMaterialized("  ", " "))];
      && ValidList(l, twoSpaces) && Modifies(l, twoSpaces[0].body)
      && !Classify(l, PrintStatement("", " ", None, twoSpaces, " select 1"))
    ensures var reserved := [Deleting("recursive", Plain)];
      && ValidList(l, reserved) && Modifies(l, reserved[0].body)
      && !Classify(l, PrintStatement("", " ", None, reserved, " select 1"))
  {
    var tail, main := " select 1", "select 1";
    assert tail == " " + main && main[0] == 's' && l.word('s') && l.word('c');
    SpaceOver(l, " ", main);
    assert Ends(l, tail);
    CharacterAt(main, "as", 0);
    assert AllLetters("recursive") && AllLetters("c");
    var twoSpaces, reserved := [Deleting("c", NotMaterialized("  ", " "))], [Deleting("recursive", Plain)];
    DeletingIsValid(l, "c", NotMaterialized("  ", " "));
    DeletingIsValid(l, "recursive", Plain);
    hide Deleting, Classify, PrintStatement, Ends, ValidList, Modifies, StartsWith;
    StatementAnswer(l, "", " ", None, twoSpaces, tail);
    ReservedNameIsMissed(l, "", " ", reserved, tail);
  }
}
