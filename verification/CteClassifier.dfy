/** Whether a statement with a WITH list changes data: the scanner, and what it answers on
    every list a printer can emit. */
module CteClassifier {
  import opened Common
  import opened SqlLexer

  /** The character classes the scanner uses: word characters and white space. */
  datatype Letters = Letters(word: char -> bool, space: char -> bool)

  ghost predicate ValidLetters(l: Letters) {
    && (forall c :: l.space(c) ==> !l.word(c) && c != '(' && c != ')' && c != ',')
    && (forall c :: 'a' <= c <= 'z' ==> l.word(c))
    && !l.word('(') && !l.word(')') && !l.word(',')
  }

  // ------------------------------------------------------------------ scanning a suffix

  function SkipSpace(l: Letters, s: string): (r: string)
    ensures |r| <= |s|
  {
    if s == "" || !l.space(s[0]) then s else SkipSpace(l, s[1..])
  }

  function SkipWord(l: Letters, s: string): (r: string)
    ensures |r| <= |s|
  {
    if s == "" || !l.word(s[0]) then s else SkipWord(l, s[1..])
  }

  /** What follows the parenthesis that closes the innermost of `depth` open ones. */
  function Close(s: string, depth: nat): (r: string)
    ensures |r| <= |s|
  {
    if s == "" || depth == 0 then s
    else Close(s[1..], if s[0] == '(' then depth + 1 else if s[0] == ')' then depth - 1 else depth)
  }

  predicate StartsWith(s: string, prefix: string) {
    |s| >= |prefix| && s[..|prefix|] == prefix
  }

  predicate Modifies(l: Letters, body: string) {
    var b := SkipSpace(l, body);
    StartsWith(b, "insert") || StartsWith(b, "update") || StartsWith(b, "delete") || StartsWith(b, "merge")
  }

  /** After the keyword AS and its white space. */
  function SkipMaterialized(l: Letters, s: string): (r: string)
    ensures |r| <= |s|
  {
    if StartsWith(s, "not materialized") then SkipSpace(l, s[16..])
    else if StartsWith(s, "materialized") then SkipSpace(l, s[12..])
    else s
  }

  function SkipColumns(l: Letters, s: string): (r: string)
    ensures |r| <= |s|
  {
    if s != "" && s[0] == '(' then SkipSpace(l, Close(s[1..], 1)) else s
  }

  /** The list, from one of its names on. */
  predicate Items(l: Letters, s: string)
    decreases |s|
  {
    var named := SkipWord(l, s);
    if |named| == |s| then false
    else
      var rest := SkipColumns(l, SkipSpace(l, named));
      if !StartsWith(rest, "as") then false
      else ItemBody(l, SkipMaterialized(l, SkipSpace(l, rest[2..])))
  }

  /** From a body's opening parenthesis on. */
  predicate ItemBody(l: Letters, s: string)
    decreases |s|
  {
    if s == "" || s[0] != '(' then false
    else
      var after := Close(s[1..], 1);
      if Modifies(l, BodyOf(s, after)) then true
      else
        var next := SkipSpace(l, after);
        if next != "" && next[0] == ',' then Items(l, SkipSpace(l, next[1..])) else false
  }

  /** The text between the parentheses. */
  function BodyOf(s: string, after: string): string
    requires s != "" && |after| < |s|
  {
    if |s| - |after| - 1 < 1 then "" else s[1..|s| - |after| - 1]
  }

  predicate Classify(l: Letters, s: string) {
    var start := SkipSpace(l, s);
    if !StartsWith(start, "with") then false
    else
      var list := SkipSpace(l, start[4..]);
      Items(l, if StartsWith(list, "recursive") then SkipSpace(l, list[9..]) else list)
  }

  // ------------------------------------------------------------------ the scanner

  method SkipSpaceFrom(l: Letters, a: string, start: nat) returns (i: nat)
    requires start <= |a|
    ensures start <= i <= |a| && a[i..] == SkipSpace(l, a[start..])
  {
    i := start;
    while i < |a| && l.space(a[i])
      invariant start <= i <= |a| && SkipSpace(l, a[i..]) == SkipSpace(l, a[start..])
    {
      assert a[i..][1..] == a[i + 1..];
      i := i + 1;
    }
  }

  method SkipWordFrom(l: Letters, a: string, start: nat) returns (i: nat)
    requires start <= |a|
    ensures start <= i <= |a| && a[i..] == SkipWord(l, a[start..])
  {
    i := start;
    while i < |a| && l.word(a[i])
      invariant start <= i <= |a| && SkipWord(l, a[i..]) == SkipWord(l, a[start..])
    {
      assert a[i..][1..] == a[i + 1..];
      i := i + 1;
    }
  }

  method CloseFrom(a: string, start: nat) returns (i: nat)
    requires start <= |a|
    ensures start <= i <= |a| && a[i..] == Close(a[start..], 1)
  {
    i := start;
    var depth := 1;
    while i < |a| && depth > 0
      invariant start <= i <= |a| && depth >= 0
      invariant Close(a[i..], depth) == Close(a[start..], 1)
    {
      assert a[i..][1..] == a[i + 1..];
      if a[i] == '(' {
        depth := depth + 1;
      } else if a[i] == ')' {
        depth := depth - 1;
      }
      i := i + 1;
    }
  }

  method StartsAt(a: string, i: nat, prefix: string) returns (r: bool)
    requires i <= |a|
    ensures r == StartsWith(a[i..], prefix)
    ensures r ==> i + |prefix| <= |a| && a[i..][|prefix|..] == a[i + |prefix|..]
  {
    r := |a| - i >= |prefix| && a[i..i + |prefix|] == prefix;
    if |a| - i >= |prefix| {
      assert a[i..i + |prefix|] == a[i..][..|prefix|];
    }
  }

  /** One common table expression: false, true, or the position of the next name. */
  method ScanItem(l: Letters, a: string, start: nat) returns (verdict: Option<bool>, next: nat)
    requires start <= |a|
    ensures verdict.Some? ==> verdict.value == Items(l, a[start..])
    ensures verdict.None? ==> start < next <= |a| && Items(l, a[start..]) == Items(l, a[next..])
  {
    hide SkipSpace, SkipWord, Close, StartsWith, Modifies, ItemBody, SkipMaterialized;
    next := start;
    var i := SkipWordFrom(l, a, start);
    if i == start { return Some(false), next; }
    i := SkipSpaceFrom(l, a, i);
    if i < |a| && a[i] == '(' {
      assert a[i..][1..] == a[i + 1..];
      i := CloseFrom(a, i + 1);
      i := SkipSpaceFrom(l, a, i);
    }
    assert a[i..] == SkipColumns(l, SkipSpace(l, SkipWord(l, a[start..])));
    var keyword := StartsAt(a, i, "as");
    if !keyword { return Some(false), next; }
    i := SkipSpaceFrom(l, a, i + 2);
    i := SkipMaterializedFrom(l, a, i);
    ghost var body := a[i..];
    assert Items(l, a[start..]) == ItemBody(l, body);
    verdict, next := ScanBody(l, a, i);
  }

  method SkipMaterializedFrom(l: Letters, a: string, start: nat) returns (i: nat)
    requires start <= |a|
    ensures start <= i <= |a| && a[i..] == SkipMaterialized(l, a[start..])
  {
    hide SkipSpace, StartsWith;
    i := start;
    var not := StartsAt(a, i, "not materialized");
    var plain := StartsAt(a, i, "materialized");
    if not {
      i := SkipSpaceFrom(l, a, i + 16);
    } else if plain {
      i := SkipSpaceFrom(l, a, i + 12);
    }
  }

  method ScanBody(l: Letters, a: string, start: nat) returns (verdict: Option<bool>, next: nat)
    requires start <= |a|
    ensures verdict.Some? ==> verdict.value == ItemBody(l, a[start..])
    ensures verdict.None? ==> start < next <= |a| && ItemBody(l, a[start..]) == Items(l, a[next..])
  {
    hide SkipSpace, Close, Modifies, Items;
    next := start;
    if start >= |a| || a[start] != '(' { return Some(false), next; }
    ghost var s := a[start..];
    assert s[1..] == a[start + 1..];
    var i := CloseFrom(a, start + 1);
    var body := if i - 1 < start + 1 then "" else a[start + 1..i - 1];
    assert body == BodyOf(s, a[i..]);
    if Modifies(l, body) { return Some(true), next; }
    i := SkipSpaceFrom(l, a, i);
    if i < |a| && a[i] == ',' {
      assert a[i..][1..] == a[i + 1..];
      i := SkipSpaceFrom(l, a, i + 1);
      return None, i;
    }
    return Some(false), next;
  }

  /** `_is_data_modifying_cte` on a blanked text in lower case. */
  method Scan(l: Letters, a: string) returns (r: bool)
    ensures r == Classify(l, a)
  {
    hide SkipSpace, StartsWith, Items;
    var i := SkipSpaceFrom(l, a, 0);
    assert a[0..] == a;
    var with := StartsAt(a, i, "with");
    if !with { return false; }
    i := SkipSpaceFrom(l, a, i + 4);
    var recursive := StartsAt(a, i, "recursive");
    if recursive {
      i := SkipSpaceFrom(l, a, i + 9);
    }
    assert Classify(l, a) == Items(l, a[i..]);
    while i < |a|
      invariant i <= |a| && Classify(l, a) == Items(l, a[i..])
    {
      var verdict, next := ScanItem(l, a, i);
      if verdict.Some? { return verdict.value; }
      i := next;
    }
    NothingToScan(l, a[i..]);
    return false;
  }

  lemma NothingToScan(l: Letters, s: string)
    requires s == ""
    ensures !Items(l, s)
  {
  }

  /** The whole of it: blank the literals and comments, fold the case, scan. */
  method IsDataModifying(cls: Classes, l: Letters, lower: string -> string, sql: string) returns (r: bool)
    ensures r == Classify(l, lower(Blank(cls, Code, sql)))
  {
    var analysis := AnalysisSql(cls, sql);
    r := Scan(l, lower(analysis));
  }
}
