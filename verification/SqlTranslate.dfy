/** The translation of `?` placeholders to `$1`, `$2`, …: when it refuses, what it leaves
    alone, and exactly when the result still reads as the text it came from. */
module SqlTranslate {
  import opened Common
  import opened Decimals
  import opened SqlLexer

  // ------------------------------------------------------------------ the translation

  function Mark(k: nat): string {
    "$" + Decimal(k)
  }

  predicate IsMark(p: Piece) {
    p == CodeChar('?')
  }

  /** The text, read from a mode, with its marks in code numbered from `k`. */
  function Translated(cls: Classes, mode: Mode, s: string, k: nat): string
    decreases |s|
  {
    if s == "" then ""
    else
      var c := Step(cls, mode, s);
      if IsMark(c.piece) then Mark(k) + Translated(cls, c.mode, s[c.size..], k + 1)
      else Text(c.piece) + Translated(cls, c.mode, s[c.size..], k)
  }

  lemma TranslatedStep(cls: Classes, mode: Mode, s: string, k: nat)
    requires s != ""
    ensures var c := Step(cls, mode, s);
      && Text(c.piece) == s[..c.size]
      && Translated(cls, mode, s, k) ==
           if IsMark(c.piece) then Mark(k) + Translated(cls, c.mode, s[c.size..], k + 1)
           else Text(c.piece) + Translated(cls, c.mode, s[c.size..], k)
  {
    StepText(cls, mode, s);
  }

  predicate HasMark(cls: Classes, mode: Mode, s: string)
    decreases |s|
  {
    s != "" &&
    var c := Step(cls, mode, s);
    IsMark(c.piece) || HasMark(cls, c.mode, s[c.size..])
  }

  /** A `$` in code with a digit after it. */
  predicate NumberHere(cls: Classes, mode: Mode, s: string) {
    |s| >= 2 && Step(cls, mode, s).piece == CodeChar('$') && cls.digit(s[1])
  }

  predicate HasNumber(cls: Classes, mode: Mode, s: string)
    decreases |s|
  {
    s != "" &&
    (NumberHere(cls, mode, s) ||
     var c := Step(cls, mode, s); HasNumber(cls, c.mode, s[c.size..]))
  }

  /** `_translate`: it refuses exactly the texts with both styles of placeholder in code. */
  method Translate(cls: Classes, sql: string) returns (r: Option<string>)
    requires ValidClasses(cls)
    ensures r.None? <==> HasMark(cls, Code, sql) && HasNumber(cls, Code, sql)
    ensures r.Some? ==> r.value == Translated(cls, Code, sql, 1)
  {
    if '?' !in sql {
      NoQuestion(cls, Code, sql);
      NoMark(cls, Code, sql, 1);
      return Some(sql);
    }
    r := TranslateMarks(cls, sql);
  }

  method TranslateMarks(cls: Classes, sql: string) returns (r: Option<string>)
    ensures r.None? <==> HasMark(cls, Code, sql) && HasNumber(cls, Code, sql)
    ensures r.Some? ==> r.value == Translated(cls, Code, sql, 1)
  {
    hide *;
    var out, i, flags, k, sawMark, sawNumber := "", 0, NoFlags, 1, false, false;
    StartsInCode();
    NothingRead(cls, sql);
    while i < |sql|
      invariant i <= |sql| && !(sawMark && sawNumber) && OneAtMost(flags)
      invariant ReadTo(cls, sql, out, i, ModeOf(flags), k, sawMark, sawNumber)
      decreases |sql| - i
    {
      ghost var mode := ModeOf(flags);
      OneStep(cls, sql, out, i, mode, k, sawMark, sawNumber);
      var number := NumberHere(cls, ModeOf(flags), sql[i..]);
      var n, piece;
      flags, n, piece := TakeTurn(cls, sql, i, flags);
      assert n == Step(cls, mode, sql[i..]).size;
      if number {
        sawNumber := true;
        if sawMark { return None; }
      }
      if IsMark(piece) {
        sawMark := true;
        if sawNumber { return None; }
        out, k := out + Mark(k), k + 1;
      } else {
        out := out + Text(piece);
      }
      i := i + n;
    }
    NothingLeft(cls, sql, out, ModeOf(flags), k, sawMark, sawNumber);
    return Some(out);
  }

  /** What has been written and seen, and what the rest of the text still gives. */
  ghost predicate ReadTo(cls: Classes, sql: string, out: string, i: nat, mode: Mode, k: nat, sawMark: bool,
                         sawNumber: bool)
    requires i <= |sql|
  {
    && out + Translated(cls, mode, sql[i..], k) == Translated(cls, Code, sql, 1)
    && (HasMark(cls, Code, sql) <==> sawMark || HasMark(cls, mode, sql[i..]))
    && (HasNumber(cls, Code, sql) <==> sawNumber || HasNumber(cls, mode, sql[i..]))
  }

  lemma OneStep(cls: Classes, sql: string, out: string, i: nat, mode: Mode, k: nat, sawMark: bool, sawNumber: bool)
    requires i < |sql| && ReadTo(cls, sql, out, i, mode, k, sawMark, sawNumber)
    ensures var c := Step(cls, mode, sql[i..]);
      var number := NumberHere(cls, mode, sql[i..]);
      && (IsMark(c.piece) ==>
            ReadTo(cls, sql, out + Mark(k), i + c.size, c.mode, k + 1, true, sawNumber || number))
      && (!IsMark(c.piece) ==>
            ReadTo(cls, sql, out + Text(c.piece), i + c.size, c.mode, k, sawMark, sawNumber || number))
      && (sawMark || IsMark(c.piece) ==> HasMark(cls, Code, sql))
      && (sawNumber || number ==> HasNumber(cls, Code, sql))
  {
    hide Step, Translated, MatchTag, Decimal, NumberHere;
    var c := Step(cls, mode, sql[i..]);
    TranslatedStep(cls, mode, sql[i..], k);
    assert sql[i..][c.size..] == sql[i + c.size..];
    Associate(out, Mark(k), Translated(cls, c.mode, sql[i + c.size..], k + 1));
    Associate(out, Text(c.piece), Translated(cls, c.mode, sql[i + c.size..], k));
  }

  lemma NothingRead(cls: Classes, sql: string)
    ensures ReadTo(cls, sql, "", 0, Code, 1, false, false)
  {
    assert sql[0..] == sql;
  }

  lemma NothingLeft(cls: Classes, sql: string, out: string, mode: Mode, k: nat, sawMark: bool, sawNumber: bool)
    requires ReadTo(cls, sql, out, |sql|, mode, k, sawMark, sawNumber)
    ensures out == Translated(cls, Code, sql, 1)
    ensures HasMark(cls, Code, sql) == sawMark && HasNumber(cls, Code, sql) == sawNumber
  {
    assert sql[|sql|..] == "";
    assert Translated(cls, mode, sql[|sql|..], k) == "";
  }

  lemma MarkIsFirst(cls: Classes, mode: Mode, s: string)
    requires s != ""
    ensures IsMark(Step(cls, mode, s).piece) ==> s[0] == '?'
  {
    StepText(cls, mode, s);
  }

  /** A text with no mark in code is translated to itself. */
  lemma {:induction false} NoMark(cls: Classes, mode: Mode, s: string, k: nat)
    requires !HasMark(cls, mode, s)
    ensures Translated(cls, mode, s, k) == s
    decreases |s|
  {
    if s != "" {
      var c := Step(cls, mode, s);
      NoMarkHere(cls, mode, s);
      hide *;
      TranslatedStep(cls, mode, s, k);
      NoMark(cls, c.mode, s[c.size..], k);
      assert s == s[..c.size] + s[c.size..];
    }
  }

  lemma NoMarkHere(cls: Classes, mode: Mode, s: string)
    requires s != "" && !HasMark(cls, mode, s)
    ensures var c := Step(cls, mode, s); !IsMark(c.piece) && !HasMark(cls, c.mode, s[c.size..])
  {
    hide Step;
  }

  /** A text with no question mark at all has none in code. */
  lemma {:induction false} NoQuestion(cls: Classes, mode: Mode, s: string)
    requires forall i :: 0 <= i < |s| ==> s[i] != '?'
    ensures !HasMark(cls, mode, s)
    decreases |s|
  {
    if s != "" {
      var c := Step(cls, mode, s);
      MarkIsFirst(cls, mode, s);
      hide Step, MatchTag, Text;
      forall i | 0 <= i < |s[c.size..]|
        ensures s[c.size..][i] != '?'
      {
        assert s[c.size..][i] == s[c.size + i];
      }
      NoQuestion(cls, c.mode, s[c.size..]);
    }
  }

  // ------------------------------------------------------------------ heads

  /** Only a mark changes the character a text starts with. */
  lemma HeadAfter(cls: Classes, mode: Mode, s: string, k: nat)
    ensures var t := Translated(cls, mode, s, k);
      && (t == "" <==> s == "")
      && (s != "" ==> t[0] == (if IsMark(Step(cls, mode, s).piece) then '$' else s[0]))
      && (s != "" && IsMark(Step(cls, mode, s).piece) ==> s[0] == '?')
  {
    if s != "" {
      TranslatedStep(cls, mode, s, k);
      var c := Step(cls, mode, s);
      if IsMark(c.piece) {
        assert Text(c.piece) == "?";
      }
    }
  }

  /** A dollar quote's text up to its closing tag is copied. */
  lemma {:induction false} DollarVerbatim(cls: Classes, tag: Tag, s: string, k: nat)
    ensures SameFor(s, Translated(cls, Dollar(tag), s, k), |tag|)
    decreases |s|
  {
    if s != "" {
      TranslatedStep(cls, Dollar(tag), s, k);
      if tag <= s {
        var c := Step(cls, Dollar(tag), s);
        var u := Translated(cls, c.mode, s[c.size..], k);
        hide Translated;
        assert Translated(cls, Dollar(tag), s, k) == tag + u;
        CopiedTag(tag, s, u);
      } else {
        var u := Translated(cls, Dollar(tag), s[1..], k);
        assert Translated(cls, Dollar(tag), s, k) == s[..1] + u;
        hide Translated;
        DollarVerbatim(cls, tag, s[1..], k);
        CopiedChar(s, u, |tag|);
      }
    }
  }

  /** Two texts are the same as far as a length: in it, or altogether if they are shorter. */
  predicate SameFor(s: string, t: string, n: nat) {
    if |s| < n then t == s else |t| >= n && t[..n] == s[..n]
  }

  lemma CopiedTag(tag: Tag, s: string, u: string)
    requires tag <= s
    ensures SameFor(s, tag + u, |tag|)
  {
    assert (tag + u)[..|tag|] == tag == s[..|tag|];
  }

  lemma CopiedChar(s: string, u: string, n: nat)
    requires s != "" && SameFor(s[1..], u, n) && n >= 1
    ensures SameFor(s, s[..1] + u, n)
  {
    assert s == s[..1] + s[1..];
    if |s| - 1 >= n {
      assert s[..n] == s[..1] + s[1..][..n][..n - 1];
      assert (s[..1] + u)[..n] == s[..1] + u[..n][..n - 1];
    }
  }

  /** A word character at the head of translated code is the text's own. */
  lemma WordHead(cls: Classes, s: string, k: nat)
    requires ValidClasses(cls)
    requires Translated(cls, Code, s, k) != "" && WordChar(cls, Translated(cls, Code, s, k)[0])
    ensures s != "" && Translated(cls, Code, s, k) == [s[0]] + Translated(cls, Code, s[1..], k)
  {
    HeadAfter(cls, Code, s, k);
    TranslatedStep(cls, Code, s, k);
    assert WordChar(cls, s[0]);
    assert Step(cls, Code, s) == Chunk(1, Code, CodeChar(s[0]));
  }

  /** A run of word characters at the head of translated code is the text's own. */
  lemma {:induction false} WordRun(cls: Classes, s: string, k: nat, n: nat)
    requires ValidClasses(cls)
    requires n <= |Translated(cls, Code, s, k)|
    requires forall i :: 0 <= i < n ==> WordChar(cls, Translated(cls, Code, s, k)[i])
    ensures n <= |s| && s[..n] == Translated(cls, Code, s, k)[..n]
    ensures Translated(cls, Code, s[n..], k) == Translated(cls, Code, s, k)[n..]
    decreases n
  {
    hide Step, Translated, MatchTag, WordChar, ValidClasses;
    var t := Translated(cls, Code, s, k);
    if n == 0 {
      assert s[0..] == s && t[0..] == t;
    } else {
      WordHead(cls, s, k);
      var u := Translated(cls, Code, s[1..], k);
      forall i | 0 <= i < n - 1
        ensures WordChar(cls, u[i])
      {
        assert u[i] == t[i + 1];
      }
      WordRun(cls, s[1..], k, n - 1);
      ConsRun(s, t, u, n);
      assert s[n..] == s[1..][n - 1..];
    }
  }

  lemma ConsRun(s: string, t: string, u: string, n: nat)
    requires s != "" && t == [s[0]] + u && 1 <= n <= |t|
    requires n - 1 <= |s[1..]| && s[1..][..n - 1] == u[..n - 1]
    ensures n <= |s| && s[..n] == t[..n] && t[n..] == u[n - 1..]
  {
    assert s[..n] == [s[0]] + s[1..][..n - 1];
    assert t[..n] == [s[0]] + u[..n - 1];
  }

  // ------------------------------------------------------------------ dangling dollars

  /** A bare `$` in code and a tag body that runs up to a mark: the number makes it a tag. */
  predicate DanglesAt(cls: Classes, s: string, n: nat) {
    1 <= n < |s| && s[n] == '?' && TagBody(cls, s[1..n])
  }

  predicate DanglesHere(cls: Classes, mode: Mode, s: string) {
    s != "" && Step(cls, mode, s).piece == CodeChar('$') && exists n :: 1 <= n < |s| && DanglesAt(cls, s, n)
  }

  predicate Dangles(cls: Classes, mode: Mode, s: string)
    decreases |s|
  {
    s != "" &&
    (DanglesHere(cls, mode, s) ||
     var c := Step(cls, mode, s); Dangles(cls, c.mode, s[c.size..]))
  }

  /** After a bare `$`, a tag in the translation comes from a mark. */
  lemma TagIsDangling(cls: Classes, s: string, k: nat, n: nat)
    requires ValidClasses(cls) && s != "" && s[0] == '$' && MatchTag(cls, s).None?
    requires var u := Translated(cls, Code, s[1..], k); n < |u| && u[n] == '$' && TagBody(cls, u[..n])
    ensures DanglesAt(cls, s, n + 1)
  {
    var u := Translated(cls, Code, s[1..], k);
    forall i | 0 <= i < n
      ensures WordChar(cls, u[i])
    {
      assert u[i] == u[..n][i];
    }
    WordRun(cls, s[1..], k, n);
    HeadAfter(cls, Code, s[1..][n..], k);
    hide Translated, Step, MatchTag;
    assert u[n..][0] == '$';
    assert s[1..][n..] == s[n + 1..];
    assert s[1..n + 1] == s[1..][..n] == u[..n];
    TagMeaning(cls, s, n);
  }

  /** And a dangling `$` becomes one. */
  lemma DanglingIsTag(cls: Classes, s: string, k: nat, n: nat)
    requires ValidClasses(cls) && s != "" && s[0] == '$' && DanglesAt(cls, s, n)
    ensures MatchTag(cls, "$" + Translated(cls, Code, s[1..], k)).Some?
  {
    var u := Translated(cls, Code, s[1..], k);
    var t := "$" + u;
    assert s[1..][n - 1] == s[n];
    forall i | 0 <= i < n - 1
      ensures WordChar(cls, s[1..][i])
    {
      assert s[1..][i] == s[1..n][i];
    }
    WordCopied(cls, s[1..], k, n - 1);
    hide Translated, Step, MatchTag;
    assert s[1..][..n - 1] == s[1..n];
    assert t[1..n] == u[..n - 1];
    TagMeaning(cls, t, n - 1);
  }

  /** After a bare `$`, translation makes a tag exactly when the `$` dangles. */
  lemma TagAfter(cls: Classes, s: string, k: nat)
    requires ValidClasses(cls) && s != "" && s[0] == '$' && MatchTag(cls, s).None?
    ensures var t := "$" + Translated(cls, Code, s[1..], k);
      MatchTag(cls, t).Some? <==> exists n :: 1 <= n < |s| && DanglesAt(cls, s, n)
  {
    var u := Translated(cls, Code, s[1..], k);
    var t := "$" + u;
    hide Translated, Step, DanglesAt;
    if MatchTag(cls, t).Some? {
      var n := |MatchTag(cls, t).value| - 2;
      assert t[..n + 2] == MatchTag(cls, t).value;
      TagMeaning(cls, t, n);
      assert t[1..n + 1] == u[..n];
      TagIsDangling(cls, s, k, n);
    }
    if n :| 1 <= n < |s| && DanglesAt(cls, s, n) {
      DanglingIsTag(cls, s, k, n);
    }
  }

  /** Word characters up to a mark are copied, and the mark becomes a `$`. */
  lemma {:induction false} WordCopied(cls: Classes, s: string, k: nat, n: nat)
    requires ValidClasses(cls) && n < |s| && s[n] == '?' && forall i :: 0 <= i < n ==> WordChar(cls, s[i])
    ensures var t := Translated(cls, Code, s, k); |t| > n + 1 && t[..n] == s[..n] && t[n] == '$'
    decreases n
  {
    TranslatedStep(cls, Code, s, k);
    assert n > 0 ==> WordChar(cls, s[0]);
    assert Step(cls, Code, s) == Chunk(1, Code, CodeChar(s[0]));
    var t := Translated(cls, Code, s, k);
    if n == 0 {
      assert Mark(k)[0] == '$';
    } else {
      var u := Translated(cls, Code, s[1..], k);
      assert t == [s[0]] + u;
      hide Step, Translated, MatchTag, Decimal, WordChar, ValidClasses;
      forall i | 0 <= i < n - 1
        ensures WordChar(cls, s[1..][i])
      {
        assert s[1..][i] == s[i + 1];
      }
      WordCopied(cls, s[1..], k, n - 1);
      hide *;
      ConsCopied(s, t, u, n);
    }
  }

  lemma ConsCopied(s: string, t: string, u: string, n: nat)
    requires 1 <= n < |s| && t == [s[0]] + u && |u| > n
    requires u[..n - 1] == s[1..][..n - 1] && u[n - 1] == '$'
    ensures |t| > n + 1 && t[..n] == s[..n] && t[n] == '$'
  {
    assert s[..n] == [s[0]] + s[1..][..n - 1];
    assert t[..n] == [s[0]] + u[..n - 1];
  }

  /** A step looks at two characters and at tags only. */
  lemma SameStep(cls: Classes, mode: Mode, s: string, t: string)
    requires s != "" && t != "" && t[0] == s[0] && (|t| >= 2 <==> |s| >= 2)
    requires |s| >= 2 ==> t[1] == s[1] || (s[1] == '?' && t[1] == '$')
    requires mode.Dollar? ==> (mode.tag <= s <==> mode.tag <= t)
    requires mode.Code? && s[0] == '$' ==> MatchTag(cls, t) == MatchTag(cls, s)
    ensures Step(cls, mode, t) == Step(cls, mode, s)
  {
    assert s[..1] == t[..1] == [s[0]];
    if |s| >= 2 {
      assert s[..2] == [s[0], s[1]] && t[..2] == [t[0], t[1]];
    }
    if mode.Code? && s[0] != '$' {
      assert MatchTag(cls, s).None? && MatchTag(cls, t).None?;
    }
  }

  /** The first step reads the same before and after, unless a `$` dangles here. */
  lemma HeadStep(cls: Classes, mode: Mode, s: string, k: nat)
    requires ValidClasses(cls) && s != "" && !IsMark(Step(cls, mode, s).piece) && !DanglesHere(cls, mode, s)
    ensures var c := Step(cls, mode, s);
      var t := Translated(cls, mode, s, k);
      && t != "" && Step(cls, mode, t) == c && c.size <= |t|
      && t[c.size..] == Translated(cls, c.mode, s[c.size..], k)
  {
    var c := Step(cls, mode, s);
    var t := Translated(cls, mode, s, k);
    var rest := Translated(cls, c.mode, s[c.size..], k);
    TranslatedStep(cls, mode, s, k);
    HeadAfter(cls, c.mode, s[c.size..], k);
    if mode.Dollar? {
      SameTagPrefix(cls, mode.tag, s, k);
    } else if mode.Code? && s[0] == '$' {
      SameTag(cls, s, k);
    }
    hide Step, Translated, MatchTag, DanglesHere, ValidClasses;
    HeadCharacters(s, t, rest, c.size);
    SameStep(cls, mode, s, t);
  }

  lemma HeadCharacters(s: string, t: string, rest: string, n: nat)
    requires 1 <= n <= |s| && t == s[..n] + rest
    requires rest == "" <==> s[n..] == ""
    requires rest != "" ==> rest[0] == s[n..][0] || (rest[0] == '$' && s[n..][0] == '?')
    ensures t != "" && t[0] == s[0] && (|t| >= 2 <==> |s| >= 2) && t[n..] == rest
    ensures |s| >= 2 ==> t[1] == s[1] || (s[1] == '?' && t[1] == '$')
  {
    assert t[0] == s[..n][0];
    if n >= 2 {
      assert t[1] == s[..n][1];
    }
  }

  lemma SameTagPrefix(cls: Classes, tag: Tag, s: string, k: nat)
    requires s != ""
    ensures tag <= s <==> tag <= Translated(cls, Dollar(tag), s, k)
  {
    var t := Translated(cls, Dollar(tag), s, k);
    DollarVerbatim(cls, tag, s, k);
    if tag <= s {
      assert s[..|tag|] == tag;
    }
    if tag <= t {
      assert t[..|tag|] == tag;
    }
  }

  lemma SameTag(cls: Classes, s: string, k: nat)
    requires ValidClasses(cls) && s != "" && s[0] == '$' && !DanglesHere(cls, Code, s)
    ensures var t := Translated(cls, Code, s, k); t != "" && MatchTag(cls, t) == MatchTag(cls, s)
  {
    var c := Step(cls, Code, s);
    TranslatedStep(cls, Code, s, k);
    var t := Translated(cls, Code, s, k);
    if MatchTag(cls, s).Some? {
      var tag := MatchTag(cls, s).value;
      assert t[..|tag|] == tag;
      hide Translated, Step;
      TagIsKept(cls, s, t, |tag| - 2);
    } else {
      assert c == Chunk(1, Code, CodeChar('$'));
      TagAfter(cls, s, k);
      assert t == "$" + Translated(cls, Code, s[1..], k);
    }
  }

  lemma TagIsKept(cls: Classes, s: string, t: string, n: nat)
    requires ValidClasses(cls) && s != "" && s[0] == '$' && n + 2 <= |s| && MatchTag(cls, s) == Some(s[..n + 2])
    requires s[..n + 2] <= t
    ensures MatchTag(cls, t) == Some(s[..n + 2])
  {
    TagMeaning(cls, s, n);
    hide MatchTag;
    assert t[..n + 2] == s[..n + 2];
    assert t[0] == t[..n + 2][0] == s[..n + 2][0];
    assert t[n + 1] == t[..n + 2][n + 1] == s[..n + 2][n + 1];
    assert t[1..n + 1] == t[..n + 2][1..n + 1] == s[..n + 2][1..n + 1] == s[1..n + 1];
    TagMeaning(cls, t, n);
  }
}
