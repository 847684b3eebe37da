/** What the translated text means: it is cut as the original was, with each mark replaced
    by its number, unless a bare dollar dangles before a mark. */
module SqlMeaning {
  import opened Common
  import opened Decimals
  import opened SqlLexer
  import opened SqlTranslate

  // ------------------------------------------------------------------ positions in the blanked text

  predicate IsBlank(c: char) {
    c == ' ' || c == '\n'
  }

  /** A step over code is one character long and shows it; any other shows blanks. */
  lemma StepBlank(cls: Classes, mode: Mode, s: string)
    requires s != ""
    ensures var c := Step(cls, mode, s);
      var b := Blank(cls, mode, s);
      && c.size <= |b| == |s|
      && b[c.size..] == Blank(cls, c.mode, s[c.size..])
      && (if c.piece.CodeChar? then mode.Code? && c == Chunk(1, Code, CodeChar(s[0])) && b[0] == s[0]
          else forall i :: 0 <= i < c.size ==> IsBlank(b[i]))
  {
    var c := Step(cls, mode, s);
    BlankStep(cls, mode, s);
    BlankKeepsLength(cls, mode, s);
    StepText(cls, mode, s);
    BlankTextShape(c.piece);
    if !c.piece.CodeChar? {
      assert forall i :: 0 <= i < c.size ==> IsBlank(BlankText(c.piece)[i]);
    }
  }

  ghost predicate ShowsMark(b: string) {
    exists i :: 0 <= i < |b| && b[i] == '?'
  }

  ghost predicate ShowsNumber(cls: Classes, b: string) {
    exists i :: 0 <= i < |b| - 1 && b[i] == '$' && cls.digit(b[i + 1])
  }

  /** A `$`, a tag body and a mark in a row. */
  predicate DanglesBetween(cls: Classes, b: string, i: nat, j: nat) {
    i < j < |b| && b[i] == '$' && b[j] == '?' && TagBody(cls, b[i + 1..j])
  }

  ghost predicate ShowsDangling(cls: Classes, b: string) {
    exists i: nat, j: nat :: DanglesBetween(cls, b, i, j)
  }

  lemma MarkSplit(b: string, n: nat)
    requires 1 <= n <= |b| && (n == 1 || forall i :: 0 <= i < n ==> IsBlank(b[i]))
    ensures ShowsMark(b) <==> b[0] == '?' || ShowsMark(b[n..])
  {
    if i :| 0 <= i < |b[n..]| && b[n..][i] == '?' {
      assert b[i + n] == '?';
    }
    if i :| 0 <= i < |b| && b[i] == '?' {
      if i >= n {
        assert b[n..][i - n] == '?';
      } else {
        assert n == 1 || IsBlank(b[i]);
      }
    }
  }

  lemma NumberSplit(cls: Classes, b: string, n: nat)
    requires 1 <= n <= |b| && (n == 1 || forall i :: 0 <= i < n ==> IsBlank(b[i]))
    ensures ShowsNumber(cls, b) <==> (|b| >= 2 && b[0] == '$' && cls.digit(b[1])) || ShowsNumber(cls, b[n..])
  {
    if i :| 0 <= i < |b[n..]| - 1 && b[n..][i] == '$' && cls.digit(b[n..][i + 1]) {
      assert b[i + n] == '$' && cls.digit(b[i + n + 1]);
    }
    if |b| >= 2 && b[0] == '$' && cls.digit(b[1]) {
      assert b[0] == '$' && cls.digit(b[0 + 1]);
    }
    if i :| 0 <= i < |b| - 1 && b[i] == '$' && cls.digit(b[i + 1]) {
      if i >= n {
        assert b[n..][i - n] == '$' && cls.digit(b[n..][i - n + 1]);
      } else {
        assert n == 1 || IsBlank(b[i]);
      }
    }
  }

  /** A dangling `$` of the rest is one of the whole, and the other way round. */
  lemma DanglingShift(cls: Classes, b: string, n: nat, i: nat, j: nat)
    requires n <= |b|
    ensures DanglesBetween(cls, b[n..], i, j) <==> DanglesBetween(cls, b, i + n, j + n)
  {
    hide TagBody;
    if i < j && j + n < |b| {
      assert b[n..][i + 1..j] == b[i + n + 1..j + n];
    }
  }

  lemma DanglingSplit(cls: Classes, b: string, n: nat)
    requires 1 <= n <= |b| && (n == 1 || forall i :: 0 <= i < n ==> IsBlank(b[i]))
    ensures ShowsDangling(cls, b) <==> (exists j: nat :: DanglesBetween(cls, b, 0, j)) || ShowsDangling(cls, b[n..])
  {
    if i: nat, j: nat :| DanglesBetween(cls, b[n..], i, j) {
      DanglingShift(cls, b, n, i, j);
    }
    if i: nat, j: nat :| DanglesBetween(cls, b, i, j) {
      if i >= n {
        DanglingShift(cls, b, n, i - n, j - n);
      } else {
        assert n == 1 || IsBlank(b[i]);
        assert i == 0;
      }
    }
  }

  /** The marks in code are the question marks that blanking leaves. */
  lemma {:induction false} MarksShow(cls: Classes, mode: Mode, s: string)
    ensures HasMark(cls, mode, s) <==> ShowsMark(Blank(cls, mode, s))
    decreases |s|
  {
    if s == "" {
      assert Blank(cls, mode, s) == "";
    } else {
      var c := Step(cls, mode, s);
      StepBlank(cls, mode, s);
      MarkIsFirst(cls, mode, s);
      hide Step, Blank, MatchTag, ShowsMark;
      MarksShow(cls, c.mode, s[c.size..]);
      MarkSplit(Blank(cls, mode, s), c.size);
    }
  }

  /** The numbered placeholders in code are the ones that blanking leaves. */
  lemma {:induction false} NumbersShow(cls: Classes, mode: Mode, s: string)
    requires ValidClasses(cls)
    ensures HasNumber(cls, mode, s) <==> ShowsNumber(cls, Blank(cls, mode, s))
    decreases |s|
  {
    if s == "" {
      assert Blank(cls, mode, s) == "";
    } else {
      var c := Step(cls, mode, s);
      StepBlank(cls, mode, s);
      NumberShows(cls, mode, s);
      hide Step, Blank, MatchTag, NumberHere, ShowsNumber, ValidClasses;
      NumbersShow(cls, c.mode, s[c.size..]);
      NumberSplit(cls, Blank(cls, mode, s), c.size);
    }
  }

  lemma NumberShows(cls: Classes, mode: Mode, s: string)
    requires ValidClasses(cls) && s != ""
    ensures var b := Blank(cls, mode, s);
      |b| == |s| && (NumberHere(cls, mode, s) <==> |b| >= 2 && b[0] == '$' && cls.digit(b[1]))
  {
    StepBlank(cls, mode, s);
    var c := Step(cls, mode, s);
    var b := Blank(cls, mode, s);
    if |s| >= 2 && c.piece.CodeChar? {
      assert b[1] == b[1..][0];
      StepBlank(cls, Code, s[1..]);
      BlankCharacters(cls, Code, s[1..], 0);
      if cls.digit(s[1]) {
        assert cls.alnum(s[1]);
        assert Step(cls, Code, s[1..]).piece == CodeChar(s[1]);
      }
    }
  }

  /** A `$` dangles in code exactly when the blanked text shows it; in particular never when
      blanking leaves no `$`. */
  lemma {:induction false} DanglingShows(cls: Classes, mode: Mode, s: string)
    requires ValidClasses(cls)
    ensures Dangles(cls, mode, s) <==> ShowsDangling(cls, Blank(cls, mode, s))
    decreases |s|
  {
    if s == "" {
      assert Blank(cls, mode, s) == "";
    } else {
      var c := Step(cls, mode, s);
      StepBlank(cls, mode, s);
      HeadShows(cls, mode, s);
      hide Step, Blank, MatchTag, DanglesHere, DanglesBetween, ShowsDangling, ValidClasses;
      DanglingShows(cls, c.mode, s[c.size..]);
      DanglingSplit(cls, Blank(cls, mode, s), c.size);
    }
  }

  lemma HeadShows(cls: Classes, mode: Mode, s: string)
    requires ValidClasses(cls) && s != ""
    ensures DanglesHere(cls, mode, s) <==> exists j: nat :: DanglesBetween(cls, Blank(cls, mode, s), 0, j)
  {
    StepBlank(cls, mode, s);
    MarkIsDollar(cls, mode, s);
    hide Step, Blank, TagBody;
    var b := Blank(cls, mode, s);
    if j: nat :| DanglesBetween(cls, b, 0, j) {
      SameWhereShown(cls, mode, s, j);
      assert DanglesAt(cls, s, j);
    }
    if DanglesHere(cls, mode, s) {
      var n :| 1 <= n < |s| && DanglesAt(cls, s, n);
      DanglingIsShown(cls, s, n);
    }
  }

  lemma MarkIsDollar(cls: Classes, mode: Mode, s: string)
    requires s != ""
    ensures Step(cls, mode, s).piece == CodeChar('$') ==> s[0] == '$'
  {
    StepText(cls, mode, s);
  }

  lemma DanglingIsShown(cls: Classes, s: string, n: nat)
    requires ValidClasses(cls) && s != "" && Step(cls, Code, s).piece == CodeChar('$') && DanglesAt(cls, s, n)
    ensures DanglesBetween(cls, Blank(cls, Code, s), 0, n)
  {
    StepBlank(cls, Code, s);
    MarkIsDollar(cls, Code, s);
    var b := Blank(cls, Code, s);
    forall i | 0 <= i < n - 1
      ensures WordChar(cls, s[1..][i])
    {
      assert s[1..][i] == s[1..n][i];
    }
    WordShown(cls, s[1..], n - 1);
    hide Step, Blank, MatchTag, ValidClasses, WordChar;
    assert b[1..n] == b[1..][..n - 1] == s[1..][..n - 1] == s[1..n];
    assert b[n] == b[1..][n - 1];
  }

  /** What the blanked text shows between a `$` and a mark is the text. */
  lemma SameWhereShown(cls: Classes, mode: Mode, s: string, j: nat)
    requires ValidClasses(cls) && DanglesBetween(cls, Blank(cls, mode, s), 0, j)
    ensures j < |s| && s[j] == '?' && s[1..j] == Blank(cls, mode, s)[1..j]
  {
    var b := Blank(cls, mode, s);
    BlankKeepsLength(cls, mode, s);
    BlankCharacters(cls, mode, s, j);
    forall i | 1 <= i < j
      ensures s[i] == b[i]
    {
      BlankCharacters(cls, mode, s, i);
      assert WordChar(cls, b[1..j][i - 1]);
    }
  }

  /** Word characters of code up to a mark are shown, and so is the mark. */
  lemma {:induction false} WordShown(cls: Classes, s: string, n: nat)
    requires ValidClasses(cls) && n < |s| && s[n] == '?' && forall i :: 0 <= i < n ==> WordChar(cls, s[i])
    ensures var b := Blank(cls, Code, s); |b| == |s| && b[..n] == s[..n] && b[n] == '?'
    decreases n
  {
    StepBlank(cls, Code, s);
    assert n > 0 ==> WordChar(cls, s[0]);
    assert Step(cls, Code, s) == Chunk(1, Code, CodeChar(s[0]));
    var b := Blank(cls, Code, s);
    if n > 0 {
      hide Step, Blank, MatchTag, WordChar, ValidClasses;
      forall i | 0 <= i < n - 1
        ensures WordChar(cls, s[1..][i])
      {
        assert s[1..][i] == s[i + 1];
      }
      WordShown(cls, s[1..], n - 1);
      hide *;
      assert b == [s[0]] + b[1..];
      ConsRun(s, b, b[1..], n);
      assert b[n] == b[1..][n - 1];
    }
  }

  /** So the translation refuses a text exactly when blanking leaves both a `?` and a `$`
      followed by a digit. */
  lemma RefusalShows(cls: Classes, sql: string)
    requires ValidClasses(cls)
    ensures HasMark(cls, Code, sql) && HasNumber(cls, Code, sql) <==>
      ShowsMark(Blank(cls, Code, sql)) && ShowsNumber(cls, Blank(cls, Code, sql))
  {
    MarksShow(cls, Code, sql);
    NumbersShow(cls, Code, sql);
  }

  // ------------------------------------------------------------------ blanking twice

  lemma BlankCons(cls: Classes, c: char, r: string)
    requires IsBlank(c)
    ensures Blank(cls, Code, [c] + r) == [c] + Blank(cls, Code, r)
  {
    var s := [c] + r;
    assert s[0] == c && s[1..] == r;
    assert Step(cls, Code, s) == Chunk(1, Code, CodeChar(c));
    BlankStep(cls, Code, s);
  }

  /** Blanks at the head of code are shown as they are. */
  lemma {:induction false} BlanksStay(cls: Classes, x: string, r: string)
    requires forall i :: 0 <= i < |x| ==> IsBlank(x[i])
    ensures Blank(cls, Code, x + r) == x + Blank(cls, Code, r)
    decreases |x|
  {
    hide Step, Blank, IsBlank;
    if x == "" {
      assert x + r == r;
    } else {
      BlanksStay(cls, x[1..], r);
      BlankCons(cls, x[0], x[1..] + r);
      assert x + r == [x[0]] + (x[1..] + r);
      assert x + Blank(cls, Code, r) == [x[0]] + (x[1..] + Blank(cls, Code, r));
    }
  }

  /** Blanking is idempotent: what it leaves has no literal and no comment to blank. */
  lemma {:induction false} BlankTwice(cls: Classes, mode: Mode, s: string)
    requires ValidClasses(cls)
    ensures Blank(cls, Code, Blank(cls, mode, s)) == Blank(cls, mode, s)
    decreases |s|
  {
    if s != "" {
      var c := Step(cls, mode, s);
      var b := Blank(cls, mode, s);
      BlankTwice(cls, c.mode, s[c.size..]);
      StepBlank(cls, mode, s);
      var rest := b[c.size..];
      assert b == b[..c.size] + rest;
      if c.piece.CodeChar? {
        CodeStaysCode(cls, s);
        BlankStep(cls, Code, b);
      } else {
        BlanksStay(cls, b[..c.size], rest);
      }
    }
  }

  /** A character of code is still one in the blanked text. */
  lemma CodeStaysCode(cls: Classes, s: string)
    requires ValidClasses(cls) && s != "" && Step(cls, Code, s).piece.CodeChar?
    ensures var b := Blank(cls, Code, s); b != "" && Step(cls, Code, b) == Chunk(1, Code, CodeChar(b[0]))
  {
    StepBlank(cls, Code, s);
    var b := Blank(cls, Code, s);
    if |s| >= 2 {
      BlankCharacters(cls, Code, s, 1);
    }
    if b[0] == '$' {
      NoTagShown(cls, s);
    }
  }

  lemma NoTagShown(cls: Classes, s: string)
    requires ValidClasses(cls) && s != "" && s[0] == '$' && MatchTag(cls, s).None?
    ensures var b := Blank(cls, Code, s); b != "" && (b[0] == '$' ==> MatchTag(cls, b).None?)
  {
    var b := Blank(cls, Code, s);
    BlankKeepsLength(cls, Code, s);
    if b[0] == '$' && MatchTag(cls, b).Some? {
      var n := |MatchTag(cls, b).value| - 2;
      TagText(cls, b);
      TagMeaning(cls, b, n);
      BlankCharacters(cls, Code, s, n + 1);
      forall i | 1 <= i < n + 1
        ensures s[i] == b[i]
      {
        BlankCharacters(cls, Code, s, i);
        assert WordChar(cls, b[1..n + 1][i - 1]);
      }
      assert s[1..n + 1] == b[1..n + 1];
      TagMeaning(cls, s, n);
      assert false;
    }
  }

  lemma TagText(cls: Classes, s: string)
    requires s != "" && MatchTag(cls, s).Some?
    ensures var tag := MatchTag(cls, s).value; |tag| <= |s| && s[..|tag|] == tag && s[0] == '$'
  {
  }

  // ------------------------------------------------------------------ the main result

  function CodeChars(x: string): seq<Piece> {
    if x == "" then [] else [CodeChar(x[0])] + CodeChars(x[1..])
  }

  /** The pieces of a text with each mark replaced by the characters of its number. */
  function NumberedPieces(cls: Classes, mode: Mode, s: string, k: nat): seq<Piece>
    decreases |s|
  {
    if s == "" then []
    else
      var c := Step(cls, mode, s);
      if IsMark(c.piece) then CodeChars(Mark(k)) + NumberedPieces(cls, c.mode, s[c.size..], k + 1)
      else [c.piece] + NumberedPieces(cls, c.mode, s[c.size..], k)
  }

  /** A text with each of its question marks replaced by a number. */
  function Fill(b: string, k: nat): string {
    if b == "" then ""
    else if b[0] == '?' then Mark(k) + Fill(b[1..], k + 1)
    else [b[0]] + Fill(b[1..], k)
  }

  lemma {:induction false} FillPrefix(x: string, r: string, k: nat)
    requires forall i :: 0 <= i < |x| ==> x[i] != '?'
    ensures Fill(x + r, k) == x + Fill(r, k)
  {
    if x == "" {
      assert x + r == r;
    } else {
      FillPrefix(x[1..], r, k);
      assert (x + r)[1..] == x[1..] + r && (x + r)[0] == x[0];
      assert x == [x[0]] + x[1..];
    }
  }

  /** One step of filling the blanked text. */
  lemma FillStep(cls: Classes, mode: Mode, s: string, k: nat)
    requires s != ""
    ensures var c := Step(cls, mode, s);
      Fill(Blank(cls, mode, s), k) ==
        if IsMark(c.piece) then Mark(k) + Fill(Blank(cls, c.mode, s[c.size..]), k + 1)
        else BlankText(c.piece) + Fill(Blank(cls, c.mode, s[c.size..]), k)
  {
    var c := Step(cls, mode, s);
    var r := Blank(cls, c.mode, s[c.size..]);
    BlankStep(cls, mode, s);
    hide Step, Blank;
    if IsMark(c.piece) {
      assert ("?" + r)[1..] == r;
    } else {
      FillPrefix(BlankText(c.piece), r, k);
    }
  }

  /** Digits at the head of code are read one by one. */
  lemma {:induction false} DigitsAreCode(cls: Classes, d: string, r: string)
    requires ValidClasses(cls) && IsDecimal(d)
    ensures Lex(cls, Code, d + r) == CodeChars(d) + Lex(cls, Code, r)
    ensures Blank(cls, Code, d + r) == d + Blank(cls, Code, r)
    ensures HasMark(cls, Code, d + r) == HasMark(cls, Code, r)
    decreases |d|
  {
    hide Lex, Blank, HasMark;
    if d == "" {
      assert d + r == r;
      assert CodeChars(d) + Lex(cls, Code, r) == Lex(cls, Code, r);
      assert d + Blank(cls, Code, r) == Blank(cls, Code, r);
    } else {
      DigitsAreCode(cls, d[1..], r);
      assert cls.digit(d[0]);
      CodeCons(cls, d[0], d[1..] + r);
      hide *;
      assert d == [d[0]] + d[1..];
      Associate([d[0]], d[1..], r);
      Associate([d[0]], d[1..], Blank(cls, Code, r));
      Associate([CodeChar(d[0])], CodeChars(d[1..]), Lex(cls, Code, r));
      assert CodeChars(d) == [CodeChar(d[0])] + CodeChars(d[1..]) by { CodeCharsCons(d); }
    }
  }

  lemma CodeCharsCons(x: string)
    requires x != ""
    ensures CodeChars(x) == [CodeChar(x[0])] + CodeChars(x[1..])
  {
  }

  lemma CodeCons(cls: Classes, c: char, r: string)
    requires ValidClasses(cls) && c != '?' && (cls.digit(c) || (c == '$' && MatchTag(cls, [c] + r).None?))
    ensures Lex(cls, Code, [c] + r) == [CodeChar(c)] + Lex(cls, Code, r)
    ensures Blank(cls, Code, [c] + r) == [c] + Blank(cls, Code, r)
    ensures HasMark(cls, Code, [c] + r) == HasMark(cls, Code, r)
  {
    var s := [c] + r;
    assert s[0] == c && s[1..] == r;
    if cls.digit(c) {
      assert cls.alnum(c);
    }
    assert Step(cls, Code, s) == Chunk(1, Code, CodeChar(c));
  }

  /** A number is not a tag: it starts with a digit. */
  lemma NumberIsNoTag(cls: Classes, d: string, r: string)
    requires ValidClasses(cls) && d != "" && IsDecimal(d)
    ensures MatchTag(cls, ['$'] + (d + r)).None?
  {
    var s := ['$'] + (d + r);
    var end := IndexOf(s[1..], '$');
    IndexOfIsFirst(s[1..], '$');
    assert s[1..] == d + r;
    assert cls.digit(d[0]) && !cls.alpha(d[0]) && cls.alnum(d[0]);
    if end.Some? {
      assert end.value > 0;
      assert s[1..end.value + 1][0] == d[0];
    }
  }

  /** A number in code is read character by character. */
  lemma MarkIsCode(cls: Classes, k: nat, r: string)
    requires ValidClasses(cls)
    ensures Lex(cls, Code, Mark(k) + r) == CodeChars(Mark(k)) + Lex(cls, Code, r)
    ensures Blank(cls, Code, Mark(k) + r) == Mark(k) + Blank(cls, Code, r)
    ensures HasMark(cls, Code, Mark(k) + r) == HasMark(cls, Code, r)
  {
    var d := Decimal(k);
    hide Lex, Blank, HasMark, MatchTag, Decimal;
    DecimalDigits(k);
    NumberIsNoTag(cls, d, r);
    DigitsAreCode(cls, d, r);
    CodeCons(cls, '$', d + r);
    assert Mark(k) == ['$'] + d && Mark(k)[0] == '$' && Mark(k)[1..] == d;
    CodeCharsCons(Mark(k));
    hide *;
    Associate(['$'], d, r);
    Associate(['$'], d, Blank(cls, Code, r));
    Associate([CodeChar('$')], CodeChars(d), Lex(cls, Code, r));
  }

  /** When no `$` dangles, the translation is cut into the same pieces, with each mark of
      code replaced by its number: literals and comments are the original's, word for word,
      blanking commutes with translating, and no mark of code is left. */
  lemma {:induction false} TranslationReadsTheSame(cls: Classes, mode: Mode, s: string, k: nat)
    requires ValidClasses(cls) && !Dangles(cls, mode, s)
    ensures var t := Translated(cls, mode, s, k);
      && Lex(cls, mode, t) == NumberedPieces(cls, mode, s, k)
      && Blank(cls, mode, t) == Fill(Blank(cls, mode, s), k)
      && !HasMark(cls, mode, t)
    decreases |s|
  {
    if s == "" {
      assert Blank(cls, mode, s) == "" && Translated(cls, mode, s, k) == "";
    } else {
      var c := Step(cls, mode, s);
      var t := Translated(cls, mode, s, k);
      TranslatedStep(cls, mode, s, k);
      FillStep(cls, mode, s, k);
      if IsMark(c.piece) {
        CodeStep(cls, mode, s);
        TranslationReadsTheSame(cls, c.mode, s[c.size..], k + 1);
        MarkIsCode(cls, k, Translated(cls, c.mode, s[c.size..], k + 1));
      } else {
        TranslationReadsTheSame(cls, c.mode, s[c.size..], k);
        HeadStep(cls, mode, s, k);
        BlankStep(cls, mode, t);
      }
    }
  }

  lemma CodeStep(cls: Classes, mode: Mode, s: string)
    requires s != "" && Step(cls, mode, s).piece.CodeChar?
    ensures mode.Code? && Step(cls, mode, s).mode.Code? && Step(cls, mode, s).size == 1
  {
  }

  /** When one does, the translation does not read as the original does. */
  lemma {:induction false} DanglingBreaks(cls: Classes, mode: Mode, s: string, k: nat)
    requires ValidClasses(cls) && Dangles(cls, mode, s)
    ensures Blank(cls, mode, Translated(cls, mode, s, k)) != Fill(Blank(cls, mode, s), k)
    decreases |s|
  {
    if DanglesHere(cls, mode, s) {
      DanglingBreaksHere(cls, mode, s, k);
    } else {
      var c := Step(cls, mode, s);
      var t := Translated(cls, mode, s, k);
      TranslatedStep(cls, mode, s, k);
      FillStep(cls, mode, s, k);
      if IsMark(c.piece) {
        CodeStep(cls, mode, s);
        hide Step, Blank, Translated, Fill, MatchTag;
        DanglingBreaks(cls, c.mode, s[c.size..], k + 1);
        var rest := Translated(cls, Code, s[1..], k + 1);
        MarkIsCode(cls, k, rest);
        SamePrefix(Mark(k), Blank(cls, Code, rest), Fill(Blank(cls, Code, s[1..]), k + 1));
      } else {
        HeadStep(cls, mode, s, k);
        BlankStep(cls, mode, t);
        hide Step, Blank, Translated, Fill, MatchTag;
        DanglingBreaks(cls, c.mode, s[c.size..], k);
        SamePrefix(BlankText(c.piece), Blank(cls, c.mode, t[c.size..]), Fill(Blank(cls, c.mode, s[c.size..]), k));
      }
    }
  }

  lemma DanglingBreaksHere(cls: Classes, mode: Mode, s: string, k: nat)
    requires ValidClasses(cls) && DanglesHere(cls, mode, s)
    ensures Blank(cls, mode, Translated(cls, mode, s, k)) != Fill(Blank(cls, mode, s), k)
  {
    var t := Translated(cls, mode, s, k);
    TranslatedStep(cls, mode, s, k);
    FillStep(cls, mode, s, k);
    CodeStep(cls, mode, s);
    MarkIsDollar(cls, mode, s);
    TagAfter(cls, s, k);
    assert t == "$" + Translated(cls, Code, s[1..], k);
    StepBlank(cls, Code, t);
    hide Translated, Fill, Blank;
    assert Blank(cls, Code, t)[0] != '$';
    assert Fill(Blank(cls, mode, s), k)[0] == '$';
  }

  lemma SamePrefix(x: string, a: string, b: string)
    ensures x + a == x + b ==> a == b
  {
    if x + a == x + b {
      assert (x + a)[|x|..] == a && (x + b)[|x|..] == b;
    }
  }

  /** Meaning is preserved if and only if the blanked text nowhere has a `$`, a tag body and
      a `?` in a row. */
  lemma MeaningIsKept(cls: Classes, sql: string)
    requires ValidClasses(cls)
    ensures Blank(cls, Code, Translated(cls, Code, sql, 1)) == Fill(Blank(cls, Code, sql), 1)
       <==> !ShowsDangling(cls, Blank(cls, Code, sql))
  {
    DanglingShows(cls, Code, sql);
    if Dangles(cls, Code, sql) {
      DanglingBreaks(cls, Code, sql, 1);
    } else {
      TranslationReadsTheSame(cls, Code, sql, 1);
    }
  }

  /** In particular when blanking leaves no `$`; then translating twice is translating once. */
  lemma TranslatedOnce(cls: Classes, sql: string)
    requires ValidClasses(cls) && !ShowsDangling(cls, Blank(cls, Code, sql))
    ensures var t := Translated(cls, Code, sql, 1);
      !HasMark(cls, Code, t) && Translated(cls, Code, t, 1) == t
  {
    DanglingShows(cls, Code, sql);
    TranslationReadsTheSame(cls, Code, sql, 1);
    NoMark(cls, Code, Translated(cls, Code, sql, 1), 1);
  }

  /** The smallest text that does not survive: the number closes a tag. */
  lemma DanglingExample(cls: Classes)
    requires ValidClasses(cls) && cls.alpha('a')
    ensures ShowsDangling(cls, Blank(cls, Code, "$a?"))
  {
    var s := "$a?";
    assert cls.alnum('a');
    assert WordChar(cls, 'a') && TagBody(cls, s[1..2]);
    assert DanglesAt(cls, s, 2);
    assert IndexOf(s[1..], '$').None? by { IndexOfIsFirst(s[1..], '$'); }
    assert Step(cls, Code, s).piece == CodeChar('$');
    assert DanglesHere(cls, Code, s);
    DanglingShows(cls, Code, s);
  }
}
