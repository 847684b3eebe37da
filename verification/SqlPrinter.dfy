/** What literals and comments are, said by printing them: each is blanked and copied whole,
    whatever follows it, and every other character is code. */
module SqlPrinter {
  import opened Common
  import opened Decimals
  import opened SqlLexer
  import opened SqlTranslate

  /** `x` as it is written between quotes. */
  function Doubled(x: string, q: char): string {
    if x == "" then "" else (if x[0] == q then [q, q] else [x[0]]) + Doubled(x[1..], q)
  }

  function Quoted(x: string, q: char): string {
    [q] + (Doubled(x, q) + [q])
  }

  /** How far a comment reaches that `depth` openings are still open of, if it is closed. */
  function CommentEnd(s: string, depth: nat): (r: Option<nat>)
    ensures r.Some? ==> r.value <= |s|
  {
    if s == "" || depth == 0 then if depth == 0 then Some(0) else None
    else
      var (n, more) :=
        if "/*" <= s then (2, depth + 1) else if "*/" <= s then (2, depth - 1) else (1, depth);
      var rest := CommentEnd(s[n..], more);
      if rest.None? then None else Some(n + rest.value)
  }

  /** A name between the dollars of a tag. */
  predicate IsTagName(cls: Classes, name: string) {
    && (name != "" ==> cls.alpha(name[0]) || name[0] == '_')
    && forall i :: 0 <= i < |name| ==> cls.alnum(name[i]) || name[i] == '_'
  }

  function TagNamed(name: string): (t: Tag) {
    "$" + name + "$"
  }

  /** The tag is found nowhere in front of position `n`. */
  predicate FirstAt(tag: string, s: string, n: nat)
    requires n <= |s|
  {
    forall i :: 0 <= i < n ==> !(tag <= s[i..])
  }

  /** `s`, read from a mode, is hidden text with `r` behind it, read from another mode. */
  ghost predicate Hides(cls: Classes, mode: Mode, s: string, after: Mode, r: string) {
    && Blank(cls, mode, s + r) == Spaces(|s|) + Blank(cls, after, r)
    && forall k: nat :: Translated(cls, mode, s + r, k) == s + Translated(cls, after, r, k)
  }

  // ------------------------------------------------------------------ hidden step by step

  lemma NothingHidden(cls: Classes, mode: Mode, r: string)
    ensures Hides(cls, mode, "", mode, r)
  {
    assert "" + r == r && Spaces(0) + Blank(cls, mode, r) == Blank(cls, mode, r);
    forall k: nat
      ensures Translated(cls, mode, "" + r, k) == "" + Translated(cls, mode, r, k)
    {
      assert "" + Translated(cls, mode, r, k) == Translated(cls, mode, r, k);
    }
  }

  lemma HiddenStep(cls: Classes, mode: Mode, s: string, n: nat, between: Mode, after: Mode, r: string)
    requires 1 <= n <= |s| && Step(cls, mode, s + r) == Chunk(n, between, Hidden(s[..n]))
    requires Hides(cls, between, s[n..], after, r)
    ensures Hides(cls, mode, s, after, r)
  {
    hide Step, Translated, Blank, Spaces;
    assert (s + r)[..n] == s[..n];
    assert (s + r)[n..] == s[n..] + r;
    BlankHidden(cls, mode, s + r, n, between);
    JoinSpaces(n, |s| - n, Blank(cls, after, r));
    forall k: nat
      ensures Translated(cls, mode, s + r, k) == s + Translated(cls, after, r, k)
    {
      TranslatedHidden(cls, mode, s + r, n, between, k);
      JoinText(s, n, Translated(cls, after, r, k));
      hide Step, Translated, Blank;
      assert (s + r)[..n] == s[..n];
    }
    hide Step, Translated, Blank;
  }

  lemma BlankHidden(cls: Classes, mode: Mode, s: string, n: nat, between: Mode)
    requires n <= |s| && s != "" && Step(cls, mode, s) == Chunk(n, between, Hidden(s[..n]))
    ensures Blank(cls, mode, s) == Spaces(n) + Blank(cls, between, s[n..])
  {
    BlankStep(cls, mode, s);
    hide Step, Blank;
  }

  lemma TranslatedHidden(cls: Classes, mode: Mode, s: string, n: nat, between: Mode, k: nat)
    requires n <= |s| && s != "" && Step(cls, mode, s) == Chunk(n, between, Hidden(s[..n]))
    ensures Translated(cls, mode, s, k) == s[..n] + Translated(cls, between, s[n..], k)
  {
    TranslatedStep(cls, mode, s, k);
    hide Step, Translated;
  }

  lemma JoinSpaces(n: nat, m: nat, rest: string)
    ensures Spaces(n) + (Spaces(m) + rest) == Spaces(n + m) + rest
  {
  }

  lemma JoinText(s: string, n: nat, rest: string)
    requires n <= |s|
    ensures s[..n] + (s[n..] + rest) == s + rest
  {
  }

  lemma AlsoEmpty(s: string)
    ensures s + "" == s
  {
  }

  // ------------------------------------------------------------------ quotes

  function QuoteMode(q: char): Mode {
    if q == '\'' then Single else Double
  }

  predicate IsQuote(q: char) {
    q == '\'' || q == '"'
  }

  lemma {:induction false} InQuotes(cls: Classes, q: char, x: string, r: string)
    requires IsQuote(q) && (r != "" ==> r[0] != q)
    ensures Hides(cls, QuoteMode(q), Doubled(x, q) + [q], Code, r)
    ensures r == "" ==> Hides(cls, QuoteMode(q), Doubled(x, q), QuoteMode(q), "")
  {
    var mode := QuoteMode(q);
    if x == "" {
      NothingHidden(cls, Code, r);
      NothingHidden(cls, mode, "");
      assert Doubled(x, q) + [q] == [q] && [q][1..] == "";
      QuoteCloses(cls, q, r);
      assert [q][..1] == [q];
      HiddenStep(cls, mode, [q], 1, Code, Code, r);
    } else {
      InQuotes(cls, q, x[1..], r);
      OneQuoted(cls, q, x, Doubled(x[1..], q) + [q], r);
      var head := if x[0] == q then [q, q] else [x[0]];
      assert Doubled(x, q) + [q] == head + (Doubled(x[1..], q) + [q]);
      hide Hides, Step;
      InQuotesStep(cls, q, head, Doubled(x[1..], q) + [q], Code, r);
      if r == "" {
        OneQuoted(cls, q, x, Doubled(x[1..], q), "");
        InQuotesStep(cls, q, head, Doubled(x[1..], q), mode, "");
      }
    }
  }

  lemma QuoteCloses(cls: Classes, q: char, r: string)
    requires IsQuote(q) && (r != "" ==> r[0] != q)
    ensures Step(cls, QuoteMode(q), [q] + r) == Chunk(1, Code, Hidden([q]))
  {
    var s := [q] + r;
    assert s[..1] == [q] && s[0] == q && (r != "" ==> s[1] == r[0]);
  }

  lemma OneQuoted(cls: Classes, q: char, x: string, rest: string, r: string)
    requires IsQuote(q) && x != ""
    ensures var head := if x[0] == q then [q, q] else [x[0]];
      Step(cls, QuoteMode(q), (head + rest) + r) == Chunk(|head|, QuoteMode(q), Hidden(head))
  {
    var head := if x[0] == q then [q, q] else [x[0]];
    var s := (head + rest) + r;
    assert s[..|head|] == head && s[0] == x[0];
  }

  lemma InQuotesStep(cls: Classes, q: char, head: string, rest: string, after: Mode, r: string)
    requires 1 <= |head| && Step(cls, QuoteMode(q), (head + rest) + r) == Chunk(|head|, QuoteMode(q), Hidden(head))
    requires Hides(cls, QuoteMode(q), rest, after, r)
    ensures Hides(cls, QuoteMode(q), head + rest, after, r)
  {
    assert (head + rest)[..|head|] == head && (head + rest)[|head|..] == rest;
    HiddenStep(cls, QuoteMode(q), head + rest, |head|, QuoteMode(q), after, r);
  }

  lemma QuoteOpens(cls: Classes, q: char, rest: string, r: string)
    requires IsQuote(q)
    ensures Step(cls, Code, ([q] + rest) + r) == Chunk(1, QuoteMode(q), Hidden([q]))
  {
    var s := ([q] + rest) + r;
    assert s[0] == q && s[..1] == [q];
  }

  /** A quoted text, its own quotes doubled, is hidden up to its closing quote. */
  lemma QuotedIsHidden(cls: Classes, q: char, x: string, r: string)
    requires q == '\'' || q == '"'
    requires r != "" ==> r[0] != q
    ensures Blank(cls, Code, Quoted(x, q) + r) == Spaces(|Doubled(x, q)| + 2) + Blank(cls, Code, r)
    ensures forall k: nat :: Translated(cls, Code, Quoted(x, q) + r, k) == Quoted(x, q) + Translated(cls, Code, r, k)
  {
    hide Step, Blank, Translated, Doubled, Spaces;
    InQuotes(cls, q, x, r);
    var rest := Doubled(x, q) + [q];
    QuoteOpens(cls, q, rest, r);
    assert ([q] + rest)[..1] == [q] && ([q] + rest)[1..] == rest;
    HiddenStep(cls, Code, [q] + rest, 1, QuoteMode(q), Code, r);
  }

  /** One that is not closed is hidden to the end of the text. */
  lemma OpenQuoteIsHidden(cls: Classes, q: char, x: string)
    requires q == '\'' || q == '"'
    ensures Blank(cls, Code, [q] + Doubled(x, q)) == Spaces(|Doubled(x, q)| + 1)
    ensures forall k: nat :: Translated(cls, Code, [q] + Doubled(x, q), k) == [q] + Doubled(x, q)
  {
    InQuotes(cls, q, x, "");
    var rest := Doubled(x, q);
    QuoteOpens(cls, q, rest, "");
    hide Step;
    assert ([q] + rest)[..1] == [q] && ([q] + rest)[1..] == rest;
    HiddenStep(cls, Code, [q] + rest, 1, QuoteMode(q), QuoteMode(q), "");
    ToTheEnd(cls, [q] + rest, QuoteMode(q));
  }

  lemma ToTheEnd(cls: Classes, s: string, after: Mode)
    requires Hides(cls, Code, s, after, "")
    ensures Blank(cls, Code, s) == Spaces(|s|)
    ensures forall k: nat :: Translated(cls, Code, s, k) == s
  {
    AlsoEmpty(s);
    assert Spaces(|s|) + "" == Spaces(|s|);
    assert Blank(cls, after, "") == "";
    forall k: nat
      ensures Translated(cls, Code, s, k) == s
    {
      assert Translated(cls, after, "", k) == "";
      assert Translated(cls, Code, s + "", k) == s + Translated(cls, after, "", k);
    }
  }

  // ------------------------------------------------------------------ comments

  lemma {:induction false} InLine(cls: Classes, x: string, r: string)
    requires forall i :: 0 <= i < |x| ==> x[i] != '\n'
    ensures Hides(cls, Line, x, Line, r)
  {
    if x == "" {
      NothingHidden(cls, Line, r);
    } else {
      InLine(cls, x[1..], r);
      assert (x + r)[0] == x[0] && (x + r)[..1] == x[..1];
      HiddenStep(cls, Line, x, 1, Line, Line, r);
    }
  }

  lemma DashesOpen(cls: Classes, x: string, r: string)
    requires forall i :: 0 <= i < |x| ==> x[i] != '\n'
    ensures Hides(cls, Code, "--" + x, Line, r)
  {
    InLine(cls, x, r);
    var s := "--" + x;
    assert (s + r)[..2] == "--" == s[..2] && (s + r)[0] == '-' && (s + r)[1] == '-' && s[2..] == x;
    HiddenStep(cls, Code, s, 2, Line, Line, r);
  }

  /** A comment to the end of its line is hidden; the line end is kept. */
  lemma LineIsHidden(cls: Classes, x: string, r: string)
    requires forall i :: 0 <= i < |x| ==> x[i] != '\n'
    ensures Blank(cls, Code, "--" + x + "\n" + r) == Spaces(|x| + 2) + "\n" + Blank(cls, Code, r)
    ensures forall k: nat ::
      Translated(cls, Code, "--" + x + "\n" + r, k) == "--" + x + "\n" + Translated(cls, Code, r, k)
    ensures Blank(cls, Code, "--" + x) == Spaces(|x| + 2)
    ensures forall k: nat :: Translated(cls, Code, "--" + x, k) == "--" + x
  {
    var s := "--" + x;
    DashesOpen(cls, x, "");
    ToTheEnd(cls, s, Line);
    DashesOpen(cls, x, "\n" + r);
    Associate(s, "\n", r);
    LineEnds(cls, r, 0);
    Associate(Spaces(|s|), "\n", Blank(cls, Code, r));
    forall k: nat
      ensures Translated(cls, Code, s + "\n" + r, k) == s + "\n" + Translated(cls, Code, r, k)
    {
      LineEnds(cls, r, k);
      hide Translated;
      assert Translated(cls, Code, s + ("\n" + r), k) == s + Translated(cls, Line, "\n" + r, k);
      Associate(s, "\n", Translated(cls, Code, r, k));
    }
  }

  lemma LineEnds(cls: Classes, r: string, k: nat)
    ensures Blank(cls, Line, "\n" + r) == "\n" + Blank(cls, Code, r)
    ensures Translated(cls, Line, "\n" + r, k) == "\n" + Translated(cls, Code, r, k)
  {
    assert ("\n" + r)[0] == '\n' && ("\n" + r)[1..] == r;
    assert Step(cls, Line, "\n" + r) == Chunk(1, Code, LineEnd);
  }

  lemma {:induction false} InBlock(cls: Classes, s: string, depth: nat, r: string)
    requires depth >= 1
    ensures CommentEnd(s, depth) == Some(|s|) ==> Hides(cls, Block(depth), s, Code, r)
    ensures CommentEnd(s, depth).None? ==> exists d :: Hides(cls, Block(depth), s, Block(d), "")
    decreases |s|
  {
    if s == "" {
      NothingHidden(cls, Block(depth), "");
    } else {
      var (n, more) :=
        if "/*" <= s then (2, depth + 1) else if "*/" <= s then (2, depth - 1) else (1, depth);
      var rest := CommentEnd(s[n..], more);
      var between := if more == 0 then Code else Block(more);
      if more >= 1 {
        InBlock(cls, s[n..], more, r);
      } else if |s| == n {
        NothingHidden(cls, Code, r);
        assert s[n..] == "";
      }
      if CommentEnd(s, depth) == Some(|s|) {
        BlockStep(cls, s, depth, r);
        HiddenStep(cls, Block(depth), s, n, between, Code, r);
      }
      if CommentEnd(s, depth).None? {
        var d :| Hides(cls, Block(more), s[n..], Block(d), "");
        BlockStep(cls, s, depth, "");
        HiddenStep(cls, Block(depth), s, n, between, Block(d), "");
      }
    }
  }

  lemma BlockStep(cls: Classes, s: string, depth: nat, r: string)
    requires s != "" && depth >= 1
    requires r == "" || CommentEnd(s, depth) == Some(|s|)
    ensures var (n, more) :=
        if "/*" <= s then (2, depth + 1) else if "*/" <= s then (2, depth - 1) else (1, depth);
      n <= |s| && Step(cls, Block(depth), s + r) == Chunk(n, if more == 0 then Code else Block(more), Hidden(s[..n]))
  {
    var t := s + r;
    assert t[0] == s[0] && t[..1] == s[..1];
    if |s| >= 2 {
      assert t[1] == s[1] && t[..2] == s[..2];
      assert ("/*" <= s <==> s[0] == '/' && s[1] == '*') && ("*/" <= s <==> s[0] == '*' && s[1] == '/');
    } else {
      assert s[1..] == "";
      assert CommentEnd(s, depth).None?;
      AlsoEmpty(s);
    }
    hide CommentEnd;
  }

  /** A comment is hidden up to the closing that matches its opening; one that is not closed, to
      the end of the text. */
  lemma BlockIsHidden(cls: Classes, s: string, r: string)
    ensures CommentEnd(s, 1) == Some(|s|) ==>
      && Blank(cls, Code, "/*" + s + r) == Spaces(|s| + 2) + Blank(cls, Code, r)
      && forall k: nat :: Translated(cls, Code, "/*" + s + r, k) == "/*" + s + Translated(cls, Code, r, k)
    ensures CommentEnd(s, 1).None? ==>
      && Blank(cls, Code, "/*" + s) == Spaces(|s| + 2)
      && forall k: nat :: Translated(cls, Code, "/*" + s, k) == "/*" + s
  {
    InBlock(cls, s, 1, r);
    var t := "/*" + s;
    assert t[..2] == "/*" && t[2..] == s;
    if CommentEnd(s, 1) == Some(|s|) {
      BlockOpens(cls, t, r);
      HiddenStep(cls, Code, t, 2, Block(1), Code, r);
    }
    if CommentEnd(s, 1).None? {
      var d :| Hides(cls, Block(1), s, Block(d), "");
      BlockOpens(cls, t, "");
      HiddenStep(cls, Code, t, 2, Block(1), Block(d), "");
      ToTheEnd(cls, t, Block(d));
    }
  }

  lemma BlockOpens(cls: Classes, t: string, r: string)
    requires "/*" <= t
    ensures Step(cls, Code, t + r) == Chunk(2, Block(1), Hidden(t[..2]))
  {
    assert (t + r)[..2] == t[..2] && (t + r)[0] == t[0] == '/' && (t + r)[1] == t[1] == '*';
  }

  /** What is left out of a comment's text when nothing is nested in it. */
  lemma {:induction false} FlatComment(x: string)
    requires forall i :: 0 <= i < |x| ==> !("/*" <= (x + "*/")[i..]) && !("*/" <= (x + "*/")[i..])
    ensures CommentEnd(x + "*/", 1) == Some(|x| + 2)
  {
    var s := x + "*/";
    if x != "" {
      assert s[0..] == s && s[1..] == x[1..] + "*/";
      forall i | 0 <= i < |x[1..]|
        ensures !("/*" <= (x[1..] + "*/")[i..]) && !("*/" <= (x[1..] + "*/")[i..])
      {
        assert (x[1..] + "*/")[i..] == s[i + 1..];
      }
      FlatComment(x[1..]);
    } else {
      assert s == "*/" && s[2..] == "" && s[0] == '*' && CommentEnd("", 0) == Some(0);
      assert !("/*" <= s);
    }
  }

  // ------------------------------------------------------------------ dollar quotes

  lemma {:induction false} InDollar(cls: Classes, tag: Tag, x: string, r: string)
    requires FirstAt(tag, x + tag, |x|)
    ensures Hides(cls, Dollar(tag), x + tag, Code, r)
  {
    var s := x + tag;
    if x == "" {
      NothingHidden(cls, Code, r);
      assert s == tag && tag[..|tag|] == tag && tag[|tag|..] == "" && (tag + r)[..|tag|] == tag && tag <= tag + r;
      HiddenStep(cls, Dollar(tag), tag, |tag|, Code, Code, r);
    } else {
      assert s[0..] == s && s[1..] == x[1..] + tag;
      forall i | 0 <= i < |x[1..]|
        ensures !(tag <= (x[1..] + tag)[i..])
      {
        assert (x[1..] + tag)[i..] == s[i + 1..];
      }
      InDollar(cls, tag, x[1..], r);
      assert !(tag <= s + r) by {
        assert (s + r)[..|tag|] == s[..|tag|];
      }
      assert (s + r)[..1] == s[..1];
      HiddenStep(cls, Dollar(tag), s, 1, Dollar(tag), Code, r);
    }
  }

  lemma {:induction false} InOpenDollar(cls: Classes, tag: Tag, x: string)
    requires FirstAt(tag, x, |x|)
    ensures Hides(cls, Dollar(tag), x, Dollar(tag), "")
  {
    if x == "" {
      NothingHidden(cls, Dollar(tag), "");
    } else {
      assert x[0..] == x;
      forall i | 0 <= i < |x[1..]|
        ensures !(tag <= x[1..][i..])
      {
        assert x[1..][i..] == x[i + 1..];
      }
      InOpenDollar(cls, tag, x[1..]);
      AlsoEmpty(x);
      HiddenStep(cls, Dollar(tag), x, 1, Dollar(tag), Dollar(tag), "");
    }
  }

  lemma TagOpens(cls: Classes, name: string, rest: string, r: string)
    requires ValidClasses(cls) && IsTagName(cls, name)
    ensures var tag := TagNamed(name); Step(cls, Code, (tag + rest) + r) == Chunk(|tag|, Dollar(tag), Hidden(tag))
  {
    var tag := TagNamed(name);
    var s := (tag + rest) + r;
    assert s[0] == '$' && s[|name| + 1] == '$' && s[1..|name| + 1] == name && s[..|name| + 2] == tag;
    TagMeaning(cls, s, |name|);
  }

  /** A dollar quote is hidden up to the next occurrence of its tag. */
  lemma DollarIsHidden(cls: Classes, name: string, x: string, r: string)
    requires ValidClasses(cls) && IsTagName(cls, name)
    requires FirstAt(TagNamed(name), x + TagNamed(name), |x|)
    ensures var quote := TagNamed(name) + (x + TagNamed(name));
      && Blank(cls, Code, quote + r) == Spaces(|x| + 2 * (|name| + 2)) + Blank(cls, Code, r)
      && forall k: nat :: Translated(cls, Code, quote + r, k) == quote + Translated(cls, Code, r, k)
  {
    hide Step, Blank, Translated, IsTagName, FirstAt, ValidClasses, Spaces;
    var tag := TagNamed(name);
    InDollar(cls, tag, x, r);
    TagOpens(cls, name, x + tag, r);
    TagThen(tag, x + tag);
    HiddenStep(cls, Code, tag + (x + tag), |tag|, Dollar(tag), Code, r);
  }

  /** One that is not closed is hidden to the end of the text. */
  lemma OpenDollarIsHidden(cls: Classes, name: string, x: string)
    requires ValidClasses(cls) && IsTagName(cls, name)
    requires FirstAt(TagNamed(name), x, |x|)
    ensures Blank(cls, Code, TagNamed(name) + x) == Spaces(|x| + |name| + 2)
    ensures forall k: nat :: Translated(cls, Code, TagNamed(name) + x, k) == TagNamed(name) + x
  {
    hide Step, Blank, Translated, IsTagName, FirstAt, ValidClasses, Spaces;
    var tag := TagNamed(name);
    InOpenDollar(cls, tag, x);
    TagOpens(cls, name, x, "");
    TagThen(tag, x);
    HiddenStep(cls, Code, tag + x, |tag|, Dollar(tag), Dollar(tag), "");
    ToTheEnd(cls, tag + x, Dollar(tag));
  }

  lemma TagThen(tag: Tag, rest: string)
    ensures (tag + rest)[..|tag|] == tag && (tag + rest)[|tag|..] == rest
  {
  }

  // ------------------------------------------------------------------ code

  /** The character opens neither a literal nor a comment. */
  predicate OpensNothing(cls: Classes, c: char, r: string) {
    && c != '\'' && c != '"'
    && !(c == '-' && r != "" && r[0] == '-')
    && !(c == '/' && r != "" && r[0] == '*')
    && (c == '$' ==> forall n :: 0 <= n < |r| && r[n] == '$' ==> !IsTagName(cls, r[..n]))
  }

  /** Such a character is code: blanking keeps it, and translation copies it, or numbers it if
      it is a mark. */
  lemma CodeIsKept(cls: Classes, c: char, r: string, k: nat)
    requires ValidClasses(cls) && OpensNothing(cls, c, r)
    ensures Blank(cls, Code, [c] + r) == [c] + Blank(cls, Code, r)
    ensures Translated(cls, Code, [c] + r, k) ==
      if c == '?' then "$" + Decimal(k) + Translated(cls, Code, r, k + 1) else [c] + Translated(cls, Code, r, k)
  {
    var s := [c] + r;
    assert s[0] == c && s[1..] == r && (r != "" ==> s[1] == r[0]);
    assert MatchTag(cls, s).None? by {
      if MatchTag(cls, s).Some? {
        NoTagHere(cls, c, r);
      }
    }
    assert Step(cls, Code, s) == Chunk(1, Code, CodeChar(c));
  }

  lemma NoTagHere(cls: Classes, c: char, r: string)
    requires ValidClasses(cls) && OpensNothing(cls, c, r)
    ensures MatchTag(cls, [c] + r).None?
  {
    var s := [c] + r;
    if MatchTag(cls, s).Some? {
      var n := |MatchTag(cls, s).value| - 2;
      assert s[..n + 2] == MatchTag(cls, s).value;
      BehindHead(c, r, n);
      TagMeaning(cls, s, n);
    }
  }

  lemma BehindHead(c: char, r: string, n: nat)
    requires n < |r|
    ensures ([c] + r)[1..n + 1] == r[..n] && ([c] + r)[n + 1] == r[n]
  {
  }
}
