/** The classifier on raw text: what it answers on every statement whose literals and comments,
    blanked, leave a printed one. */
module CteAnswers {
  import opened Common
  import opened CteClassifier
  import opened CtePrinter
  import L = SqlLexer

  predicate IsVerb(s: string) {
    "insert" <= s || "update" <= s || "delete" <= s || "merge" <= s
  }

  /** A body starts, white space apart, with a verb that changes data. */
  ghost predicate WritesFirst(l: Letters, body: string) {
    exists n :: 0 <= n <= |body| && AllSpace(l, body[..n]) && IsVerb(body[n..])
  }

  lemma WritesFirstIsModifies(l: Letters, body: string)
    requires ValidLetters(l)
    ensures Modifies(l, body) <==> WritesFirst(l, body)
  {
    var rest := SkipSpace(l, body);
    var n := |body| - |rest|;
    SpaceSkipped(l, body);
    VerbsAreStarts(rest);
    hide StartsWith, AllSpace, SkipSpace;
    if Modifies(l, body) {
      assert AllSpace(l, body[..n]) && body[n..] == rest && IsVerb(rest);
    }
    if WritesFirst(l, body) {
      var m :| 0 <= m <= |body| && AllSpace(l, body[..m]) && IsVerb(body[m..]);
      VerbIsWord(l, body[m..]);
      assert body == body[..m] + body[m..];
      SpaceOver(l, body[..m], body[m..]);
    }
  }

  lemma VerbsAreStarts(s: string)
    ensures IsVerb(s) <==>
      StartsWith(s, "insert") || StartsWith(s, "update") || StartsWith(s, "delete") || StartsWith(s, "merge")
  {
    assert forall v: string :: v <= s <==> StartsWith(s, v);
  }

  lemma VerbIsWord(l: Letters, s: string)
    requires ValidLetters(l) && IsVerb(s)
    ensures s != "" && !l.space(s[0])
  {
    assert s[0] == 'i' || s[0] == 'u' || s[0] == 'd' || s[0] == 'm';
    assert l.word(s[0]);
  }

  lemma {:induction false} SpaceSkipped(l: Letters, s: string)
    ensures var n := |s| - |SkipSpace(l, s)|; AllSpace(l, s[..n]) && s[n..] == SkipSpace(l, s)
  {
    if s != "" && l.space(s[0]) {
      SpaceSkipped(l, s[1..]);
      var n := |s| - |SkipSpace(l, s)|;
      assert s[..n] == [s[0]] + s[1..][..n - 1];
    }
  }

  /** So the function decides every text whose literals and comments, blanked, leave a printed
      statement in whatever case: what they hold does not matter. */
  lemma RawAnswer(cls: L.Classes, l: Letters, lower: string -> string, sql: string,
                  lead: string, gap: string, recursive: Option<string>, ctes: seq<Cte>, tail: string)
    requires ValidLetters(l) && ValidList(l, ctes) && Ends(l, tail)
    requires AllSpace(l, lead) && AllSpace(l, gap) && (recursive.Some? ==> AllSpace(l, recursive.value))
    requires lower(L.Blank(cls, L.Code, sql)) == PrintStatement(lead, gap, recursive, ctes, tail)
    ensures recursive.None? && ctes[0].name == "recursive" ==>
      (Classify(l, lower(L.Blank(cls, L.Code, sql))) <==> ReservedAnswer(l, ctes, tail))
    ensures recursive.Some? || ctes[0].name != "recursive" ==>
      (Classify(l, lower(L.Blank(cls, L.Code, sql))) <==>
        exists k :: 0 <= k < |ctes| && WritesFirst(l, ctes[k].body) && OneSpace(ctes, k))
  {
    StatementAnswer(l, lead, gap, recursive, ctes, tail);
    hide Classify, PrintStatement, Modifies, WritesFirst;
    forall k | 0 <= k < |ctes|
      ensures Modifies(l, ctes[k].body) <==> WritesFirst(l, ctes[k].body)
    {
      WritesFirstIsModifies(l, ctes[k].body);
    }
    if k :| 0 <= k < |ctes| && WritesFirst(l, ctes[k].body) && OneSpace(ctes, k) {
      assert ReadableTo(ctes, k);
    }
  }

  /** Every NOT MATERIALIZED up to the `k`th expression is written with a single space. */
  predicate OneSpace(ctes: seq<Cte>, k: nat)
    requires k < |ctes|
  {
    forall j :: 0 <= j <= k && ctes[j].mark.NotMaterialized? ==> ctes[j].mark.inner == " "
  }
}
