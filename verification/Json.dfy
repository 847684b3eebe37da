/** JSON values as the state file holds them, and Python's order on strings. */
module Json {

  datatype Value =
    | Null
    | Num(n: int)
    | Str(s: string)
    | List(items: seq<Value>)
    | Obj(fields: map<string, Value>)

  type Entry = map<string, Value>
  type State = map<string, Value>

  /** A state file's bytes: cut short, or a document in some layout. Equal bytes are equal
      values; `Canonical` is the layout the commands of this repository write. */
  datatype Layout = Canonical | Foreign(spelling: nat)

  datatype File = Torn | Doc(state: State, layout: Layout)

  // ------------------------------------------------------------------ string order

  /** Lexicographic order by code point. */
  predicate Less(a: string, b: string) {
    if b == "" then false
    else if a == "" then true
    else if a[0] != b[0] then a[0] < b[0]
    else Less(a[1..], b[1..])
  }

  lemma {:induction false} LessIsTotal(a: string, b: string)
    ensures Less(a, b) || a == b || Less(b, a)
    ensures !(Less(a, b) && Less(b, a)) && !Less(a, a)
  {
    if a != "" && b != "" {
      LessIsTotal(a[1..], b[1..]);
      assert a == [a[0]] + a[1..] && b == [b[0]] + b[1..];
      LessIsTotal(a[1..], a[1..]);
    } else if a != "" {
      LessIsTotal(a[1..], a[1..]);
    }
  }

  lemma {:induction false} LessIsTransitive(a: string, b: string, c: string)
    requires Less(a, b) && Less(b, c)
    ensures Less(a, c)
  {
    if a != "" && a[0] == b[0] == c[0] {
      LessIsTransitive(a[1..], b[1..], c[1..]);
    }
  }

  // ------------------------------------------------------------------ sorted sets of strings

  predicate Ascending(s: seq<string>) {
    forall i, j :: 0 <= i < j < |s| ==> Less(s[i], s[j])
  }

  function Elements(s: seq<string>): set<string> {
    set x | x in s
  }

  function Insert(s: seq<string>, x: string): seq<string> {
    if s == [] then [x]
    else if s[0] == x then s
    else if Less(x, s[0]) then [x] + s
    else [s[0]] + Insert(s[1..], x)
  }

  /** `sorted({x for x in items})`. */
  function SortedSet(items: seq<string>): seq<string> {
    if items == [] then [] else Insert(SortedSet(items[1..]), items[0])
  }

  lemma {:induction false} InsertIsSorted(s: seq<string>, x: string)
    requires Ascending(s)
    ensures Ascending(Insert(s, x))
    ensures forall y :: y in Insert(s, x) <==> y in s || y == x
  {
    if s != [] {
      LessIsTotal(x, s[0]);
      if Less(x, s[0]) {
        forall j | 0 <= j < |s|
          ensures Less(x, s[j])
        {
          if j > 0 {
            LessIsTransitive(x, s[0], s[j]);
          }
        }
      } else if s[0] != x {
        InsertIsSorted(s[1..], x);
        var rest := Insert(s[1..], x);
        forall j | 0 <= j < |rest|
          ensures Less(s[0], rest[j])
        {
          assert rest[j] in rest;
        }
        assert s == [s[0]] + s[1..];
      }
    }
  }

  lemma {:induction false} SortedSetIsSorted(items: seq<string>)
    ensures Ascending(SortedSet(items))
    ensures forall y :: y in SortedSet(items) <==> y in items
  {
    if items != [] {
      SortedSetIsSorted(items[1..]);
      InsertIsSorted(SortedSet(items[1..]), items[0]);
      assert items == [items[0]] + items[1..];
    }
  }

  /** An ascending list is determined by its elements. */
  lemma {:induction false} AscendingIsUnique(a: seq<string>, b: seq<string>)
    requires Ascending(a) && Ascending(b) && forall y :: y in a <==> y in b
    ensures a == b
  {
    assert b == [] || b[0] in b;
    if a != [] {
      assert a[0] in b;
      if a[0] != b[0] {
        FirstIsLeast(a, b[0]);
        FirstIsLeast(b, a[0]);
        LessIsTotal(a[0], b[0]);
      }
      forall y
        ensures y in a[1..] <==> y in b[1..]
      {
        TailElements(a, y);
        TailElements(b, y);
      }
      AscendingIsUnique(a[1..], b[1..]);
      assert a == [a[0]] + a[1..] && b == [b[0]] + b[1..];
    }
  }

  lemma FirstIsLeast(a: seq<string>, x: string)
    requires a != [] && Ascending(a) && x in a && x != a[0]
    ensures Less(a[0], x)
  {
  }

  lemma TailElements(a: seq<string>, y: string)
    requires a != [] && Ascending(a)
    ensures y in a[1..] <==> y in a && y != a[0]
  {
    LessIsTotal(a[0], a[0]);
    assert a == [a[0]] + a[1..];
  }

  lemma SortedSetOfSorted(items: seq<string>)
    requires Ascending(items)
    ensures SortedSet(items) == items
  {
    SortedSetIsSorted(items);
    AscendingIsUnique(SortedSet(items), items);
  }

  /** `max(items) if items else ""`. */
  function MaxOr(items: seq<string>): string {
    if items == [] then ""
    else
      var rest := MaxOr(items[1..]);
      if Less(rest, items[0]) then items[0] else rest
  }

  lemma {:induction false} MaxIsGreatest(items: seq<string>)
    requires items != [] && "" !in items
    ensures MaxOr(items) in items
    ensures forall y :: y in items ==> y == MaxOr(items) || Less(y, MaxOr(items))
  {
    var rest := items[1..];
    assert items == [items[0]] + rest;
    if rest == [] {
      LessIsTotal("", items[0]);
    } else {
      MaxIsGreatest(rest);
      LessIsTotal(MaxOr(rest), items[0]);
      forall y | y in items
        ensures y == MaxOr(items) || Less(y, MaxOr(items))
      {
        if y in rest && y != MaxOr(rest) && Less(MaxOr(rest), items[0]) {
          LessIsTransitive(y, MaxOr(rest), items[0]);
        }
      }
    }
  }
}
