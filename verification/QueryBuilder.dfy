/** The fluent query builder, which prints conditions and joins queries with AND. */
module QueryBuilder {
  import opened Utf8
  import opened QueryReader
  import opened QueryGrammar
  import opened QueryJoin

  // ---- Printing ------------------------------------------------------------------------------

  function DigitChar(d: nat): char
    requires d < 10
  {
    '0' + d as char
  }

  function Decimal(n: nat): string {
    if n < 10 then [DigitChar(n)] else Decimal(n / 10) + [DigitChar(n % 10)]
  }

  function FormatInt(n: int): string {
    if n < 0 then "-" + Decimal(-n) else Decimal(n)
  }

  /** Strings and integers; other operands print through library code. */
  predicate Prints(x: Operand) {
    x.Str? || x.Int?
  }

  function OperandText(x: Operand): string
    requires Prints(x)
  {
    match x
    case Str(s) => "'" + s + "'"
    case Int(n) => FormatInt(n)
  }

  function OperatorText(op: Operator): string {
    match op
    case OpLessEqual => "<="
    case OpGreaterEqual => ">="
    case OpLess => "<"
    case OpGreater => ">"
    case OpEqual => "="
    case OpContains => "CONTAINS"
  }

  function CondText(c: Cond): string
    requires Prints(c.operand)
  {
    c.tag + " " + OperatorText(c.op) + " " + OperandText(c.operand)
  }

  predicate AllPrint(cs: seq<Cond>) {
    forall i :: 0 <= i < |cs| ==> Prints(cs[i].operand)
  }

  /** The text of a conjunction. */
  function Print(cs: seq<Cond>): string
    requires AllPrint(cs)
  {
    var n := |cs| - 1;
    if n < 0 then "" else if n == 0 then CondText(cs[0]) else Joined(Print(cs[..n]), CondText(cs[n]))
  }

  // ---- The builder ---------------------------------------------------------------------------

  predicate IsEmpty(q: string) {
    q == "" || q == "empty"
  }

  function And1(base: string, q: string): string {
    if IsEmpty(q) then base else if base == "" then q else Joined(base, q)
  }

  function Conjunction(base: string, queries: seq<string>): string
    decreases |queries|
  {
    if queries == [] then base else Conjunction(And1(base, queries[0]), queries[1..])
  }

  lemma {:induction false} ConjunctionStep(base: string, queries: seq<string>, i: nat)
    requires i <= |queries|
    ensures Conjunction(base, queries[i..]) ==
            if i == |queries| then base else Conjunction(And1(base, queries[i]), queries[i + 1..])
  {
    hide And1;
    if i < |queries| {
      assert queries[i..][1..] == queries[i + 1..];
    }
  }

  /** A query that lists in full what it says. */
  ghost predicate Readable(lib: Library, q: string) {
    Parseable(q) && Ascii(q) && !Listing(lib, q).bad
  }

  /** The conditions of all queries but those that are empty or called so. */
  ghost function ListAll(lib: Library, queries: seq<string>): seq<Cond> {
    if queries == [] then []
    else if queries[0] == "" || queries[0] == "empty" then ListAll(lib, queries[1..])
    else Listing(lib, queries[0]).out + ListAll(lib, queries[1..])
  }

  predicate AllEmpty(queries: seq<string>) {
    forall i :: 0 <= i < |queries| ==> queries[i] == "" || queries[i] == "empty"
  }

  lemma {:induction false} ParseableProper(q: string)
    requires Parseable(q)
    ensures q != ""
  {
    hide Parse;
    StartsSolid(q);
  }

  lemma {:induction false} OneMoreQuery(lib: Library, base: string, q: string)
    requires (base == "" || Readable(lib, base)) && Readable(lib, q) && q != "empty"
    ensures var c := And1(base, q);
            && c != "" && Readable(lib, c)
            && Listing(lib, c).out == (if base == "" then [] else Listing(lib, base).out) + Listing(lib, q).out
  {
    hide Parseable, Listing;
    ParseableProper(q);
    if base != "" {
      JoinLists(lib, base, q);
    }
  }

  /** A builder made from queries lists their conditions one after the other, and is empty when they all are. */
  lemma {:induction false} ConjunctionLists(lib: Library, base: string, queries: seq<string>)
    requires base == "" || Readable(lib, base)
    requires forall q :: q in queries ==> q == "" || q == "empty" || Readable(lib, q)
    ensures var c := Conjunction(base, queries);
            && (c == "" <==> base == "" && AllEmpty(queries))
            && (c != "" ==>
                  && Readable(lib, c)
                  && Listing(lib, c).out == (if base == "" then [] else Listing(lib, base).out) + ListAll(lib, queries))
    decreases |queries|
  {
    hide And1, Readable, Listing;
    if queries != [] {
      var q, rest := queries[0], queries[1..];
      assert queries == [q] + rest;
      assert AllEmpty(queries) <==> (q == "" || q == "empty") && AllEmpty(rest);
      if q == "" || q == "empty" {
        SkipsEmpty(base, q);
        ConjunctionLists(lib, base, rest);
      } else {
        OneMoreQuery(lib, base, q);
        ConjunctionLists(lib, And1(base, q), rest);
      }
    }
  }

  lemma {:induction false} SkipsEmpty(base: string, q: string)
    requires q == "" || q == "empty"
    ensures And1(base, q) == base
  {
  }

  class Builder {
    var queryString: string
    /** Written to while a query is put together, and emptied afterwards. */
    var buffer: string

    ghost predicate Valid()
      reads this
    {
      buffer == ""
    }

    constructor (queries: seq<string>)
      ensures Valid() && queryString == Conjunction("", queries)
    {
      queryString, buffer := "", "";
      new;
      var q := Joining(queries);
      queryString := q;
    }

    method Joining(queries: seq<string>) returns (r: string)
      requires Valid()
      modifies this`buffer
      ensures Valid() && r == Conjunction(queryString, queries)
    {
      hide And1, Conjunction;
      buffer := buffer + queryString;
      assert queries[0..] == queries && buffer == queryString;
      for i := 0 to |queries|
        invariant Conjunction(buffer, queries[i..]) == Conjunction(queryString, queries)
      {
        ConjunctionStep(buffer, queries, i);
        Add(queries[i]);
      }
      ConjunctionStep(buffer, queries, |queries|);
      r := buffer;
      buffer := "";
    }

    /** Write one more query after what is already there. */
    method Add(q: string)
      modifies this`buffer
      ensures buffer == And1(old(buffer), q)
    {
      if !IsEmpty(q) {
        if |buffer| > 0 {
          buffer := buffer + " ";
          buffer := buffer + "AND";
          buffer := buffer + " ";
          assert buffer == old(buffer) + AND_TEXT;
        }
        buffer := buffer + q;
      }
    }

    method ConditionString(c: Cond) returns (r: string)
      requires Valid() && Prints(c.operand)
      modifies this`buffer
      ensures Valid() && r == CondText(c)
    {
      buffer := buffer + c.tag + " ";
      buffer := buffer + OperatorText(c.op) + " ";
      buffer := buffer + OperandText(c.operand);
      r := buffer;
      buffer := "";
    }

    /** AndEquals, AndContains and the four orderings, which differ in the operator only. */
    method AndCondition(c: Cond) returns (b: Builder)
      requires Valid() && Prints(c.operand)
      modifies this`buffer
      ensures Valid() && fresh(b) && b.Valid() && b.queryString != ""
      ensures b.queryString == if queryString == "" then CondText(c) else Joined(queryString, CondText(c))
    {
      var text := ConditionString(c);
      var both := Joining([text]);
      b := new Builder([both]);
      CondTextProper(c);
      assert [text][1..] == [] && [both][1..] == [];
      assert Conjunction(queryString, [text]) == And1(queryString, text) == both;
      assert Conjunction("", [both]) == And1("", both) == b.queryString;
      BlankInside(both);
    }
  }

  lemma {:induction false} BlankInside(q: string)
    requires ' ' in q
    ensures !IsEmpty(q)
  {
  }

  /** A condition's text is never mistaken for an empty query. */
  lemma {:induction false} CondTextProper(c: Cond)
    requires Prints(c.operand)
    ensures ' ' in CondText(c) && !IsEmpty(CondText(c))
  {
    assert CondText(c)[|c.tag|] == ' ';
    BlankInside(CondText(c));
  }

  lemma {:induction false} PrintNext(cs: seq<Cond>, i: nat)
    requires AllPrint(cs) && i < |cs|
    ensures Print(cs[..i + 1])
            == if i == 0 then CondText(cs[0]) else Joined(Print(cs[..i]), CondText(cs[i]))
  {
    hide CondText, Joined;
    assert cs[..i + 1][..i] == cs[..i] && cs[..i + 1][i] == cs[i];
  }

  /** Adding conditions one by one prints their conjunction. */
  method Build(cs: seq<Cond>) returns (b: Builder)
    requires AllPrint(cs)
    ensures fresh(b) && b.Valid() && b.queryString == Print(cs)
  {
    hide CondText, Joined, Print;
    b := new Builder([]);
    PrintNothing(cs);
    var i := 0;
    while i < |cs|
      invariant i <= |cs| && fresh(b) && b.Valid() && b.queryString == Print(cs[..i])
      invariant i > 0 ==> b.queryString != ""
    {
      PrintNext(cs, i);
      b := b.AndCondition(cs[i]);
      i := i + 1;
    }
    assert cs[..i] == cs;
  }

  lemma {:induction false} PrintNothing(cs: seq<Cond>)
    requires AllPrint(cs)
    ensures Print(cs[..0]) == ""
  {
  }
}
