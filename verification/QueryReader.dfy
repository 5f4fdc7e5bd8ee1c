/**
  A parsed query as its tokens: listing its conditions and matching them against tags. Tokens
  count the characters of the text, but the text `t` they are cut from here is its bytes.
 */
module QueryReader {
  import opened WordSizes
  import opened Options
  import opened QueryGrammar

  datatype Operator = OpLessEqual | OpGreaterEqual | OpLess | OpGreater | OpEqual | OpContains

  /** Floats, times and dates are known by the text they were written as. */
  datatype Operand =
    | Str(s: string)
    | Int(n: int)
    | Float(text: string)
    | Instant(text: string)
    | CalendarDay(text: string)

  datatype Cond = Cond(tag: string, op: Operator, operand: Operand)

  /** Which texts the library's float, time and date parsers accept. */
  datatype Library = Library(floats: string -> bool, times: string -> bool, dates: string -> bool)

  datatype Verdict = Holds | Fails | Panics

  // ---- Decimal numbers ---------------------------------------------------------------------

  predicate IsDigit(c: char) {
    '0' <= c <= '9'
  }

  function DigitValue(c: char): nat
    requires IsDigit(c)
  {
    c as int - '0' as int
  }

  predicate AllDigits(s: string) {
    forall i :: 0 <= i < |s| ==> IsDigit(s[i])
  }

  function DecimalValue(s: string): (n: int)
    requires AllDigits(s)
    ensures n >= 0
  {
    if s == [] then 0 else 10 * DecimalValue(s[..|s| - 1]) + DigitValue(s[|s| - 1])
  }

  // ---- Operands ----------------------------------------------------------------------------

  /** A decimal number with an optional sign, if it fits 64 bits. */
  function ParseInt(text: string): (r: Option<int>)
    ensures r.Some? ==> -INT64_LIMIT <= r.value < INT64_LIMIT
  {
    var signed := text != "" && (text[0] == '-' || text[0] == '+');
    var digits := if signed then text[1..] else text;
    if digits == "" || !AllDigits(digits) then None else
    var n := if signed && text[0] == '-' then -DecimalValue(digits) else DecimalValue(digits);
    if -INT64_LIMIT <= n < INT64_LIMIT then Some(n) else None
  }

  function ReadNumber(lib: Library, text: string): Option<Operand> {
    if '.' in text then (if lib.floats(text) then Some(Float(text)) else None)
    else match ParseInt(text) case Some(n) => Some(Int(n)) case None => None
  }

  /** The operand a token of rule `kind` stands for, when the text last marked is `text`. */
  function ReadOperand(lib: Library, kind: Rule, text: string): Option<Operand> {
    match kind
    case Value => if |text| >= 2 then Some(Str(text[1..|text| - 1])) else None
    case Number => ReadNumber(lib, text)
    case Time => if lib.times(text) then Some(Instant(text)) else None
    case Date => if lib.dates(text) then Some(CalendarDay(text)) else None
    case _ => None
  }

  predicate IsOperand(rule: Rule) {
    rule == Value || rule == Number || rule == Time || rule == Date
  }

  predicate IsOperator(rule: Rule) {
    rule == Le || rule == Ge || rule == L || rule == G || rule == Equal || rule == Contains
  }

  function OperatorOf(rule: Rule): Operator
    requires IsOperator(rule)
  {
    match rule
    case Le => OpLessEqual
    case Ge => OpGreaterEqual
    case L => OpLess
    case G => OpGreater
    case Equal => OpEqual
    case Contains => OpContains
  }

  // ---- The walk over the tokens ------------------------------------------------------------

  /** `bad` once a slice or a conversion has panicked. */
  datatype Reading = Reading(begin: nat, end: nat, tag: string, op: Operator, out: seq<Cond>, bad: bool)

  const START := Reading(0, 0, "", OpLessEqual, [], false)

  function Step(lib: Library, t: string, st: Reading, token: Token): Reading {
    if st.bad then st
    else if token.rule == PegText then st.(begin := token.begin, end := token.end)
    else if IsOperator(token.rule) then st.(op := OperatorOf(token.rule))
    else if token.rule != Tag && !IsOperand(token.rule) then st
    else if !(st.begin <= st.end <= |t|) then st.(bad := true)
    else if token.rule == Tag then st.(tag := t[st.begin..st.end])
    else
      match ReadOperand(lib, token.rule, t[st.begin..st.end])
      case None => st.(bad := true)
      case Some(x) => st.(out := st.out + [Cond(st.tag, st.op, x)])
  }

  function Fold(lib: Library, t: string, st: Reading, tokens: seq<Token>): Reading
    decreases |tokens|
  {
    if tokens == [] then st else Fold(lib, t, Step(lib, t, st, tokens[0]), tokens[1..])
  }

  lemma {:induction false} FoldAppend(lib: Library, t: string, st: Reading, a: seq<Token>, b: seq<Token>)
    ensures Fold(lib, t, st, a + b) == Fold(lib, t, Fold(lib, t, st, a), b)
    decreases |a|
  {
    hide Step;
    if a == [] {
      assert a + b == b;
    } else {
      assert (a + b)[1..] == a[1..] + b;
      FoldAppend(lib, t, Step(lib, t, st, a[0]), a[1..], b);
    }
  }

  /** Conditions are only ever added, and nothing is after a panic. */
  lemma {:induction false} FoldGrows(lib: Library, t: string, st: Reading, tokens: seq<Token>)
    ensures st.out <= Fold(lib, t, st, tokens).out
    ensures st.bad ==> Fold(lib, t, st, tokens) == st
    decreases |tokens|
  {
    if tokens != [] {
      FoldGrows(lib, t, Step(lib, t, st, tokens[0]), tokens[1..]);
    }
  }

  /** What Conditions lists up to a panic, and whether it panics. */
  function ReadTokens(lib: Library, t: string, tokens: seq<Token>): Reading {
    Fold(lib, t, START, tokens)
  }

  method Conditions(lib: Library, t: string, tokens: seq<Token>) returns (r: Option<seq<Cond>>)
    ensures var st := ReadTokens(lib, t, tokens); r == if st.bad then None else Some(st.out)
  {
    var out: seq<Cond> := [];
    var begin: nat, end: nat := 0, 0;
    var tag, op := "", OpLessEqual;
    var i := 0;
    while i < |tokens|
      invariant i <= |tokens|
      invariant Fold(lib, t, Reading(begin, end, tag, op, out, false), tokens[i..]) == ReadTokens(lib, t, tokens)
    {
      var token := tokens[i];
      ghost var st := Reading(begin, end, tag, op, out, false);
      assert tokens[i..][0] == token && tokens[i..][1..] == tokens[i + 1..];
      FoldGrows(lib, t, Step(lib, t, st, token), tokens[i + 1..]);
      if token.rule == PegText {
        begin, end := token.begin, token.end;
      } else if IsOperator(token.rule) {
        op := OperatorOf(token.rule);
      } else if token.rule == Tag || IsOperand(token.rule) {
        if !(begin <= end <= |t|) {
          return None;
        }
        if token.rule == Tag {
          tag := t[begin..end];
        } else {
          var operand := ReadOperand(lib, token.rule, t[begin..end]);
          if operand.None? {
            return None;
          }
          out := out + [Cond(tag, op, operand.value)];
        }
      }
      i := i + 1;
    }
    r := Some(out);
  }

  // ---- Matching ----------------------------------------------------------------------------

  /** Conditions in order, up to the first that does not hold. */
  function All(meets: Cond -> Verdict, cs: seq<Cond>): Verdict {
    if cs == [] then Holds
    else if meets(cs[0]) != Holds then meets(cs[0])
    else All(meets, cs[1..])
  }

  lemma {:induction false} AllAppend(meets: Cond -> Verdict, a: seq<Cond>, b: seq<Cond>)
    ensures All(meets, a + b) == if All(meets, a) == Holds then All(meets, b) else All(meets, a)
    decreases |a|
  {
    if a == [] {
      assert a + b == b;
    } else {
      assert (a + b)[1..] == a[1..] + b;
      AllAppend(meets, a[1..], b);
    }
  }

  /** With no panic in sight, every condition is asked for. */
  lemma {:induction false} AllMeaning(meets: Cond -> Verdict, cs: seq<Cond>)
    requires forall i :: 0 <= i < |cs| ==> meets(cs[i]) != Panics
    ensures All(meets, cs) == if forall i :: 0 <= i < |cs| ==> meets(cs[i]) == Holds then Holds else Fails
    decreases |cs|
  {
    if cs != [] {
      assert forall i :: 0 <= i < |cs| - 1 ==> cs[1..][i] == cs[i + 1];
      AllMeaning(meets, cs[1..]);
      if meets(cs[0]) == Holds {
        assert (forall i :: 0 <= i < |cs| ==> meets(cs[i]) == Holds)
            <==> (forall i :: 0 <= i < |cs[1..]| ==> meets(cs[1..][i]) == Holds) by {
          if forall i :: 0 <= i < |cs[1..]| ==> meets(cs[1..][i]) == Holds {
            forall i | 0 <= i < |cs| ensures meets(cs[i]) == Holds {
              assert i > 0 ==> cs[1..][i - 1] == cs[i];
            }
          }
        }
      }
    }
  }

  /** What Matches answers for tokens read from `st` on. */
  function MatchFrom(lib: Library, meets: Cond -> Verdict, t: string, st: Reading, tokens: seq<Token>): Verdict
    decreases |tokens|
  {
    if tokens == [] then Holds else
    var next := Step(lib, t, st, tokens[0]);
    if next.bad then Panics
    else if |next.out| > |st.out| && meets(next.out[|st.out|]) != Holds then meets(next.out[|st.out|])
    else MatchFrom(lib, meets, t, next, tokens[1..])
  }

  lemma {:induction false} MatchIsAll(lib: Library, meets: Cond -> Verdict, t: string, st: Reading, tokens: seq<Token>)
    requires !st.bad
    ensures var end := Fold(lib, t, st, tokens);
            st.out <= end.out &&
            var v := All(meets, end.out[|st.out|..]);
            MatchFrom(lib, meets, t, st, tokens) == if v != Holds then v else if end.bad then Panics else Holds
    decreases |tokens|
  {
    FoldGrows(lib, t, st, tokens);
    if tokens != [] {
      var next := Step(lib, t, st, tokens[0]);
      var end := Fold(lib, t, st, tokens);
      FoldGrows(lib, t, next, tokens[1..]);
      if !next.bad {
        MatchIsAll(lib, meets, t, next, tokens[1..]);
        if |next.out| > |st.out| {
          assert end.out[|st.out|..][0] == next.out[|st.out|];
          assert end.out[|st.out|..][1..] == end.out[|next.out|..];
        }
      }
    }
  }

  method Matches(lib: Library, meets: Cond -> Verdict, tagCount: nat, t: string, tokens: seq<Token>) returns (v: Verdict)
    ensures v == if tagCount == 0 then Fails else MatchFrom(lib, meets, t, START, tokens)
  {
    if tagCount == 0 {
      return Fails;
    }
    var begin: nat, end: nat := 0, 0;
    var tag, op := "", OpLessEqual;
    ghost var out: seq<Cond> := [];
    var i := 0;
    while i < |tokens|
      invariant i <= |tokens|
      invariant MatchFrom(lib, meets, t, Reading(begin, end, tag, op, out, false), tokens[i..])
             == MatchFrom(lib, meets, t, START, tokens)
    {
      var token := tokens[i];
      assert tokens[i..][0] == token && tokens[i..][1..] == tokens[i + 1..];
      if token.rule == PegText {
        begin, end := token.begin, token.end;
      } else if IsOperator(token.rule) {
        op := OperatorOf(token.rule);
      } else if token.rule == Tag || IsOperand(token.rule) {
        if !(begin <= end <= |t|) {
          return Panics;
        }
        if token.rule == Tag {
          tag := t[begin..end];
        } else {
          var operand := ReadOperand(lib, token.rule, t[begin..end]);
          if operand.None? {
            return Panics;
          }
          var c := Cond(tag, op, operand.value);
          if meets(c) != Holds {
            return meets(c);
          }
          out := out + [c];
        }
      }
      i := i + 1;
    }
    v := Holds;
  }
}
