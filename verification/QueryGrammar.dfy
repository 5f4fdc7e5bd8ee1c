/**
  The query grammar as ordered choices and greedy repetitions. A rule takes what has been matched
  so far and goes on from there; having failed already, it fails.
 */
module QueryGrammar {

  datatype Rule =
    | Unknown | E | Condition | Tag | Value | Number | Digit | Time | Date | Year | Month | Day
    | And | Equal | Contains | Le | Ge | L | G | PegText

  datatype Token = Token(rule: Rule, begin: nat, end: nat)

  datatype Outcome =
    | Fail
    | Match(pos: nat, tokens: seq<Token>)

  /** `o` goes on from `r` inside `t`. */
  ghost predicate Follows(t: string, r: Outcome, o: Outcome) {
    o.Match? ==> r.Match? && r.pos <= o.pos && (r.pos <= |t| ==> o.pos <= |t|)
  }

  function Pos(r: Outcome): nat {
    if r.Match? then r.pos else 0
  }

  predicate Sees(t: string, r: Outcome, chars: string) {
    r.Match? && r.pos < |t| && t[r.pos] in chars
  }

  predicate SeesDigit(t: string, r: Outcome) {
    r.Match? && r.pos < |t| && '0' <= t[r.pos] <= '9'
  }

  function Advance(r: Outcome): Outcome
    requires r.Match?
  {
    Match(r.pos + 1, r.tokens)
  }

  /** One of `chars`. */
  function Chr(t: string, r: Outcome, chars: string): (o: Outcome)
    ensures Follows(t, r, o) && (o.Match? ==> r.pos < o.pos)
    ensures o.Match? ==> Sees(t, r, chars)
  {
    if Sees(t, r, chars) then Advance(r) else Fail
  }

  function Mark(rule: Rule, begin: nat, r: Outcome): (o: Outcome)
    ensures o.Match? <==> r.Match?
    ensures o.Match? ==> o.pos == r.pos
  {
    if r.Match? then Match(r.pos, r.tokens + [Token(rule, begin, r.pos)]) else Fail
  }

  function Or(a: Outcome, b: Outcome): Outcome {
    if a.Match? then a else b
  }

  function Blank(t: string, r: Outcome): (o: Outcome)
    ensures Follows(t, r, o) && (r.Match? ==> o.Match?)
    decreases |t| - Pos(r)
  {
    if Sees(t, r, " ") then Blank(t, Advance(r)) else r
  }

  /** At least one blank. */
  function Gap(t: string, r: Outcome): (o: Outcome)
    ensures Follows(t, r, o) && (o.Match? ==> r.pos < o.pos)
  {
    Blank(t, Chr(t, r, " "))
  }

  // ---- Operands ----------------------------------------------------------------------------

  function Dig(t: string, r: Outcome): (o: Outcome)
    ensures Follows(t, r, o) && (o.Match? ==> r.pos < o.pos)
  {
    if SeesDigit(t, r) then Mark(Digit, r.pos, Advance(r)) else Fail
  }

  function Digits(t: string, r: Outcome): (o: Outcome)
    ensures Follows(t, r, o) && (r.Match? ==> o.Match?)
    decreases |t| - Pos(r)
  {
    if SeesDigit(t, r) then Digits(t, Dig(t, r)) else r
  }

  function Fraction(t: string, r: Outcome): (o: Outcome)
    ensures Follows(t, r, o)
  {
    Or(Digits(t, Chr(t, r, ".")), r)
  }

  function Numeral(t: string, r: Outcome): (o: Outcome)
    ensures Follows(t, r, o) && (o.Match? ==> r.pos < o.pos)
    ensures o.Match? ==> SeesDigit(t, r)
  {
    Or(Chr(t, r, "0"), Fraction(t, Digits(t, Chr(t, r, "123456789"))))
  }

  function NumberRule(t: string, r: Outcome): (o: Outcome)
    ensures Follows(t, r, o) && (o.Match? ==> r.pos < o.pos)
    ensures o.Match? ==> SeesDigit(t, r)
  {
    Mark(Number, Pos(r), Mark(PegText, Pos(r), Numeral(t, r)))
  }

  function Unquoted(t: string, r: Outcome): (o: Outcome)
    ensures Follows(t, r, o) && (r.Match? ==> o.Match?)
    decreases |t| - Pos(r)
  {
    if r.Match? && r.pos < |t| && !Sees(t, r, "\"'") then Unquoted(t, Advance(r)) else r
  }

  function Quoted(t: string, r: Outcome): (o: Outcome)
    ensures Follows(t, r, o) && (o.Match? ==> r.pos < o.pos)
    ensures o.Match? ==> Sees(t, r, "'")
  {
    Chr(t, Unquoted(t, Chr(t, r, "'")), "'")
  }

  function ValueRule(t: string, r: Outcome): (o: Outcome)
    ensures Follows(t, r, o) && (o.Match? ==> r.pos < o.pos)
    ensures o.Match? ==> Sees(t, r, "'")
  {
    Mark(Value, Pos(r), Mark(PegText, Pos(r), Quoted(t, r)))
  }

  function YearRule(t: string, r: Outcome): (o: Outcome)
    ensures Follows(t, r, o)
  {
    Mark(Year, Pos(r), Dig(t, Dig(t, Dig(t, Chr(t, r, "12")))))
  }

  function MonthRule(t: string, r: Outcome): (o: Outcome)
    ensures Follows(t, r, o)
  {
    Mark(Month, Pos(r), Dig(t, Chr(t, r, "01")))
  }

  function DayRule(t: string, r: Outcome): (o: Outcome)
    ensures Follows(t, r, o)
  {
    Mark(Day, Pos(r), Dig(t, Chr(t, r, "0123")))
  }

  function Calendar(t: string, r: Outcome): (o: Outcome)
    ensures Follows(t, r, o)
  {
    DayRule(t, Chr(t, MonthRule(t, Chr(t, YearRule(t, r), "-")), "-"))
  }

  function TwoDigits(t: string, r: Outcome): (o: Outcome)
    ensures Follows(t, r, o)
  {
    Dig(t, Dig(t, r))
  }

  function Clock(t: string, r: Outcome): (o: Outcome)
    ensures Follows(t, r, o)
  {
    TwoDigits(t, Chr(t, TwoDigits(t, Chr(t, TwoDigits(t, Chr(t, r, "T")), ":")), ":"))
  }

  function Offset(t: string, r: Outcome): (o: Outcome)
    ensures Follows(t, r, o)
  {
    TwoDigits(t, Chr(t, TwoDigits(t, Chr(t, r, "-+")), ":"))
  }

  function Zone(t: string, r: Outcome): (o: Outcome)
    ensures Follows(t, r, o)
  {
    Or(Offset(t, r), Chr(t, r, "Z"))
  }

  function TimeWord(t: string, r: Outcome): (o: Outcome)
    ensures Follows(t, r, o) && (o.Match? ==> r.pos < o.pos)
    ensures o.Match? ==> Sees(t, r, "tT")
  {
    Chr(t, Chr(t, Chr(t, Chr(t, Chr(t, r, "tT"), "iI"), "mM"), "eE"), " ")
  }

  function TimeRule(t: string, r: Outcome): (o: Outcome)
    ensures Follows(t, r, o) && (o.Match? ==> r.pos < o.pos)
    ensures o.Match? ==> Sees(t, r, "tT")
  {
    var s := TimeWord(t, r);
    Mark(Time, Pos(r), Mark(PegText, Pos(s), Zone(t, Clock(t, Calendar(t, s)))))
  }

  function DateWord(t: string, r: Outcome): (o: Outcome)
    ensures Follows(t, r, o) && (o.Match? ==> r.pos < o.pos)
    ensures o.Match? ==> Sees(t, r, "dD")
  {
    Chr(t, Chr(t, Chr(t, Chr(t, Chr(t, r, "dD"), "aA"), "tT"), "eE"), " ")
  }

  function DateRule(t: string, r: Outcome): (o: Outcome)
    ensures Follows(t, r, o) && (o.Match? ==> r.pos < o.pos)
    ensures o.Match? ==> Sees(t, r, "dD")
  {
    var s := DateWord(t, r);
    Mark(Date, Pos(r), Mark(PegText, Pos(s), Calendar(t, s)))
  }

  function Scalar(t: string, r: Outcome): (o: Outcome)
    ensures Follows(t, r, o) && (o.Match? ==> r.pos < o.pos)
    ensures o.Match? ==> SeesDigit(t, r) || Sees(t, r, "tT") || Sees(t, r, "dD")
  {
    Or(NumberRule(t, r), Or(TimeRule(t, r), DateRule(t, r)))
  }

  // ---- Conditions ----------------------------------------------------------------------------

  /** Characters no tag may contain. */
  const RESERVED := " \t\n\r\\()\"'=><"

  function TagEnd(t: string, p: nat): (q: nat)
    ensures p <= q && (p <= |t| ==> q <= |t|)
    decreases |t| - p
  {
    if p < |t| && t[p] !in RESERVED then TagEnd(t, p + 1) else p
  }

  function TagRule(t: string, r: Outcome): (o: Outcome)
    ensures Follows(t, r, o) && (o.Match? ==> r.pos < o.pos)
  {
    if r.Fail? || TagEnd(t, r.pos) == r.pos then Fail
    else Mark(Tag, r.pos, Mark(PegText, r.pos, Match(TagEnd(t, r.pos), r.tokens)))
  }

  function LeAlt(t: string, r: Outcome): (o: Outcome)
    ensures Follows(t, r, o) && (o.Match? ==> r.pos < o.pos)
    ensures o.Match? ==> Sees(t, r, "<")
  {
    Scalar(t, Blank(t, Mark(Le, Pos(r), Chr(t, Chr(t, r, "<"), "="))))
  }

  function GeAlt(t: string, r: Outcome): (o: Outcome)
    ensures Follows(t, r, o) && (o.Match? ==> r.pos < o.pos)
    ensures o.Match? ==> Sees(t, r, ">")
  {
    Scalar(t, Blank(t, Mark(Ge, Pos(r), Chr(t, Chr(t, r, ">"), "="))))
  }

  function LAlt(t: string, r: Outcome): (o: Outcome)
    ensures Follows(t, r, o) && (o.Match? ==> r.pos < o.pos)
    ensures o.Match? ==> Sees(t, r, "<")
  {
    Scalar(t, Blank(t, Mark(L, Pos(r), Chr(t, r, "<"))))
  }

  function GAlt(t: string, r: Outcome): (o: Outcome)
    ensures Follows(t, r, o) && (o.Match? ==> r.pos < o.pos)
    ensures o.Match? ==> Sees(t, r, ">")
  {
    Scalar(t, Blank(t, Mark(G, Pos(r), Chr(t, r, ">"))))
  }

  function EqualAlt(t: string, r: Outcome): (o: Outcome)
    ensures Follows(t, r, o) && (o.Match? ==> r.pos < o.pos)
    ensures o.Match? ==> Sees(t, r, "=")
  {
    var s := Blank(t, Mark(Equal, Pos(r), Chr(t, r, "=")));
    Or(Scalar(t, s), ValueRule(t, s))
  }

  function ContainsWord(t: string, r: Outcome): (o: Outcome)
    ensures Follows(t, r, o) && (o.Match? ==> r.pos < o.pos)
    ensures o.Match? ==> Sees(t, r, "cC")
  {
    var s := Chr(t, Chr(t, Chr(t, Chr(t, r, "cC"), "oO"), "nN"), "tT");
    Chr(t, Chr(t, Chr(t, Chr(t, s, "aA"), "iI"), "nN"), "sS")
  }

  function ContainsAlt(t: string, r: Outcome): (o: Outcome)
    ensures Follows(t, r, o) && (o.Match? ==> r.pos < o.pos)
    ensures o.Match? ==> Sees(t, r, "cC")
  {
    ValueRule(t, Blank(t, Mark(Contains, Pos(r), ContainsWord(t, r))))
  }

  function Plain(t: string, r: Outcome): (o: Outcome)
    ensures Follows(t, r, o) && (o.Match? ==> r.pos < o.pos)
  {
    Or(LAlt(t, r), Or(GAlt(t, r), Or(EqualAlt(t, r), ContainsAlt(t, r))))
  }

  function Comparison(t: string, r: Outcome): (o: Outcome)
    ensures Follows(t, r, o) && (o.Match? ==> r.pos < o.pos)
  {
    Or(LeAlt(t, r), Or(GeAlt(t, r), Plain(t, r)))
  }

  function ConditionRule(t: string, r: Outcome): (o: Outcome)
    ensures Follows(t, r, o) && (o.Match? ==> r.pos < o.pos)
  {
    Mark(Condition, Pos(r), Comparison(t, Blank(t, TagRule(t, r))))
  }

  // ---- Queries -------------------------------------------------------------------------------

  function AndRule(t: string, r: Outcome): (o: Outcome)
    ensures Follows(t, r, o)
  {
    Mark(And, Pos(r), Chr(t, Chr(t, Chr(t, r, "aA"), "nN"), "dD"))
  }

  function More(t: string, r: Outcome): (o: Outcome)
    ensures Follows(t, r, o) && (o.Match? ==> r.pos < o.pos)
  {
    ConditionRule(t, Gap(t, AndRule(t, Gap(t, r))))
  }

  function Rest(t: string, r: Outcome): (o: Outcome)
    requires Pos(r) <= |t|
    ensures Follows(t, r, o) && (r.Match? ==> o.Match?)
    decreases |t| - Pos(r)
  {
    var o := More(t, r);
    if o.Match? then Rest(t, o) else r
  }

  function Opening(t: string): (o: Outcome)
    ensures Pos(o) <= |t|
  {
    ConditionRule(t, Chr(t, Match(0, []), "\""))
  }

  /** The whole text, closing quote and all. */
  function Parse(t: string): Outcome {
    var r := Chr(t, Rest(t, Opening(t)), "\"");
    if r.Match? && r.pos == |t| then Mark(E, 0, r) else Fail
  }

  // ---- The first character decides ---------------------------------------------------------

  /** A choice among the scalars can be made by looking at one character. */
  lemma {:induction false} ScalarByFirst(t: string, r: Outcome)
    ensures Scalar(t, r) == if Sees(t, r, "dD") then DateRule(t, r)
                            else if Sees(t, r, "tT") then TimeRule(t, r)
                            else NumberRule(t, r)
  {
    hide NumberRule, TimeRule, DateRule;
  }

  lemma {:induction false} ScalarOrValueByFirst(t: string, r: Outcome)
    ensures Or(Scalar(t, r), ValueRule(t, r)) == if Sees(t, r, "'") then ValueRule(t, r) else Scalar(t, r)
  {
    hide Scalar, ValueRule;
  }

  lemma {:induction false} PlainByFirst(t: string, r: Outcome)
    ensures Plain(t, r) == if Sees(t, r, "=") then EqualAlt(t, r)
                           else if Sees(t, r, ">") then GAlt(t, r)
                           else if Sees(t, r, "<") then LAlt(t, r)
                           else ContainsAlt(t, r)
  {
    hide EqualAlt, GAlt, LAlt, ContainsAlt;
  }
}
