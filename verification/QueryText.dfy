/** What a query looks like, said of its characters and where they stand. */
module QueryTexts {
  import opened Options
  import opened QueryGrammar
  import opened QueryReader
  import opened QueryShapes

  ghost predicate DigitsIn(t: string, b: nat, e: nat) {
    b <= e <= |t| && forall i :: b <= i < e ==> '0' <= t[i] <= '9'
  }

  ghost predicate BlanksIn(t: string, b: nat, e: nat) {
    b <= e <= |t| && forall i :: b <= i < e ==> t[i] == ' '
  }

  /** `x` is the letter `c`, in either case. */
  predicate SameLetter(x: char, c: char) {
    x == c || ('A' <= c <= 'Z' && x as int == c as int + 32)
  }

  ghost predicate WordAt(t: string, b: nat, word: string) {
    b + |word| <= |t| && forall i :: 0 <= i < |word| ==> SameLetter(t[b + i], word[i])
  }

  // ---- Operands ------------------------------------------------------------------------------

  /** A zero; or digits without a leading zero, then perhaps a point and more digits. */
  ghost predicate NumberAt(t: string, b: nat, e: nat) {
    b < e <= |t| &&
    if t[b] == '0' then e == b + 1
    else exists d :: b < d <= e && DigitsIn(t, b, d) && (d < e ==> t[d] == '.' && DigitsIn(t, d + 1, e))
  }

  ghost predicate QuotedAt(t: string, b: nat, e: nat) {
    && b + 2 <= e <= |t| && t[b] == '\'' && t[e - 1] == '\''
    && forall i :: b < i < e - 1 ==> t[i] != '\'' && t[i] != '"'
  }

  ghost predicate YearAt(t: string, b: nat) {
    b + 4 <= |t| && (t[b] == '1' || t[b] == '2') && DigitsIn(t, b + 1, b + 4)
  }

  ghost predicate MonthAt(t: string, b: nat) {
    b + 2 <= |t| && (t[b] == '0' || t[b] == '1') && DigitsIn(t, b + 1, b + 2)
  }

  ghost predicate DayAt(t: string, b: nat) {
    b + 2 <= |t| && '0' <= t[b] <= '3' && DigitsIn(t, b + 1, b + 2)
  }

  /** yyyy-mm-dd */
  ghost predicate DateAt(t: string, b: nat) {
    b + 10 <= |t| && YearAt(t, b) && t[b + 4] == '-' && MonthAt(t, b + 5) && t[b + 7] == '-' && DayAt(t, b + 8)
  }

  /** hh:mm:ss */
  ghost predicate ClockAt(t: string, b: nat) {
    && b + 8 <= |t| && DigitsIn(t, b, b + 2) && t[b + 2] == ':' && DigitsIn(t, b + 3, b + 5) && t[b + 5] == ':'
    && DigitsIn(t, b + 6, b + 8)
  }

  /** Z, or an offset +hh:mm or -hh:mm. */
  ghost predicate ZoneAt(t: string, b: nat, e: nat) {
    || (e == b + 1 <= |t| && t[b] == 'Z')
    || (&& e == b + 6 <= |t| && (t[b] == '+' || t[b] == '-')
        && DigitsIn(t, b + 1, b + 3) && t[b + 3] == ':' && DigitsIn(t, b + 4, b + 6))
  }

  ghost predicate TimeAt(t: string, b: nat, e: nat) {
    DateAt(t, b) && b + 10 < |t| && t[b + 10] == 'T' && ClockAt(t, b + 11) && ZoneAt(t, b + 19, e)
  }

  ghost predicate OperandAt(t: string, kind: Rule, b: nat, e: nat) {
    match kind
    case Number => NumberAt(t, b, e)
    case Value => QuotedAt(t, b, e)
    case Time => WordAt(t, b, "TIME ") && TimeAt(t, b + 5, e)
    case Date => WordAt(t, b, "DATE ") && DateAt(t, b + 5) && e == b + 15
    case _ => false
  }

  // ---- Conditions ----------------------------------------------------------------------------

  ghost predicate OperatorIn(t: string, op: Operator, b: nat, e: nat) {
    match op
    case OpLess => e == b + 1 <= |t| && t[b] == '<'
    case OpGreater => e == b + 1 <= |t| && t[b] == '>'
    case OpEqual => e == b + 1 <= |t| && t[b] == '='
    case OpLessEqual => e == b + 2 <= |t| && t[b] == '<' && t[b + 1] == '='
    case OpGreaterEqual => e == b + 2 <= |t| && t[b] == '>' && t[b + 1] == '='
    case OpContains => e == b + 8 && WordAt(t, b, "CONTAINS")
  }

  /** Strings are compared with = or CONTAINS; numbers, times and dates with anything else but CONTAINS. */
  predicate Fits(op: Operator, kind: Rule) {
    if op == OpContains then kind == Value else kind == Value ==> op == OpEqual
  }

  /** Where the parts of one condition stand, and what its operator and operand are. */
  datatype Clause = Clause(begin: nat, tagEnd: nat, opBegin: nat, opEnd: nat, operand: nat, end: nat, op: Operator, kind: Rule)

  /** From `c.tagEnd` on: blanks, an operator, blanks and an operand that fits; before CONTAINS the blanks are needed. */
  ghost predicate ComparisonAt(t: string, c: Clause) {
    && c.tagEnd <= c.opBegin < c.opEnd <= c.operand < c.end <= |t|
    && BlanksIn(t, c.tagEnd, c.opBegin) && (c.op == OpContains ==> c.tagEnd < c.opBegin)
    && OperatorIn(t, c.op, c.opBegin, c.opEnd)
    && BlanksIn(t, c.opEnd, c.operand)
    && OperandAt(t, c.kind, c.operand, c.end) && Fits(c.op, c.kind)
  }

  ghost predicate TagIn(t: string, b: nat, e: nat) {
    b < e <= |t| && forall i :: b <= i < e ==> !EndsTag(t[i])
  }

  ghost predicate ClauseAt(t: string, c: Clause) {
    ComparisonAt(t, c) && TagIn(t, c.begin, c.tagEnd)
  }

  // ---- Queries -------------------------------------------------------------------------------

  /** From `a` to `b`: blanks, the word AND, blanks. */
  ghost predicate JoinAt(t: string, a: nat, b: nat) {
    exists g :: a < g && g + 3 < b && BlanksIn(t, a, g) && WordAt(t, g, "AND") && BlanksIn(t, g + 3, b)
  }

  ghost predicate ChainAt(t: string, cs: seq<Clause>) {
    && cs != [] && (forall i :: 0 <= i < |cs| ==> ClauseAt(t, cs[i]))
    && (forall i :: 0 < i < |cs| ==> JoinAt(t, cs[i - 1].end, cs[i].begin))
  }

  /** Conditions joined by AND, from one double quote to the other. */
  ghost predicate QueryAt(t: string, cs: seq<Clause>) {
    && ChainAt(t, cs) && cs[0].begin == 1 && cs[|cs| - 1].end == |t| - 1
    && t[0] == '"' && t[|t| - 1] == '"'
  }

  // ---- Meaning -------------------------------------------------------------------------------

  ghost predicate PointIn(t: string, b: nat, e: nat)
    requires b <= e <= |t|
  {
    exists i :: b <= i < e && t[i] == '.'
  }

  /** The operand, unless the library turns it down or it is a whole number past 63 bits. */
  ghost function OperandOf(lib: Library, t: string, c: Clause): Option<Operand>
    requires ClauseAt(t, c)
  {
    if c.kind == Value then
      Some(Str(t[c.operand + 1..c.end - 1]))
    else if c.kind == Time then
      var x := t[c.operand + 5..c.end]; if lib.times(x) then Some(Instant(x)) else None
    else if c.kind == Date then
      var x := t[c.operand + 5..c.end]; if lib.dates(x) then Some(CalendarDay(x)) else None
    else if PointIn(t, c.operand, c.end) then
      var x := t[c.operand..c.end]; if lib.floats(x) then Some(Float(x)) else None
    else
      var x := t[c.operand..c.end];
      if AllDigits(x) && DecimalValue(x) < 0x8000_0000_0000_0000 then Some(Int(DecimalValue(x))) else None
  }

  ghost function CondOf(lib: Library, t: string, c: Clause): Option<Cond>
    requires ClauseAt(t, c)
  {
    match OperandOf(lib, t, c)
    case None => None
    case Some(x) => Some(Cond(t[c.begin..c.tagEnd], c.op, x))
  }

  /** What is listed: the conditions up to the first whose operand is turned down. */
  ghost function Listed(lib: Library, t: string, cs: seq<Clause>): seq<Cond>
    requires forall i :: 0 <= i < |cs| ==> ClauseAt(t, cs[i])
  {
    var n := |cs| - 1;
    if n < 0 then []
    else if !AllGood(lib, t, cs) then Listed(lib, t, cs[..n])
    else Listed(lib, t, cs[..n]) + [CondOf(lib, t, cs[n]).value]
  }

  ghost predicate AllGood(lib: Library, t: string, cs: seq<Clause>)
    requires forall i :: 0 <= i < |cs| ==> ClauseAt(t, cs[i])
  {
    forall i :: 0 <= i < |cs| ==> CondOf(lib, t, cs[i]).Some?
  }
}
