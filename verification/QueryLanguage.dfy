/** The parser accepts exactly the texts that look like a query, and lists what they say. */
module QueryLanguage {
  import opened Options
  import opened Utf8
  import opened QueryGrammar
  import opened QueryReader
  import opened QueryLocality
  import opened QueryShapes
  import opened QueryJoin
  import opened QueryPrinting
  import opened QueryTexts

  // ---- Runs ----------------------------------------------------------------------------------

  lemma {:induction false} BlankSpan(t: string, r: Outcome)
    requires r.Match? && r.pos <= |t|
    ensures var e := Blank(t, r).pos;
            Blank(t, r).tokens == r.tokens && BlanksIn(t, r.pos, e) && (e < |t| ==> t[e] != ' ')
    decreases |t| - r.pos
  {
    if Sees(t, r, " ") {
      BlankSpan(t, Advance(r));
    }
  }

  lemma {:induction false} BlankRun(t: string, r: Outcome, e: nat)
    requires r.Match? && BlanksIn(t, r.pos, e) && e < |t| && t[e] != ' '
    ensures Blank(t, r) == Match(e, r.tokens)
  {
    hide Blank;
    BlankSpan(t, r);
  }

  lemma {:induction false} DigitsSpan(t: string, r: Outcome)
    requires r.Match? && r.pos <= |t|
    ensures var e := Digits(t, r).pos;
            DigitsIn(t, r.pos, e) && (e < |t| ==> !('0' <= t[e] <= '9'))
    decreases |t| - r.pos
  {
    if SeesDigit(t, r) {
      DigitsSpan(t, Dig(t, r));
    }
  }

  lemma {:induction false} TagSpan(t: string, p: nat)
    requires p <= |t|
    ensures var q := TagEnd(t, p);
            && p <= q <= |t| && (forall i :: p <= i < q ==> !EndsTag(t[i]))
            && (q < |t| ==> EndsTag(t[q]))
    decreases |t| - p
  {
    if p < |t| {
      ReservedExactly(t[p]);
      if !EndsTag(t[p]) { TagSpan(t, p + 1); }
    }
  }

  lemma {:induction false} UnquotedSpan(t: string, r: Outcome)
    requires r.Match? && r.pos <= |t|
    ensures var e := Unquoted(t, r).pos;
            && r.pos <= e <= |t| && (forall i :: r.pos <= i < e ==> t[i] != '\'' && t[i] != '"')
            && (e < |t| ==> t[e] == '\'' || t[e] == '"')
    decreases |t| - r.pos
  {
    if r.pos < |t| && !Sees(t, r, "\"'") {
      UnquotedSpan(t, Advance(r));
    }
  }

  // ---- Numbers and strings -------------------------------------------------------------------

  lemma {:induction false} NumberSpan(t: string, r: Outcome)
    requires NumberRule(t, r).Match? && r.pos <= |t|
    ensures NumberAt(t, r.pos, NumberRule(t, r).pos)
  {
    hide Digits;
    if !Sees(t, r, "0") {
      var a := Chr(t, r, "123456789");
      var b := Digits(t, a);
      DigitsSpan(t, a);
      assert DigitsIn(t, r.pos, b.pos);
      if Sees(t, b, ".") {
        DigitsSpan(t, Advance(b));
      }
    }
  }

  lemma {:induction false} NumberParses(t: string, r: Outcome, e: nat)
    requires r.Match? && NumberAt(t, r.pos, e) && e < |t| && !NumberGoesOn(t[e])
    ensures NumberRule(t, r).Match? && NumberRule(t, r).pos == e && SeesDigit(t, r)
  {
    hide Digits;
    if t[r.pos] == '0' {
      assert Sees(t, r, "0");
    } else {
      var d :| r.pos < d <= e && DigitsIn(t, r.pos, d) && (d < e ==> t[d] == '.' && DigitsIn(t, d + 1, e));
      assert t[r.pos] in "123456789" && !Sees(t, r, "0");
      var a := Chr(t, r, "123456789");
      var b := Digits(t, a);
      DigitsSpan(t, a);
      assert b.pos == d;
      if d < e {
        assert Sees(t, b, ".");
        DigitsSpan(t, Advance(b));
      } else {
        assert !Sees(t, b, ".");
      }
    }
  }

  lemma {:induction false} ValueSpan(t: string, r: Outcome)
    requires ValueRule(t, r).Match? && r.pos <= |t|
    ensures QuotedAt(t, r.pos, ValueRule(t, r).pos)
  {
    hide Unquoted;
    UnquotedSpan(t, Chr(t, r, "'"));
  }

  lemma {:induction false} ValueParses(t: string, r: Outcome, e: nat)
    requires r.Match? && QuotedAt(t, r.pos, e)
    ensures ValueRule(t, r).Match? && ValueRule(t, r).pos == e && Sees(t, r, "'")
  {
    hide Unquoted;
    assert Sees(t, r, "'");
    UnquotedSpan(t, Advance(r));
    assert Sees(t, Unquoted(t, Advance(r)), "'");
  }

  // ---- Dates and times -----------------------------------------------------------------------

  lemma {:induction false} YearExactly(t: string, r: Outcome)
    requires r.Match?
    ensures var o := YearRule(t, r); (o.Match? <==> YearAt(t, r.pos)) && (o.Match? ==> o.pos == r.pos + 4)
  {
  }

  lemma {:induction false} MonthExactly(t: string, r: Outcome)
    requires r.Match?
    ensures var o := MonthRule(t, r); (o.Match? <==> MonthAt(t, r.pos)) && (o.Match? ==> o.pos == r.pos + 2)
  {
  }

  lemma {:induction false} DayExactly(t: string, r: Outcome)
    requires r.Match?
    ensures var o := DayRule(t, r); (o.Match? <==> DayAt(t, r.pos)) && (o.Match? ==> o.pos == r.pos + 2)
  {
  }

  lemma {:induction false} CalendarExactly(t: string, r: Outcome)
    requires r.Match?
    ensures var o := Calendar(t, r); (o.Match? <==> DateAt(t, r.pos)) && (o.Match? ==> o.pos == r.pos + 10)
  {
    hide YearRule, MonthRule, DayRule, YearAt, MonthAt, DayAt;
    YearExactly(t, r);
    var y := YearRule(t, r);
    if y.Match? {
      var y1 := Chr(t, y, "-");
      if y1.Match? {
        MonthExactly(t, y1);
        var m := MonthRule(t, y1);
        if m.Match? {
          var m1 := Chr(t, m, "-");
          if m1.Match? { DayExactly(t, m1); }
        }
      }
    }
  }

  lemma {:induction false} TwoDigitsExactly(t: string, r: Outcome)
    requires r.Match?
    ensures var o := TwoDigits(t, r); (o.Match? <==> DigitsIn(t, r.pos, r.pos + 2)) && (o.Match? ==> o.pos == r.pos + 2)
  {
  }

  lemma {:induction false} PairExactly(t: string, r: Outcome, chars: string)
    requires r.Match?
    ensures var o := TwoDigits(t, Chr(t, r, chars));
            && (o.Match? <==> r.pos < |t| && t[r.pos] in chars && DigitsIn(t, r.pos + 1, r.pos + 3))
            && (o.Match? ==> o.pos == r.pos + 3)
  {
    hide TwoDigits, DigitsIn;
    if Sees(t, r, chars) { TwoDigitsExactly(t, Advance(r)); }
  }

  lemma {:induction false} ClockExactly(t: string, r: Outcome)
    requires r.Match?
    ensures var o := Clock(t, r);
            && (o.Match? <==> r.pos < |t| && t[r.pos] == 'T' && ClockAt(t, r.pos + 1))
            && (o.Match? ==> o.pos == r.pos + 9)
  {
    hide TwoDigits, Chr;
    PairExactly(t, r, "T");
    var h := TwoDigits(t, Chr(t, r, "T"));
    if h.Match? {
      PairExactly(t, h, ":");
      var m := TwoDigits(t, Chr(t, h, ":"));
      if m.Match? { PairExactly(t, m, ":"); }
    }
  }

  lemma {:induction false} ZoneExactly(t: string, r: Outcome)
    requires r.Match?
    ensures var o := Zone(t, r);
            && (o.Match? ==> ZoneAt(t, r.pos, o.pos))
            && forall e :: ZoneAt(t, r.pos, e) ==> o.Match? && o.pos == e
  {
    hide TwoDigits;
    PairExactly(t, r, "-+");
    var z := TwoDigits(t, Chr(t, r, "-+"));
    if z.Match? { PairExactly(t, z, ":"); }
  }

  /** A word of five letters, letter by letter. */
  lemma {:induction false} Letters(t: string, b: nat, word: string)
    requires |word| == 5
    ensures WordAt(t, b, word) <==>
            && b + 5 <= |t| && SameLetter(t[b], word[0]) && SameLetter(t[b + 1], word[1]) && SameLetter(t[b + 2], word[2])
            && SameLetter(t[b + 3], word[3]) && SameLetter(t[b + 4], word[4])
  {
    hide SameLetter;
    if WordAt(t, b, word) {
      assert SameLetter(t[b + 0], word[0]);
    }
  }

  lemma {:induction false} TimeWordExactly(t: string, r: Outcome)
    requires r.Match?
    ensures var o := TimeWord(t, r); (o.Match? <==> WordAt(t, r.pos, "TIME ")) && (o.Match? ==> o.pos == r.pos + 5)
  {
    hide WordAt;
    Letters(t, r.pos, "TIME ");
  }

  lemma {:induction false} DateWordExactly(t: string, r: Outcome)
    requires r.Match?
    ensures var o := DateWord(t, r); (o.Match? <==> WordAt(t, r.pos, "DATE ")) && (o.Match? ==> o.pos == r.pos + 5)
  {
    hide WordAt;
    Letters(t, r.pos, "DATE ");
  }

  lemma {:induction false} TimeExactly(t: string, r: Outcome)
    requires r.Match?
    ensures var o := TimeRule(t, r);
            && (o.Match? ==> OperandAt(t, Time, r.pos, o.pos))
            && forall e :: OperandAt(t, Time, r.pos, e) ==> o.Match? && o.pos == e
  {
    hide TimeWord, Calendar, Clock, Zone, WordAt, DateAt, ClockAt, ZoneAt;
    TimeWordExactly(t, r);
    var s := TimeWord(t, r);
    if s.Match? {
      CalendarExactly(t, s);
      var c := Calendar(t, s);
      if c.Match? {
        ClockExactly(t, c);
        if Clock(t, c).Match? { ZoneExactly(t, Clock(t, c)); }
      }
    }
  }

  lemma {:induction false} DateExactly(t: string, r: Outcome)
    requires r.Match?
    ensures var o := DateRule(t, r);
            && (o.Match? ==> OperandAt(t, Date, r.pos, o.pos))
            && forall e :: OperandAt(t, Date, r.pos, e) ==> o.Match? && o.pos == e
  {
    hide DateWord, Calendar, WordAt, DateAt;
    DateWordExactly(t, r);
    var s := DateWord(t, r);
    if s.Match? { CalendarExactly(t, s); }
  }

  // ---- Operands ------------------------------------------------------------------------------

  lemma {:induction false} ScalarSpan(t: string, s: Outcome) returns (kind: Rule)
    requires Scalar(t, s).Match? && s.pos <= |t|
    ensures kind != Value && OperandAt(t, kind, s.pos, Scalar(t, s).pos)
  {
    hide Scalar, NumberRule, TimeRule, DateRule, NumberAt, WordAt, TimeAt, DateAt;
    ScalarByFirst(t, s);
    if Sees(t, s, "dD") {
      kind := Date;
      DateExactly(t, s);
    } else if Sees(t, s, "tT") {
      kind := Time;
      TimeExactly(t, s);
    } else {
      kind := Number;
      NumberSpan(t, s);
    }
  }

  lemma {:induction false} OperandSpan(t: string, s: Outcome, op: Operator) returns (kind: Rule)
    requires OperandAfter(t, s, op).Match? && s.Match? && s.pos <= |t|
    ensures Fits(op, kind) && OperandAt(t, kind, s.pos, OperandAfter(t, s, op).pos)
  {
    hide Scalar, ValueRule, QuotedAt, NumberAt, TimeAt, DateAt, WordAt;
    ScalarOrValueByFirst(t, s);
    if op == OpContains || (op == OpEqual && Sees(t, s, "'")) {
      kind := Value;
      ValueSpan(t, s);
    } else {
      kind := ScalarSpan(t, s);
    }
  }

  /** Where the text begins that an operand at `u` is read from. */
  function TextOf(kind: Rule, u: nat): nat {
    if kind == Time || kind == Date then u + 5 else u
  }

  lemma {:induction false} ScalarFirst(t: string, kind: Rule, b: nat, e: nat)
    requires OperandAt(t, kind, b, e)
    ensures b < e <= |t| && IsOperand(kind) && t[b] != ' ' && t[b] != '='
    ensures kind == Number ==> '0' <= t[b] <= '9'
    ensures kind == Value ==> t[b] == '\''
    ensures kind == Time ==> t[b] == 'T' || t[b] == 't'
    ensures kind == Date ==> t[b] == 'D' || t[b] == 'd'
  {
    hide TimeAt, DateAt, WordAt;
    if kind == Time {
      Letters(t, b, "TIME ");
      TimeInside(t, b + 5, e);
    } else if kind == Date {
      Letters(t, b, "DATE ");
      DateInside(t, b + 5);
    }
  }

  lemma {:induction false} TimeInside(t: string, b: nat, e: nat)
    requires TimeAt(t, b, e)
    ensures b < e <= |t|
  {
  }

  lemma {:induction false} DateInside(t: string, b: nat)
    requires DateAt(t, b)
    ensures b + 10 <= |t|
  {
  }

  lemma {:induction false} ScalarParses(t: string, s: Outcome, kind: Rule, e: nat) returns (x: Piece)
    requires s.Match? && OperandAt(t, kind, s.pos, e) && kind != Value && e < |t| && !NumberGoesOn(t[e])
    ensures var o := Scalar(t, s); o.Match? && o.pos == e && o.tokens == s.tokens + x.Tokens()
    ensures FormedPiece(|t|, x) && x.kind == kind && x.begin == TextOf(kind, s.pos) && x.end == e
  {
    hide Scalar, NumberRule, TimeRule, DateRule, TimeWord, DateWord, NumberAt, WordAt, TimeAt, DateAt, AllSilent, IsNumeral;
    ScalarByFirst(t, s);
    ScalarFirst(t, kind, s.pos, e);
    if kind == Number {
      NumberParses(t, s, e);
      x := NumberShape(t, s);
    } else if kind == Time {
      TimeExactly(t, s);
      TimeWordExactly(t, s);
      x := TimeShape(t, s);
    } else {
      DateExactly(t, s);
      DateWordExactly(t, s);
      x := DateShape(t, s);
    }
  }

  lemma {:induction false} OperandParses(t: string, s: Outcome, op: Operator, kind: Rule, e: nat) returns (x: Piece)
    requires s.Match? && OperandAt(t, kind, s.pos, e) && Fits(op, kind) && e < |t| && !NumberGoesOn(t[e])
    ensures var o := OperandAfter(t, s, op); o.Match? && o.pos == e && o.tokens == s.tokens + x.Tokens()
    ensures FormedPiece(|t|, x) && x.kind == kind && x.begin == TextOf(kind, s.pos) && x.end == e
  {
    hide Scalar, ValueRule, NumberAt, QuotedAt, WordAt, TimeAt, DateAt, AllSilent, IsQuoted, IsNumeral;
    ScalarOrValueByFirst(t, s);
    ScalarFirst(t, kind, s.pos, e);
    if kind == Value {
      ValueParses(t, s, e);
      x := ValueShape(t, s);
    } else {
      x := ScalarParses(t, s, kind, e);
    }
  }

  // ---- Operators -----------------------------------------------------------------------------

  lemma {:induction false} LongLetters(t: string, b: nat, word: string)
    requires |word| == 8
    ensures WordAt(t, b, word) <==>
            && b + 8 <= |t| && SameLetter(t[b], word[0]) && SameLetter(t[b + 1], word[1]) && SameLetter(t[b + 2], word[2])
            && SameLetter(t[b + 3], word[3]) && SameLetter(t[b + 4], word[4]) && SameLetter(t[b + 5], word[5])
            && SameLetter(t[b + 6], word[6]) && SameLetter(t[b + 7], word[7])
  {
    hide SameLetter;
    if WordAt(t, b, word) {
      assert SameLetter(t[b + 0], word[0]);
    }
  }

  lemma {:induction false} ContainsExactly(t: string, r: Outcome)
    requires r.Match?
    ensures var o := ContainsWord(t, r);
            (o.Match? <==> WordAt(t, r.pos, "CONTAINS")) && (o.Match? ==> o == Match(r.pos + 8, r.tokens))
  {
    hide WordAt;
    LongLetters(t, r.pos, "CONTAINS");
  }

  /** An operator has been marked; blanks and an operand follow. */
  lemma {:induction false} MarkedSpan(t: string, s: Outcome, begin: nat, op: Operator) returns (u: nat, kind: Rule)
    requires s.Match? && s.pos <= |t| && OperandAfter(t, Blank(t, Mark(RuleOf(op), begin, s)), op).Match?
    ensures BlanksIn(t, s.pos, u) && Fits(op, kind)
    ensures OperandAt(t, kind, u, OperandAfter(t, Blank(t, Mark(RuleOf(op), begin, s)), op).pos)
  {
    hide OperandAfter, Blank, OperandAt, BlanksIn;
    var m := Mark(RuleOf(op), begin, s);
    BlankSpan(t, m);
    u := Blank(t, m).pos;
    kind := OperandSpan(t, Blank(t, m), op);
  }

  lemma {:induction false} PlainSpan(t: string, r: Outcome) returns (op: Operator, k: nat, u: nat, kind: Rule)
    requires Plain(t, r).Match? && r.pos <= |t|
    ensures OperatorIn(t, op, r.pos, k) && BlanksIn(t, k, u) && Fits(op, kind) && OperandAt(t, kind, u, Plain(t, r).pos)
  {
    hide Plain, Scalar, ValueRule, Blank, Mark, ContainsWord, OperandAt, BlanksIn, Fits, WordAt;
    PlainByFirst(t, r);
    k := r.pos + 1;
    if Sees(t, r, "=") {
      op := OpEqual;
      u, kind := MarkedSpan(t, Chr(t, r, "="), r.pos, op);
    } else if Sees(t, r, ">") {
      op := OpGreater;
      u, kind := MarkedSpan(t, Chr(t, r, ">"), r.pos, op);
    } else if Sees(t, r, "<") {
      op := OpLess;
      u, kind := MarkedSpan(t, Chr(t, r, "<"), r.pos, op);
    } else {
      op, k := OpContains, r.pos + 8;
      ContainsExactly(t, r);
      u, kind := MarkedSpan(t, ContainsWord(t, r), r.pos, op);
    }
  }

  lemma {:induction false} ComparisonSpan(t: string, r: Outcome) returns (op: Operator, k: nat, u: nat, kind: Rule)
    requires Comparison(t, r).Match? && r.pos <= |t|
    ensures OperatorIn(t, op, r.pos, k) && BlanksIn(t, k, u) && Fits(op, kind) && OperandAt(t, kind, u, Comparison(t, r).pos)
  {
    hide Plain, Scalar, Blank, Mark, OperandAt, BlanksIn, Fits;
    if LeAlt(t, r).Match? {
      op, k := OpLessEqual, r.pos + 2;
      u, kind := MarkedSpan(t, Chr(t, Chr(t, r, "<"), "="), r.pos, op);
    } else if GeAlt(t, r).Match? {
      op, k := OpGreaterEqual, r.pos + 2;
      u, kind := MarkedSpan(t, Chr(t, Chr(t, r, ">"), "="), r.pos, op);
    } else {
      op, k, u, kind := PlainSpan(t, r);
    }
  }

  /** What is behind the operator `op` at `r`, which ends at `k`, and the blanks up to `u`. */
  ghost function Behind(r: Outcome, op: Operator, k: nat, u: nat): Outcome
    requires r.Match?
  {
    Match(u, r.tokens + [Token(RuleOf(op), r.pos, k)])
  }

  ghost predicate OperatorStands(t: string, r: Outcome, op: Operator, k: nat, u: nat) {
    && r.Match? && OperatorIn(t, op, r.pos, k) && BlanksIn(t, k, u) && u < |t| && t[u] != ' ' && t[u] != '='
    && OperandAfter(t, Behind(r, op, k, u), op).Match?
  }

  lemma {:induction false} BehindBlanks(t: string, r: Outcome, op: Operator, k: nat, u: nat)
    requires OperatorStands(t, r, op, k, u)
    ensures Blank(t, Mark(RuleOf(op), r.pos, Match(k, r.tokens))) == Behind(r, op, k, u) && k < |t| && t[k] != '='
  {
    hide Blank, OperandAfter, OperatorIn;
    BlankRun(t, Mark(RuleOf(op), r.pos, Match(k, r.tokens)), u);
  }

  lemma {:induction false} LongSign(t: string, r: Outcome, op: Operator, k: nat, u: nat)
    requires OperatorStands(t, r, op, k, u) && (op == OpLessEqual || op == OpGreaterEqual)
    ensures Comparison(t, r) == OperandAfter(t, Behind(r, op, k, u), op)
  {
    hide Scalar, ValueRule, Blank, Plain, Mark, BlanksIn;
    BehindBlanks(t, r, op, k, u);
    var one, two := Match(r.pos + 1, r.tokens), Match(r.pos + 2, r.tokens);
    assert Sees(t, one, "=") && Chr(t, one, "=") == two;
    if op == OpLessEqual {
      assert Chr(t, r, "<") == one;
    } else {
      assert Chr(t, r, ">") == one && !Sees(t, r, "<");
    }
  }

  lemma {:induction false} ShortSign(t: string, r: Outcome, op: Operator, k: nat, u: nat)
    requires OperatorStands(t, r, op, k, u) && (op == OpLess || op == OpGreater || op == OpEqual)
    ensures Comparison(t, r) == OperandAfter(t, Behind(r, op, k, u), op)
  {
    hide Scalar, ValueRule, Blank, Plain, Mark, BlanksIn;
    BehindBlanks(t, r, op, k, u);
    PlainByFirst(t, r);
    var one := Match(r.pos + 1, r.tokens);
    assert !Sees(t, one, "=");
    if op == OpLess {
      assert Chr(t, r, "<") == one && !Sees(t, r, ">") && !Sees(t, r, "=");
    } else if op == OpGreater {
      assert Chr(t, r, ">") == one && !Sees(t, r, "<") && !Sees(t, r, "=");
    } else {
      assert Chr(t, r, "=") == one && !Sees(t, r, "<") && !Sees(t, r, ">");
    }
  }

  lemma {:induction false} WordSign(t: string, r: Outcome, k: nat, u: nat)
    requires OperatorStands(t, r, OpContains, k, u)
    ensures Comparison(t, r) == OperandAfter(t, Behind(r, OpContains, k, u), OpContains)
  {
    hide Scalar, ValueRule, Blank, Plain, Mark, BlanksIn, ContainsWord, WordAt;
    BehindBlanks(t, r, OpContains, k, u);
    PlainByFirst(t, r);
    ContainsExactly(t, r);
    LongLetters(t, r.pos, "CONTAINS");
    assert !Sees(t, r, "<") && !Sees(t, r, ">") && !Sees(t, r, "=");
  }

  /** The parser looks for an operand behind the operator and the blanks. */
  lemma {:induction false} OperatorParses(t: string, r: Outcome, op: Operator, k: nat, u: nat)
    requires OperatorStands(t, r, op, k, u)
    ensures Comparison(t, r) == OperandAfter(t, Behind(r, op, k, u), op)
  {
    hide OperatorStands, OperandAfter, Comparison, Behind;
    match op {
      case OpLessEqual => LongSign(t, r, op, k, u);
      case OpGreaterEqual => LongSign(t, r, op, k, u);
      case OpContains => WordSign(t, r, k, u);
      case _ => ShortSign(t, r, op, k, u);
    }
  }

  // ---- One condition -------------------------------------------------------------------------

  lemma {:induction false} OperatorFirst(t: string, op: Operator, b: nat, e: nat)
    requires OperatorIn(t, op, b, e)
    ensures b < e <= |t| && t[b] != ' ' && (op != OpContains <==> EndsTag(t[b]))
  {
    hide WordAt;
    if op == OpContains {
      LongLetters(t, b, "CONTAINS");
    }
  }

  lemma {:induction false} ConditionSpan(t: string, r: Outcome) returns (c: Clause)
    requires ConditionRule(t, r).Match? && r.pos <= |t|
    ensures ClauseAt(t, c) && c.begin == r.pos && c.end == ConditionRule(t, r).pos
  {
    hide Comparison, Blank, TagEnd, EndsTag, OperatorIn, OperandAt, Fits;
    var tag := TagRule(t, r);
    TagSpan(t, r.pos);
    BlankSpan(t, tag);
    var q := Blank(t, tag).pos;
    var op, k, u, kind := ComparisonSpan(t, Blank(t, tag));
    c := Clause(r.pos, tag.pos, q, k, u, Comparison(t, Blank(t, tag)).pos, op, kind);
    OperatorFirst(t, op, q, k);
    ScalarFirst(t, kind, u, c.end);
  }

  /** The tokens of a condition say where its parts stand. */
  ghost predicate Records(t: string, c: Clause, x: Chunk) {
    && FormedChunk(|t|, x) && x.tagBegin == c.begin && x.tagEnd == c.tagEnd && x.op.rule == RuleOf(c.op)
    && x.piece.kind == c.kind && x.piece.begin == TextOf(c.kind, c.operand) && x.piece.end == c.end
  }

  lemma {:induction false} TagParses(t: string, c: Clause, r: Outcome)
    requires ClauseAt(t, c) && r.Match? && r.pos == c.begin
    ensures Blank(t, TagRule(t, r)) ==
            Match(c.opBegin, r.tokens + [Token(PegText, c.begin, c.tagEnd), Token(Tag, c.begin, c.tagEnd)])
  {
    hide Blank, TagEnd, EndsTag, OperatorIn, OperandAt;
    OperatorFirst(t, c.op, c.opBegin, c.opEnd);
    TagSpan(t, c.begin);
    assert EndsTag(t[c.tagEnd]) by {
      if c.tagEnd < c.opBegin { assert EndsTag(' ') by { ReservedExactly(' '); } }
    }
    assert TagEnd(t, c.begin) == c.tagEnd;
    BlankRun(t, TagRule(t, r), c.opBegin);
    assert TagRule(t, r).tokens == r.tokens + [Token(PegText, c.begin, c.tagEnd), Token(Tag, c.begin, c.tagEnd)];
  }

  lemma {:induction false} ConditionParses(t: string, c: Clause, r: Outcome) returns (x: Chunk)
    requires ClauseAt(t, c) && r.Match? && r.pos == c.begin && c.end < |t| && !NumberGoesOn(t[c.end])
    ensures var o := ConditionRule(t, r); o.Match? && o.pos == c.end && o.tokens == r.tokens + x.Tokens()
    ensures Records(t, c, x)
  {
    hide Blank, TagRule, Comparison, OperandAfter, FormedPiece, EndsTag, OperatorIn, OperandAt, BlanksIn;
    TagParses(t, c, r);
    var q := Match(c.opBegin, r.tokens + [Token(PegText, c.begin, c.tagEnd), Token(Tag, c.begin, c.tagEnd)]);
    ScalarFirst(t, c.kind, c.operand, c.end);
    var piece := OperandParses(t, Behind(q, c.op, c.opEnd, c.operand), c.op, c.kind, c.end);
    OperatorParses(t, q, c.op, c.opEnd, c.operand);
    x := Chunk(c.begin, c.tagEnd, Token(RuleOf(c.op), c.opBegin, c.opEnd), piece, c.end);
    ChunkAppended(r.tokens, x);
  }

  // ---- Joined by AND -------------------------------------------------------------------------

  lemma {:induction false} GapRun(t: string, r: Outcome, e: nat)
    requires r.Match? && r.pos < e && BlanksIn(t, r.pos, e) && e < |t| && t[e] != ' '
    ensures Gap(t, r) == Match(e, r.tokens)
  {
    hide Blank;
    assert Sees(t, r, " ");
    BlankRun(t, Advance(r), e);
  }

  lemma {:induction false} GapSpan(t: string, r: Outcome)
    requires Gap(t, r).Match? && r.pos <= |t|
    ensures r.pos < Gap(t, r).pos && BlanksIn(t, r.pos, Gap(t, r).pos)
  {
    hide Blank;
    BlankSpan(t, Chr(t, r, " "));
  }

  lemma {:induction false} AndExactly(t: string, r: Outcome)
    requires r.Match?
    ensures var o := AndRule(t, r);
            && (o.Match? <==> WordAt(t, r.pos, "AND"))
            && (o.Match? ==> o == Match(r.pos + 3, r.tokens + [Token(And, r.pos, r.pos + 3)]) && t[r.pos] != ' ')
  {
    ShortLetters(t, r.pos, "AND");
    hide WordAt;
  }

  lemma {:induction false} ShortLetters(t: string, b: nat, word: string)
    requires |word| == 3
    ensures WordAt(t, b, word) <==>
            b + 3 <= |t| && SameLetter(t[b], word[0]) && SameLetter(t[b + 1], word[1]) && SameLetter(t[b + 2], word[2])
  {
    hide SameLetter;
    if WordAt(t, b, word) {
      assert SameLetter(t[b + 0], word[0]);
    }
  }

  lemma {:induction false} MoreSpan(t: string, r: Outcome) returns (c: Clause)
    requires More(t, r).Match? && r.pos <= |t|
    ensures ClauseAt(t, c) && JoinAt(t, r.pos, c.begin) && c.end == More(t, r).pos
  {
    hide Gap, AndRule, ConditionRule, ClauseAt, BlanksIn, WordAt;
    var a := Gap(t, r);
    GapSpan(t, r);
    AndExactly(t, a);
    var b := AndRule(t, a);
    GapSpan(t, b);
    c := ConditionSpan(t, Gap(t, b));
    assert BlanksIn(t, r.pos, a.pos);
  }

  /** Behind the AND, up to the next condition. */
  lemma {:induction false} AndParses(t: string, r: Outcome, b: nat) returns (mark: Token)
    requires r.Match? && JoinAt(t, r.pos, b) && b < |t| && t[b] != ' '
    ensures Gap(t, AndRule(t, Gap(t, r))) == Match(b, r.tokens + [mark]) && mark.rule == And && t[r.pos] == ' '
  {
    var g :| r.pos < g && g + 3 < b && BlanksIn(t, r.pos, g) && WordAt(t, g, "AND") && BlanksIn(t, g + 3, b);
    hide Gap, AndRule, WordAt;
    mark := Token(And, g, g + 3);
    AndExactly(t, Match(g, r.tokens));
    GapRun(t, r, g);
    GapRun(t, AndRule(t, Match(g, r.tokens)), b);
  }

  // ---- Reading -------------------------------------------------------------------------------

  lemma {:induction false} NumberMeans(lib: Library, t: string, b: nat, e: nat)
    requires NumberAt(t, b, e)
    ensures var x := t[b..e];
            ReadNumber(lib, x) ==
            if PointIn(t, b, e) then (if lib.floats(x) then Some(Float(x)) else None)
            else if AllDigits(x) && DecimalValue(x) < 0x8000_0000_0000_0000 then Some(Int(DecimalValue(x))) else None
  {
    hide DecimalValue;
    var x := t[b..e];
    assert x[0] == t[b] && IsDigit(x[0]);
    assert '.' in x <==> PointIn(t, b, e) by {
      if PointIn(t, b, e) {
        var i :| b <= i < e && t[i] == '.';
        assert x[i - b] == '.';
      }
    }
  }

  lemma {:induction false} ClauseMeans(lib: Library, t: string, c: Clause, x: Chunk)
    requires ClauseAt(t, c) && Records(t, c, x)
    ensures ChunkCond(lib, t, x) == CondOf(lib, t, c)
  {
    hide ReadNumber, DecimalValue, PointIn, NumberAt, WordAt, TimeAt, DateAt, OperatorIn, EndsTag, AllSilent;
    if c.kind == Number {
      NumberMeans(lib, t, c.operand, c.end);
    } else if c.kind == Value {
      InnerSlice(t, c.operand, c.end);
    }
  }

  /** Reading `tokens` lists the conditions `cs`, up to the first that is turned down. */
  ghost predicate Lists(lib: Library, t: string, tokens: seq<Token>, cs: seq<Clause>)
    requires forall i :: 0 <= i < |cs| ==> ClauseAt(t, cs[i])
  {
    var st := ReadTokens(lib, t, tokens);
    st.bad == !AllGood(lib, t, cs) && st.out == Listed(lib, t, cs)
  }

  lemma {:induction false} ListsOneMore(lib: Library, t: string, tokens: seq<Token>, cs: seq<Clause>, c: Clause, x: Chunk)
    requires (forall i :: 0 <= i < |cs| ==> ClauseAt(t, cs[i])) && Lists(lib, t, tokens, cs)
    requires ClauseAt(t, c) && Records(t, c, x)
    ensures forall i :: 0 <= i < |cs + [c]| ==> ClauseAt(t, (cs + [c])[i])
    ensures Lists(lib, t, tokens + x.Tokens(), cs + [c])
  {
    hide ReadTokens, ChunkCond, CondOf, ClauseAt, FormedChunk;
    var all := cs + [c];
    assert all[..|cs|] == cs && all[|cs|] == c;
    ReadChunk(lib, t, tokens, x);
    ClauseMeans(lib, t, c, x);
    assert AllGood(lib, t, all) <==> AllGood(lib, t, cs) && CondOf(lib, t, c).Some? by {
      assert forall i :: 0 <= i < |cs| ==> all[i] == cs[i];
    }
  }

  // ---- Whole queries -------------------------------------------------------------------------

  lemma {:induction false} BehindClause(t: string, cs: seq<Clause>, i: nat)
    requires QueryAt(t, cs) && i < |cs|
    ensures cs[i].end < |t| && !NumberGoesOn(t[cs[i].end])
    ensures i + 1 == |cs| ==> t[cs[i].end] == '"'
  {
    hide ClauseAt, WordAt;
    if i + 1 < |cs| {
      assert JoinAt(t, cs[i + 1 - 1].end, cs[i + 1].begin);
    }
  }

  lemma {:induction false} ClauseSolid(t: string, c: Clause)
    requires ClauseAt(t, c)
    ensures c.begin < |t| && t[c.begin] != ' '
  {
  }

  /** From the end of one condition on, the parser goes through all the others. */
  lemma {:induction false} ChainParses(lib: Library, t: string, cs: seq<Clause>, i: nat, r: Outcome)
    requires QueryAt(t, cs) && i < |cs| && r.Match? && r.pos == cs[i].end && r.pos <= |t|
    requires Lists(lib, t, r.tokens, cs[..i + 1])
    ensures Rest(t, r).Match? && Rest(t, r).pos == |t| - 1 && Lists(lib, t, Rest(t, r).tokens, cs)
    decreases |cs| - i
  {
    hide ClauseAt, Gap, AndRule, ConditionRule, NumberGoesOn, Lists, JoinAt, ReadTokens, Records;
    BehindClause(t, cs, i);
    if i + 1 == |cs| {
      assert cs[..i + 1] == cs;
      QuoteEnds(t, r);
    } else {
      var c := cs[i + 1];
      assert JoinAt(t, cs[i + 1 - 1].end, c.begin);
      ClauseSolid(t, c);
      var mark := AndParses(t, r, c.begin);
      BehindClause(t, cs, i + 1);
      var x := ConditionParses(t, c, Match(c.begin, r.tokens + [mark]));
      MarkedLists(lib, t, r.tokens, mark, cs[..i + 1]);
      ListsOneMore(lib, t, r.tokens + [mark], cs[..i + 1], c, x);
      assert cs[..i + 1] + [c] == cs[..i + 1 + 1];
      ChainParses(lib, t, cs, i + 1, More(t, r));
    }
  }

  lemma {:induction false} MarkedLists(lib: Library, t: string, tokens: seq<Token>, mark: Token, cs: seq<Clause>)
    requires (forall i :: 0 <= i < |cs| ==> ClauseAt(t, cs[i])) && Lists(lib, t, tokens, cs)
    requires mark.rule == And || mark.rule == E
    ensures Lists(lib, t, tokens + [mark], cs)
  {
    hide ReadTokens, ClauseAt, AllGood, Listed;
    ReadMark(lib, t, tokens, mark);
  }

  /** A text that looks like a query is parsed, and its tokens list what it says. */
  lemma {:induction false} QueryParses(lib: Library, t: string, cs: seq<Clause>)
    requires QueryAt(t, cs)
    ensures Parse(t).Match? && Lists(lib, t, Parse(t).tokens, cs)
  {
    hide ClauseAt, ConditionRule, Rest, Opening, NumberGoesOn, Lists, JoinAt, ReadTokens, Records;
    var c := cs[0];
    assert cs[..0 + 1] == [c] == [] + [c];
    OpeningIsCondition(t);
    BehindClause(t, cs, 0);
    var x := ConditionParses(t, c, Match(1, []));
    ListsNothing(lib, t);
    ListsOneMore(lib, t, [], [], c, x);
    ChainParses(lib, t, cs, 0, Opening(t));
    var o := Rest(t, Opening(t));
    assert Sees(t, o, "\"");
    MarkedLists(lib, t, o.tokens, Token(E, 0, |t|), cs);
  }

  lemma {:induction false} ListsNothing(lib: Library, t: string)
    ensures Lists(lib, t, [], [])
  {
    hide ReadTokens;
    ReadNothing(lib, t);
  }

  lemma {:induction false} RestSpan(t: string, r: Outcome, cs: seq<Clause>) returns (all: seq<Clause>)
    requires r.Match? && r.pos <= |t| && ChainAt(t, cs) && cs[|cs| - 1].end == r.pos
    ensures ChainAt(t, all) && all[0] == cs[0] && all[|all| - 1].end == Rest(t, r).pos
    decreases |t| - r.pos
  {
    hide More, ClauseAt, JoinAt;
    if More(t, r).Match? {
      var c := MoreSpan(t, r);
      all := RestSpan(t, More(t, r), cs + [c]);
    } else {
      all := cs;
    }
  }

  /** The parser accepts a text exactly when it looks like a query. */
  lemma {:induction false} ParseExactly(t: string)
    ensures Parse(t).Match? <==> exists cs :: QueryAt(t, cs)
  {
    hide ConditionRule, Rest, Opening, ClauseAt, ChainAt;
    if cs :| QueryAt(t, cs) {
      QueryParses(Library(_ => false, _ => false, _ => false), t, cs);
    }
    if Parse(t).Match? {
      QuotedBothEnds(t);
      OpeningIsCondition(t);
      var c := ConditionSpan(t, Match(1, []));
      OneLink(t, c);
      var cs := RestSpan(t, Opening(t), [c]);
      assert QueryAt(t, cs);
    }
  }

  lemma {:induction false} OneLink(t: string, c: Clause)
    requires ClauseAt(t, c)
    ensures ChainAt(t, [c])
  {
    hide ClauseAt, JoinAt;
  }

  lemma {:induction false} QuotedBothEnds(t: string)
    requires Parse(t).Match?
    ensures t != "" && t[0] == '"' && t[|t| - 1] == '"' && Opening(t).Match? && Rest(t, Opening(t)).pos == |t| - 1
  {
    hide Rest, ConditionRule;
  }

  /** An ASCII text that looks like a query lists exactly what its conditions say. */
  lemma {:induction false} ListingExactly(lib: Library, s: string, cs: seq<Clause>)
    requires Ascii(s) && QueryAt(Quote(s), cs)
    ensures Parseable(s)
    ensures Listing(lib, s).out == Listed(lib, Quote(s), cs)
    ensures Listing(lib, s).bad <==> !AllGood(lib, Quote(s), cs)
  {
    hide Parse, ReadTokens, Encode, ClauseAt, ChainAt, AllGood, Listed;
    var t := Quote(s);
    QueryParses(lib, t, cs);
    QuoteAscii(s);
    EncodeLength(t);
  }

  // ---- Names ---------------------------------------------------------------------------------

  /** Letters, digits and the signs event names are written with. */
  predicate IsName(s: string) {
    s != "" && forall i :: 0 <= i < |s| ==> NameCharacter(s[i])
  }

  predicate NameCharacter(c: char) {
    || 'a' <= c <= 'z' || 'A' <= c <= 'Z' || '0' <= c <= '9'
    || c == '.' || c == '_' || c == '-' || c == '/' || c == ':'
  }

  lemma {:induction false} NameIsTag(name: string, t: string)
    requires IsName(name) && 1 + |name| <= |t| && t[1..1 + |name|] == name
    ensures TagIn(t, 1, 1 + |name|) && Ascii(name)
  {
    var n := 1 + |name|;
    forall i | 1 <= i < n ensures !EndsTag(t[i]) {
      assert t[i] == name[i - 1] && NameCharacter(name[i - 1]);
    }
    forall i | 0 <= i < |name| ensures name[i] as int < 128 {
      assert NameCharacter(name[i]);
    }
  }

  /** Any name, followed by an operator and an operand that fits, is a query about the tag of that name. */
  lemma {:induction false} NameLists(lib: Library, name: string, tail: string, c: Clause)
    requires IsName(name) && Ascii(tail) && ComparisonAt(Quote(name + tail), c)
    requires c.begin == 1 && c.tagEnd == 1 + |name| && c.end == 1 + |name + tail|
    ensures Parseable(name + tail) && ClauseAt(Quote(name + tail), c)
    ensures var r, x := Listing(lib, name + tail), OperandOf(lib, Quote(name + tail), c);
            if x.None? then r.bad && r.out == [] else !r.bad && r.out == [Cond(name, c.op, x.value)]
  {
    hide ComparisonAt, Parseable, Listing, OperandOf, TagIn;
    var t := Quote(name + tail);
    assert t[1..1 + |name|] == name;
    NameIsTag(name, t);
    OneLink(t, c);
    assert Ascii(name + tail);
    ListingExactly(lib, name + tail, [c]);
    assert [c][..0] == [];
    assert AllGood(lib, t, [c]) <==> CondOf(lib, t, [c][0]).Some?;
  }
}
