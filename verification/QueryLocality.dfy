/** A match depends only on the text it covers: found in one text, it is found where that text is copied. */
module QueryLocality {
  import opened QueryGrammar

  function ShiftToken(token: Token, d: nat): Token {
    Token(token.rule, token.begin + d, token.end + d)
  }

  function Shift(tokens: seq<Token>, d: nat): (r: seq<Token>)
    ensures |r| == |tokens| && forall i :: 0 <= i < |r| ==> r[i] == ShiftToken(tokens[i], d)
  {
    seq(|tokens|, i requires 0 <= i < |tokens| => ShiftToken(tokens[i], d))
  }

  lemma {:induction false} ShiftAppend(a: seq<Token>, b: seq<Token>, d: nat)
    ensures Shift(a + b, d) == Shift(a, d) + Shift(b, d)
  {
  }

  lemma {:induction false} ShiftByZero(a: seq<Token>)
    ensures Shift(a, 0) == a
  {
  }

  predicate NumberGoesOn(ch: char) {
    '0' <= ch <= '9' || ch == '.'
  }

  /** Positions `lo` to `hi` of `t` appear in `u`, `d` further on and after the tokens `pre`. */
  datatype Placement = Placement(t: string, u: string, pre: seq<Token>, d: nat, lo: nat, hi: nat) {

    ghost predicate Agrees() {
      && lo <= hi <= |t| && hi + d <= |u|
      && (forall i :: lo <= i < hi ==> u[i + d] == t[i])
      && (hi + d < |u| ==> !NumberGoesOn(u[hi + d]))
    }

    function Moved(r: Outcome): (o: Outcome)
      ensures o.Match? <==> r.Match?
      ensures r.Match? ==> o.pos == r.pos + d
    {
      if r.Match? then Match(r.pos + d, pre + Shift(r.tokens, d)) else Fail
    }

    ghost predicate Covers(r: Outcome, o: Outcome) {
      Agrees() && o.Match? && r.Match? && lo <= r.pos && o.pos <= hi
    }
  }

  // ---- Steps -------------------------------------------------------------------------------

  lemma {:induction false} SeesMoved(c: Placement, r: Outcome, chars: string)
    requires c.Agrees() && r.Match? && c.lo <= r.pos < c.hi
    ensures Sees(c.u, c.Moved(r), chars) == Sees(c.t, r, chars)
    ensures SeesDigit(c.u, c.Moved(r)) == SeesDigit(c.t, r)
  {
    assert c.u[r.pos + c.d] == c.t[r.pos];
  }

  lemma {:induction false} MarkMoved(c: Placement, rule: Rule, begin: nat, r: Outcome)
    ensures Mark(rule, begin + c.d, c.Moved(r)) == c.Moved(Mark(rule, begin, r))
  {
    if r.Match? {
      ShiftAppend(r.tokens, [Token(rule, begin, r.pos)], c.d);
      assert Shift([Token(rule, begin, r.pos)], c.d) == [Token(rule, begin + c.d, r.pos + c.d)];
    }
  }

  lemma {:induction false} ChrMoved(c: Placement, r: Outcome, chars: string)
    requires c.Covers(r, Chr(c.t, r, chars))
    ensures Chr(c.u, c.Moved(r), chars) == c.Moved(Chr(c.t, r, chars))
  {
    SeesMoved(c, r, chars);
  }

  lemma {:induction false} DigMoved(c: Placement, r: Outcome)
    requires c.Covers(r, Dig(c.t, r))
    ensures Dig(c.u, c.Moved(r)) == c.Moved(Dig(c.t, r))
  {
    SeesMoved(c, r, "");
    MarkMoved(c, Digit, r.pos, Advance(r));
  }

  lemma {:induction false} BlankMoved(c: Placement, r: Outcome)
    requires c.Covers(r, Blank(c.t, r)) && Blank(c.t, r).pos < c.hi
    ensures Blank(c.u, c.Moved(r)) == c.Moved(Blank(c.t, r))
    decreases c.hi - r.pos
  {
    SeesMoved(c, r, " ");
    if Sees(c.t, r, " ") {
      BlankMoved(c, Advance(r));
    }
  }

  // ---- Operands ----------------------------------------------------------------------------

  lemma {:induction false} DigitsMoved(c: Placement, r: Outcome)
    requires c.Covers(r, Digits(c.t, r))
    ensures Digits(c.u, c.Moved(r)) == c.Moved(Digits(c.t, r))
    decreases c.hi - r.pos
  {
    if r.pos < c.hi {
      SeesMoved(c, r, "");
    }
    if SeesDigit(c.t, r) {
      DigMoved(c, r);
      DigitsMoved(c, Dig(c.t, r));
    }
  }

  lemma {:induction false} FractionMoved(c: Placement, r: Outcome)
    requires c.Covers(r, Fraction(c.t, r))
    ensures Fraction(c.u, c.Moved(r)) == c.Moved(Fraction(c.t, r))
  {
    hide Digits;
    if r.pos < c.hi {
      SeesMoved(c, r, ".");
    }
    if Sees(c.t, r, ".") {
      ChrMoved(c, r, ".");
      DigitsMoved(c, Chr(c.t, r, "."));
    } else {
      assert Chr(c.u, c.Moved(r), ".").Fail?;
    }
  }

  lemma {:induction false} NumeralMoved(c: Placement, r: Outcome)
    requires c.Covers(r, Numeral(c.t, r))
    ensures Numeral(c.u, c.Moved(r)) == c.Moved(Numeral(c.t, r))
  {
    hide Digits, Fraction;
    SeesMoved(c, r, "0");
    if Sees(c.t, r, "0") {
      ChrMoved(c, r, "0");
    } else {
      var s := Chr(c.t, r, "123456789");
      ChrMoved(c, r, "123456789");
      DigitsMoved(c, s);
      FractionMoved(c, Digits(c.t, s));
    }
  }

  lemma {:induction false} NumberMoved(c: Placement, r: Outcome)
    requires c.Covers(r, NumberRule(c.t, r))
    ensures NumberRule(c.u, c.Moved(r)) == c.Moved(NumberRule(c.t, r))
  {
    hide Numeral, Mark;
    var s := Numeral(c.t, r);
    NumeralMoved(c, r);
    MarkMoved(c, PegText, r.pos, s);
    MarkMoved(c, Number, r.pos, Mark(PegText, r.pos, s));
  }

  lemma {:induction false} UnquotedMoved(c: Placement, r: Outcome)
    requires c.Covers(r, Unquoted(c.t, r)) && Unquoted(c.t, r).pos < c.hi
    ensures Unquoted(c.u, c.Moved(r)) == c.Moved(Unquoted(c.t, r))
    decreases c.hi - r.pos
  {
    SeesMoved(c, r, "\"'");
    if !Sees(c.t, r, "\"'") {
      UnquotedMoved(c, Advance(r));
    }
  }

  lemma {:induction false} ValueMoved(c: Placement, r: Outcome)
    requires c.Covers(r, ValueRule(c.t, r))
    ensures ValueRule(c.u, c.Moved(r)) == c.Moved(ValueRule(c.t, r))
  {
    hide Chr, Unquoted, Mark;
    var s := Chr(c.t, r, "'");
    var w := Unquoted(c.t, s);
    var q := Chr(c.t, w, "'");
    ChrMoved(c, r, "'");
    UnquotedMoved(c, s);
    ChrMoved(c, w, "'");
    MarkMoved(c, PegText, r.pos, q);
    MarkMoved(c, Value, r.pos, Mark(PegText, r.pos, q));
  }

  lemma {:induction false} TwoDigitsMoved(c: Placement, r: Outcome)
    requires c.Covers(r, TwoDigits(c.t, r))
    ensures TwoDigits(c.u, c.Moved(r)) == c.Moved(TwoDigits(c.t, r))
  {
    hide Dig;
    DigMoved(c, r);
    DigMoved(c, Dig(c.t, r));
  }

  lemma {:induction false} YearMoved(c: Placement, r: Outcome)
    requires c.Covers(r, YearRule(c.t, r))
    ensures YearRule(c.u, c.Moved(r)) == c.Moved(YearRule(c.t, r))
  {
    hide Chr, Dig, Mark;
    var s := Chr(c.t, r, "12");
    ChrMoved(c, r, "12");
    DigMoved(c, s);
    DigMoved(c, Dig(c.t, s));
    DigMoved(c, Dig(c.t, Dig(c.t, s)));
    MarkMoved(c, Year, r.pos, Dig(c.t, Dig(c.t, Dig(c.t, s))));
  }

  lemma {:induction false} MonthMoved(c: Placement, r: Outcome)
    requires c.Covers(r, MonthRule(c.t, r))
    ensures MonthRule(c.u, c.Moved(r)) == c.Moved(MonthRule(c.t, r))
  {
    hide Chr, Dig, Mark;
    ChrMoved(c, r, "01");
    DigMoved(c, Chr(c.t, r, "01"));
    MarkMoved(c, Month, r.pos, Dig(c.t, Chr(c.t, r, "01")));
  }

  lemma {:induction false} DayMoved(c: Placement, r: Outcome)
    requires c.Covers(r, DayRule(c.t, r))
    ensures DayRule(c.u, c.Moved(r)) == c.Moved(DayRule(c.t, r))
  {
    hide Chr, Dig, Mark;
    ChrMoved(c, r, "0123");
    DigMoved(c, Chr(c.t, r, "0123"));
    MarkMoved(c, Day, r.pos, Dig(c.t, Chr(c.t, r, "0123")));
  }

  lemma {:induction false} CalendarMoved(c: Placement, r: Outcome)
    requires c.Covers(r, Calendar(c.t, r))
    ensures Calendar(c.u, c.Moved(r)) == c.Moved(Calendar(c.t, r))
  {
    hide Chr, YearRule, MonthRule, DayRule;
    var y := YearRule(c.t, r);
    var y1 := Chr(c.t, y, "-");
    var m := MonthRule(c.t, y1);
    var m1 := Chr(c.t, m, "-");
    YearMoved(c, r);
    ChrMoved(c, y, "-");
    MonthMoved(c, y1);
    ChrMoved(c, m, "-");
    DayMoved(c, m1);
  }

  lemma {:induction false} ClockMoved(c: Placement, r: Outcome)
    requires c.Covers(r, Clock(c.t, r))
    ensures Clock(c.u, c.Moved(r)) == c.Moved(Clock(c.t, r))
  {
    hide Chr, TwoDigits;
    var s := Chr(c.t, r, "T");
    var h := TwoDigits(c.t, s);
    var h1 := Chr(c.t, h, ":");
    var m := TwoDigits(c.t, h1);
    var m1 := Chr(c.t, m, ":");
    ChrMoved(c, r, "T");
    TwoDigitsMoved(c, s);
    ChrMoved(c, h, ":");
    TwoDigitsMoved(c, h1);
    ChrMoved(c, m, ":");
    TwoDigitsMoved(c, m1);
  }

  lemma {:induction false} OffsetMoved(c: Placement, r: Outcome)
    requires c.Covers(r, Offset(c.t, r))
    ensures Offset(c.u, c.Moved(r)) == c.Moved(Offset(c.t, r))
  {
    hide Chr, TwoDigits;
    var s := Chr(c.t, r, "-+");
    var h := TwoDigits(c.t, s);
    ChrMoved(c, r, "-+");
    TwoDigitsMoved(c, s);
    ChrMoved(c, h, ":");
    TwoDigitsMoved(c, Chr(c.t, h, ":"));
  }

  lemma {:induction false} ZoneMoved(c: Placement, r: Outcome)
    requires c.Covers(r, Zone(c.t, r))
    ensures Zone(c.u, c.Moved(r)) == c.Moved(Zone(c.t, r))
  {
    hide TwoDigits;
    if Offset(c.t, r).Match? {
      OffsetMoved(c, r);
    } else {
      ChrMoved(c, r, "Z");
      SeesMoved(c, r, "-+");
      assert !Sees(c.t, r, "-+");
    }
  }

  lemma {:induction false} TimeWordMoved(c: Placement, r: Outcome)
    requires c.Covers(r, TimeWord(c.t, r))
    ensures TimeWord(c.u, c.Moved(r)) == c.Moved(TimeWord(c.t, r))
  {
    hide Chr;
    var a := Chr(c.t, r, "tT");
    var b := Chr(c.t, a, "iI");
    var e := Chr(c.t, b, "mM");
    ChrMoved(c, r, "tT");
    ChrMoved(c, a, "iI");
    ChrMoved(c, b, "mM");
    ChrMoved(c, e, "eE");
    ChrMoved(c, Chr(c.t, e, "eE"), " ");
  }

  lemma {:induction false} TimeMoved(c: Placement, r: Outcome)
    requires c.Covers(r, TimeRule(c.t, r))
    ensures TimeRule(c.u, c.Moved(r)) == c.Moved(TimeRule(c.t, r))
  {
    hide Mark, TimeWord, Calendar, Clock, Zone;
    var s := TimeWord(c.t, r);
    var day := Calendar(c.t, s);
    var hour := Clock(c.t, day);
    var z := Zone(c.t, hour);
    TimeWordMoved(c, r);
    CalendarMoved(c, s);
    ClockMoved(c, day);
    ZoneMoved(c, hour);
    MarkMoved(c, PegText, s.pos, z);
    MarkMoved(c, Time, r.pos, Mark(PegText, s.pos, z));
  }

  lemma {:induction false} DateWordMoved(c: Placement, r: Outcome)
    requires c.Covers(r, DateWord(c.t, r))
    ensures DateWord(c.u, c.Moved(r)) == c.Moved(DateWord(c.t, r))
  {
    hide Chr;
    var a := Chr(c.t, r, "dD");
    var b := Chr(c.t, a, "aA");
    var e := Chr(c.t, b, "tT");
    ChrMoved(c, r, "dD");
    ChrMoved(c, a, "aA");
    ChrMoved(c, b, "tT");
    ChrMoved(c, e, "eE");
    ChrMoved(c, Chr(c.t, e, "eE"), " ");
  }

  lemma {:induction false} DateMoved(c: Placement, r: Outcome)
    requires c.Covers(r, DateRule(c.t, r))
    ensures DateRule(c.u, c.Moved(r)) == c.Moved(DateRule(c.t, r))
  {
    hide Mark, DateWord, Calendar;
    var s := DateWord(c.t, r);
    var day := Calendar(c.t, s);
    DateWordMoved(c, r);
    CalendarMoved(c, s);
    MarkMoved(c, PegText, s.pos, day);
    MarkMoved(c, Date, r.pos, Mark(PegText, s.pos, day));
  }

  lemma {:induction false} ScalarMoved(c: Placement, r: Outcome)
    requires c.Covers(r, Scalar(c.t, r))
    ensures Scalar(c.u, c.Moved(r)) == c.Moved(Scalar(c.t, r))
  {
    hide Scalar, NumberRule, TimeRule, DateRule;
    ScalarByFirst(c.t, r);
    ScalarByFirst(c.u, c.Moved(r));
    SeesMoved(c, r, "dD");
    SeesMoved(c, r, "tT");
    if Sees(c.t, r, "dD") {
      DateMoved(c, r);
    } else if Sees(c.t, r, "tT") {
      TimeMoved(c, r);
    } else {
      NumberMoved(c, r);
    }
  }

  // ---- Conditions --------------------------------------------------------------------------

  lemma {:induction false} TagEndMoved(c: Placement, p: nat)
    requires c.Agrees() && c.lo <= p && TagEnd(c.t, p) < c.hi
    ensures TagEnd(c.u, p + c.d) == TagEnd(c.t, p) + c.d
    decreases c.hi - p
  {
    assert c.u[p + c.d] == c.t[p];
    if c.t[p] !in RESERVED {
      TagEndMoved(c, p + 1);
    }
  }

  lemma {:induction false} TagMoved(c: Placement, r: Outcome)
    requires c.Covers(r, TagRule(c.t, r)) && TagRule(c.t, r).pos < c.hi
    ensures TagRule(c.u, c.Moved(r)) == c.Moved(TagRule(c.t, r))
  {
    hide Mark, TagEnd;
    TagEndMoved(c, r.pos);
    var s := Match(TagEnd(c.t, r.pos), r.tokens);
    MarkMoved(c, PegText, r.pos, s);
    MarkMoved(c, Tag, r.pos, Mark(PegText, r.pos, s));
  }

  /** An operator written as `first` then `second`, and what follows it. */
  lemma {:induction false} ScalarAfterMoved(c: Placement, rule: Rule, begin: nat, s: Outcome)
    requires c.Covers(s, Scalar(c.t, Blank(c.t, Mark(rule, begin, s))))
    ensures Scalar(c.u, Blank(c.u, Mark(rule, begin + c.d, c.Moved(s)))) == c.Moved(Scalar(c.t, Blank(c.t, Mark(rule, begin, s))))
  {
    hide Mark, Blank, Scalar;
    var m := Mark(rule, begin, s);
    MarkMoved(c, rule, begin, s);
    BlankMoved(c, m);
    ScalarMoved(c, Blank(c.t, m));
  }

  lemma {:induction false} LeMoved(c: Placement, r: Outcome)
    requires c.Covers(r, LeAlt(c.t, r))
    ensures LeAlt(c.u, c.Moved(r)) == c.Moved(LeAlt(c.t, r))
  {
    hide Chr, Mark, Blank, Scalar;
    ChrMoved(c, r, "<");
    ChrMoved(c, Chr(c.t, r, "<"), "=");
    ScalarAfterMoved(c, Le, r.pos, Chr(c.t, Chr(c.t, r, "<"), "="));
  }

  lemma {:induction false} GeMoved(c: Placement, r: Outcome)
    requires c.Covers(r, GeAlt(c.t, r))
    ensures GeAlt(c.u, c.Moved(r)) == c.Moved(GeAlt(c.t, r))
  {
    hide Chr, Mark, Blank, Scalar;
    ChrMoved(c, r, ">");
    ChrMoved(c, Chr(c.t, r, ">"), "=");
    ScalarAfterMoved(c, Ge, r.pos, Chr(c.t, Chr(c.t, r, ">"), "="));
  }

  lemma {:induction false} LMoved(c: Placement, r: Outcome)
    requires c.Covers(r, LAlt(c.t, r))
    ensures LAlt(c.u, c.Moved(r)) == c.Moved(LAlt(c.t, r))
  {
    hide Chr, Mark, Blank, Scalar;
    ChrMoved(c, r, "<");
    ScalarAfterMoved(c, L, r.pos, Chr(c.t, r, "<"));
  }

  lemma {:induction false} GMoved(c: Placement, r: Outcome)
    requires c.Covers(r, GAlt(c.t, r))
    ensures GAlt(c.u, c.Moved(r)) == c.Moved(GAlt(c.t, r))
  {
    hide Chr, Mark, Blank, Scalar;
    ChrMoved(c, r, ">");
    ScalarAfterMoved(c, G, r.pos, Chr(c.t, r, ">"));
  }

  lemma {:induction false} EqualMoved(c: Placement, r: Outcome)
    requires c.Covers(r, EqualAlt(c.t, r))
    ensures EqualAlt(c.u, c.Moved(r)) == c.Moved(EqualAlt(c.t, r))
  {
    hide Chr, Mark, Blank, Scalar, ValueRule;
    var s := Chr(c.t, r, "=");
    var m := Mark(Equal, r.pos, s);
    var b := Blank(c.t, m);
    ChrMoved(c, r, "=");
    MarkMoved(c, Equal, r.pos, s);
    BlankMoved(c, m);
    ScalarOrValueByFirst(c.t, b);
    ScalarOrValueByFirst(c.u, c.Moved(b));
    SeesMoved(c, b, "'");
    if Sees(c.t, b, "'") {
      ValueMoved(c, b);
    } else {
      ScalarMoved(c, b);
    }
  }

  lemma {:induction false} ContainsWordMoved(c: Placement, r: Outcome)
    requires c.Covers(r, ContainsWord(c.t, r))
    ensures ContainsWord(c.u, c.Moved(r)) == c.Moved(ContainsWord(c.t, r))
  {
    hide Chr;
    var w1 := Chr(c.t, r, "cC");
    var w2 := Chr(c.t, w1, "oO");
    var w3 := Chr(c.t, w2, "nN");
    var w4 := Chr(c.t, w3, "tT");
    var w5 := Chr(c.t, w4, "aA");
    var w6 := Chr(c.t, w5, "iI");
    var w7 := Chr(c.t, w6, "nN");
    ChrMoved(c, r, "cC");
    ChrMoved(c, w1, "oO");
    ChrMoved(c, w2, "nN");
    ChrMoved(c, w3, "tT");
    ChrMoved(c, w4, "aA");
    ChrMoved(c, w5, "iI");
    ChrMoved(c, w6, "nN");
    ChrMoved(c, w7, "sS");
  }

  lemma {:induction false} ContainsMoved(c: Placement, r: Outcome)
    requires c.Covers(r, ContainsAlt(c.t, r))
    ensures ContainsAlt(c.u, c.Moved(r)) == c.Moved(ContainsAlt(c.t, r))
  {
    hide ContainsWord, Mark, Blank, ValueRule;
    var s := ContainsWord(c.t, r);
    var m := Mark(Contains, r.pos, s);
    ContainsWordMoved(c, r);
    MarkMoved(c, Contains, r.pos, s);
    BlankMoved(c, m);
    ValueMoved(c, Blank(c.t, m));
  }

  lemma {:induction false} PlainMoved(c: Placement, r: Outcome)
    requires c.Covers(r, Plain(c.t, r))
    ensures Plain(c.u, c.Moved(r)) == c.Moved(Plain(c.t, r))
  {
    hide Plain, EqualAlt, GAlt, LAlt, ContainsAlt;
    PlainByFirst(c.t, r);
    PlainByFirst(c.u, c.Moved(r));
    SeesMoved(c, r, "=");
    SeesMoved(c, r, ">");
    SeesMoved(c, r, "<");
    if Sees(c.t, r, "=") {
      EqualMoved(c, r);
    } else if Sees(c.t, r, ">") {
      GMoved(c, r);
    } else if Sees(c.t, r, "<") {
      LMoved(c, r);
    } else {
      ContainsMoved(c, r);
    }
  }

  /** A scalar after blanks does not begin with an equals sign. */
  lemma {:induction false} ScalarNotEquals(t: string, s: Outcome, rule: Rule, begin: nat)
    requires Scalar(t, Blank(t, Mark(rule, begin, s))).Match?
    ensures !Sees(t, s, "=")
  {
    hide Scalar;
  }

  /** A match without the equals sign is not also the beginning of one with it. */
  lemma {:induction false} ShortOperator(t: string, r: Outcome)
    requires Plain(t, r).Match?
    ensures LeAlt(t, r).Fail? && GeAlt(t, r).Fail?
    ensures Sees(t, r, "<") ==> !Sees(t, Chr(t, r, "<"), "=")
    ensures Sees(t, r, ">") ==> !Sees(t, Chr(t, r, ">"), "=")
  {
    hide Plain, EqualAlt, ContainsAlt, Scalar, Blank;
    PlainByFirst(t, r);
    if Sees(t, r, "<") {
      ScalarNotEquals(t, Chr(t, r, "<"), L, r.pos);
    }
    if Sees(t, r, ">") {
      ScalarNotEquals(t, Chr(t, r, ">"), G, r.pos);
    }
  }

  lemma {:induction false} NoLeMoved(c: Placement, r: Outcome)
    requires c.Covers(r, Plain(c.t, r))
    ensures LeAlt(c.u, c.Moved(r)).Fail? && GeAlt(c.u, c.Moved(r)).Fail?
  {
    hide Plain, Scalar, Blank;
    ShortOperator(c.t, r);
    SeesMoved(c, r, "<");
    SeesMoved(c, r, ">");
    TwoLong(c.t, r);
    if Sees(c.t, r, "<") {
      SeesMoved(c, Advance(r), "=");
    } else if Sees(c.t, r, ">") {
      SeesMoved(c, Advance(r), "=");
    }
  }

  lemma {:induction false} TwoLong(t: string, r: Outcome)
    requires Plain(t, r).Match?
    ensures Plain(t, r).pos > r.pos + 1
  {
    hide EqualAlt, ContainsAlt, Scalar, Blank;
    PlainByFirst(t, r);
    assert EqualAlt(t, r).Match? ==> EqualAlt(t, r).pos > r.pos + 1 by { EqualTwoLong(t, r); }
    assert ContainsAlt(t, r).Match? ==> ContainsAlt(t, r).pos > r.pos + 1 by { ContainsTwoLong(t, r); }
  }

  lemma {:induction false} EqualTwoLong(t: string, r: Outcome)
    ensures EqualAlt(t, r).Match? ==> EqualAlt(t, r).pos > r.pos + 1
  {
    hide Scalar, Blank, ValueRule;
  }

  lemma {:induction false} ContainsTwoLong(t: string, r: Outcome)
    ensures ContainsAlt(t, r).Match? ==> ContainsAlt(t, r).pos > r.pos + 1
  {
    hide ContainsWord, Blank, ValueRule;
  }

  lemma {:induction false} ComparisonMoved(c: Placement, r: Outcome)
    requires c.Covers(r, Comparison(c.t, r))
    ensures Comparison(c.u, c.Moved(r)) == c.Moved(Comparison(c.t, r))
  {
    hide LeAlt, GeAlt, Plain;
    if LeAlt(c.t, r).Match? {
      LeMoved(c, r);
    } else if GeAlt(c.t, r).Match? {
      SeesMoved(c, r, ">");
      GeMoved(c, r);
    } else {
      NoLeMoved(c, r);
      PlainMoved(c, r);
    }
  }

  lemma {:induction false} ConditionMoved(c: Placement, r: Outcome)
    requires c.Covers(r, ConditionRule(c.t, r))
    ensures ConditionRule(c.u, c.Moved(r)) == c.Moved(ConditionRule(c.t, r))
  {
    hide TagRule, Blank, Comparison, Mark;
    var tag := TagRule(c.t, r);
    var b := Blank(c.t, tag);
    var x := Comparison(c.t, b);
    TagMoved(c, r);
    BlankMoved(c, tag);
    ComparisonMoved(c, b);
    MarkMoved(c, Condition, r.pos, x);
  }

  lemma {:induction false} GapMoved(c: Placement, r: Outcome)
    requires c.Covers(r, Gap(c.t, r)) && Gap(c.t, r).pos < c.hi
    ensures Gap(c.u, c.Moved(r)) == c.Moved(Gap(c.t, r))
  {
    hide Blank, Chr;
    ChrMoved(c, r, " ");
    BlankMoved(c, Chr(c.t, r, " "));
  }

  lemma {:induction false} AndMoved(c: Placement, r: Outcome)
    requires c.Covers(r, AndRule(c.t, r))
    ensures AndRule(c.u, c.Moved(r)) == c.Moved(AndRule(c.t, r))
  {
    hide Chr, Mark;
    var a := Chr(c.t, r, "aA");
    var b := Chr(c.t, a, "nN");
    ChrMoved(c, r, "aA");
    ChrMoved(c, a, "nN");
    ChrMoved(c, b, "dD");
    MarkMoved(c, And, r.pos, Chr(c.t, b, "dD"));
  }

  lemma {:induction false} MoreMoved(c: Placement, r: Outcome)
    requires c.Covers(r, More(c.t, r))
    ensures More(c.u, c.Moved(r)) == c.Moved(More(c.t, r))
  {
    hide Gap, AndRule, ConditionRule;
    var a := Gap(c.t, r);
    var b := AndRule(c.t, a);
    var e := Gap(c.t, b);
    GapMoved(c, r);
    AndMoved(c, a);
    GapMoved(c, b);
    ConditionMoved(c, e);
  }
}
