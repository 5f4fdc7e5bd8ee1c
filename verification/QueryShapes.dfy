/** The tokens one condition leaves behind, and what reading them yields. */
module QueryShapes {
  import opened Options
  import opened QueryGrammar
  import opened QueryReader
  import opened QueryLocality

  // ---- Tokens the reader passes over --------------------------------------------------------

  predicate Silent(rule: Rule) {
    rule == Digit || rule == Year || rule == Month || rule == Day
  }

  ghost predicate AllSilent(tokens: seq<Token>) {
    forall i :: 0 <= i < |tokens| ==> Silent(tokens[i].rule)
  }

  /** From `r` to `o` only silent tokens were added. */
  ghost predicate Quiet(r: Outcome, o: Outcome) {
    o.Match? ==> r.Match? && r.tokens <= o.tokens && AllSilent(o.tokens[|r.tokens|..])
  }

  lemma {:induction false} QuietThen(a: Outcome, b: Outcome, c: Outcome)
    requires Quiet(a, b) && Quiet(b, c)
    ensures Quiet(a, c)
  {
    if c.Match? {
      assert c.tokens[|a.tokens|..] == b.tokens[|a.tokens|..] + c.tokens[|b.tokens|..];
    }
  }

  lemma {:induction false} QuietMark(a: Outcome, b: Outcome, rule: Rule, begin: nat)
    requires Quiet(a, b) && Silent(rule)
    ensures Quiet(a, Mark(rule, begin, b))
  {
    if b.Match? {
      var o := Mark(rule, begin, b);
      assert o.tokens[|a.tokens|..] == b.tokens[|a.tokens|..] + [Token(rule, begin, b.pos)];
    }
  }

  lemma {:induction false} QuietChr(t: string, r: Outcome, chars: string)
    ensures Quiet(r, Chr(t, r, chars))
  {
  }

  lemma {:induction false} QuietDig(t: string, r: Outcome)
    ensures Quiet(r, Dig(t, r))
  {
    if Dig(t, r).Match? {
      assert Dig(t, r).tokens[|r.tokens|..] == [Token(Digit, r.pos, r.pos + 1)];
    }
  }

  lemma {:induction false} QuietTwoDigits(t: string, r: Outcome)
    ensures Quiet(r, TwoDigits(t, r))
  {
    hide Quiet, Dig;
    QuietDig(t, r);
    QuietDig(t, Dig(t, r));
    QuietThen(r, Dig(t, r), TwoDigits(t, r));
  }

  lemma {:induction false} QuietDigits(t: string, r: Outcome)
    ensures Quiet(r, Digits(t, r))
    decreases |t| - Pos(r)
  {
    if SeesDigit(t, r) {
      QuietDig(t, r);
      QuietDigits(t, Dig(t, r));
      QuietThen(r, Dig(t, r), Digits(t, r));
    }
  }

  lemma {:induction false} QuietNumeral(t: string, r: Outcome)
    ensures Quiet(r, Numeral(t, r))
  {
    hide Quiet, Digits, Chr;
    var a := Chr(t, r, "123456789");
    var b := Digits(t, a);
    QuietChr(t, r, "0");
    QuietChr(t, r, "123456789");
    QuietDigits(t, a);
    QuietThen(r, a, b);
    QuietChr(t, b, ".");
    QuietDigits(t, Chr(t, b, "."));
    QuietThen(b, Chr(t, b, "."), Digits(t, Chr(t, b, ".")));
    QuietThen(r, b, Digits(t, Chr(t, b, ".")));
  }

  lemma {:induction false} QuietCalendar(t: string, r: Outcome)
    ensures Quiet(r, Calendar(t, r))
  {
    hide Quiet, Chr, YearRule, MonthRule, DayRule;
    var y := YearRule(t, r);
    var y1 := Chr(t, y, "-");
    var m := MonthRule(t, y1);
    var m1 := Chr(t, m, "-");
    QuietYear(t, r);
    QuietChr(t, y, "-");
    QuietThen(r, y, y1);
    QuietMonth(t, y1);
    QuietThen(r, y1, m);
    QuietChr(t, m, "-");
    QuietThen(r, m, m1);
    QuietDay(t, m1);
    QuietThen(r, m1, DayRule(t, m1));
  }

  lemma {:induction false} QuietYear(t: string, r: Outcome)
    ensures Quiet(r, YearRule(t, r))
  {
    hide Quiet, Chr, Dig, Mark;
    var a := Chr(t, r, "12");
    QuietChr(t, r, "12");
    QuietTwoDigits(t, a);
    QuietThen(r, a, TwoDigits(t, a));
    QuietDig(t, TwoDigits(t, a));
    QuietThen(r, TwoDigits(t, a), Dig(t, TwoDigits(t, a)));
    QuietMark(r, Dig(t, TwoDigits(t, a)), Year, Pos(r));
  }

  lemma {:induction false} QuietMonth(t: string, r: Outcome)
    ensures Quiet(r, MonthRule(t, r))
  {
    hide Quiet, Chr, Dig, Mark;
    var a := Chr(t, r, "01");
    QuietChr(t, r, "01");
    QuietDig(t, a);
    QuietThen(r, a, Dig(t, a));
    QuietMark(r, Dig(t, a), Month, Pos(r));
  }

  lemma {:induction false} QuietDay(t: string, r: Outcome)
    ensures Quiet(r, DayRule(t, r))
  {
    hide Quiet, Chr, Dig, Mark;
    var a := Chr(t, r, "0123");
    QuietChr(t, r, "0123");
    QuietDig(t, a);
    QuietThen(r, a, Dig(t, a));
    QuietMark(r, Dig(t, a), Day, Pos(r));
  }

  lemma {:induction false} QuietPair(t: string, r: Outcome, chars: string)
    ensures Quiet(r, TwoDigits(t, Chr(t, r, chars)))
  {
    hide Quiet, Chr, TwoDigits;
    QuietChr(t, r, chars);
    QuietTwoDigits(t, Chr(t, r, chars));
    QuietThen(r, Chr(t, r, chars), TwoDigits(t, Chr(t, r, chars)));
  }

  lemma {:induction false} QuietClockZone(t: string, r: Outcome)
    ensures Quiet(r, Zone(t, Clock(t, r)))
  {
    hide Quiet, Chr, TwoDigits;
    var h := TwoDigits(t, Chr(t, r, "T"));
    var m := TwoDigits(t, Chr(t, h, ":"));
    var s := TwoDigits(t, Chr(t, m, ":"));
    QuietPair(t, r, "T");
    QuietPair(t, h, ":");
    QuietThen(r, h, m);
    QuietPair(t, m, ":");
    QuietThen(r, m, s);
    QuietChr(t, s, "Z");
    QuietThen(r, s, Chr(t, s, "Z"));
    var z := TwoDigits(t, Chr(t, s, "-+"));
    QuietPair(t, s, "-+");
    QuietThen(r, s, z);
    QuietPair(t, z, ":");
    QuietThen(r, z, TwoDigits(t, Chr(t, z, ":")));
  }

  // ---- Operands ------------------------------------------------------------------------------

  /** An operand's tokens: what the reader passes over, the text marked and the kind of operand. */
  datatype Piece = Piece(noise: seq<Token>, kind: Rule, begin: nat, end: nat, from: nat) {
    function Tokens(): seq<Token> {
      noise + [Token(PegText, begin, end), Token(kind, from, end)]
    }
  }

  predicate IsNumeral(s: string) {
    s != "" && forall i :: 0 <= i < |s| ==> NumberGoesOn(s[i])
  }

  predicate QuoteFree(s: string) {
    forall i :: 0 <= i < |s| ==> s[i] != '"' && s[i] != '\''
  }

  predicate IsQuoted(s: string) {
    |s| >= 2 && s[0] == '\'' && s[|s| - 1] == '\'' && QuoteFree(s[1..|s| - 1])
  }

  /** Tokens the reader can follow in a text of length `n`. */
  ghost predicate FormedPiece(n: nat, x: Piece) {
    AllSilent(x.noise) && IsOperand(x.kind) && x.begin <= x.end <= n
  }

  ghost predicate SoundPiece(t: string, x: Piece) {
    && FormedPiece(|t|, x)
    && (x.kind == Number ==> IsNumeral(t[x.begin..x.end]))
    && (x.kind == Value ==> IsQuoted(t[x.begin..x.end]))
  }

  lemma {:induction false} DigitsText(t: string, r: Outcome)
    requires r.Match? && r.pos <= |t|
    ensures var o := Digits(t, r); r.pos <= o.pos <= |t| && forall i :: r.pos <= i < o.pos ==> NumberGoesOn(t[i])
    decreases |t| - r.pos
  {
    if SeesDigit(t, r) {
      DigitsText(t, Dig(t, r));
    }
  }

  lemma {:induction false} NumeralText(t: string, r: Outcome)
    requires Numeral(t, r).Match? && r.pos <= |t|
    ensures Numeral(t, r).pos <= |t| && IsNumeral(t[r.pos..Numeral(t, r).pos])
  {
    hide Digits;
    if !Sees(t, r, "0") {
      var a := Chr(t, r, "123456789");
      var b := Digits(t, a);
      DigitsText(t, a);
      if Sees(t, b, ".") {
        DigitsText(t, Advance(b));
      }
    }
  }

  lemma {:induction false} NumberShape(t: string, r: Outcome) returns (x: Piece)
    requires NumberRule(t, r).Match? && r.pos <= |t|
    ensures NumberRule(t, r).tokens == r.tokens + x.Tokens() && SoundPiece(t, x) && x.kind == Number
    ensures x.begin == r.pos && x.end == NumberRule(t, r).pos
  {
    hide Numeral;
    var o := Numeral(t, r);
    QuietNumeral(t, r);
    NumeralText(t, r);
    x := Piece(o.tokens[|r.tokens|..], Number, r.pos, o.pos, r.pos);
  }

  lemma {:induction false} UnquotedFree(t: string, r: Outcome)
    requires r.Match? && r.pos <= |t|
    ensures var o := Unquoted(t, r);
            r.pos <= o.pos <= |t| && o.tokens == r.tokens && QuoteFree(t[r.pos..o.pos])
    decreases |t| - r.pos
  {
    if r.pos < |t| && !Sees(t, r, "\"'") {
      var q := Unquoted(t, Advance(r)).pos;
      UnquotedFree(t, Advance(r));
      assert t[r.pos] in "\"'" <==> t[r.pos] == '"' || t[r.pos] == '\'';
      assert t[r.pos..q] == [t[r.pos]] + t[r.pos + 1..q];
    }
  }

  lemma {:induction false} InnerSlice(t: string, b: nat, e: nat)
    requires b + 2 <= e <= |t|
    ensures var s := t[b..e]; s[1..|s| - 1] == t[b + 1..e - 1]
  {
    var s := t[b..e];
    var inner, direct := s[1..|s| - 1], t[b + 1..e - 1];
    assert forall i :: 0 <= i < |direct| ==> inner[i] == direct[i];
  }

  lemma {:induction false} ValueShape(t: string, r: Outcome) returns (x: Piece)
    requires ValueRule(t, r).Match? && r.pos <= |t|
    ensures ValueRule(t, r).tokens == r.tokens + x.Tokens() && SoundPiece(t, x) && x.kind == Value
    ensures x.begin == r.pos && x.end == ValueRule(t, r).pos
  {
    hide Unquoted;
    var a := Chr(t, r, "'");
    var b := Unquoted(t, a);
    UnquotedFree(t, a);
    var end := b.pos + 1;
    x := Piece([], Value, r.pos, end, r.pos);
    InnerSlice(t, r.pos, end);
    assert r.tokens + x.Tokens() == r.tokens + [Token(PegText, r.pos, end)] + [Token(Value, r.pos, end)];
  }

  lemma {:induction false} TimeWordTokens(t: string, r: Outcome)
    ensures TimeWord(t, r).Match? ==> TimeWord(t, r).tokens == r.tokens
  {
  }

  lemma {:induction false} DateWordTokens(t: string, r: Outcome)
    ensures DateWord(t, r).Match? ==> DateWord(t, r).tokens == r.tokens
  {
  }

  lemma {:induction false} TimeShape(t: string, r: Outcome) returns (x: Piece)
    requires TimeRule(t, r).Match? && r.pos <= |t|
    ensures TimeRule(t, r).tokens == r.tokens + x.Tokens() && SoundPiece(t, x) && x.kind == Time
    ensures TimeWord(t, r).Match? && x.begin == TimeWord(t, r).pos && x.end == TimeRule(t, r).pos
  {
    var s := TimeWord(t, r);
    TimeWordTokens(t, r);
    hide TimeWord, Calendar, Clock, Zone;
    var c := Calendar(t, s);
    var o := Zone(t, Clock(t, c));
    QuietCalendar(t, s);
    QuietClockZone(t, c);
    QuietThen(s, c, o);
    x := Piece(o.tokens[|r.tokens|..], Time, s.pos, o.pos, r.pos);
  }

  lemma {:induction false} DateShape(t: string, r: Outcome) returns (x: Piece)
    requires DateRule(t, r).Match? && r.pos <= |t|
    ensures DateRule(t, r).tokens == r.tokens + x.Tokens() && SoundPiece(t, x) && x.kind == Date
    ensures DateWord(t, r).Match? && x.begin == DateWord(t, r).pos && x.end == DateRule(t, r).pos
  {
    var s := DateWord(t, r);
    DateWordTokens(t, r);
    hide DateWord, Calendar;
    var o := Calendar(t, s);
    QuietCalendar(t, s);
    x := Piece(o.tokens[|r.tokens|..], Date, s.pos, o.pos, r.pos);
  }

  lemma {:induction false} ScalarShape(t: string, r: Outcome) returns (x: Piece)
    requires Scalar(t, r).Match? && r.pos <= |t|
    ensures Scalar(t, r).tokens == r.tokens + x.Tokens() && SoundPiece(t, x) && x.kind != Value
    ensures r.pos <= x.begin && x.end <= Scalar(t, r).pos
  {
    hide Scalar, NumberRule, TimeRule, DateRule;
    ScalarByFirst(t, r);
    if Sees(t, r, "dD") {
      x := DateShape(t, r);
    } else if Sees(t, r, "tT") {
      x := TimeShape(t, r);
    } else {
      x := NumberShape(t, r);
    }
  }

  // ---- Conditions ----------------------------------------------------------------------------

  /** One condition: its tag, its operator and its operand, up to `end`. */
  datatype Chunk = Chunk(tagBegin: nat, tagEnd: nat, op: Token, piece: Piece, end: nat) {
    function Tokens(): seq<Token> {
      [Token(PegText, tagBegin, tagEnd), Token(Tag, tagBegin, tagEnd), op] + piece.Tokens()
      + [Token(Condition, tagBegin, end)]
    }
  }

  /** The characters a tag ends at: white space, backslash, parentheses, quotes and the comparison signs. */
  predicate EndsTag(c: char) {
    || c == ' ' || c == '\t' || c == '\n' || c == '\r' || c == '\\' || c == '(' || c == ')'
    || c == '"' || c == '\'' || c == '=' || c == '>' || c == '<'
  }

  lemma {:induction false} ReservedExactly(c: char)
    ensures c in RESERVED <==> EndsTag(c)
  {
  }

  predicate IsTag(s: string) {
    s != "" && forall i :: 0 <= i < |s| ==> !EndsTag(s[i])
  }

  /** Strings only go with = and CONTAINS, and CONTAINS only with strings. */
  predicate Suits(op: Rule, kind: Rule) {
    (kind == Value ==> op == Equal || op == Contains) && (op == Contains ==> kind == Value)
  }

  ghost predicate FormedChunk(n: nat, x: Chunk) {
    x.tagBegin <= x.tagEnd <= n && IsOperator(x.op.rule) && FormedPiece(n, x.piece)
  }

  ghost predicate SoundChunk(t: string, x: Chunk) {
    && FormedChunk(|t|, x) && IsTag(t[x.tagBegin..x.tagEnd])
    && SoundPiece(t, x.piece) && Suits(x.op.rule, x.piece.kind)
  }

  lemma {:induction false} SoundFormed(t: string, x: Chunk, n: nat)
    requires SoundChunk(t, x) && |t| <= n
    ensures FormedChunk(n, x)
  {
  }

  lemma {:induction false} BlankTokens(t: string, r: Outcome)
    ensures r.Match? ==> Blank(t, r).tokens == r.tokens
    decreases |t| - Pos(r)
  {
    if Sees(t, r, " ") {
      BlankTokens(t, Advance(r));
    }
  }

  lemma {:induction false} TagText(t: string, p: nat)
    requires p <= |t|
    ensures p <= TagEnd(t, p) <= |t| && forall i :: p <= i < TagEnd(t, p) ==> t[i] !in RESERVED
    decreases |t| - p
  {
    if p < |t| && t[p] !in RESERVED {
      TagText(t, p + 1);
    }
  }

  /** An operator, blanks and a scalar. */
  lemma {:induction false} ScalarAfter(t: string, s: Outcome, rule: Rule, begin: nat) returns (x: Piece)
    requires s.Match? && s.pos <= |t| && Scalar(t, Blank(t, Mark(rule, begin, s))).Match?
    ensures Scalar(t, Blank(t, Mark(rule, begin, s))).tokens == s.tokens + [Token(rule, begin, s.pos)] + x.Tokens()
    ensures SoundPiece(t, x) && x.kind != Value
    ensures s.pos <= x.begin && x.end <= Scalar(t, Blank(t, Mark(rule, begin, s))).pos
  {
    hide Scalar, Blank;
    BlankTokens(t, Mark(rule, begin, s));
    x := ScalarShape(t, Blank(t, Mark(rule, begin, s)));
  }

  lemma {:induction false} ValueAfter(t: string, s: Outcome, rule: Rule, begin: nat) returns (x: Piece)
    requires s.Match? && s.pos <= |t| && ValueRule(t, Blank(t, Mark(rule, begin, s))).Match?
    ensures ValueRule(t, Blank(t, Mark(rule, begin, s))).tokens == s.tokens + [Token(rule, begin, s.pos)] + x.Tokens()
    ensures SoundPiece(t, x) && x.kind == Value
    ensures s.pos <= x.begin && x.end <= ValueRule(t, Blank(t, Mark(rule, begin, s))).pos
  {
    hide ValueRule, Blank;
    BlankTokens(t, Mark(rule, begin, s));
    x := ValueShape(t, Blank(t, Mark(rule, begin, s)));
  }

  lemma {:induction false} ContainsWordTokens(t: string, r: Outcome)
    requires ContainsWord(t, r).Match?
    ensures ContainsWord(t, r).tokens == r.tokens
  {
  }

  lemma {:induction false} PlainShape(t: string, r: Outcome) returns (op: Token, x: Piece)
    requires Plain(t, r).Match? && r.pos <= |t|
    ensures Plain(t, r).tokens == r.tokens + [op] + x.Tokens()
    ensures r.pos <= x.begin && x.end <= Plain(t, r).pos
    ensures IsOperator(op.rule) && SoundPiece(t, x) && Suits(op.rule, x.kind)
  {
    hide Plain, Scalar, ValueRule, Blank, Mark, ContainsWord, SoundPiece;
    PlainByFirst(t, r);
    if Sees(t, r, "=") {
      op := Token(Equal, r.pos, r.pos + 1);
      var s := Chr(t, r, "=");
      ScalarOrValueByFirst(t, Blank(t, Mark(Equal, r.pos, s)));
      if Sees(t, Blank(t, Mark(Equal, r.pos, s)), "'") {
        x := ValueAfter(t, s, Equal, r.pos);
      } else {
        x := ScalarAfter(t, s, Equal, r.pos);
      }
    } else if Sees(t, r, ">") {
      op := Token(G, r.pos, r.pos + 1);
      x := ScalarAfter(t, Chr(t, r, ">"), G, r.pos);
    } else if Sees(t, r, "<") {
      op := Token(L, r.pos, r.pos + 1);
      x := ScalarAfter(t, Chr(t, r, "<"), L, r.pos);
    } else {
      var s := ContainsWord(t, r);
      op := Token(Contains, r.pos, s.pos);
      ContainsWordTokens(t, r);
      x := ValueAfter(t, s, Contains, r.pos);
    }
  }

  lemma {:induction false} ComparisonShape(t: string, r: Outcome) returns (op: Token, x: Piece)
    requires Comparison(t, r).Match? && r.pos <= |t|
    ensures Comparison(t, r).tokens == r.tokens + [op] + x.Tokens()
    ensures r.pos <= x.begin && x.end <= Comparison(t, r).pos
    ensures IsOperator(op.rule) && SoundPiece(t, x) && Suits(op.rule, x.kind)
  {
    hide Plain, Scalar, Blank, Mark, SoundPiece;
    if LeAlt(t, r).Match? {
      op := Token(Le, r.pos, r.pos + 2);
      x := ScalarAfter(t, Chr(t, Chr(t, r, "<"), "="), Le, r.pos);
    } else if GeAlt(t, r).Match? {
      op := Token(Ge, r.pos, r.pos + 2);
      x := ScalarAfter(t, Chr(t, Chr(t, r, ">"), "="), Ge, r.pos);
    } else {
      op, x := PlainShape(t, r);
    }
  }

  lemma {:induction false} ConditionShape(t: string, r: Outcome) returns (x: Chunk)
    requires ConditionRule(t, r).Match? && r.pos <= |t|
    ensures ConditionRule(t, r).tokens == r.tokens + x.Tokens() && SoundChunk(t, x)
    ensures r.pos == x.tagBegin && x.tagEnd == TagEnd(t, r.pos) && x.tagEnd <= ConditionRule(t, r).pos
    ensures r.pos <= x.piece.begin && x.piece.end <= ConditionRule(t, r).pos
  {
    hide Comparison, Blank, IsNumeral, IsQuoted, AllSilent, TagEnd;
    var tag := TagRule(t, r);
    var e := TagEnd(t, r.pos);
    TagText(t, r.pos);
    BlankTokens(t, tag);
    var op, piece := ComparisonShape(t, Blank(t, tag));
    var end := Comparison(t, Blank(t, tag)).pos;
    x := Chunk(r.pos, e, op, piece, end);
    assert r.tokens + x.Tokens()
        == r.tokens + [Token(PegText, r.pos, e)] + [Token(Tag, r.pos, e)] + [op] + piece.Tokens() + [Token(Condition, r.pos, end)];
  }

  // ---- Reading a condition -------------------------------------------------------------------

  ghost function ChunkCond(lib: Library, t: string, x: Chunk): Option<Cond>
    requires FormedChunk(|t|, x)
  {
    match ReadOperand(lib, x.piece.kind, t[x.piece.begin..x.piece.end])
    case None => None
    case Some(v) => Some(Cond(t[x.tagBegin..x.tagEnd], OperatorOf(x.op.rule), v))
  }

  lemma {:induction false} FoldSilent(lib: Library, t: string, st: Reading, tokens: seq<Token>)
    requires AllSilent(tokens)
    ensures Fold(lib, t, st, tokens) == st
    decreases |tokens|
  {
    if tokens != [] {
      assert AllSilent(tokens[1..]);
      FoldSilent(lib, t, st, tokens[1..]);
    }
  }

  /** An operand after its operator: one more condition, or a panic. */
  lemma {:induction false} FoldPiece(lib: Library, t: string, st: Reading, x: Piece)
    requires FormedPiece(|t|, x) && !st.bad
    ensures var end := Fold(lib, t, st, x.Tokens());
            match ReadOperand(lib, x.kind, t[x.begin..x.end])
            case None => end.bad && end.out == st.out
            case Some(v) => !end.bad && end.out == st.out + [Cond(st.tag, st.op, v)]
  {
    hide ReadOperand;
    var last := [Token(PegText, x.begin, x.end), Token(x.kind, x.from, x.end)];
    FoldAppend(lib, t, st, x.noise, last);
    FoldSilent(lib, t, st, x.noise);
    var mid := Step(lib, t, st, last[0]);
    assert last[1..] == [last[1]] && last[1..][1..] == [];
    assert Fold(lib, t, st, last) == Fold(lib, t, mid, last[1..]) == Step(lib, t, mid, last[1]);
  }

  lemma {:induction false} FoldHead(lib: Library, t: string, st: Reading, b: nat, e: nat, op: Token)
    requires b <= e <= |t| && IsOperator(op.rule) && !st.bad
    ensures Fold(lib, t, st, [Token(PegText, b, e), Token(Tag, b, e), op])
            == Reading(b, e, t[b..e], OperatorOf(op.rule), st.out, false)
  {
    var head := [Token(PegText, b, e), Token(Tag, b, e), op];
    assert head[1..] == [head[1], op] && head[1..][1..] == [op] && [op][1..] == [];
    var one := Step(lib, t, st, head[0]);
    var two := Step(lib, t, one, head[1]);
    assert Fold(lib, t, st, head) == Fold(lib, t, one, head[1..]) == Fold(lib, t, two, [op]) == Step(lib, t, two, op);
  }

  lemma {:induction false} FoldChunk(lib: Library, t: string, st: Reading, x: Chunk)
    requires FormedChunk(|t|, x) && !st.bad
    ensures var end := Fold(lib, t, st, x.Tokens());
            match ChunkCond(lib, t, x)
            case None => end.bad && end.out == st.out
            case Some(c) => !end.bad && end.out == st.out + [c]
  {
    hide AllSilent, Step, Fold, ReadOperand;
    var head := [Token(PegText, x.tagBegin, x.tagEnd), Token(Tag, x.tagBegin, x.tagEnd), x.op];
    var last := [Token(Condition, x.tagBegin, x.end)];
    FoldAppend(lib, t, st, head + x.piece.Tokens(), last);
    FoldAppend(lib, t, st, head, x.piece.Tokens());
    FoldHead(lib, t, st, x.tagBegin, x.tagEnd, x.op);
    var mid := Fold(lib, t, st, head);
    FoldPiece(lib, t, mid, x.piece);
    FoldLast(lib, t, Fold(lib, t, mid, x.piece.Tokens()), last[0]);
  }

  lemma {:induction false} FoldLast(lib: Library, t: string, st: Reading, token: Token)
    requires token.rule == Condition || token.rule == And || token.rule == E
    ensures Fold(lib, t, st, [token]) == st
  {
    assert [token][1..] == [];
    assert Fold(lib, t, st, [token]) == Fold(lib, t, Step(lib, t, st, token), []);
  }
}
